/**
  The summary at the end of renew.py's `main`: the success and total counters over all
  accounts' entries, the lines of the Telegram report, and the value `main` returns.
  The entries themselves (what each account's run produced) are the input.
 */
module RenewReport {
  import opened Wrappers
  import opened PyStr
  import opened RenewPages

  /** One element of `all_results`: an account's email and the entries its run returned. */
  datatype AccountResult = AccountResult(email: string, results: seq<Outcome>)

  /** All entries, account after account. */
  function Entries(all: seq<AccountResult>): seq<Outcome> {
    if all == [] then [] else Entries(all[..|all| - 1]) + all[|all| - 1].results
  }

  /** How many entries report success. */
  function CountSuccesses(rs: seq<Outcome>): (n: nat)
    ensures n <= |rs|
  {
    if rs == [] then 0
    else CountSuccesses(rs[..|rs| - 1]) + (if rs[|rs| - 1].success then 1 else 0)
  }

  lemma {:induction false} CountSuccessesAppend(a: seq<Outcome>, b: seq<Outcome>)
    ensures CountSuccesses(a + b) == CountSuccesses(a) + CountSuccesses(b)
    decreases |b|
  {
    if b == [] {
      assert a + b == a;
    } else {
      var b' := b[..|b| - 1];
      assert (a + b)[..|a + b| - 1] == a + b';
      CountSuccessesAppend(a, b');
    }
  }

  /** The two counters of `main`; at most every entry is a success. */
  method Tally(all: seq<AccountResult>) returns (successCount: nat, totalVps: nat)
    ensures totalVps == |Entries(all)|
    ensures successCount == CountSuccesses(Entries(all))
    ensures successCount <= totalVps
  {
    successCount, totalVps := 0, 0;
    var i := 0;
    while i < |all|
      invariant 0 <= i <= |all|
      invariant totalVps == |Entries(all[..i])|
      invariant successCount == CountSuccesses(Entries(all[..i]))
    {
      var results := all[i].results;
      assert Entries(all[..i]) + results[..0] == Entries(all[..i]);
      var k := 0;
      while k < |results|
        invariant 0 <= k <= |results|
        invariant totalVps == |Entries(all[..i]) + results[..k]|
        invariant successCount == CountSuccesses(Entries(all[..i]) + results[..k])
      {
        var done := Entries(all[..i]) + results[..k];
        assert Entries(all[..i]) + results[..k + 1] == done + [results[k]];
        assert (done + [results[k]])[..|done + [results[k]]| - 1] == done;
        totalVps := totalVps + 1;
        if results[k].success {
          successCount := successCount + 1;
        }
        k := k + 1;
      }
      assert results[..|results|] == results;
      assert all[..i + 1][..i] == all[..i];
      i := i + 1;
    }
    assert all[..|all|] == all;
  }

  /** The value `main` returns; given the counters' bound it only asks for some entry. */
  function ExitOk(successCount: nat, totalVps: nat): (ok: bool)
    ensures successCount <= totalVps ==> (ok <==> totalVps > 0)
  {
    successCount > 0 || totalVps > 0
  }

  // ---------------------------------------------------------------- report lines

  /** Start of the line of an entry that succeeded. */
  const SuccessMark := "  ✅"

  function NameOf(r: Outcome): string {
    match r.name
    case Some(n) => n
    case None => "Unknown"
  }

  function StatusLine(r: Outcome): string {
    "  " + (if r.success then "✅" else "ℹ️") + " " + NameOf(r)
  }

  /** The status line starts with the success mark exactly when the entry succeeded. */
  lemma StatusLineMarked(r: Outcome)
    ensures StartsWith(StatusLine(r), SuccessMark) <==> r.success
  {
    var l := StatusLine(r);
    if r.success {
      assert l[..3] == SuccessMark;
    } else {
      NotStartsAt(l, SuccessMark, 2);
    }
  }

  /** The lines of one entry. */
  function EntryLines(r: Outcome): seq<string> {
    [StatusLine(r)]
    + (if Truthy(r.expiry) then ["     到期: " + r.expiry.value] else [])
    + (if r.message != "" then ["     " + r.message] else [])
  }

  /**
    An entry's block is its status line, then one line for a truthy expiry and one for a
    non-empty message, the latter last.
   */
  lemma EntryLinesShape(r: Outcome)
    ensures |EntryLines(r)| == 1 + (if Truthy(r.expiry) then 1 else 0) + (if r.message != "" then 1 else 0)
    ensures EntryLines(r)[0] == StatusLine(r)
    ensures Truthy(r.expiry) ==> EntryLines(r)[1] == "     到期: " + r.expiry.value
    ensures r.message != "" ==> EntryLines(r)[|EntryLines(r)| - 1] == "     " + r.message
  {
  }

  function EntriesLines(rs: seq<Outcome>): seq<string> {
    if rs == [] then [] else EntriesLines(rs[..|rs| - 1]) + EntryLines(rs[|rs| - 1])
  }

  /** The block of one account: its email, then its entries. */
  function AccountLines(a: AccountResult): seq<string> {
    ["📧 " + a.email] + EntriesLines(a.results)
  }

  function BodyLines(all: seq<AccountResult>): seq<string> {
    if all == [] then [] else BodyLines(all[..|all| - 1]) + AccountLines(all[|all| - 1])
  }

  const Header := ["🖥 <b>XServer VPS 续期报告</b>", ""]

  function Footer(successCount: nat, totalVps: nat, now: string): seq<string> {
    ["", "📊 结果: " + NatToDecimal(successCount) + "/" + NatToDecimal(totalVps) + " 成功", "🕒 时间: " + now]
  }

  /** The report `msg_lines`; `now` is the formatted wall-clock time. */
  function ReportLines(all: seq<AccountResult>, successCount: nat, totalVps: nat, now: string): seq<string> {
    Header + BodyLines(all) + Footer(successCount, totalVps, now)
  }

  /** The lines of the first `k` entries followed by entry `k`'s are those of the first `k + 1`. */
  lemma EntriesLinesStep(start: seq<string>, results: seq<Outcome>, k: nat, before: seq<string>, after: seq<string>)
    requires k < |results|
    requires before == start + EntriesLines(results[..k])
    requires after == before + EntryLines(results[k])
    ensures after == start + EntriesLines(results[..k + 1])
  {
    assert results[..k + 1][..k] == results[..k];
  }

  /** The inner loop of the report: the lines of each entry of one account, in order. */
  method AppendEntryLines(start: seq<string>, results: seq<Outcome>) returns (lines: seq<string>)
    ensures lines == start + EntriesLines(results)
  {
    lines := start;
    var k := 0;
    while k < |results|
      invariant 0 <= k <= |results|
      invariant lines == start + EntriesLines(results[..k])
    {
      var r := results[k];
      var before := lines;
      var expiry: seq<string> := if Truthy(r.expiry) then ["     到期: " + r.expiry.value] else [];
      var message: seq<string> := if r.message != "" then ["     " + r.message] else [];
      lines := lines + [StatusLine(r)];
      if Truthy(r.expiry) {
        lines := lines + ["     到期: " + r.expiry.value];
      }
      assert lines == before + [StatusLine(r)] + expiry;
      if r.message != "" {
        lines := lines + ["     " + r.message];
      }
      assert lines == before + [StatusLine(r)] + expiry + message;
      assert lines == before + EntryLines(r) by {
        assert EntryLines(r) == [StatusLine(r)] + expiry + message;
      }
      EntriesLinesStep(start, results, k, before, lines);
      k := k + 1;
    }
    assert results[..|results|] == results;
  }

  /** The blocks of the first `i` accounts followed by account `i`'s are those of the first `i + 1`. */
  lemma BodyLinesStep(start: seq<string>, all: seq<AccountResult>, i: nat, before: seq<string>, after: seq<string>)
    requires i < |all|
    requires before == start + BodyLines(all[..i])
    requires after == before + AccountLines(all[i])
    ensures after == start + BodyLines(all[..i + 1])
  {
    assert all[..i + 1][..i] == all[..i];
  }

  /** The outer loop of the report: each account's email, then its entries' lines. */
  method AppendAccountLines(start: seq<string>, all: seq<AccountResult>) returns (lines: seq<string>)
    ensures lines == start + BodyLines(all)
  {
    lines := start;
    var i := 0;
    while i < |all|
      invariant 0 <= i <= |all|
      invariant lines == start + BodyLines(all[..i])
    {
      var before := lines;
      var heading := ["📧 " + all[i].email];
      lines := lines + heading;
      lines := AppendEntryLines(lines, all[i].results);
      assert lines == before + AccountLines(all[i]) by {
        assert AccountLines(all[i]) == heading + EntriesLines(all[i].results);
      }
      BodyLinesStep(start, all, i, before, lines);
      i := i + 1;
    }
    assert all[..|all|] == all;
  }

  /** The loops that fill `msg_lines`, then the footer. */
  method BuildReport(all: seq<AccountResult>, successCount: nat, totalVps: nat, now: string)
    returns (lines: seq<string>)
    ensures lines == ReportLines(all, successCount, totalVps, now)
  {
    lines := AppendAccountLines(Header, all);
    var body := lines;
    lines := lines + [""];
    lines := lines + ["📊 结果: " + NatToDecimal(successCount) + "/" + NatToDecimal(totalVps) + " 成功"];
    lines := lines + ["🕒 时间: " + now];
    assert lines == body + Footer(successCount, totalVps, now);
  }

  lemma NotStartsAt(s: string, p: string, k: nat)
    requires k < |p| && k < |s| && s[k] != p[k]
    ensures !StartsWith(s, p)
  {
    if |p| <= |s| {
      assert s[..|p|][k] == s[k];
    }
  }

  lemma {:induction false} NoneStarting(lines: seq<string>, p: string)
    requires forall k :: 0 <= k < |lines| ==> !StartsWith(lines[k], p)
    ensures CountStarting(lines, p) == 0
  {
    if lines != [] {
      NoneStarting(lines[1..], p);
    }
  }

  /** An entry's block holds one success line exactly when the entry succeeded. */
  /** A detail line, indented by five spaces, never reads as a success line. */
  lemma IndentedNotSuccess(x: string)
    ensures !StartsWith("     " + x, SuccessMark)
  {
    NotStartsAt("     " + x, SuccessMark, 2);
  }

  lemma EntryLinesCount(r: Outcome)
    ensures CountStarting(EntryLines(r), SuccessMark) == (if r.success then 1 else 0)
  {
    var e := EntryLines(r);
    EntryLinesShape(r);
    StatusLineMarked(r);
    IndentedNotSuccess(r.message);
    if Truthy(r.expiry) {
      NotStartsAt(e[1], SuccessMark, 2);
    }
    CountStartingAppend([e[0]], e[1..], SuccessMark);
    assert e == [e[0]] + e[1..];
    forall k | 0 <= k < |e[1..]| ensures !StartsWith(e[1..][k], SuccessMark) {
      assert e[1..][k] == e[k + 1];
    }
    NoneStarting(e[1..], SuccessMark);
  }

  lemma {:induction false} EntriesLinesCount(rs: seq<Outcome>)
    ensures CountStarting(EntriesLines(rs), SuccessMark) == CountSuccesses(rs)
    decreases |rs|
  {
    if rs != [] {
      var init := rs[..|rs| - 1];
      EntriesLinesCount(init);
      EntryLinesCount(rs[|rs| - 1]);
      CountStartingAppend(EntriesLines(init), EntryLines(rs[|rs| - 1]), SuccessMark);
    }
  }

  lemma {:induction false} BodyLinesCount(all: seq<AccountResult>)
    ensures CountStarting(BodyLines(all), SuccessMark) == CountSuccesses(Entries(all))
    decreases |all|
  {
    if all != [] {
      var init := all[..|all| - 1];
      var last := all[|all| - 1];
      BodyLinesCount(init);
      EntriesLinesCount(last.results);
      NotStartsAt("📧 " + last.email, SuccessMark, 0);
      CountStartingAppend(["📧 " + last.email], EntriesLines(last.results), SuccessMark);
      CountStartingAppend(BodyLines(init), AccountLines(last), SuccessMark);
      CountSuccessesAppend(Entries(init), last.results);
    }
  }

  /**
    The report shows one success line per successful entry: the lines starting with the
    success mark are exactly as many as the success counter.
   */
  lemma ReportCountsSuccesses(all: seq<AccountResult>, totalVps: nat, now: string)
    ensures CountStarting(ReportLines(all, CountSuccesses(Entries(all)), totalVps, now), SuccessMark)
      == CountSuccesses(Entries(all))
  {
    var s := CountSuccesses(Entries(all));
    var footer := Footer(s, totalVps, now);
    BodyLinesCount(all);
    NotStartsAt(Header[0], SuccessMark, 0);
    NotStartsAt(footer[1], SuccessMark, 0);
    NotStartsAt(footer[2], SuccessMark, 0);
    NoneStarting(Header, SuccessMark);
    NoneStarting(footer, SuccessMark);
    CountStartingAppend(Header, BodyLines(all), SuccessMark);
    CountStartingAppend(Header + BodyLines(all), footer, SuccessMark);
  }

  /** A report goes out only with both a bot token and a chat id. */
  predicate TelegramEnabled(botToken: string, chatId: string) {
    botToken != "" && chatId != ""
  }

  /**
    The end of `main`: the counters, the joined report when Telegram is configured, and
    the returned value.
   */
  method Summarise(all: seq<AccountResult>, botToken: string, chatId: string, now: string)
    returns (ok: bool, successCount: nat, totalVps: nat, message: Option<string>)
    ensures totalVps == |Entries(all)| && successCount == CountSuccesses(Entries(all))
    ensures ok <==> totalVps > 0
    ensures message.Some? <==> TelegramEnabled(botToken, chatId)
    ensures message.Some? ==> message.value == Join(ReportLines(all, successCount, totalVps, now), '\n')
  {
    successCount, totalVps := Tally(all);
    message := None;
    if TelegramEnabled(botToken, chatId) {
      var lines := BuildReport(all, successCount, totalVps, now);
      message := Some(Join(lines, '\n'));
    }
    ok := ExitOk(successCount, totalVps);
  }
}
