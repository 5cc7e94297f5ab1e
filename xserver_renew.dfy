/**
  xserver-renew.py: the `&`-separated account list, the renewal of one account through
  the panel (sign in, VPS list, detail page, extension page, Turnstile, submit), the run
  over all accounts, and the summary sent to Telegram.
  What the browser shows at each step is the input (`Visit`); so is the exception, if any,
  that one of the steps raises.
 */
module XServerRenew {
  import opened Wrappers
  import opened PyStr
  import opened Accounts
  import opened Signals
  import opened XServerTurnstile

  /** Rounds `handle_turnstile` waits when called without `max_wait`. */
  const MaxWait: int := 15

  /** Characters of an exception's text kept in the error message. */
  const ErrorLimit: nat := 100

  /** `s or ''`: an unset variable reads as the empty string. */
  function OrEmpty(s: Option<string>): (r: string)
    ensures s.Some? ==> r == s.value
    ensures s.None? ==> r == ""
  {
    if s.Some? then s.value else ""
  }

  /** `parse_accounts`: the value split on `&`, each piece parsed as `email:password`. */
  method ParseAccounts(s: Option<string>) returns (accounts: seq<Account>)
    ensures accounts == AccountsOf(Split(OrEmpty(s), '&'))
    ensures !Truthy(s) ==> accounts == []
  {
    var pieces := Split(OrEmpty(s), '&');
    accounts := [];
    var i := 0;
    while i < |pieces|
      invariant 0 <= i <= |pieces|
      invariant accounts == Present(ParseAll(pieces)[..i])
    {
      var item := Strip(pieces[i]);
      if ':' in item {
        var cut := SplitAtFirst(item, ':');
        accounts := accounts + [Account(Strip(cut.0), Strip(cut.1))];
      }
      assert ParseAll(pieces)[..i + 1][..i] == ParseAll(pieces)[..i];
      i := i + 1;
    }
    assert ParseAll(pieces)[..|pieces|] == ParseAll(pieces);
    if !Truthy(s) {
      assert OrEmpty(s) == "";
      assert pieces == [""];
      assert ParseAll(pieces) == [None];
    }
  }

  /** The steps of `renew_account`, in order; an exception is raised in one of them. */
  datatype Stage = SignIn | VpsList | Detail | Extend | Challenge | Submit

  function Rank(s: Stage): (n: nat)
    ensures n <= 5
  {
    match s
    case SignIn => 0
    case VpsList => 1
    case Detail => 2
    case Extend => 3
    case Challenge => 4
    case Submit => 5
  }

  /** An exception raised in `stage`, with its text. */
  datatype Crash = Crash(stage: Stage, error: string)

  /**
    What one account's visit shows: the address after opening the login page and after
    submitting the form, the `href` of the detail and the extension links (none when the
    link is missing), the Turnstile on the extension page, the page text after submitting,
    and the exception, if any.
   */
  datatype Visit = Visit(landingUrl: string, submittedUrl: string,
                         detailHref: Option<string>, extendHref: Option<string>,
                         turnstile: TurnstileEnv, finalText: string, crash: Option<Crash>)

  /** The `result` dictionary of `renew_account`. */
  datatype AccountOutcome = AccountOutcome(email: string, success: bool, msg: string)

  /** The message of a caught exception: its text cut to its first hundred characters. */
  function ErrorMessage(error: string): (m: string)
    ensures |m| == 4 + (if |error| < ErrorLimit then |error| else ErrorLimit)
    ensures m[..4] == "错误: "
    ensures |error| <= ErrorLimit ==> m == "错误: " + error
    ensures ErrorLimit < |error| ==> m == "错误: " + error[..ErrorLimit]
  {
    "错误: " + error[..if |error| < ErrorLimit then |error| else ErrorLimit]
  }

  /** The form had to be filled and the address still names the login page afterwards. */
  predicate LoginFails(v: Visit) {
    Contains(v.landingUrl, "login") && Contains(v.submittedUrl, "login")
  }

  predicate CrashesAt(v: Visit, s: Stage) {
    v.crash.Some? && v.crash.value.stage == s
  }

  /** The checks made before `s` all let the flow go on. */
  ghost predicate Gates(v: Visit, s: Stage) {
    && (Rank(s) > 0 ==> !LoginFails(v))
    && (Rank(s) > 1 ==> Truthy(v.detailHref))
    && (Rank(s) > 2 ==> Truthy(v.extendHref))
    && (Rank(s) > 4 ==> TurnstilePasses(v.turnstile, MaxWait))
  }

  /** Step `s` is entered: the earlier checks let the flow go on and no earlier step raised. */
  ghost predicate Runs(v: Visit, s: Stage) {
    Gates(v, s) && (v.crash.None? || Rank(s) <= Rank(v.crash.value.stage))
  }

  /** Step `s` is entered and completes without an exception. */
  ghost predicate Completes(v: Visit, s: Stage) {
    Runs(v, s) && !CrashesAt(v, s)
  }

  /** Every step completes, every check passes and the final page shows a success word. */
  ghost predicate RenewSucceeds(v: Visit) {
    v.crash.None? && Gates(v, Submit) && HasSuccessWord(v.finalText)
  }

  /**
    `renew_account`: the outcome for one account, and whether the form was submitted.
    The password only goes into the login form, whose effect is `submittedUrl`.
   */
  method RenewAccount(email: string, password: string, v: Visit)
    returns (result: AccountOutcome, submitted: bool)
    ensures result.email == email && result.msg != ""
    ensures result.success <==> RenewSucceeds(v)
    ensures result.success ==> result.msg == "续期成功"
    ensures forall s :: Runs(v, s) && CrashesAt(v, s) ==>
      !result.success && result.msg == ErrorMessage(v.crash.value.error)
    ensures Completes(v, SignIn) && LoginFails(v) ==> result.msg == "登录失败"
    ensures Completes(v, VpsList) && !Truthy(v.detailHref) ==> result.msg == "未找到 VPS"
    ensures Completes(v, Detail) && !Truthy(v.extendHref) ==>
      result.msg == "未找到续期链接（可能还未到续期时间）"
    ensures Completes(v, Challenge) && !TurnstilePasses(v.turnstile, MaxWait) ==>
      result.msg == "Turnstile 验证失败（需配置 YESCAPTCHA_KEY）"
    ensures submitted <==> Runs(v, Submit)
    ensures Completes(v, Submit) && !HasSuccessWord(v.finalText) ==> result.msg == "续期结果未知"
  {
    result := AccountOutcome(email, false, "");
    submitted := false;
    if CrashesAt(v, SignIn) {
      result := result.(msg := ErrorMessage(v.crash.value.error));
      return;
    }
    if Contains(v.landingUrl, "login") {
      if Contains(v.submittedUrl, "login") {
        result := result.(msg := "登录失败");
        return;
      }
    }
    if CrashesAt(v, VpsList) {
      result := result.(msg := ErrorMessage(v.crash.value.error));
      return;
    }
    if !Truthy(v.detailHref) {
      result := result.(msg := "未找到 VPS");
      return;
    }
    if CrashesAt(v, Detail) {
      result := result.(msg := ErrorMessage(v.crash.value.error));
      return;
    }
    if !Truthy(v.extendHref) {
      result := result.(msg := "未找到续期链接（可能还未到续期时间）");
      return;
    }
    if CrashesAt(v, Extend) {
      result := result.(msg := ErrorMessage(v.crash.value.error));
      return;
    }
    var turnstileOk, _, _ := HandleTurnstile(v.turnstile, MaxWait);
    if CrashesAt(v, Challenge) {
      result := result.(msg := ErrorMessage(v.crash.value.error));
      return;
    }
    if !turnstileOk {
      result := result.(msg := "Turnstile 验证失败（需配置 YESCAPTCHA_KEY）");
      return;
    }
    submitted := true;
    if CrashesAt(v, Submit) {
      result := result.(msg := ErrorMessage(v.crash.value.error));
      return;
    }
    if HasSuccessWord(v.finalText) {
      result := result.(success := true, msg := "续期成功");
    } else {
      result := result.(msg := "续期结果未知");
    }
  }

  /**
    The submit button is the one whose text holds `継続`; a page after submitting that still
    shows that text, with no step raising and every check passed, is reported renewed.
   */
  lemma SubmitButtonStillShownRenews(v: Visit, caption: string)
    requires v.crash.None? && Gates(v, Submit)
    requires Contains(caption, "継続") && Contains(v.finalText, caption)
    ensures RenewSucceeds(v)
  {
    ContainsTransitive(v.finalText, caption, "継続");
    RenewCaptionIsSuccessWord(v.finalText);
  }

  /** The loop of `main`: one outcome per account, in the order of the accounts. */
  method RenewAll(accounts: seq<Account>, visits: nat -> Visit) returns (results: seq<AccountOutcome>)
    ensures |results| == |accounts|
    ensures forall k :: 0 <= k < |accounts| ==>
      results[k].email == accounts[k].email && (results[k].success <==> RenewSucceeds(visits(k)))
  {
    results := [];
    var k := 0;
    while k < |accounts|
      invariant 0 <= k <= |accounts| && |results| == k
      invariant forall j :: 0 <= j < k ==>
        results[j].email == accounts[j].email && (results[j].success <==> RenewSucceeds(visits(j)))
    {
      var result, _ := RenewAccount(accounts[k].email, accounts[k].password, visits(k));
      results := results + [result];
      k := k + 1;
    }
  }

  // ---------------------------------------------------------------- summary

  /**
    `sum(1 for r in results if r['success'])`. The same count as renew.py's
    `success_count`, kept here over this script's own result record.
   */
  function CountSuccess(results: seq<AccountOutcome>): (n: nat)
    ensures n <= |results|
  {
    if results == [] then 0
    else CountSuccess(results[..|results| - 1]) + (if results[|results| - 1].success then 1 else 0)
  }

  const Heading := ["🖥 XServer VPS 续期", ""]

  /** The line of one account: its mark, email and message. */
  function ResultLine(r: AccountOutcome): string {
    (if r.success then "✅" else "❌") + " " + r.email + ": " + r.msg
  }

  /**
    The line of an account is marked `✅` exactly when it succeeded; it names the email
    and ends in the message.
   */
  lemma ResultLineMarked(r: AccountOutcome)
    ensures StartsWith(ResultLine(r), "✅") <==> r.success
    ensures Contains(ResultLine(r), r.email + ": ")
    ensures |r.msg| <= |ResultLine(r)| && ResultLine(r)[|ResultLine(r)| - |r.msg|..] == r.msg
  {
    var mark := if r.success then "✅" else "❌";
    var l := ResultLine(r);
    assert l[..1] == mark;
    assert l == (mark + " ") + (r.email + ": ") + r.msg;
    ContainsMiddle(mark + " ", r.email + ": ", r.msg);
  }

  function ResultLines(results: seq<AccountOutcome>): seq<string> {
    if results == [] then [] else ResultLines(results[..|results| - 1]) + [ResultLine(results[|results| - 1])]
  }

  /** One line per outcome, in order. */
  lemma {:induction false} ResultLinesAt(results: seq<AccountOutcome>)
    ensures |ResultLines(results)| == |results|
    ensures forall k :: 0 <= k < |results| ==> ResultLines(results)[k] == ResultLine(results[k])
    decreases |results|
  {
    if results != [] {
      ResultLinesAt(results[..|results| - 1]);
    }
  }

  /** The lines marked as successes are exactly as many as the successful outcomes. */
  lemma {:induction false} ResultLinesCount(results: seq<AccountOutcome>)
    ensures CountStarting(ResultLines(results), "✅") == CountSuccess(results)
    decreases |results|
  {
    if results != [] {
      var init := results[..|results| - 1];
      var line := ResultLine(results[|results| - 1]);
      ResultLinesCount(init);
      var single: seq<string> := [line];
      CountStartingAppend(ResultLines(init), single, "✅");
      assert |single[1..]| == 0;
      ResultLineMarked(results[|results| - 1]);
    }
  }

  /**
    The summary of `main`: the success and failure counts and the message lines, a heading
    and then one line per account in order, as many marked successful as succeeded.
   */
  method Summarise(results: seq<AccountOutcome>) returns (success: nat, fail: nat, lines: seq<string>)
    ensures success == CountSuccess(results) && success + fail == |results|
    ensures |lines| == |Heading| + |results| && lines[..|Heading|] == Heading
    ensures forall k :: 0 <= k < |results| ==> lines[|Heading| + k] == ResultLine(results[k])
    ensures CountStarting(lines, "✅") == success
  {
    success := CountSuccess(results);
    fail := |results| - success;
    lines := Heading;
    var k := 0;
    while k < |results|
      invariant 0 <= k <= |results|
      invariant lines == Heading + ResultLines(results[..k])
    {
      assert results[..k + 1][..k] == results[..k];
      lines := lines + [ResultLine(results[k])];
      k := k + 1;
    }
    assert results[..|results|] == results;
    ResultLinesAt(results);
    SummaryCount(results);
  }

  /** The heading holds no `✅` line, so the summary's are the results' own. */
  lemma SummaryCount(results: seq<AccountOutcome>)
    ensures CountStarting(Heading + ResultLines(results), "✅") == CountSuccess(results)
  {
    ResultLinesCount(results);
    CountStartingAppend(Heading, ResultLines(results), "✅");
    assert !StartsWith(Heading[0], "✅") by {
      assert Heading[0][0] != '✅';
    }
    assert CountStarting(Heading, "✅") == 0 by {
      assert |Heading[1..][1..]| == 0;
    }
  }

  /**
    `main`: without any account nothing is renewed or reported; otherwise every account is
    renewed in turn and the summary is built, and sent when a bot token and a chat id are set.
   */
  method Run(accountsStr: Option<string>, visits: nat -> Visit, botToken: string, chatId: string)
    returns (results: seq<AccountOutcome>, lines: Option<seq<string>>, sent: bool)
    ensures AccountsOf(Split(OrEmpty(accountsStr), '&')) == [] ==> results == [] && lines.None? && !sent
    ensures AccountsOf(Split(OrEmpty(accountsStr), '&')) != [] ==>
      |results| == |AccountsOf(Split(OrEmpty(accountsStr), '&'))|
      && lines.Some? && |lines.value| == |Heading| + |results|
      && CountStarting(lines.value, "✅") == CountSuccess(results)
      && (sent <==> botToken != "" && chatId != "")
    ensures AccountsOf(Split(OrEmpty(accountsStr), '&')) != [] ==>
      forall k :: 0 <= k < |results| ==>
        && results[k].email == AccountsOf(Split(OrEmpty(accountsStr), '&'))[k].email
        && (results[k].success <==> RenewSucceeds(visits(k)))
    ensures AccountsOf(Split(OrEmpty(accountsStr), '&')) != [] ==>
      && lines.Some? && |lines.value| == |Heading| + |results|
      && lines.value[..|Heading|] == Heading
      && forall k :: 0 <= k < |results| ==> lines.value[|Heading| + k] == ResultLine(results[k])
  {
    results, lines, sent := [], None, false;
    var accounts := ParseAccounts(accountsStr);
    if accounts == [] {
      return;
    }
    results := RenewAll(accounts, visits);
    var _, _, msgLines := Summarise(results);
    lines := Some(msgLines);
    sent := botToken != "" && chatId != "";
  }
}
