/**
  The account-list rule both scripts share: the configured string is cut into pieces at a
  separator (`,` in renew.py, `&` in xserver-renew.py); each piece is stripped, kept only
  if it holds a `:`, cut at its first `:`, and both halves are stripped again.
 */
module Accounts {
  import opened Wrappers
  import opened PyStr

  datatype Account = Account(email: string, password: string)

  /** `i` is the position of the first `:` in `item`. */
  predicate FirstColonAt(item: string, i: nat) {
    i < |item| && item[i] == ':' && ':' !in item[..i]
  }

  /** A string with no whitespace at either end. */
  predicate Trimmed(s: string) {
    s == [] || (!IsSpace(s[0]) && !IsSpace(s[|s| - 1]))
  }

  /** One piece of the account string: `email:password`, or nothing when it holds no `:`. */
  function ParseItem(piece: string): (r: Option<Account>)
    ensures r.Some? <==> ':' in Strip(piece)
    ensures r.Some? ==> Trimmed(r.value.email) && Trimmed(r.value.password)
  {
    var item := Strip(piece);
    if ':' in item then
      var cut := SplitAtFirst(item, ':');
      Some(Account(Strip(cut.0), Strip(cut.1)))
    else
      None
  }

  /** The kept account is the stripped text on either side of the first `:`. */
  lemma ParseItemCut(piece: string, i: nat)
    requires FirstColonAt(Strip(piece), i)
    ensures ParseItem(piece) == Some(Account(Strip(Strip(piece)[..i]), Strip(Strip(piece)[i + 1..])))
  {
    var item := Strip(piece);
    assert item == item[..i] + [':'] + item[i + 1..];
    SplitAtFirstUnique(item, ':', item[..i], item[i + 1..]);
  }

  /** The parse of every piece, position by position. */
  function ParseAll(pieces: seq<string>): (r: seq<Option<Account>>)
    ensures |r| == |pieces|
    ensures forall j :: 0 <= j < |pieces| ==> r[j] == ParseItem(pieces[j])
  {
    seq(|pieces|, j requires 0 <= j < |pieces| => ParseItem(pieces[j]))
  }

  /** The values present in `xs`, in order: what appending only the kept items builds. */
  function Present<T>(xs: seq<Option<T>>): (r: seq<T>)
    ensures |r| <= |xs|
  {
    if xs == [] then []
    else Present(xs[..|xs| - 1]) + (if xs[|xs| - 1].Some? then [xs[|xs| - 1].value] else [])
  }

  /** The accounts the pieces describe, in the order of the pieces. */
  function AccountsOf(pieces: seq<string>): seq<Account> {
    Present(ParseAll(pieces))
  }

  /** Keeping the present values of two runs keeps those of each, in order. */
  lemma {:induction false} PresentAppend<T>(a: seq<Option<T>>, b: seq<Option<T>>)
    ensures Present(a + b) == Present(a) + Present(b)
    decreases |b|
  {
    if b == [] {
      assert a + b == a;
    } else {
      var b' := b[..|b| - 1];
      assert (a + b)[..|a + b| - 1] == a + b';
      PresentAppend(a, b');
    }
  }

  /** Every kept value is present at some position. */
  lemma {:induction false} PresentFrom<T>(xs: seq<Option<T>>, k: nat)
    requires k < |Present(xs)|
    ensures exists j :: 0 <= j < |xs| && xs[j] == Some(Present(xs)[k])
    decreases |xs|
  {
    var init := xs[..|xs| - 1];
    if k < |Present(init)| {
      PresentFrom(init, k);
      var j :| 0 <= j < |init| && init[j] == Some(Present(init)[k]);
      assert xs[j] == init[j];
    } else {
      assert xs[|xs| - 1] == Some(Present(xs)[k]);
    }
  }

  /** Nothing is dropped when every value is present. */
  lemma {:induction false} PresentAll<T>(xs: seq<Option<T>>)
    requires forall j :: 0 <= j < |xs| ==> xs[j].Some?
    ensures |Present(xs)| == |xs|
    ensures forall j :: 0 <= j < |xs| ==> Present(xs)[j] == xs[j].value
    decreases |xs|
  {
    if xs != [] {
      var init := xs[..|xs| - 1];
      assert forall j :: 0 <= j < |init| ==> init[j] == xs[j];
      PresentAll(init);
    }
  }

  /** Parsing the pieces of two runs parses each run, in order. */
  lemma AccountsOfAppend(a: seq<string>, b: seq<string>)
    ensures AccountsOf(a + b) == AccountsOf(a) + AccountsOf(b)
  {
    assert ParseAll(a + b) == ParseAll(a) + ParseAll(b) by {
      forall j | 0 <= j < |a + b| ensures ParseAll(a + b)[j] == (ParseAll(a) + ParseAll(b))[j] {
        if j < |a| {
          assert (a + b)[j] == a[j];
        } else {
          assert (a + b)[j] == b[j - |a|];
        }
      }
    }
    PresentAppend(ParseAll(a), ParseAll(b));
  }

  /** Every account comes from some piece that holds a `:`. */
  lemma AccountsOfFromPieces(pieces: seq<string>, k: nat)
    requires k < |AccountsOf(pieces)|
    ensures exists j :: 0 <= j < |pieces| && ParseItem(pieces[j]) == Some(AccountsOf(pieces)[k])
  {
    PresentFrom(ParseAll(pieces), k);
  }

  /** No piece is dropped when every piece holds a `:`. */
  lemma AccountsOfAllKept(pieces: seq<string>)
    requires forall j :: 0 <= j < |pieces| ==> ':' in Strip(pieces[j])
    ensures |AccountsOf(pieces)| == |pieces|
    ensures forall j :: 0 <= j < |pieces| ==> Some(AccountsOf(pieces)[j]) == ParseItem(pieces[j])
  {
    PresentAll(ParseAll(pieces));
  }

  /** An account that the string form `email:password` carries unchanged through parsing. */
  predicate Renderable(a: Account, sep: char) {
    && ':' !in a.email && sep !in a.email && sep !in a.password
    && Trimmed(a.email) && Trimmed(a.password)
  }

  function Format(a: Account): string {
    a.email + ":" + a.password
  }

  /** The configuration string listing `accounts`, separated by `sep`. */
  function Render(accounts: seq<Account>, sep: char): string {
    Join(seq(|accounts|, k requires 0 <= k < |accounts| => Format(accounts[k])), sep)
  }

  lemma ParseFormat(a: Account, sep: char)
    requires Renderable(a, sep)
    ensures ParseItem(Format(a)) == Some(a)
  {
    var item := Format(a);
    assert item == a.email + [':'] + a.password;
    assert item[|a.email|] == ':';
    StripOfTrimmed(item);
    SplitAtFirstUnique(item, ':', a.email, a.password);
    StripOfTrimmed(a.email);
    StripOfTrimmed(a.password);
  }

  /**
    Round trip: rendering well-formed accounts with a separator other than `:` and
    whitespace, then splitting and parsing, gives back the same accounts in the same order.
   */
  lemma RoundTrip(accounts: seq<Account>, sep: char)
    requires sep != ':' && !IsSpace(sep)
    requires forall k :: 0 <= k < |accounts| ==> Renderable(accounts[k], sep)
    ensures AccountsOf(Split(Render(accounts, sep), sep)) == accounts
  {
    if accounts == [] {
      assert Split("", sep) == [""];
      assert ParseAll([""]) == [None];
    } else {
      var items := seq(|accounts|, k requires 0 <= k < |accounts| => Format(accounts[k]));
      forall k | 0 <= k < |items| ensures sep !in items[k] && ParseItem(items[k]) == Some(accounts[k]) {
        assert items[k] == accounts[k].email + [':'] + accounts[k].password;
        ParseFormat(accounts[k], sep);
      }
      SplitJoin(items, sep);
      PresentAll(ParseAll(items));
    }
  }
}
