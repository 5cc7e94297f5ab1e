/**
  The decisions renew.py takes from what the browser shows it: the Turnstile polling
  loop, the URL tests of `login`, the de-duplicated VPS list, and how `renew_vps` reads
  the renewal page. URLs, page texts, button captions and response-field values are inputs.
 */
module RenewPages {
  import opened Wrappers
  import opened PyStr
  import opened Accounts
  import opened Signals

  // ---------------------------------------------------------------- Turnstile polling

  /**
    What one round of `handle_turnstile` sees: whether a `.cf-turnstile` /
    `[data-turnstile-widget]` element is on the page, and the value of the
    `cf-turnstile-response` field read in that round (after the click, when there is one).
   */
  datatype Probe = Probe(widgetFound: bool, response: string)

  /** Rounds among the first `n` that found the widget, each of which clicks it once. */
  function Clicks(probe: nat -> Probe, n: nat): (c: nat)
    ensures c <= n
  {
    if n == 0 then 0 else Clicks(probe, n - 1) + (if probe(n - 1).widgetFound then 1 else 0)
  }

  /**
    `handle_turnstile(timeout)`: at most `timeout` rounds (none when `timeout <= 0`); true
    as soon as a round reads a response longer than ten characters, false when the rounds
    run out without one.
   */
  method HandleTurnstile(timeout: int, probe: nat -> Probe) returns (solved: bool, rounds: nat, clicks: nat)
    ensures rounds <= (if timeout > 0 then timeout else 0)
    ensures solved ==> 0 < rounds && Solved(probe(rounds - 1).response)
    ensures forall i: nat :: i < rounds && (i < rounds - 1 || !solved) ==> !Solved(probe(i).response)
    ensures !solved ==> rounds == (if timeout > 0 then timeout else 0)
    ensures solved <==> exists i: nat :: i < timeout && Solved(probe(i).response)
    ensures clicks == Clicks(probe, rounds)
  {
    solved, rounds, clicks := false, 0, 0;
    var i := 0;
    while i < timeout
      invariant 0 <= i <= (if timeout > 0 then timeout else 0)
      invariant rounds == i && clicks == Clicks(probe, i)
      invariant forall j: nat :: j < i ==> !Solved(probe(j).response)
    {
      var p := probe(i);
      rounds := rounds + 1;
      if !p.widgetFound {
        if Solved(p.response) {
          solved := true;
          return;
        }
        i := i + 1;
        continue;
      }
      clicks := clicks + 1;
      if Solved(p.response) {
        solved := true;
        return;
      }
      i := i + 1;
    }
  }

  // ---------------------------------------------------------------- login URL tests

  /**
    The two panel addresses, written as the concatenation of their parts:
    `https://secure.xserver.ne.jp/xapanel/login/xserver/?request_page=xvps%2Findex` and
    `https://secure.xserver.ne.jp/xapanel/xvps/index`.
   */
  const Origin := "https://secure.xser" + "ver.ne.jp"
  const LoginPath := Origin + "/xapanel/" + "login" + "/xser" + "ver/"
  const LoginQuery := "request_page=" + "xvps" + "%2Findex"
  const LoginUrl := LoginPath + "?" + LoginQuery
  const VpsIndexUrl := Origin + "/xapanel/" + "xvps/index"

  /**
    The landing page after opening the login page already is the VPS panel. Such a URL
    names `xvps`, so it would also pass the after-submit test.
   */
  function IsAlreadyLoggedIn(url: string): (r: bool)
    ensures r ==> LoginSucceeded(url)
  {
    var r := Contains(url, "xvps/index") && !Contains(url, "login");
    if r then
      ContainsAt("xvps/index", "xvps", 0);
      ContainsTransitive(url, "xvps/index", "xvps");
      r
    else r
  }

  /**
    The test `login` applies to the URL after submitting, as written: a URL naming the
    customer area or the VPS panel passes even when it also names `login`, and only a URL
    that names `login` in some letter case can fail.
   */
  function LoginSucceeded(url: string): (r: bool)
    ensures Contains(url, "customer") || Contains(url, "xvps") ==> r
    ensures !r ==> Contains(Lower(url), "login")
  {
    !Contains(Lower(url), "login") || Contains(url, "customer") || Contains(url, "xvps")
  }

  /** The VPS panel itself is recognised as "already logged in". */
  lemma VpsIndexIsLoggedIn()
    ensures IsAlreadyLoggedIn(VpsIndexUrl)
  {
    assert VpsIndexUrl == (Origin + "/xapanel/") + "xvps/index" + "";
    ContainsMiddle(Origin + "/xapanel/", "xvps/index", "");
    NotContainsByChar(VpsIndexUrl, "login", 2);
  }

  /**
    As written, the after-submit test accepts the login page itself: its query
    `request_page=xvps%2Findex` contains `xvps`, so a submit that leaves the browser on
    the login form counts as a successful login.
   */
  lemma LoginPageAccepted()
    ensures Contains(LoginUrl, "login") && LoginSucceeded(LoginUrl)
  {
    LoginPathHasLogin();
    ContainsInPrefix(LoginPath, "?", "login");
    ContainsInPrefix(LoginPath + "?", LoginQuery, "login");
    ContainsMiddle("request_page=", "xvps", "%2Findex");
    ContainsInSuffix(LoginPath + "?", LoginQuery, "xvps");
  }

  /** The part of a URL before its query string. */
  function PathOf(url: string): (p: string)
    ensures '?' !in p
  {
    if '?' in url then
      IndexOfFirst(url, '?');
      SplitAtFirst(url, '?').0
    else
      url
  }

  /** The after-submit test with `customer` and `xvps` looked for in the path only. */
  predicate LoginSucceededFixed(url: string) {
    !Contains(Lower(url), "login") || Contains(PathOf(url), "customer") || Contains(PathOf(url), "xvps")
  }

  /** The corrected test accepts no more than the original one. */
  lemma FixedIsStricter(url: string)
    requires LoginSucceededFixed(url)
    ensures LoginSucceeded(url)
  {
    if '?' in url {
      SplitAtFirstSpec(url, '?');
      var p := PathOf(url);
      if Contains(p, "customer") {
        ContainsIff(p, "customer");
        var i: nat :| OccursAt(p, "customer", i);
        assert url[i..i + 8] == p[i..i + 8];
        ContainsAt(url, "customer", i);
      }
      if Contains(p, "xvps") {
        ContainsIff(p, "xvps");
        var i: nat :| OccursAt(p, "xvps", i);
        assert url[i..i + 4] == p[i..i + 4];
        ContainsAt(url, "xvps", i);
      }
    }
  }

  /**
    Whatever its query string says, a URL whose path is a login path (it holds `login`
    and neither `customer` nor `xvps`) fails the corrected test.
   */
  lemma {:induction false} FixedRejectsLoginPath(path: string, query: string)
    requires '?' !in path
    requires Contains(path, "login") && !Contains(path, "customer") && !Contains(path, "xvps")
    ensures !LoginSucceededFixed(path + "?" + query)
  {
    var url := path + "?" + query;
    assert url == path + ['?'] + query;
    SplitAtFirstUnique(url, '?', path, query);
    ContainsIff(path, "login");
    var i: nat :| OccursAt(path, "login", i);
    assert url[i..i + 5] == path[i..i + 5];
    ContainsAt(url, "login", i);
    ContainsLower(url, "login");
  }

  /** The path of the login page holds `login` but no `customer` and no query. */
  lemma LoginPathHasLogin()
    ensures '?' !in LoginPath
    ensures Contains(LoginPath, "login") && !Contains(LoginPath, "customer")
  {
    var head := Origin + "/xapanel/";
    var tail := "/xser" + "ver/";
    assert LoginPath == head + "login" + tail;
    ContainsMiddle(head, "login", tail);
    assert 'm' !in head && '?' !in head by {
      assert 'm' !in "https://secure.xser" && '?' !in "https://secure.xser";
      assert 'm' !in "ver.ne.jp" && '?' !in "ver.ne.jp";
      assert 'm' !in "/xapanel/" && '?' !in "/xapanel/";
    }
    assert 'm' !in "login" + tail && '?' !in "login" + tail;
    NotContainsByChar(LoginPath, "customer", 5);
  }

  /** No `x` of the login page's path is followed by `v`. */
  lemma LoginPathNoXv()
    ensures NoAdjacent(LoginPath, 'x', 'v')
  {
    NoAdjacentAbsent("https://secure.xser", 'x', 'v');
    NoAdjacentAfterHead("ver.ne.jp", 'x', 'v');
    NoAdjacentAppend("https://secure.xser", "ver.ne.jp", 'x', 'v');
    var mid := "/xapanel/" + "login" + "/xser";
    NoAdjacentAbsent(mid, 'x', 'v');
    NoAdjacentAppend(Origin, mid, 'x', 'v');
    NoAdjacentAfterHead("ver/", 'x', 'v');
    assert LoginPath == (Origin + mid) + "ver/";
    NoAdjacentAppend(Origin + mid, "ver/", 'x', 'v');
  }

  /** The corrected test rejects the login page. */
  lemma FixedRejectsLoginPage()
    ensures !LoginSucceededFixed(LoginUrl)
  {
    LoginPathHasLogin();
    LoginPathNoXv();
    NotContainsByAdjacent(LoginPath, "xvps");
    FixedRejectsLoginPath(LoginPath, LoginQuery);
  }

  /** The corrected test still accepts the VPS panel. */
  lemma FixedAcceptsVpsIndex()
    ensures LoginSucceededFixed(VpsIndexUrl)
  {
    assert '?' !in VpsIndexUrl;
    assert PathOf(VpsIndexUrl) == VpsIndexUrl;
    assert VpsIndexUrl == (Origin + "/xapanel/") + "xvps" + "/index";
    ContainsMiddle(Origin + "/xapanel/", "xvps", "/index");
  }

  /**
    `login` after the login page has been opened: the landing URL, whether filling the
    form went through without an exception, and the URL after submitting.
   */
  function Login(landingUrl: string, formFilled: bool, submittedUrl: string): (ok: bool)
    ensures IsAlreadyLoggedIn(landingUrl) ==> ok
    ensures !IsAlreadyLoggedIn(landingUrl) && !formFilled ==> !ok
    ensures !IsAlreadyLoggedIn(landingUrl) && formFilled ==> (ok <==> LoginSucceeded(submittedUrl))
  {
    if IsAlreadyLoggedIn(landingUrl) then true
    else if !formFilled then false
    else LoginSucceeded(submittedUrl)
  }

  /** `login` with the corrected after-submit test: it signs in no more often than `login`. */
  function LoginFixed(landingUrl: string, formFilled: bool, submittedUrl: string): (ok: bool)
    ensures ok ==> Login(landingUrl, formFilled, submittedUrl)
    ensures IsAlreadyLoggedIn(landingUrl) ==> ok
    ensures !IsAlreadyLoggedIn(landingUrl) && !formFilled ==> !ok
    ensures !IsAlreadyLoggedIn(landingUrl) && formFilled ==> (ok <==> LoginSucceededFixed(submittedUrl))
  {
    if IsAlreadyLoggedIn(landingUrl) then true
    else if !formFilled then false
    else
      var ok := LoginSucceededFixed(submittedUrl);
      if ok then FixedIsStricter(submittedUrl); ok else ok
  }

  /**
    A submit that leaves the browser on the login page signs in as written, and does not
    with the corrected test.
   */
  lemma LoginStuckOnForm(landingUrl: string)
    requires !IsAlreadyLoggedIn(landingUrl)
    ensures Login(landingUrl, true, LoginUrl)
    ensures !LoginFixed(landingUrl, true, LoginUrl)
  {
    LoginPageAccepted();
    FixedRejectsLoginPage();
  }

  // ---------------------------------------------------------------- VPS list

  /** A VPS link found on the panel: the id taken from its `href` and its caption. */
  datatype VpsLink = VpsLink(id: string, name: string)

  /** The JavaScript `filter` with a `seen` set: the first link of each id, in page order. */
  function Keep(links: seq<VpsLink>, seen: set<string>): seq<VpsLink> {
    if links == [] then []
    else if links[0].id in seen then Keep(links[1..], seen)
    else [links[0]] + Keep(links[1..], seen + {links[0].id})
  }

  /** The de-duplication at the end of `get_vps_list`. */
  method Dedup(links: seq<VpsLink>) returns (kept: seq<VpsLink>)
    ensures kept == Keep(links, {})
  {
    kept := [];
    var seen: set<string> := {};
    var i := 0;
    while i < |links|
      invariant 0 <= i <= |links|
      invariant kept + Keep(links[i..], seen) == Keep(links, {})
    {
      assert links[i..][1..] == links[i + 1..];
      if links[i].id !in seen {
        kept := kept + [links[i]];
        seen := seen + {links[i].id};
      }
      i := i + 1;
    }
  }

  /** Kept links have distinct ids, none of them already seen. */
  lemma {:induction false} KeepDistinct(links: seq<VpsLink>, seen: set<string>)
    ensures forall k :: 0 <= k < |Keep(links, seen)| ==> Keep(links, seen)[k].id !in seen
    ensures forall k, l :: 0 <= k < l < |Keep(links, seen)| ==> Keep(links, seen)[k].id != Keep(links, seen)[l].id
  {
    if links != [] {
      if links[0].id in seen {
        KeepDistinct(links[1..], seen);
      } else {
        KeepDistinct(links[1..], seen + {links[0].id});
      }
    }
  }

  /** Every id on the page that was not already seen is kept, and nothing else. */
  lemma {:induction false} KeepIds(links: seq<VpsLink>, seen: set<string>)
    ensures (set v | v in Keep(links, seen) :: v.id) == (set v | v in links :: v.id) - seen
  {
    if links != [] {
      var rest := links[1..];
      assert links == [links[0]] + rest;
      assert (set v | v in links :: v.id) == {links[0].id} + (set v | v in rest :: v.id);
      if links[0].id in seen {
        KeepIds(rest, seen);
      } else {
        var kept := Keep(rest, seen + {links[0].id});
        KeepIds(rest, seen + {links[0].id});
        assert (set v | v in [links[0]] + kept :: v.id) == {links[0].id} + (set v | v in kept :: v.id);
      }
    }
  }

  /** Each kept link is the first link on the page with its id. */
  lemma {:induction false} KeepFirst(links: seq<VpsLink>, seen: set<string>, k: nat)
    requires k < |Keep(links, seen)|
    ensures exists j :: (0 <= j < |links| && links[j] == Keep(links, seen)[k]
      && forall j' :: 0 <= j' < j ==> links[j'].id != links[j].id)
  {
    var r := Keep(links, seen);
    KeepDistinct(links, seen);
    if links[0].id in seen {
      KeepFirst(links[1..], seen, k);
      var j :| 0 <= j < |links[1..]| && links[1..][j] == r[k]
        && forall j' :: 0 <= j' < j ==> links[1..][j'].id != links[1..][j].id;
      assert links[j + 1] == r[k];
      forall j' | 0 <= j' < j + 1 ensures links[j'].id != links[j + 1].id {
        if j' > 0 {
          assert links[1..][j' - 1] == links[j'];
        }
      }
    } else if k > 0 {
      var seen' := seen + {links[0].id};
      KeepDistinct(links[1..], seen');
      KeepFirst(links[1..], seen', k - 1);
      assert r[k] == Keep(links[1..], seen')[k - 1];
      var j :| 0 <= j < |links[1..]| && links[1..][j] == r[k]
        && forall j' :: 0 <= j' < j ==> links[1..][j'].id != links[1..][j].id;
      assert links[j + 1] == r[k];
      forall j' | 0 <= j' < j + 1 ensures links[j'].id != links[j + 1].id {
        if j' > 0 {
          assert links[1..][j' - 1] == links[j'];
        }
      }
    } else {
      assert links[0] == r[0];
    }
  }

  // ---------------------------------------------------------------- renewal page

  /** The two phrases of the "too early: try again from … on" notice. */
  predicate WindowClosed(text: string) {
    Contains(text, "1日前から") && Contains(text, "以降にお試しください")
  }

  /** A button whose caption reads "continue". */
  predicate IsRenewButton(caption: string) {
    Contains(caption, "継続") || Contains(caption, "引き続き")
  }

  /** The page script that clicks the first button captioned "continue", if any. */
  method FindRenewButton(captions: seq<string>) returns (index: Option<nat>)
    ensures index.Some? ==> index.value < |captions| && IsRenewButton(captions[index.value])
    ensures index.Some? ==> forall k :: 0 <= k < index.value ==> !IsRenewButton(captions[k])
    ensures index.None? ==> forall k :: 0 <= k < |captions| ==> !IsRenewButton(captions[k])
  {
    var i := 0;
    while i < |captions|
      invariant 0 <= i <= |captions|
      invariant forall k :: 0 <= k < i ==> !IsRenewButton(captions[k])
    {
      if IsRenewButton(captions[i]) {
        return Some(i);
      }
      i := i + 1;
    }
    return None;
  }

  /** Python's `\d` as far as the model goes: ASCII and full-width decimal digits. */
  predicate IsDigit(c: char) {
    ('0' <= c <= '9') || ('\U{FF10}' <= c <= '\U{FF19}')
  }

  predicate AllDigits(s: string, lo: nat, hi: nat)
    requires lo <= hi <= |s|
  {
    forall k :: lo <= k < hi ==> IsDigit(s[k])
  }

  /** The end of the longest run of digits starting at `i`. */
  function DigitRunEnd(s: string, i: nat): (e: nat)
    requires i <= |s|
    ensures i <= e <= |s| && AllDigits(s, i, e)
    ensures e == |s| || !IsDigit(s[e])
    decreases |s| - i
  {
    if i < |s| && IsDigit(s[i]) then DigitRunEnd(s, i + 1) else i
  }

  /** A run of digits that a non-digit (or the end) follows is the longest run. */
  lemma {:induction false} DigitRunEndAt(s: string, i: nat, e: nat)
    requires i <= e <= |s| && AllDigits(s, i, e)
    requires e == |s| || !IsDigit(s[e])
    ensures DigitRunEnd(s, i) == e
    decreases e - i
  {
    if i < e {
      DigitRunEndAt(s, i + 1, e);
    }
  }

  /**
    `(\d+年\d+月\d+日)以降` matches at `i`: digits `s[i..a]`, `年`, digits `s[a+1..b]`,
    `月`, digits `s[b+1..c]`, `日`, then `以降`; the group is `s[i..c+1]`.
   */
  predicate DateParts(s: string, i: nat, a: nat, b: nat, c: nat) {
    && i < a && a + 1 < b && b + 1 < c && c < |s|
    && AllDigits(s, i, a) && s[a] == '年'
    && AllDigits(s, a + 1, b) && s[b] == '月'
    && AllDigits(s, b + 1, c) && s[c] == '日'
    && OccursAt(s, "以降", c + 1)
  }

  /** The end of the group when the pattern matches at `i`. */
  function MatchDateAt(s: string, i: nat): (m: Option<nat>)
    requires i <= |s|
    ensures m.Some? ==> i < m.value <= |s|
  {
    var a := DigitRunEnd(s, i);
    if a == i || a == |s| || s[a] != '年' then None
    else
      var b := DigitRunEnd(s, a + 1);
      if b == a + 1 || b == |s| || s[b] != '月' then None
      else
        var c := DigitRunEnd(s, b + 1);
        if c == b + 1 || c == |s| || s[c] != '日' then None
        else if OccursAt(s, "以降", c + 1) then Some(c + 1)
        else None
  }

  /** A match found by `MatchDateAt` is a match of the pattern. */
  lemma MatchDateSound(s: string, i: nat)
    requires i <= |s|
    ensures MatchDateAt(s, i).Some? ==>
      exists a: nat, b: nat, c: nat :: DateParts(s, i, a, b, c) && MatchDateAt(s, i).value == c + 1
  {
    if MatchDateAt(s, i).Some? {
      var a := DigitRunEnd(s, i);
      var b := DigitRunEnd(s, a + 1);
      var c := DigitRunEnd(s, b + 1);
      assert DateParts(s, i, a, b, c);
    }
  }

  /** Every match of the pattern at `i` is found, with the same group. */
  lemma MatchDateComplete(s: string, i: nat, a: nat, b: nat, c: nat)
    requires DateParts(s, i, a, b, c)
    ensures MatchDateAt(s, i) == Some(c + 1)
  {
    DigitRunEndAt(s, i, a);
    DigitRunEndAt(s, a + 1, b);
    DigitRunEndAt(s, b + 1, c);
  }

  /** `re.search`: the leftmost position from `i` on where the pattern matches. */
  function FindDate(s: string, i: nat): (m: Option<(nat, nat)>)
    requires i <= |s|
    ensures m.Some? ==> i <= m.value.0 <= |s| && MatchDateAt(s, m.value.0) == Some(m.value.1)
    ensures m.Some? ==> forall j :: i <= j < m.value.0 ==> MatchDateAt(s, j).None?
    ensures m.None? ==> forall j :: i <= j <= |s| ==> MatchDateAt(s, j).None?
    decreases |s| - i
  {
    match MatchDateAt(s, i)
    case Some(e) => Some((i, e))
    case None => if i == |s| then None else FindDate(s, i + 1)
  }

  /** The date the notice names, or `未知` when no date is found. */
  function RenewalDate(text: string): string {
    match FindDate(text, 0)
    case Some(m) => text[m.0..m.1]
    case None => "未知"
  }

  /** Whatever the notice reports other than `未知` is the group of an occurrence of the pattern. */
  lemma RenewalDateSound(text: string)
    ensures RenewalDate(text) == "未知"
      || exists i: nat, a: nat, b: nat, c: nat :: DateParts(text, i, a, b, c) && RenewalDate(text) == text[i..c + 1]
  {
    var m := FindDate(text, 0);
    if m.Some? {
      MatchDateSound(text, m.value.0);
    }
  }

  /** The first date followed by `以降` is the one reported. */
  lemma RenewalDateFound(text: string, i: nat, a: nat, b: nat, c: nat)
    requires DateParts(text, i, a, b, c)
    requires forall j: nat, a': nat, b': nat, c': nat :: j < i ==> !DateParts(text, j, a', b', c')
    ensures RenewalDate(text) == text[i..c + 1]
  {
    MatchDateComplete(text, i, a, b, c);
    var m := FindDate(text, 0);
    assert m.Some?;
    MatchDateSound(text, m.value.0);
    assert m.value.0 == i;
  }

  /** Without any date followed by `以降`, the notice reports `未知`. */
  lemma RenewalDateMissing(text: string)
    requires forall j: nat, a: nat, b: nat, c: nat :: !DateParts(text, j, a, b, c)
    ensures RenewalDate(text) == "未知"
  {
    forall j: nat | j <= |text| ensures MatchDateAt(text, j).None? {
      MatchDateSound(text, j);
    }
    assert FindDate(text, 0).None?;
  }

  /** The message for a renewal page still outside the renewal window. */
  function WaitMessage(text: string): string {
    "未到续期时间，可续期日期: " + RenewalDate(text)
  }

  /**
    The dictionary `renew_vps` builds. Entries that other paths of the run produce lack
    an id, a name, or an expiry; those fields are then absent.
   */
  datatype Outcome = Outcome(id: Option<string>, name: Option<string>, success: bool, message: string, expiry: Option<string>)

  /**
    `renew_vps` once the expiry has been read and the renewal page opened: `pageText` is
    that page, `probe` what the Turnstile loop sees, `captions` the page's buttons and
    `resultText` the page after the click.
   */
  method RenewVps(vpsId: string, vpsName: string, expiry: Option<string>, pageText: string,
                  probe: nat -> Probe, captions: seq<string>, resultText: string)
    returns (result: Outcome, turnstileCalled: bool, clicked: Option<nat>)
    ensures result.id == Some(vpsId) && result.name == Some(vpsName) && result.expiry == expiry
    ensures result.success <==>
      !WindowClosed(pageText) && (exists k :: 0 <= k < |captions| && IsRenewButton(captions[k]))
      && HasSuccessWord(resultText) && !WindowClosed(resultText)
    ensures turnstileCalled <==> !WindowClosed(pageText)
    ensures WindowClosed(pageText) ==> clicked.None? && result.message == WaitMessage(pageText)
    ensures clicked.Some? ==> (clicked.value < |captions| && IsRenewButton(captions[clicked.value])
      && forall k :: 0 <= k < clicked.value ==> !IsRenewButton(captions[k]))
    ensures turnstileCalled && clicked.None? ==> (result.message == "未找到续期按钮"
      && forall k :: 0 <= k < |captions| ==> !IsRenewButton(captions[k]))
    ensures clicked.Some? && HasSuccessWord(resultText) && WindowClosed(resultText) ==>
      result.message == WaitMessage(resultText)
    ensures clicked.Some? && !HasSuccessWord(resultText) ==> result.message == "续期状态未知"
    ensures result.success ==> result.message == "续期成功"
  {
    result := Outcome(Some(vpsId), Some(vpsName), false, "", None);
    result := result.(expiry := expiry);
    turnstileCalled, clicked := false, None;
    if WindowClosed(pageText) {
      result := result.(message := WaitMessage(pageText));
      return;
    }
    var _, _, _ := HandleTurnstile(15, probe);
    turnstileCalled := true;
    clicked := FindRenewButton(captions);
    if clicked.None? {
      result := result.(message := "未找到续期按钮");
      return;
    }
    if HasSuccessWord(resultText) {
      if WindowClosed(resultText) {
        result := result.(message := WaitMessage(resultText));
      } else {
        result := result.(success := true, message := "续期成功");
      }
    } else {
      result := result.(message := "续期状态未知");
    }
  }

  /**
    A page after the click that still shows a `継続` button caption, outside the notice
    pair, makes `renew_vps` report success: the caption is itself a success word.
   */
  lemma RenewButtonStillShownRenews(v: VpsVisit, k: nat)
    requires !WindowClosed(v.pageText) && !WindowClosed(v.resultText)
    requires k < |v.captions| && Contains(v.captions[k], "継続")
    requires Contains(v.resultText, v.captions[k])
    ensures RenewVpsSucceeds(v)
  {
    ContainsTransitive(v.resultText, v.captions[k], "継続");
    RenewCaptionIsSuccessWord(v.resultText);
    assert IsRenewButton(v.captions[k]);
  }

  // ---------------------------------------------------------------- one account's run

  /** An entry a run returns without renewing: only `success` and `message` are set. */
  function Failure(message: string): (r: Outcome)
    ensures !r.success && r.message == message && r.name.None? && r.expiry.None?
  {
    Outcome(None, None, false, message, None)
  }

  /**
    What `renew_vps` sees for one VPS: the expiry `get_vps_expiry` read, the renewal page,
    the Turnstile rounds, the button captions and the page after the click.
   */
  datatype VpsVisit = VpsVisit(expiry: Option<string>, pageText: string, probe: nat -> Probe,
                               captions: seq<string>, resultText: string)

  /** The verdict `renew_vps` reaches on a visit. */
  predicate RenewVpsSucceeds(v: VpsVisit) {
    && !WindowClosed(v.pageText)
    && (exists k :: 0 <= k < |v.captions| && IsRenewButton(v.captions[k]))
    && HasSuccessWord(v.resultText) && !WindowClosed(v.resultText)
  }

  /**
    Where the `try` block of `run` raised: in `login`, in `get_vps_list`, in the
    `renew_vps` of the `k`-th listed VPS, or in `save_session`.
   */
  datatype RunStep = InLogin | InList | InRenew(k: nat) | InSave

  /** An exception raised in `step`; `error` is its `str(e)`. */
  datatype RunCrash = RunCrash(step: RunStep, error: string)

  /**
    What one account's run sees: the login URLs, the VPS links on the panel, the visit of
    the `k`-th listed VPS, and the exception, if any.
   */
  datatype Session = Session(landingUrl: string, formFilled: bool, submittedUrl: string,
                             links: seq<VpsLink>, visits: nat -> VpsVisit, crash: Option<RunCrash>)

  predicate CrashIn(s: Session, step: RunStep) {
    s.crash.Some? && s.crash.value.step == step
  }

  /** `login` completed and returned true. */
  predicate SignedIn(s: Session) {
    !CrashIn(s, InLogin) && Login(s.landingUrl, s.formFilled, s.submittedUrl)
  }

  /** The VPS list was read and is not empty. */
  predicate Listed(s: Session) {
    SignedIn(s) && !CrashIn(s, InList) && Keep(s.links, {}) != []
  }

  /** How many VPSes of the list `renew_vps` went through before an exception, if any. */
  function Renewed(s: Session): (n: nat)
    ensures n <= |Keep(s.links, {})|
  {
    var count := |Keep(s.links, {})|;
    if s.crash.Some? && s.crash.value.step.InRenew? && s.crash.value.step.k < count
    then s.crash.value.step.k
    else count
  }

  /** The renewal loop or the session saving raised, so an exception entry follows. */
  predicate Aborted(s: Session) {
    s.crash.Some? && (CrashIn(s, InSave) || (s.crash.value.step.InRenew? && s.crash.value.step.k < |Keep(s.links, {})|))
  }

  /** The entry `renew_vps` gives for `link` on `v`: its id, name, expiry and verdict. */
  predicate RenewedEntry(r: Outcome, link: VpsLink, v: VpsVisit) {
    r.id == Some(link.id) && r.name == Some(link.name) && r.expiry == v.expiry
    && (r.success <==> RenewVpsSucceeds(v))
  }

  /**
    `XServerVPSRenewer.run` inside the browser's lifetime: one failure entry when signing in
    raises or fails, when listing raises or finds nothing; otherwise one entry per listed
    VPS in list order, cut short by an exception in the loop, and an exception entry after
    the renewed ones when the loop or the saving raised.
   */
  method RunRenewer(s: Session) returns (results: seq<Outcome>)
    ensures results != []
    ensures CrashIn(s, InLogin) ==> results == [Failure(s.crash.value.error)]
    ensures !CrashIn(s, InLogin) && !Login(s.landingUrl, s.formFilled, s.submittedUrl) ==>
      results == [Failure("登录失败")]
    ensures SignedIn(s) && CrashIn(s, InList) ==> results == [Failure(s.crash.value.error)]
    ensures SignedIn(s) && !CrashIn(s, InList) && Keep(s.links, {}) == [] ==>
      results == [Failure("未找到 VPS")]
    ensures Listed(s) ==> |results| == Renewed(s) + (if Aborted(s) then 1 else 0)
    ensures Listed(s) ==> forall j :: 0 <= j < Renewed(s) ==>
      RenewedEntry(results[j], Keep(s.links, {})[j], s.visits(j))
    ensures Listed(s) && Aborted(s) ==> results[Renewed(s)] == Failure(s.crash.value.error)
    ensures (exists j :: 0 <= j < |results| && results[j].success) <==>
      Listed(s) && exists j :: 0 <= j < Renewed(s) && RenewVpsSucceeds(s.visits(j))
  {
    if CrashIn(s, InLogin) {
      return [Failure(s.crash.value.error)];
    }
    if !Login(s.landingUrl, s.formFilled, s.submittedUrl) {
      return [Failure("登录失败")];
    }
    if CrashIn(s, InList) {
      return [Failure(s.crash.value.error)];
    }
    var vpsList := Dedup(s.links);
    if vpsList == [] {
      return [Failure("未找到 VPS")];
    }
    results := [];
    var k := 0;
    while k < |vpsList|
      invariant 0 <= k <= |vpsList| && |results| == k
      invariant forall j :: 0 <= j < k ==> !CrashIn(s, InRenew(j))
      invariant forall j :: 0 <= j < k ==> RenewedEntry(results[j], vpsList[j], s.visits(j))
    {
      if CrashIn(s, InRenew(k)) {
        results := results + [Failure(s.crash.value.error)];
        assert results[k] == Failure(s.crash.value.error);
        return;
      }
      var v := s.visits(k);
      var r, _, _ := RenewVps(vpsList[k].id, vpsList[k].name, v.expiry, v.pageText, v.probe, v.captions, v.resultText);
      results := results + [r];
      k := k + 1;
    }
    if CrashIn(s, InSave) {
      results := results + [Failure(s.crash.value.error)];
    }
  }
}
