/**
  Configuration of renew.py: the `.env` file read line by line into a dictionary, the
  comma-separated `ACCOUNTS` value, and the per-account session file name.
  The file itself is not read here: its lines are the input.
 */
module RenewConfig {
  import opened Wrappers
  import opened PyStr
  import opened Accounts

  /**
    The `key = value` binding one `.env` line makes: none for a line that is blank after
    stripping, starts with `#`, or holds no `=`.
   */
  function EnvBinding(line: string): (b: Option<(string, string)>)
    ensures b.Some? <==> (Strip(line) != [] && Strip(line)[0] != '#' && '=' in Strip(line))
    ensures b.Some? ==> Trimmed(b.value.0) && Trimmed(b.value.1)
  {
    var l := Strip(line);
    if l != [] && !StartsWith(l, "#") && '=' in l then
      var kv := SplitAtFirst(l, '=');
      Some((Strip(kv.0), Strip(kv.1)))
    else
      None
  }

  /** The key is the stripped text before the first `=`, the value the stripped text after it. */
  lemma EnvBindingCut(line: string, i: nat)
    requires Strip(line) != [] && Strip(line)[0] != '#'
    requires i < |Strip(line)| && Strip(line)[i] == '=' && '=' !in Strip(line)[..i]
    ensures EnvBinding(line) == Some((Strip(Strip(line)[..i]), Strip(Strip(line)[i + 1..])))
  {
    var l := Strip(line);
    assert l == l[..i] + ['='] + l[i + 1..];
    SplitAtFirstUnique(l, '=', l[..i], l[i + 1..]);
  }

  /** The binding of each line, position by position. */
  function Bindings(lines: seq<string>): (bs: seq<Option<(string, string)>>)
    ensures |bs| == |lines|
    ensures forall j :: 0 <= j < |lines| ==> bs[j] == EnvBinding(lines[j])
  {
    seq(|lines|, j requires 0 <= j < |lines| => EnvBinding(lines[j]))
  }

  /** The dictionary that storing the bindings in order builds, a later one overwriting. */
  function Store<K, V>(bs: seq<Option<(K, V)>>): map<K, V> {
    if bs == [] then map[]
    else
      var env := Store(bs[..|bs| - 1]);
      match bs[|bs| - 1]
      case None => env
      case Some(kv) => env[kv.0 := kv.1]
  }

  /** Storing one more binding updates the dictionary at its key, or leaves it alone. */
  lemma StoreStep<K, V>(bs: seq<Option<(K, V)>>, i: nat)
    requires i < |bs|
    ensures Store(bs[..i + 1]) == if bs[i].Some? then Store(bs[..i])[bs[i].value.0 := bs[i].value.1] else Store(bs[..i])
  {
    assert bs[..i + 1][..i] == bs[..i];
  }

  /** The dictionary `load_env` returns for the lines of the file. */
  function EnvOf(lines: seq<string>): map<string, string> {
    Store(Bindings(lines))
  }

  /** `load_env` once the file is open: each line is stripped and, when it binds, stored. */
  method LoadEnv(lines: seq<string>) returns (env: map<string, string>)
    ensures env == EnvOf(lines)
  {
    env := map[];
    var i := 0;
    while i < |lines|
      invariant 0 <= i <= |lines|
      invariant env == Store(Bindings(lines)[..i])
    {
      var line := Strip(lines[i]);
      ghost var b := Bindings(lines)[i];
      assert b == EnvBinding(lines[i]);
      if line != [] && !StartsWith(line, "#") && '=' in line {
        var kv := SplitAtFirst(line, '=');
        env := env[Strip(kv.0) := Strip(kv.1)];
        assert b == Some((Strip(kv.0), Strip(kv.1)));
      } else {
        assert b == None;
      }
      StoreStep(Bindings(lines), i);
      i := i + 1;
    }
    assert Bindings(lines)[..|lines|] == Bindings(lines);
  }

  /** Binding `j` is for `key`. */
  ghost predicate BindsAt<K, V>(bs: seq<Option<(K, V)>>, key: K, j: nat) {
    j < |bs| && bs[j].Some? && bs[j].value.0 == key
  }

  /** A key is stored exactly when some binding is for it. */
  lemma {:induction false} StoreKeys<K, V>(bs: seq<Option<(K, V)>>, key: K)
    ensures key in Store(bs) <==> exists j: nat :: BindsAt(bs, key, j)
    decreases |bs|
  {
    if bs != [] {
      var init := bs[..|bs| - 1];
      var last := |bs| - 1;
      StoreKeys(init, key);
      if BindsAt(bs, key, last) {
        assert Store(bs) == Store(init)[key := bs[last].value.1];
      } else {
        assert key in Store(bs) <==> key in Store(init);
        if key in Store(init) {
          var j: nat :| BindsAt(init, key, j);
          assert BindsAt(bs, key, j);
        }
        if exists j: nat :: BindsAt(bs, key, j) {
          var j: nat :| BindsAt(bs, key, j);
          assert BindsAt(init, key, j);
        }
      }
    }
  }

  /** Binding `j` is the last one for `key`. */
  ghost predicate LastAt<K, V>(bs: seq<Option<(K, V)>>, key: K, j: nat) {
    BindsAt(bs, key, j) && forall j': nat :: j < j' ==> !BindsAt(bs, key, j')
  }

  /** The stored value is the one the last binding for the key gives. */
  lemma {:induction false} StoreLatest<K, V>(bs: seq<Option<(K, V)>>, key: K, j: nat)
    requires LastAt(bs, key, j)
    ensures key in Store(bs) && Store(bs)[key] == bs[j].value.1
    decreases |bs|
  {
    var init := bs[..|bs| - 1];
    if j < |bs| - 1 {
      assert LastAt(init, key, j) by {
        forall j': nat | j < j' ensures !BindsAt(init, key, j') {
          assert !BindsAt(bs, key, j');
        }
      }
      StoreLatest(init, key, j);
      assert !BindsAt(bs, key, |bs| - 1);
    }
  }

  /** The line binds `key`. */
  predicate Binds(line: string, key: string) {
    EnvBinding(line).Some? && EnvBinding(line).value.0 == key
  }

  /** A key is in the dictionary exactly when some line binds it. */
  lemma EnvKeys(lines: seq<string>, key: string)
    ensures key in EnvOf(lines) <==> exists j :: 0 <= j < |lines| && Binds(lines[j], key)
  {
    var bs := Bindings(lines);
    StoreKeys(bs, key);
    if key in EnvOf(lines) {
      var j: nat :| BindsAt(bs, key, j);
      assert Binds(lines[j], key);
    }
    if exists j :: 0 <= j < |lines| && Binds(lines[j], key) {
      var j :| 0 <= j < |lines| && Binds(lines[j], key);
      assert BindsAt(bs, key, j);
    }
  }

  /** Line `j` is the last line that binds `key`. */
  ghost predicate LastBinding(lines: seq<string>, key: string, j: nat) {
    j < |lines| && Binds(lines[j], key)
    && forall j' :: j < j' < |lines| ==> !Binds(lines[j'], key)
  }

  /** The stored value is the one the last binding line gives: later duplicates overwrite. */
  lemma EnvLatest(lines: seq<string>, key: string, j: nat)
    requires LastBinding(lines, key, j)
    ensures key in EnvOf(lines) && EnvOf(lines)[key] == EnvBinding(lines[j]).value.1
  {
    var bs := Bindings(lines);
    forall j': nat | j < j' ensures !BindsAt(bs, key, j') {
      if j' < |lines| {
        assert !Binds(lines[j'], key);
      }
    }
    StoreLatest(bs, key, j);
  }

  /** `parse_accounts`: the `ACCOUNTS` value split on `,`, empty for an empty value. */
  method ParseAccounts(accountsStr: string) returns (accounts: seq<Account>)
    ensures accounts == AccountsOf(Split(accountsStr, ','))
    ensures accountsStr == "" ==> accounts == []
  {
    accounts := [];
    if accountsStr == "" {
      assert Split(accountsStr, ',') == [""];
      assert ParseAll([""]) == [None];
      return;
    }
    var pieces := Split(accountsStr, ',');
    var i := 0;
    while i < |pieces|
      invariant 0 <= i <= |pieces|
      invariant accounts == Present(ParseAll(pieces)[..i])
    {
      var item := Strip(pieces[i]);
      if ':' in item {
        var cut := SplitAtFirst(item, ':');
        accounts := accounts + [Account(Strip(cut.0), Strip(cut.1))];
      }
      assert ParseAll(pieces)[..i + 1][..i] == ParseAll(pieces)[..i];
      i := i + 1;
    }
    assert ParseAll(pieces)[..|pieces|] == ParseAll(pieces);
  }

  /** The session name: every `@` becomes `_at_` and every `.` becomes `_`. */
  function SafeName(email: string): (r: string)
    ensures '@' !in r && '.' !in r
  {
    Replace(Replace(email, '@', "_at_"), '.', "_")
  }

  /** The session file's name; the `sessions` directory it lives in is left to the caller. */
  function SessionFileName(email: string): (r: string)
    ensures |r| >= 5 && r[|r| - 5..] == ".json"
    ensures '@' !in r[..|r| - 5] && '.' !in r[..|r| - 5]
  {
    var r := SafeName(email) + ".json";
    assert r[..|r| - 5] == SafeName(email);
    r
  }

  /** The image of one character under `SafeName`. */
  function SafeChar(c: char): string {
    if c == '@' then "_at_" else if c == '.' then "_" else [c]
  }

  /** `SafeName` rewrites each character on its own, keeping the order. */
  lemma {:induction false} SafeNameAppend(a: string, b: string)
    ensures SafeName(a + b) == SafeName(a) + SafeName(b)
  {
    ReplaceAppend(a, b, '@', "_at_");
    ReplaceAppend(Replace(a, '@', "_at_"), Replace(b, '@', "_at_"), '.', "_");
  }

  lemma SafeNameChar(c: char)
    ensures SafeName([c]) == SafeChar(c)
  {
    assert [c][1..] == [];
    if c == '@' {
      assert Replace([c], '@', "_at_") == "_at_";
      ReplaceAbsent("_at_", '.', "_");
    } else {
      assert Replace([c], '@', "_at_") == [c];
      assert Replace([c], '.', "_") == SafeChar(c);
    }
  }

  /** An email without `@` and `.` is its own session name: other characters are kept. */
  lemma SafeNameKeeps(email: string)
    requires '@' !in email && '.' !in email
    ensures SafeName(email) == email
  {
    ReplaceAbsent(email, '@', "_at_");
    ReplaceAbsent(email, '.', "_");
  }

  /** The mapping is not injective: distinct emails can share a session file. */
  lemma SafeNameCollides()
    ensures "a.b" != "a_b" && SafeName("a.b") == SafeName("a_b")
  {
    assert "a.b" == "a" + "." + "b";
    assert "a_b" == "a" + "_" + "b";
    SafeNameAppend("a" + ".", "b");
    SafeNameAppend("a", ".");
    SafeNameAppend("a" + "_", "b");
    SafeNameAppend("a", "_");
    SafeNameChar('a');
    SafeNameChar('.');
    SafeNameChar('_');
    SafeNameChar('b');
  }
}
