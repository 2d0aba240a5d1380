/** The configuration keys of accounts: printing a key from an account name and a setting, and reading the
    account name back from a key. */
module AccountKeys {
  import opened Messages
  import opened Numerals

  /** The escaping of names in keys, and the namespace all keys live under. */
  datatype KeySpace = KeySpace(root: string, escape: string -> string, unescape: string -> string) {

    /** What is needed of the escaping: it can be undone, leaves no slash, and does nothing to ASCII letters
        and digits. */
    ghost predicate Faithful() {
      && (forall s :: unescape(escape(s)) == s)
      && (forall s :: '/' !in escape(s))
      && (forall s :: IsAlphanum(s) ==> escape(s) == s)
    }

    ghost predicate Valid() {
      Faithful() && IsValidKey(root)
    }

    function Namespace(server: bool): string {
      root + if server then "/server_accounts" else "/accounts"
    }
  }

  predicate IsAlphanumChar(c: char) {
    48 as char <= c <= 57 as char || 65 as char <= c <= 90 as char || 97 as char <= c <= 122 as char
  }

  predicate IsAlphanum(s: string) {
    forall k :: 0 <= k < |s| ==> IsAlphanumChar(s[k])
  }

  /** Keys start with a slash, do not end with one, and have no two in a row. */
  predicate IsValidKey(key: string) {
    && key != "" && key[0] == '/' && key[|key| - 1] != '/'
    && forall k :: 0 <= k < |key| - 1 ==> !(key[k] == '/' && key[k + 1] == '/')
  }

  /** The key without the shortcut for alphanumeric names. */
  function RawKey(ks: KeySpace, account: string, name: Option<string>, server: bool): string {
    ks.Namespace(server) + "/" + ks.escape(account) + if name.Some? then "/" + ks.escape(name.value) else ""
  }

  function Keyname(ks: KeySpace, account: Option<string>, name: Option<string>, server: bool): Option<string> {
    if account.None? then Some(ks.Namespace(server))
    else
      var key := RawKey(ks, account.value, name, server);
      if IsValidKey(key) then Some(key) else None
  }

  method CheckAlphanum(str: string) returns (alphanum: bool)
    ensures alphanum == IsAlphanum(str)
    ensures alphanum <==> forall k :: 0 <= k < |str| ==>
              '0' <= str[k] <= '9' || 'A' <= str[k] <= 'Z' || 'a' <= str[k] <= 'z'
  {
    var cursor := 0;
    while cursor < |str|
      invariant cursor <= |str| && IsAlphanum(str[..cursor])
    {
      var c := str[cursor];
      if !((c >= 48 as char && c <= 57 as char) || (c >= 65 as char && c <= 90 as char)
           || (c >= 97 as char && c <= 122 as char)) {
        return false;
      }
      assert str[..cursor + 1] == str[..cursor] + [c];
      cursor := cursor + 1;
    }
    assert str[..cursor] == str;
    return true;
  }

  /** _modest_account_mgr_get_account_keyname: escaping only names that need it gives the same key. */
  method GetAccountKeyname(ks: KeySpace, account: Option<string>, name: Option<string>, server: bool)
    returns (retval: Option<string>)
    requires ks.Valid()
    ensures retval == Keyname(ks, account, name, server)
  {
    var namespace := ks.root + if server then "/server_accounts" else "/accounts";
    if account.None? {
      return Some(namespace);
    }
    var escapedAccount := account.value;
    var plain := CheckAlphanum(account.value);
    if !plain {
      escapedAccount := ks.escape(account.value);
    }
    var key := namespace + "/" + escapedAccount;
    if name.Some? {
      var escapedName := name.value;
      plain := CheckAlphanum(name.value);
      if !plain {
        escapedName := ks.escape(name.value);
      }
      assert key + ("/" + escapedName) == key + "/" + escapedName;
      key := key + "/" + escapedName;
    } else {
      assert key + "" == key;
    }
    if !IsValidKey(key) {
      return None;
    }
    return Some(key);
  }

  datatype Parsed = Parsed(account: Option<string>, isAccountKey: bool, isServer: bool)

  function FirstSlash(s: string): (n: nat)
    ensures n <= |s| && '/' !in s[..n] && (n < |s| ==> s[n] == '/')
  {
    if s == "" || s[0] == '/' then 0
    else
      var n := FirstSlash(s[1..]) + 1;
      assert s[..n] == [s[0]] + s[1..][..n - 1];
      n
  }

  function ParseRest(ks: KeySpace, rest: string, server: bool): Parsed {
    var n := FirstSlash(rest);
    Parsed(Some(ks.unescape(rest[..n])), n < |rest|, server)
  }

  function Parse(ks: KeySpace, key: string): Parsed {
    var accountNs := ks.Namespace(false) + "/";
    var serverNs := ks.Namespace(true) + "/";
    if accountNs <= key then ParseRest(ks, key[|accountNs|..], false)
    else if serverNs <= key then ParseRest(ks, key[|serverNs|..], true)
    else Parsed(None, false, false)
  }

  /** _modest_account_mgr_account_from_key. */
  method AccountFromKey(ks: KeySpace, key: string) returns (account: Option<string>, isAccountKey: bool, isServer: bool)
    ensures Parsed(account, isAccountKey, isServer) == Parse(ks, key)
  {
    isAccountKey, isServer := false, false;
    var accountNs := ks.Namespace(false) + "/";
    var serverNs := ks.Namespace(true) + "/";
    var rest: string;
    if accountNs <= key {
      isServer := false;
      rest := key[|accountNs|..];
    } else if serverNs <= key {
      isServer := true;
      rest := key[|serverNs|..];
    } else {
      return None, false, false;
    }
    var cursor := 0;
    while cursor < |rest| && rest[cursor] != '/'
      invariant cursor <= |rest| && '/' !in rest[..cursor]
    {
      assert rest[..cursor + 1] == rest[..cursor] + [rest[cursor]];
      cursor := cursor + 1;
    }
    FirstSlashIs(rest, cursor);
    if cursor < |rest| {
      isAccountKey := true;
      rest := rest[..cursor];
    } else {
      assert rest[..cursor] == rest;
    }
    account := Some(ks.unescape(rest));
  }

  lemma FirstSlashIs(s: string, n: nat)
    requires n <= |s| && '/' !in s[..n] && (n < |s| ==> s[n] == '/')
    ensures FirstSlash(s) == n
  {
    var m := FirstSlash(s);
    assert forall k :: 0 <= k < n ==> s[..n][k] == s[k];
    assert forall k :: 0 <= k < m ==> s[..m][k] == s[k];
  }

  // ----- printing and parsing undo each other -----

  /** A key is only refused for an empty account or setting name. */
  lemma KeynameIsValid(ks: KeySpace, account: string, name: Option<string>, server: bool)
    requires ks.Valid()
    ensures Keyname(ks, Some(account), name, server) ==
            if account == "" || name == Some("") then None else Some(RawKey(ks, account, name, server))
  {
    var a, ns, key := ks.escape(account), ks.Namespace(server), RawKey(ks, account, name, server);
    EscapeKeepsEmpty(ks, account);
    NamespaceIsValid(ks, server);
    var top := ns + "/" + a;
    Extend(ns, a);
    if name.None? {
      assert key == top;
    } else {
      var e := ks.escape(name.value);
      EscapeKeepsEmpty(ks, name.value);
      assert key == top + "/" + e;
      if a != "" {
        Extend(top, e);
      } else {
        assert key[|ns|] == '/' && key[|ns| + 1] == '/';
      }
    }
  }

  lemma EscapeKeepsEmpty(ks: KeySpace, s: string)
    requires ks.Valid()
    ensures ks.escape(s) == "" <==> s == ""
  {
    assert ks.unescape(ks.escape(s)) == s;
    assert ks.unescape(ks.escape("")) == "";
    assert IsAlphanum("");
  }

  lemma NamespaceIsValid(ks: KeySpace, server: bool)
    requires ks.Valid()
    ensures IsValidKey(ks.Namespace(server))
  {
    var part := if server then "server_accounts" else "accounts";
    assert ks.Namespace(server) == ks.root + "/" + part;
    Extend(ks.root, part);
  }

  /** A part without slashes extends a valid key to a valid key unless it is empty. */
  lemma Extend(key: string, part: string)
    requires IsValidKey(key) && '/' !in part
    ensures IsValidKey(key + "/" + part) <==> part != ""
  {
    var longer := key + "/" + part;
    if part == "" {
      assert longer[|longer| - 1] == '/';
    } else {
      assert longer[|longer| - 1] == part[|part| - 1];
      forall k | 0 <= k < |longer| - 1 ensures !(longer[k] == '/' && longer[k + 1] == '/') {
        if k > |key| { assert longer[k] == part[k - |key| - 1]; }
        else if k == |key| { assert longer[k + 1] == part[0]; }
      }
    }
  }

  lemma AccountKeyParses(ks: KeySpace, rest: string, a: string, isAccountKey: bool, server: bool)
    requires '/' !in a && (if isAccountKey then |a| < |rest| && rest[|a|] == '/' && rest[..|a|] == a else rest == a)
    ensures Parse(ks, ks.Namespace(server) + "/" + rest) == Parsed(Some(ks.unescape(a)), isAccountKey, server)
  {
    var ns, other := ks.Namespace(server) + "/", ks.Namespace(!server) + "/";
    var key := ns + rest;
    assert key == ks.Namespace(server) + "/" + rest;
    assert key[|ns|..] == rest;
    var n := |ks.root| + 1;
    assert ns[n] == if server then 's' else 'a';
    assert other[n] == if server then 'a' else 's';
    assert key[n] == ns[n];
    assert !(other <= key);
    assert rest[..|a|] == a;
    FirstSlashIs(rest, |a|);
  }

  /** Reading a key gives back what it was printed from: the account, the namespace, and whether there was
      a setting. */
  lemma ParseUndoesPrint(ks: KeySpace, account: string, name: Option<string>, server: bool)
    requires ks.Valid() && account != "" && name != Some("")
    ensures Keyname(ks, Some(account), name, server).Some?
    ensures Parse(ks, Keyname(ks, Some(account), name, server).value) == Parsed(Some(account), name.Some?, server)
  {
    KeynameIsValid(ks, account, name, server);
    var a := ks.escape(account);
    var rest := if name.Some? then a + "/" + ks.escape(name.value) else a;
    assert RawKey(ks, account, name, server) == ks.Namespace(server) + "/" + rest;
    assert name.Some? ==> rest[|a|] == '/' && rest[..|a|] == a;
    assert ks.unescape(a) == account;
    AccountKeyParses(ks, rest, a, name.Some?, server);
  }

  /** The key of a setting whose names are plain letters and digits. */
  lemma PlainKey(ks: KeySpace, account: string, name: string, server: bool)
    requires ks.Valid() && account != "" && name != ""
    requires forall c :: c in account + name ==> '0' <= c <= '9' || 'A' <= c <= 'Z' || 'a' <= c <= 'z'
    ensures var directory := ks.root + if server then "/server_accounts" else "/accounts";
            && Keyname(ks, None, None, server) == Some(directory)
            && Keyname(ks, Some(account), None, server) == Some(directory + "/" + account)
            && Keyname(ks, Some(account), Some(name), server) == Some(directory + "/" + account + "/" + name)
  {
    assert forall k :: 0 <= k < |account| ==> account[k] in account + name;
    assert forall k :: 0 <= k < |name| ==> name[k] in account + name;
    assert IsAlphanum(account) && IsAlphanum(name);
    KeynameIsValid(ks, account, None, server);
    KeynameIsValid(ks, account, Some(name), server);
    assert RawKey(ks, account, None, server) == ks.Namespace(server) + "/" + account;
    assert RawKey(ks, account, Some(name), server) == ks.Namespace(server) + "/" + account + "/" + name;
  }

  /** Reading any key: without its directory it is no account's, and under it the account ends at the next slash. */
  lemma ParsesByDirectory(ks: KeySpace, key: string)
    ensures !(ks.root + "/accounts/" <= key) && !(ks.root + "/server_accounts/" <= key) ==>
              Parse(ks, key) == Parsed(None, false, false)
    ensures ks.root + "/server_accounts/" <= key ==> Parse(ks, key).account.Some? && Parse(ks, key).isServer
    ensures ks.root + "/accounts/" <= key ==> Parse(ks, key).account.Some? && !Parse(ks, key).isServer
  {
    var n := |ks.root| + 1;
    assert ks.Namespace(false) + "/" == ks.root + "/accounts/";
    assert ks.Namespace(true) + "/" == ks.root + "/server_accounts/";
    assert (ks.root + "/accounts/")[n] == 'a' && (ks.root + "/server_accounts/")[n] == 's';
    if ks.root + "/server_accounts/" <= key {
      assert key[n] == 's';
    }
  }

  lemma SameTail(top: string, x: string, y: string)
    requires top + x == top + y
    ensures x == y
  {
    assert x == (top + x)[|top|..];
    assert y == (top + y)[|top|..];
  }

  lemma SettingsAreDistinct(ks: KeySpace, account: string, name: string, name': string, server: bool)
    requires ks.Valid() && RawKey(ks, account, Some(name), server) == RawKey(ks, account, Some(name'), server)
    ensures name == name'
  {
    SameTail(ks.Namespace(server) + "/" + ks.escape(account), "/" + ks.escape(name), "/" + ks.escape(name'));
    SameTail("/", ks.escape(name), ks.escape(name'));
    assert ks.unescape(ks.escape(name)) == name && ks.unescape(ks.escape(name')) == name';
  }

  /** Different accounts, settings or namespaces never share a key. */
  lemma KeysAreDistinct(ks: KeySpace, a: string, n: Option<string>, s: bool, a': string, n': Option<string>, s': bool)
    requires ks.Valid() && a != "" && n != Some("") && a' != "" && n' != Some("")
    requires Keyname(ks, Some(a), n, s) == Keyname(ks, Some(a'), n', s')
    ensures a == a' && n == n' && s == s'
  {
    ParseUndoesPrint(ks, a, n, s);
    ParseUndoesPrint(ks, a', n', s');
    if n.Some? {
      KeynameIsValid(ks, a, n, s);
      KeynameIsValid(ks, a', n', s');
      SettingsAreDistinct(ks, a, n.value, n'.value, s);
    }
  }

  // ----- an escaping -----

  /** An escaping in the manner of GConf: any byte that is not a letter or digit becomes its number between
      two at signs. */
  function Escape(s: string): string {
    if s == "" then ""
    else (if IsAlphanumChar(s[0]) then [s[0]] else "@" + PrintNat(s[0] as nat) + "@") + Escape(s[1..])
  }

  function FirstAt(s: string): (n: nat)
    ensures n <= |s|
  {
    if s == "" || s[0] == '@' then 0 else FirstAt(s[1..]) + 1
  }

  predicate IsCode(n: nat) {
    n < 0xD800 || 0xE000 <= n < 0x11_0000
  }

  function Unescape(s: string): string
    decreases |s|
  {
    if s == "" then ""
    else if s[0] != '@' then [s[0]] + Unescape(s[1..])
    else
      var n := FirstAt(s[1..]);
      var digits := s[1..1 + n];
      (if AllDigits(digits) && IsCode(Value(digits)) then [Value(digits) as char] else "")
      + Unescape(s[Min(n + 2, |s|)..])
  }

  lemma {:induction false} FirstAtEndsDigits(digits: string, rest: string)
    requires AllDigits(digits)
    ensures FirstAt(digits + "@" + rest) == |digits|
  {
    var s := digits + "@" + rest;
    if digits != "" {
      assert s[1..] == digits[1..] + "@" + rest;
      FirstAtEndsDigits(digits[1..], rest);
    }
  }

  lemma UnescapeCode(c: char, tail: string)
    ensures Unescape("@" + PrintNat(c as nat) + "@" + tail) == [c] + Unescape(tail)
  {
    var digits := PrintNat(c as nat);
    var e := "@" + digits + "@" + tail;
    assert e[1..] == digits + "@" + tail;
    FirstAtEndsDigits(digits, tail);
    assert e[1..1 + |digits|] == digits;
    assert e[|digits| + 2..] == tail;
  }

  lemma {:induction false} UnescapeUndoesEscape(s: string)
    ensures Unescape(Escape(s)) == s
  {
    if s != "" {
      var tail := Escape(s[1..]);
      UnescapeUndoesEscape(s[1..]);
      if IsAlphanumChar(s[0]) {
        assert Escape(s)[1..] == tail;
      } else {
        UnescapeCode(s[0], tail);
      }
      assert s == [s[0]] + s[1..];
    }
  }

  lemma {:induction false} EscapeLeavesNoSlash(s: string)
    ensures '/' !in Escape(s)
    ensures IsAlphanum(s) ==> Escape(s) == s
  {
    if s != "" {
      EscapeLeavesNoSlash(s[1..]);
      assert s == [s[0]] + s[1..];
    }
  }

  lemma EscapingIsFaithful()
    ensures KeySpace("/apps/modest", Escape, Unescape).Valid()
  {
    forall s: string
      ensures Unescape(Escape(s)) == s && '/' !in Escape(s) && (IsAlphanum(s) ==> Escape(s) == s)
    {
      UnescapeUndoesEscape(s);
      EscapeLeavesNoSlash(s);
    }
  }
}
