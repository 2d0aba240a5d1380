/** The two-level memo of configuration keys: one table per namespace, from account names to tables from
    setting names to keys. */
module KeyCache {
  import opened Messages
  import opened AccountKeys

  type Table = map<string, map<string, Option<string>>>

  datatype Cache = Cache(serverAccounts: Table, accounts: Table) {
    function Of(server: bool): Table {
      if server then serverAccounts else accounts
    }

    function With(server: bool, t: Table): Cache {
      if server then Cache(t, accounts) else Cache(serverAccounts, t)
    }
  }

  /** One call: _modest_account_mgr_get_account_keyname_cached (priv, account, name, server). */
  datatype Query = Query(account: Option<string>, name: Option<string>, server: bool)

  /** What a missing setting name is stored under. */
  function Slot(name: Option<string>): string {
    if name.Some? then name.value else "<dummy>"
  }

  function Uncached(ks: KeySpace, q: Query): Option<string> {
    Keyname(ks, q.account, q.name, q.server)
  }

  function Inner(t: Table, account: string): map<string, Option<string>> {
    if account in t then t[account] else map[]
  }

  /** The key stored for a query, if any; a stored NULL counts as absent. */
  function Stored(c: Cache, q: Query): Option<string>
    requires q.account.Some?
  {
    var inner := Inner(c.Of(q.server), q.account.value);
    if Slot(q.name) in inner then inner[Slot(q.name)] else None
  }

  function Answer(ks: KeySpace, c: Cache, q: Query): Option<string> {
    if q.account.None? then Some(ks.Namespace(q.server))
    else if Stored(c, q).Some? then Stored(c, q)
    else Uncached(ks, q)
  }

  function Updated(ks: KeySpace, c: Cache, q: Query): Cache {
    if q.account.None? || Stored(c, q).Some? then c
    else
      var t, account := c.Of(q.server), q.account.value;
      c.With(q.server, t[account := Inner(t, account)[Slot(q.name) := Uncached(ks, q)]])
  }

  class AccountKeyCache {
    const ks: KeySpace
    var serverAccountKeyHash: Table
    var accountKeyHash: Table

    function View(): Cache
      reads this
    {
      Cache(serverAccountKeyHash, accountKeyHash)
    }

    constructor (ks: KeySpace)
      ensures this.ks == ks && View() == Cache(map[], map[])
    {
      this.ks, serverAccountKeyHash, accountKeyHash := ks, map[], map[];
    }

    /** _modest_account_mgr_get_account_keyname_cached. */
    method GetAccountKeynameCached(account: Option<string>, name: Option<string>, isServer: bool)
      returns (key: Option<string>)
      requires ks.Valid()
      modifies this
      ensures key == Answer(ks, old(View()), Query(account, name, isServer))
      ensures View() == Updated(ks, old(View()), Query(account, name, isServer))
    {
      if account.None? {
        return Some(ks.Namespace(isServer));
      }
      var hash := if isServer then serverAccountKeyHash else accountKeyHash;
      var searchName := if name.Some? then name.value else "<dummy>";
      if account.value !in hash {
        key := GetAccountKeyname(ks, account, name, isServer);
        Store(isServer, hash[account.value := map[searchName := key]]);
        assert map[][searchName := key] == map[searchName := key];
        return;
      }
      var accountHash := hash[account.value];
      key := if searchName in accountHash then accountHash[searchName] else None;
      if key.None? {
        key := GetAccountKeyname(ks, account, name, isServer);
        Store(isServer, hash[account.value := accountHash[searchName := key]]);
      }
    }

    method Store(isServer: bool, hash: Table)
      modifies this
      ensures View() == old(View()).With(isServer, hash)
    {
      if isServer {
        serverAccountKeyHash := hash;
      } else {
        accountKeyHash := hash;
      }
    }
  }

  /** The cache after a history of calls. */
  function After(ks: KeySpace, history: seq<Query>): Cache {
    if history == [] then Cache(map[], map[])
    else Updated(ks, After(ks, history[..|history| - 1]), history[|history| - 1])
  }

  /** Two queries that look at the same place of the cache. */
  predicate SamePlace(p: Query, q: Query) {
    p.account.Some? && p.account == q.account && p.server == q.server && Slot(p.name) == Slot(q.name)
  }

  /** The first query of a history that looked at the same place as q. */
  function FirstAt(history: seq<Query>, q: Query): (p: Option<Query>)
    ensures p.Some? ==> SamePlace(p.value, q) && p.value in history
  {
    if history == [] then None
    else
      var n := |history| - 1;
      var p := FirstAt(history[..n], q);
      if p.Some? then p
      else if SamePlace(history[n], q) then Some(history[n])
      else None
  }

  lemma SamePlaceSameRefusal(ks: KeySpace, p: Query, q: Query)
    requires ks.Valid() && SamePlace(p, q)
    ensures Uncached(ks, p).None? <==> Uncached(ks, q).None?
  {
    KeynameIsValid(ks, p.account.value, p.name, p.server);
    KeynameIsValid(ks, q.account.value, q.name, q.server);
  }

  lemma UpdateElsewhere(ks: KeySpace, c: Cache, p: Query, q: Query)
    requires q.account.Some?
    ensures Stored(Updated(ks, c, p), q)
         == if SamePlace(p, q) && Stored(c, q).None? then Uncached(ks, p) else Stored(c, q)
  {
  }

  /** The place a query looks at holds the key of the first query that looked there. */
  lemma {:induction false} StoredIsFirst(ks: KeySpace, history: seq<Query>, q: Query)
    requires ks.Valid() && q.account.Some?
    ensures Stored(After(ks, history), q)
         == if FirstAt(history, q).Some? then Uncached(ks, FirstAt(history, q).value) else None
  {
    if history != [] {
      var n := |history| - 1;
      StoredIsFirst(ks, history[..n], q);
      UpdateElsewhere(ks, After(ks, history[..n]), history[n], q);
      var p := FirstAt(history[..n], q);
      if p.Some? && SamePlace(history[n], q) {
        SamePlaceSameRefusal(ks, p.value, history[n]);
      }
    }
  }

  /** After any history of calls, for both namespaces, the cached lookup gives the key of the first query
      for the same place. */
  lemma AnswerIsFirst(ks: KeySpace, history: seq<Query>, q: Query)
    requires ks.Valid()
    ensures Answer(ks, After(ks, history), q)
         == Uncached(ks, if FirstAt(history, q).Some? then FirstAt(history, q).value else q)
  {
    if q.account.Some? {
      StoredIsFirst(ks, history, q);
      var p := FirstAt(history, q);
      if p.Some? {
        SamePlaceSameRefusal(ks, p.value, q);
      }
    }
  }

  /** So the cache agrees with the uncached construction exactly if the first query for the place had the
      same setting name (for names that have a key at all). */
  lemma CacheIsRightExactly(ks: KeySpace, history: seq<Query>, q: Query)
    requires ks.Valid() && q.account.Some? && q.account.value != "" && q.name != Some("")
    ensures Answer(ks, After(ks, history), q) == Uncached(ks, q)
       <==> FirstAt(history, q).None? || FirstAt(history, q).value.name == q.name
  {
    AnswerIsFirst(ks, history, q);
    var p := FirstAt(history, q);
    if p.Some? && Uncached(ks, p.value) == Uncached(ks, q) {
      KeysAreDistinct(ks, p.value.account.value, p.value.name, p.value.server, q.account.value, q.name, q.server);
    }
  }

  /** In particular it always does as long as no setting is called "<dummy>". */
  lemma CacheIsRight(ks: KeySpace, history: seq<Query>, q: Query)
    requires ks.Valid()
    requires q.name != Some("<dummy>") && forall p :: p in history ==> p.name != Some("<dummy>")
    ensures Answer(ks, After(ks, history), q) == Uncached(ks, q)
  {
    AnswerIsFirst(ks, history, q);
  }

  /** A setting of that name gets the key of its account. */
  lemma DummySettingIsWrong(ks: KeySpace)
    requires ks.Valid()
    ensures var q := Query(Some("a"), Some("<dummy>"), false);
            Answer(ks, After(ks, [Query(Some("a"), None, false)]), q) != Uncached(ks, q)
  {
    var first, q := Query(Some("a"), None, false), Query(Some("a"), Some("<dummy>"), false);
    var history := [first];
    assert history[..0] == [];
    assert FirstAt([], q).None?;
    assert FirstAt(history, q) == Some(first);
    CacheIsRightExactly(ks, history, q);
  }
}
