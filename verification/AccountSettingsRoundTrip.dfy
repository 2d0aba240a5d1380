/** Saving the settings of an account and loading them again, beside other accounts. */
module AccountSettingsRoundTrip {
  import opened Messages
  import opened AccountNames
  import opened AccountKeys
  import opened Accounts
  import opened AccountsOwnership

  /** What is stored under an account. */
  function ValuesOf(conf: Conf, account: string, server: bool): map<string, Value> {
    map k | k in conf && k.server == server && k.account == account :: k.setting := conf[k]
  }

  /** What an account is loaded from is stored under its name. */
  lemma Reads(conf: Conf, account: string, setting: string, server: bool)
    ensures var v, k := ValuesOf(conf, account, server), ConfKey(server, account, setting);
            (setting in v <==> k in conf) && (setting in v ==> v[setting] == conf[k])
    ensures setting in ValuesOf(conf, account, server) ==> account in Names(conf, server)
  {
  }

  lemma StoredUnderName(conf: Conf, account: string, server: bool)
    ensures account in Names(conf, server) <==> ValuesOf(conf, account, server) != map[]
  {
    if account in Names(conf, server) {
      var k :| k in conf && k.server == server && k.account == account;
      assert k.setting in ValuesOf(conf, account, server);
    }
  }

  // ----- a server account -----

  /** What comes back of saved server settings: missing texts as empty ones, and beside a URI nothing else. */
  function NormalServer(p: Platform, s: ServerSettings): ServerSettings {
    if s.uri.None? then
      s.(hostname := Some(NullMeansEmpty(s.hostname)), username := Some(NullMeansEmpty(s.username)),
         password := Some(NullMeansEmpty(s.password)))
    else ServerSettings(s.uri, s.protocol, None, None, None, 0, p.noAuth, p.noSecurity, false, false)
  }

  lemma ServerByHost(s: ServerSettings)
    requires s.uri.None?
    ensures var v := ServerValues(s);
            && "uri" !in v && "proto" in v && v["proto"] == Text(s.protocol)
            && "hostname" in v && v["hostname"] == Text(NullMeansEmpty(s.hostname))
            && "username" in v && v["username"] == Text(NullMeansEmpty(s.username))
            && "password" in v && v["password"] == Text(NullMeansEmpty(s.password))
            && "port" in v && v["port"] == Number(s.port)
            && "auth_mech" in v && v["auth_mech"] == Text(s.auth)
            && "security" in v && v["security"] == Text(s.security)
            && "offline_sync" in v && v["offline_sync"] == Flag(s.offlineSync)
            && "update_all_folders" in v && v["update_all_folders"] == Flag(s.updateAllFolders)
  {
  }

  lemma LoadUndoesSaveServer(p: Platform, conf: Conf, name: string, s: ServerSettings)
    requires ValuesOf(conf, name, true) == ServerValues(s)
    ensures LoadServer(p, conf, name) == Some(NormalServer(p, s))
  {
    Reads(conf, name, "proto", true);
    Reads(conf, name, "uri", true);
    Reads(conf, name, "hostname", true);
    Reads(conf, name, "username", true);
    Reads(conf, name, "password", true);
    Reads(conf, name, "port", true);
    Reads(conf, name, "auth_mech", true);
    Reads(conf, name, "security", true);
    Reads(conf, name, "offline_sync", true);
    Reads(conf, name, "update_all_folders", true);
    if s.uri.None? {
      ServerByHost(s);
    } else {
      assert ServerValues(s) == map["uri" := Text(s.uri.value), "proto" := Text(s.protocol)];
    }
  }

  // ----- an account -----

  function Normal(p: Platform, s: AccountSettings): AccountSettings {
    s.(signature := Some(NullMeansEmpty(s.signature)), store := NormalServer(p, s.store),
       transport := NormalServer(p, s.transport))
  }

  lemma OwnTexts(s: AccountSettings, n: Chosen)
    ensures var v := AccountValues(s, n);
            && ("display_name" in v <==> s.displayName.Some?)
            && (s.displayName.Some? ==> v["display_name"] == Text(s.displayName.value))
            && ("fullname" in v <==> s.fullname.Some?) && (s.fullname.Some? ==> v["fullname"] == Text(s.fullname.value))
            && ("email" in v <==> s.email.Some?) && (s.email.Some? ==> v["email"] == Text(s.email.value))
  {
  }

  lemma OwnOthers(s: AccountSettings, n: Chosen)
    ensures var v := AccountValues(s, n);
            && "retrieve" in v && v["retrieve"] == Text(RetrieveName(s.retrieveType))
            && "limit-retrieve" in v && v["limit-retrieve"] == Number(s.retrieveLimit)
            && "leave_on_server" in v && v["leave_on_server"] == Flag(s.leaveOnServer)
            && "use_signature" in v && v["use_signature"] == Flag(s.useSignature)
            && "signature" in v && v["signature"] == Text(NullMeansEmpty(s.signature))
            && "use_specific_smtp" in v && v["use_specific_smtp"] == Flag(s.useSpecificSmtp)
  {
  }

  lemma RetrieveTypeIsKept(t: RetrieveType)
    ensures RetrieveTypeOf(Some(RetrieveName(t))) == t
  {
  }

  lemma OwnReads(conf: Conf, s: AccountSettings, n: Chosen)
    requires ValuesOf(conf, n.account, false) == AccountValues(s, n)
    ensures var a := n.account;
            && a in Names(conf, false) && GetBool(conf, a, "enabled", false)
            && GetString(conf, a, "store_account", false) == Some(n.store)
            && GetString(conf, a, "transport_account", false) == Some(n.transport)
            && GetString(conf, a, "display_name", false) == s.displayName
            && GetString(conf, a, "fullname", false) == s.fullname && GetString(conf, a, "email", false) == s.email
            && RetrieveTypeOf(GetString(conf, a, "retrieve", false)) == s.retrieveType
            && GetInt(conf, a, "limit-retrieve", false) == s.retrieveLimit
            && GetBool(conf, a, "leave_on_server", false) == s.leaveOnServer
            && GetBool(conf, a, "use_signature", false) == s.useSignature
            && GetString(conf, a, "signature", false) == Some(NullMeansEmpty(s.signature))
            && GetBool(conf, a, "use_specific_smtp", false) == s.useSpecificSmtp
  {
    AccountValuesNameServers(s, n);
    OwnTexts(s, n);
    OwnOthers(s, n);
    RetrieveTypeIsKept(s.retrieveType);
    Reads(conf, n.account, "enabled", false);
    Reads(conf, n.account, "store_account", false);
    Reads(conf, n.account, "transport_account", false);
    Reads(conf, n.account, "display_name", false);
    Reads(conf, n.account, "fullname", false);
    Reads(conf, n.account, "email", false);
    Reads(conf, n.account, "retrieve", false);
    Reads(conf, n.account, "limit-retrieve", false);
    Reads(conf, n.account, "leave_on_server", false);
    Reads(conf, n.account, "use_signature", false);
    Reads(conf, n.account, "signature", false);
    Reads(conf, n.account, "use_specific_smtp", false);
  }

  /** What is stored under a key once three groups of settings are added under unused names. */
  ghost predicate HoldsParts(conf: Conf, n: Chosen, own: map<string, Value>, store: map<string, Value>,
                             transport: map<string, Value>, conf': Conf, k: ConfKey)
  {
    var v := if !k.server then own else if k.account == n.store then store else transport;
    if k.account in (if k.server then {n.store, n.transport} else {n.account}) then
      (k in conf' <==> k.setting in v) && (k.setting in v ==> conf'[k] == v[k.setting])
    else (k in conf' <==> k in conf) && (k in conf ==> conf'[k] == conf[k])
  }

  lemma PartsAreHeld(conf: Conf, n: Chosen, own: map<string, Value>, store: map<string, Value>,
                     transport: map<string, Value>, k: ConfKey)
    requires IsFresh(conf, n)
    ensures HoldsParts(conf, n, own, store, transport,
                       conf + Entries(false, n.account, own) + Entries(true, n.store, store)
                       + Entries(true, n.transport, transport), k)
  {
    if k in conf { KeysAreNamed(conf, k); }
  }

  lemma ValuesAre(conf: Conf, name: string, server: bool, values: map<string, Value>)
    requires forall setting ::
               var k := ConfKey(server, name, setting);
               (k in conf <==> setting in values) && (setting in values ==> conf[k] == values[setting])
    ensures ValuesOf(conf, name, server) == values
  {
    forall setting ensures setting in ValuesOf(conf, name, server) <==> setting in values {
      Reads(conf, name, setting, server);
    }
    forall setting | setting in values ensures ValuesOf(conf, name, server)[setting] == values[setting] {
      Reads(conf, name, setting, server);
    }
  }

  lemma SameValues(conf: Conf, conf': Conf, name: string, server: bool)
    requires forall setting ::
               var k := ConfKey(server, name, setting);
               (k in conf' <==> k in conf) && (k in conf ==> conf'[k] == conf[k])
    ensures ValuesOf(conf', name, server) == ValuesOf(conf, name, server)
  {
    forall setting
      ensures var k := ConfKey(server, name, setting);
              (k in conf' <==> setting in ValuesOf(conf, name, server))
              && (k in conf' ==> conf'[k] == ValuesOf(conf, name, server)[setting])
    {
      Reads(conf, name, setting, server);
    }
    ValuesAre(conf', name, server, ValuesOf(conf, name, server));
  }

  /** Exactly the three groups are stored under the new names, and nothing changes under any other. */
  lemma ValuesOfParts(conf: Conf, n: Chosen, own: map<string, Value>, store: map<string, Value>,
                      transport: map<string, Value>, conf': Conf, name: string, server: bool)
    requires IsFresh(conf, n) && forall k :: HoldsParts(conf, n, own, store, transport, conf', k)
    ensures ValuesOf(conf', name, server)
            == if name in (if server then {n.store, n.transport} else {n.account}) then
                 if !server then own else if name == n.store then store else transport
               else ValuesOf(conf, name, server)
  {
    assert forall setting :: HoldsParts(conf, n, own, store, transport, conf', ConfKey(server, name, setting));
    if name in (if server then {n.store, n.transport} else {n.account}) {
      ValuesAre(conf', name, server, if !server then own else if name == n.store then store else transport);
    } else {
      SameValues(conf, conf', name, server);
    }
  }

  lemma SavedHoldsParts(conf: Conf, settings: AccountSettings, n: Chosen)
    requires IsFresh(conf, n)
    ensures forall k :: HoldsParts(conf, n, AccountValues(settings, n), ServerValues(settings.store),
                                   ServerValues(settings.transport), Saved(conf, settings, n), k)
  {
    forall k ensures HoldsParts(conf, n, AccountValues(settings, n), ServerValues(settings.store),
                                ServerValues(settings.transport), Saved(conf, settings, n), k)
    {
      PartsAreHeld(conf, n, AccountValues(settings, n), ServerValues(settings.store),
                  ServerValues(settings.transport), k);
    }
  }

  lemma LoadOfParts(p: Platform, s: Store, settings: AccountSettings, n: Chosen)
    requires ValuesOf(s.conf, n.account, false) == AccountValues(settings, n)
    requires ValuesOf(s.conf, n.store, true) == ServerValues(settings.store)
    requires ValuesOf(s.conf, n.transport, true) == ServerValues(settings.transport)
    ensures LoadAccount(p, s, n.account) == Some(Loaded(Normal(p, settings), true, Default(s) == Some(n.account)))
  {
    OwnReads(s.conf, settings, n);
    LoadUndoesSaveServer(p, s.conf, n.store, settings.store);
    LoadUndoesSaveServer(p, s.conf, n.transport, settings.transport);
  }

  /** An account that was added is loaded with the settings it was added with, in their normal form; it is
      enabled, and the default exactly if there was none. */
  lemma LoadUndoesAdd(p: Platform, s: Store, settings: AccountSettings, n: Chosen)
    requires IsChoice(p, s, settings, n)
    ensures var s' := Added(s, settings, n);
            LoadAccount(p, s', n.account) == Some(Loaded(Normal(p, settings), true, Default(s') == Some(n.account)))
  {
    var s' := Added(s, settings, n);
    ChoiceIsFresh(p, s, settings, n);
    SavedHoldsParts(s.conf, settings, n);
    LoadOfAdded(p, s.conf, settings, n, s');
  }

  lemma LoadOfAdded(p: Platform, conf: Conf, settings: AccountSettings, n: Chosen, s': Store)
    requires IsFresh(conf, n)
    requires forall k :: HoldsParts(conf, n, AccountValues(settings, n), ServerValues(settings.store),
                                    ServerValues(settings.transport), s'.conf, k)
    ensures LoadAccount(p, s', n.account) == Some(Loaded(Normal(p, settings), true, Default(s') == Some(n.account)))
  {
    var own := AccountValues(settings, n);
    var store, transport := ServerValues(settings.store), ServerValues(settings.transport);
    ValuesOfParts(conf, n, own, store, transport, s'.conf, n.account, false);
    ValuesOfParts(conf, n, own, store, transport, s'.conf, n.store, true);
    ValuesOfParts(conf, n, own, store, transport, s'.conf, n.transport, true);
    LoadOfParts(p, s', settings, n);
  }

  // ----- the normal form -----

  predicate ServerIsKept(p: Platform, s: ServerSettings) {
    if s.uri.None? then s.hostname.Some? && s.username.Some? && s.password.Some?
    else s == ServerSettings(s.uri, s.protocol, None, None, None, 0, p.noAuth, p.noSecurity, false, false)
  }

  /** Settings come back as they were exactly if no text but the display name, the full name and the address is
      missing, and a server account with a URI has nothing else; and what comes back once comes back always. */
  lemma RoundTripExactly(p: Platform, s: AccountSettings)
    ensures Normal(p, s).signature == if s.signature.None? then Some("") else s.signature
    ensures s.store.uri.None? ==>
              && Normal(p, s).store.hostname == (if s.store.hostname.None? then Some("") else s.store.hostname)
              && Normal(p, s).store.username == (if s.store.username.None? then Some("") else s.store.username)
              && Normal(p, s).store.password == (if s.store.password.None? then Some("") else s.store.password)
    ensures Normal(p, s) == s <==> s.signature.Some? && ServerIsKept(p, s.store) && ServerIsKept(p, s.transport)
    ensures Normal(p, Normal(p, s)) == Normal(p, s)
  {
    assert s == s.(signature := s.signature, store := s.store, transport := s.transport);
  }

  // ----- other accounts -----

  lemma SameReads(conf: Conf, conf': Conf, name: string, setting: string, server: bool)
    requires ValuesOf(conf', name, server) == ValuesOf(conf, name, server)
    ensures GetString(conf', name, setting, server) == GetString(conf, name, setting, server)
    ensures GetBool(conf', name, setting, server) == GetBool(conf, name, setting, server)
    ensures GetInt(conf', name, setting, server) == GetInt(conf, name, setting, server)
  {
    Reads(conf, name, setting, server);
    Reads(conf', name, setting, server);
  }

  lemma LoadServerFrame(p: Platform, conf: Conf, conf': Conf, name: string)
    requires ValuesOf(conf', name, true) == ValuesOf(conf, name, true)
    ensures LoadServer(p, conf', name) == LoadServer(p, conf, name)
  {
    StoredUnderName(conf, name, true);
    StoredUnderName(conf', name, true);
    forall setting
      ensures GetString(conf', name, setting, true) == GetString(conf, name, setting, true)
              && GetBool(conf', name, setting, true) == GetBool(conf, name, setting, true)
              && GetInt(conf', name, setting, true) == GetInt(conf, name, setting, true)
    {
      SameReads(conf, conf', name, setting, true);
    }
  }

  predicate SameButDefault(a: Option<Loaded>, b: Option<Loaded>) {
    if a.None? then b.None? else b.Some? && b.value == a.value.(isDefault := b.value.isDefault)
  }

  /** Loading an account depends on what is stored under its name and under the server accounts it owns. */
  lemma LoadFrame(p: Platform, s: Store, s': Store, m: string)
    requires ValuesOf(s'.conf, m, false) == ValuesOf(s.conf, m, false)
    requires forall v :: Owns(s.conf, m, v) ==> ValuesOf(s'.conf, v, true) == ValuesOf(s.conf, v, true)
    ensures SameButDefault(LoadAccount(p, s, m), LoadAccount(p, s', m))
  {
    StoredUnderName(s.conf, m, false);
    StoredUnderName(s'.conf, m, false);
    forall setting
      ensures GetString(s'.conf, m, setting, false) == GetString(s.conf, m, setting, false)
              && GetBool(s'.conf, m, setting, false) == GetBool(s.conf, m, setting, false)
              && GetInt(s'.conf, m, setting, false) == GetInt(s.conf, m, setting, false)
    {
      SameReads(s.conf, s'.conf, m, setting, false);
    }
    forall v | Owns(s.conf, m, v) ensures LoadServer(p, s'.conf, v) == LoadServer(p, s.conf, v) {
      LoadServerFrame(p, s.conf, s'.conf, v);
    }
  }

  /** Adding an account changes nothing about the others. */
  lemma AddLeavesOthers(p: Platform, s: Store, settings: AccountSettings, n: Chosen, m: string)
    requires Inv(s) && IsChoice(p, s, settings, n) && m in Names(s.conf, false)
    ensures LoadAccount(p, Added(s, settings, n), m) == LoadAccount(p, s, m)
  {
    ChoiceIsFresh(p, s, settings, n);
    SavedHoldsParts(s.conf, settings, n);
    SavedIsSaved(s.conf, settings, n);
    OthersAfterAdd(p, s, n, AccountValues(settings, n), ServerValues(settings.store), ServerValues(settings.transport),
                   Added(s, settings, n), m);
  }

  lemma OthersAfterAdd(p: Platform, s: Store, n: Chosen, own: map<string, Value>, store: map<string, Value>,
                       transport: map<string, Value>, s': Store, m: string)
    requires Inv(s) && m in Names(s.conf, false) && IsSaved(s.conf, n, s'.conf)
    requires forall k :: HoldsParts(s.conf, n, own, store, transport, s'.conf, k)
    requires s'.defaultAccount == if Default(s).None? then Some(n.account) else s.defaultAccount
    ensures LoadAccount(p, s', m) == LoadAccount(p, s, m)
  {
    ValuesOfParts(s.conf, n, own, store, transport, s'.conf, m, false);
    forall v | Owns(s.conf, m, v) ensures ValuesOf(s'.conf, v, true) == ValuesOf(s.conf, v, true) {
      ValuesOfParts(s.conf, n, own, store, transport, s'.conf, v, true);
    }
    LoadFrame(p, s, s', m);
  }

  /** Removing an account changes nothing about the others but which of them is the default. */
  lemma RemoveLeavesOthers(p: Platform, s: Store, account: string, s': Store, m: string)
    requires Inv(s) && IsRemoved(p, s, account, s') && m != account
    ensures SameButDefault(LoadAccount(p, s, m), LoadAccount(p, s', m))
  {
    if account in Names(s.conf, false) {
      forall setting
        ensures var k := ConfKey(false, m, setting);
                (k in s'.conf <==> k in s.conf) && (k in s.conf ==> s'.conf[k] == s.conf[k])
      {
        KeysAfterRemove(s.conf, account, ConfKey(false, m, setting));
      }
      SameValues(s.conf, s'.conf, m, false);
      forall v | Owns(s.conf, m, v) ensures ValuesOf(s'.conf, v, true) == ValuesOf(s.conf, v, true) {
        assert !Owns(s.conf, account, v);
        SameValues(s.conf, s'.conf, v, true);
      }
    }
    LoadFrame(p, s, s', m);
  }
}
