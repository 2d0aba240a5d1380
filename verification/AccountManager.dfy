/** The account manager on its configuration store. Every operation is proved to change the store as Accounts
    says; writes to the store are taken to succeed. */
module AccountManager {
  import opened Messages
  import N = AccountNames
  import opened AccountKeys
  import opened Accounts
  import opened AccountsOwnership

  lemma OneMoreEntry(base: Conf, server: bool, account: string, values: map<string, Value>, key: string, v: Value)
    ensures (base + Entries(server, account, values))[ConfKey(server, account, key) := v]
            == base + Entries(server, account, values[key := v])
  {
  }

  lemma NoEntries(base: Conf, server: bool, account: string)
    ensures base + Entries(server, account, map[]) == base
  {
  }

  /** What is written to an account and what is written to server accounts does not mix. */
  lemma OneMoreOwnEntry(base: Conf, account: string, values: map<string, Value>, others: Conf, key: string, v: Value)
    requires forall k :: k in others ==> k.server
    ensures (base + Entries(false, account, values) + others)[ConfKey(false, account, key) := v]
            == base + Entries(false, account, values[key := v]) + others
  {
    OneMoreEntry(base, false, account, values, key, v);
  }

  lemma SumOfThree(a: Conf, b: Conf, c: Conf)
    ensures a + b + c == a + (b + c)
  {
  }

  class AccountMgr {
    const platform: Platform
    var conf: Conf
    var defaultAccount: Option<string>

    ghost function View(): Store
      reads this
    {
      Store(conf, defaultAccount)
    }

    constructor (p: Platform)
      ensures platform == p && View() == Store(map[], None)
    {
      platform, conf, defaultAccount := p, map[], None;
    }

    // ----- writing settings -----

    method SetString(name: string, key: string, val: Option<string>, server: bool)
      modifies this`conf
      ensures conf == if val.Some? then old(conf)[ConfKey(server, name, key) := Text(val.value)] else old(conf)
    {
      if val.Some? {
        conf := conf[ConfKey(server, name, key) := Text(val.value)];
      }
    }

    method SetInt(name: string, key: string, val: int, server: bool)
      modifies this`conf
      ensures conf == old(conf)[ConfKey(server, name, key) := Number(val)]
    {
      conf := conf[ConfKey(server, name, key) := Number(val)];
    }

    method SetBool(name: string, key: string, val: bool, server: bool)
      modifies this`conf
      ensures conf == old(conf)[ConfKey(server, name, key) := Flag(val)]
    {
      conf := conf[ConfKey(server, name, key) := Flag(val)];
    }

    method SaveServerSettings(account: string, s: ServerSettings)
      modifies this`conf
      ensures conf == old(conf) + Entries(true, account, ServerValues(s))
    {
      ghost var base := conf;
      ghost var w: map<string, Value> := map[];
      NoEntries(base, true, account);
      if s.uri.None? {
        SetString(account, "hostname", Some(NullMeansEmpty(s.hostname)), true);
        OneMoreEntry(base, true, account, w, "hostname", Text(NullMeansEmpty(s.hostname)));
        w := w["hostname" := Text(NullMeansEmpty(s.hostname))];
        SetString(account, "username", Some(NullMeansEmpty(s.username)), true);
        OneMoreEntry(base, true, account, w, "username", Text(NullMeansEmpty(s.username)));
        w := w["username" := Text(NullMeansEmpty(s.username))];
        SetString(account, "password", Some(NullMeansEmpty(s.password)), true);
        OneMoreEntry(base, true, account, w, "password", Text(NullMeansEmpty(s.password)));
        w := w["password" := Text(NullMeansEmpty(s.password))];
        SetString(account, "proto", Some(s.protocol), true);
        OneMoreEntry(base, true, account, w, "proto", Text(s.protocol));
        w := w["proto" := Text(s.protocol)];
        SetInt(account, "port", s.port, true);
        OneMoreEntry(base, true, account, w, "port", Number(s.port));
        w := w["port" := Number(s.port)];
        SetString(account, "auth_mech", Some(s.auth), true);
        OneMoreEntry(base, true, account, w, "auth_mech", Text(s.auth));
        w := w["auth_mech" := Text(s.auth)];
        SetString(account, "security", Some(s.security), true);
        OneMoreEntry(base, true, account, w, "security", Text(s.security));
        w := w["security" := Text(s.security)];
        SetBool(account, "offline_sync", s.offlineSync, true);
        OneMoreEntry(base, true, account, w, "offline_sync", Flag(s.offlineSync));
        w := w["offline_sync" := Flag(s.offlineSync)];
        SetBool(account, "update_all_folders", s.updateAllFolders, true);
        OneMoreEntry(base, true, account, w, "update_all_folders", Flag(s.updateAllFolders));
      } else {
        SetString(account, "uri", s.uri, true);
        OneMoreEntry(base, true, account, w, "uri", Text(s.uri.value));
        w := w["uri" := Text(s.uri.value)];
        SetString(account, "proto", Some(s.protocol), true);
        OneMoreEntry(base, true, account, w, "proto", Text(s.protocol));
      }
    }

    method SetOptional(account: string, key: string, val: Option<string>, ghost base: Conf, ghost w: map<string, Value>)
      requires conf == base + Entries(false, account, w)
      modifies this`conf
      ensures conf == base + Entries(false, account, WithText(w, key, val))
    {
      SetString(account, key, val, false);
      if val.Some? {
        OneMoreEntry(base, false, account, w, key, Text(val.value));
      }
    }

    method SaveOwnSettings(account: string, s: AccountSettings)
      modifies this`conf
      ensures conf == old(conf) + Entries(false, account, OwnValues(s))
    {
      ghost var base := conf;
      ghost var w: map<string, Value> := map[];
      NoEntries(base, false, account);
      SetOptional(account, "display_name", s.displayName, base, w);
      w := WithText(w, "display_name", s.displayName);
      SetOptional(account, "fullname", s.fullname, base, w);
      w := WithText(w, "fullname", s.fullname);
      SetOptional(account, "email", s.email, base, w);
      w := WithText(w, "email", s.email);
      SetString(account, "retrieve", Some(RetrieveName(s.retrieveType)), false);
      OneMoreEntry(base, false, account, w, "retrieve", Text(RetrieveName(s.retrieveType)));
      w := w["retrieve" := Text(RetrieveName(s.retrieveType))];
      SetInt(account, "limit-retrieve", s.retrieveLimit, false);
      OneMoreEntry(base, false, account, w, "limit-retrieve", Number(s.retrieveLimit));
      w := w["limit-retrieve" := Number(s.retrieveLimit)];
      SetBool(account, "leave_on_server", s.leaveOnServer, false);
      OneMoreEntry(base, false, account, w, "leave_on_server", Flag(s.leaveOnServer));
      w := w["leave_on_server" := Flag(s.leaveOnServer)];
      SetBool(account, "use_signature", s.useSignature, false);
      OneMoreEntry(base, false, account, w, "use_signature", Flag(s.useSignature));
      w := w["use_signature" := Flag(s.useSignature)];
      SetString(account, "signature", Some(NullMeansEmpty(s.signature)), false);
      OneMoreEntry(base, false, account, w, "signature", Text(NullMeansEmpty(s.signature)));
      w := w["signature" := Text(NullMeansEmpty(s.signature))];
      SetBool(account, "use_specific_smtp", s.useSpecificSmtp, false);
      OneMoreEntry(base, false, account, w, "use_specific_smtp", Flag(s.useSpecificSmtp));
    }

    method SaveAccountSettings(s: AccountSettings, n: Chosen)
      modifies this`conf
      ensures conf == Saved(old(conf), s, n)
      ensures Names(conf, false) == Names(old(conf), false) + {n.account}
    {
      NamesAfterSave(conf, s, n);
      ghost var base := conf;
      ghost var w := OwnValues(s);
      ghost var store := Entries(true, n.store, ServerValues(s.store));
      ghost var transport := Entries(true, n.transport, ServerValues(s.transport));
      SaveOwnSettings(n.account, s);
      SetString(n.account, "store_account", Some(n.store), false);
      OneMoreEntry(base, false, n.account, w, "store_account", Text(n.store));
      w := w["store_account" := Text(n.store)];
      SaveServerSettings(n.store, s.store);
      SetString(n.account, "transport_account", Some(n.transport), false);
      OneMoreOwnEntry(base, n.account, w, store, "transport_account", Text(n.transport));
      w := w["transport_account" := Text(n.transport)];
      SaveServerSettings(n.transport, s.transport);
      SumOfThree(base + Entries(false, n.account, w), store, transport);
      SetBool(n.account, "enabled", true, false);
      OneMoreOwnEntry(base, n.account, w, store + transport, "enabled", Flag(true));
      w := w["enabled" := Flag(true)];
      SumOfThree(base + Entries(false, n.account, w), store, transport);
    }

    // ----- loading settings -----

    method LoadServerSettings(name: string) returns (settings: Option<ServerSettings>)
      ensures settings == LoadServer(platform, conf, name)
    {
      if name !in Names(conf, true) {
        return None;
      }
      var proto := GetString(conf, name, "proto", true);
      if proto.None? {
        return None;
      }
      var port := GetInt(conf, name, "port", true);
      var auth := Or(GetString(conf, name, "auth_mech", true), platform.noAuth);
      var security := Or(GetString(conf, name, "security", true), platform.noSecurity);
      var username := GetString(conf, name, "username", true);
      var password := GetString(conf, name, "password", true);
      var uri := GetString(conf, name, "uri", true);
      var hostname := GetString(conf, name, "hostname", true);
      var offlineSync := GetBool(conf, name, "offline_sync", true);
      var updateAllFolders := GetBool(conf, name, "update_all_folders", true);
      if uri.None? {
        if username.None? || hostname.None? {
          return None;
        }
      }
      return Some(ServerSettings(uri, proto.value, hostname, username, password, port, auth, security, offlineSync,
                                 updateAllFolders));
    }

    method LoadAccountSettings(name: string) returns (loaded: Option<Loaded>)
      ensures loaded == LoadAccount(platform, View(), name)
    {
      if name !in Names(conf, false) {
        return None;
      }
      var isDefault := GetDefaultAccount();
      var store, transport := Some(NewServer(platform)), Some(NewServer(platform));
      var serverAccount := GetString(conf, name, "store_account", false);
      if serverAccount.Some? {
        store := LoadServerSettings(serverAccount.value);
        if store.None? {
          return None;
        }
      }
      serverAccount := GetString(conf, name, "transport_account", false);
      if serverAccount.Some? {
        transport := LoadServerSettings(serverAccount.value);
        if transport.None? {
          return None;
        }
      }
      var settings := AccountSettings(
        GetString(conf, name, "display_name", false), GetString(conf, name, "fullname", false),
        GetString(conf, name, "email", false), RetrieveTypeOf(GetString(conf, name, "retrieve", false)),
        GetInt(conf, name, "limit-retrieve", false), GetBool(conf, name, "leave_on_server", false),
        GetString(conf, name, "signature", false), GetBool(conf, name, "use_signature", false),
        GetBool(conf, name, "use_specific_smtp", false), store.value, transport.value);
      return Some(Loaded(settings, GetBool(conf, name, "enabled", false), isDefault == Some(name)));
    }

    // ----- listing accounts -----

    /** The directories below the accounts' namespace, in the order the store gives them. */
    method ListSubkeys() returns (subkeys: seq<string>)
      requires platform.Valid()
      ensures forall i, j :: 0 <= i < j < |subkeys| ==> subkeys[i] != subkeys[j]
      ensures forall k :: k in subkeys <==> exists n :: n in Names(conf, false) && k == platform.ks.escape(n)
    {
      var rest := Names(conf, false);
      subkeys := [];
      while rest != {}
        invariant rest <= Names(conf, false)
        invariant forall i, j :: 0 <= i < j < |subkeys| ==> subkeys[i] != subkeys[j]
        invariant forall k :: k in subkeys <==> exists n :: n in Names(conf, false) - rest && k == platform.ks.escape(n)
        decreases |rest|
      {
        var n :| n in rest;
        var key := platform.ks.escape(n);
        forall m | m in Names(conf, false) - rest ensures platform.ks.escape(m) != key {
          assert platform.ks.unescape(platform.ks.escape(m)) == m && platform.ks.unescape(key) == n;
        }
        assert key !in subkeys;
        subkeys := subkeys + [key];
        rest := rest - {n};
      }
    }

    /** Each account is listed once, unless a server account is missing. */
    method AccountNames(onlyEnabled: bool) returns (result: seq<string>)
      requires platform.Valid()
      ensures forall i, j :: 0 <= i < j < |result| ==> result[i] != result[j]
      ensures forall n :: n in result <==> IsListed(platform, conf, n, onlyEnabled)
    {
      var accounts := ListSubkeys();
      assert forall n :: platform.ks.unescape(platform.ks.escape(n)) == n;
      result := [];
      var i := 0;
      while i < |accounts|
        invariant i <= |accounts|
        invariant forall a, b :: 0 <= a < b < |result| ==> result[a] != result[b]
        invariant forall n :: n in result <==> 
                    IsListed(platform, conf, n, onlyEnabled) && platform.ks.escape(n) in accounts[..i]
      {
        var key := accounts[i];
        assert accounts[..i + 1] == accounts[..i] + [key];
        assert key in accounts;
        var unescaped := platform.ks.unescape(key);
        var add := !onlyEnabled || GetBool(conf, unescaped, "enabled", false);
        if add {
          add := !Missing(conf, GetString(conf, key, "store_account", false));
        }
        if add {
          add := !Missing(conf, GetString(conf, key, "transport_account", false));
        }
        if add {
          result := result + [unescaped];
        }
        i := i + 1;
      }
      assert accounts[..i] == accounts;
    }

    method AccountWithDisplayNameExists(displayName: string) returns (found: bool)
      requires platform.Valid()
      ensures found <==> DisplayNameExists(platform, View(), displayName)
    {
      var names := AccountNames(true);
      found := false;
      var i := 0;
      while i < |names|
        invariant i <= |names|
        invariant forall k :: 0 <= k < i ==> !ShowsAs(platform, View(), names[k], displayName)
      {
        var loaded := LoadAccountSettings(names[i]);
        if loaded.Some? && loaded.value.settings.displayName == Some(displayName) {
          assert names[i] in names;
          assert ShowsAs(platform, View(), names[i], displayName);
          found := true;
          break;
        }
        i := i + 1;
      }
    }

    /** The first account by title: the head of the sorted list. */
    method GetFirstAccountName() returns (account: Option<string>)
      requires platform.Valid()
      ensures IsFirstByTitle(platform, conf, account)
    {
      var names := AccountNames(true);
      if names == [] {
        return None;
      }
      var first := names[0];
      var i := 1;
      while i < |names|
        invariant 1 <= i <= |names| && first in names
        invariant forall k :: 0 <= k < i ==> platform.collate(first, names[k]) <= 0
      {
        if platform.collate(first, names[i]) > 0 {
          first := names[i];
        }
        i := i + 1;
      }
      forall m | IsListed(platform, conf, m, true) ensures platform.collate(first, m) <= 0 {
        var k :| 0 <= k < |names| && names[k] == m;
      }
      return Some(first);
    }

    // ----- the default account -----

    method GetDefaultAccount() returns (account: Option<string>)
      ensures account == Default(View())
    {
      account := defaultAccount;
      if account.Some? && account.value !in Names(conf, false) {
        account := None;
      }
    }

    method SetDefaultAccount(account: string) returns (ok: bool)
      modifies this`defaultAccount
      ensures ok == (account in Names(conf, false))
      ensures defaultAccount == if ok then Some(account) else old(defaultAccount)
    {
      if account !in Names(conf, false) {
        return false;
      }
      defaultAccount := Some(account);
      return true;
    }

    method UnsetDefaultAccount()
      modifies this`defaultAccount
      ensures defaultAccount == None
    {
      defaultAccount := None;
    }

    /** Without accounts the default stays as it is. */
    method SetFirstAccountAsDefault() returns (ok: bool, ghost first: Option<string>)
      requires platform.Valid()
      modifies this`defaultAccount
      ensures ok && IsFirstByTitle(platform, conf, first)
      ensures defaultAccount == if first.Some? then first else old(defaultAccount)
    {
      var account := GetFirstAccountName();
      first := account;
      if account.Some? {
        ok := SetDefaultAccount(account.value);
      } else {
        ok := true;
      }
    }

    // ----- adding and removing -----

    method GetUnusedAccountName(start: string, server: bool) returns (name: string)
      requires start != ""
      ensures IsFirstUnused(Names(conf, server), start, name)
    {
      ghost var steps: nat;
      name, steps := N.GetUnusedAccountName(Names(conf, server), start);
    }

    method ChooseNames(settings: AccountSettings) returns (n: Chosen)
      requires platform.Valid()
      ensures IsChoice(platform, View(), settings, n)
    {
      var displayName := settings.displayName;
      var taken := false;
      if displayName.Some? {
        taken := AccountWithDisplayNameExists(displayName.value);
      }
      if displayName.None? || taken {
        displayName := Some(platform.defaultName);
      }
      var account := GetUnusedAccountName(displayName.value + "ID", false);
      var store := GetUnusedAccountName(account + "_store", true);
      var transport := GetUnusedAccountName(account + "_transport", true);
      n := Chosen(account, store, transport);
    }

    method EnsureDefault(account: string)
      requires account in Names(conf, false)
      modifies this`defaultAccount
      ensures defaultAccount == if Default(old(View())).None? then Some(account) else old(defaultAccount)
    {
      var current := GetDefaultAccount();
      if current.None? {
        var _ := SetDefaultAccount(account);
      }
    }

    method StoreAccount(settings: AccountSettings, n: Chosen)
      modifies this
      ensures View() == Added(old(View()), settings, n)
    {
      SaveAccountSettings(settings, n);
      EnsureDefault(n.account);
    }

    /** modest_account_mgr_add_account_from_settings, with the names it stores in the settings. */
    method AddAccountFromSettings(settings: AccountSettings) returns (ok: bool, n: Chosen)
      requires platform.Valid()
      modifies this
      ensures ok && IsChoice(platform, old(View()), settings, n)
      ensures View() == Added(old(View()), settings, n)
    {
      n := ChooseNames(settings);
      StoreAccount(settings, n);
      ok := true;
    }

    /** modest_conf_remove_key on the directory of an account: everything below it goes. */
    method RealRemoveAccount(account: string, server: bool)
      modifies this`conf
      ensures conf == old(conf) - DirectoryOf(old(conf), account, server)
    {
      conf := conf - DirectoryOf(conf, account, server);
    }

    method RemoveOwnKeys(name: string)
      requires name in Names(conf, false)
      modifies this`conf
      ensures conf == old(conf) - OwnKeys(old(conf), name)
    {
      var store := GetString(conf, name, "store_account", false);
      if store.Some? {
        RealRemoveAccount(store.value, true);
      }
      var transport := GetString(conf, name, "transport_account", false);
      if transport.Some? {
        RealRemoveAccount(transport.value, true);
      }
      RealRemoveAccount(name, false);
    }

    method RemoveAccount(name: string) returns (ok: bool)
      requires platform.Valid()
      modifies this
      ensures ok == (name in Names(old(conf), false))
      ensures IsRemoved(platform, old(View()), name, View())
    {
      if name !in Names(conf, false) {
        return false;
      }
      var defaultDeleted := false;
      var current := GetDefaultAccount();
      if current == Some(name) {
        UnsetDefaultAccount();
        defaultDeleted := true;
      }
      RemoveOwnKeys(name);
      if defaultDeleted {
        var _, _ := SetFirstAccountAsDefault();
      }
      return true;
    }
  }

  function DirectoryOf(conf: Conf, account: string, server: bool): set<ConfKey> {
    set k | k in conf && k.server == server && k.account == account
  }
}
