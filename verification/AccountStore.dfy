/** What is read from the store, and which names and which default an account gets, told from the keys alone. */
module AccountStore {
  import opened Messages
  import opened AccountNames
  import opened AccountKeys
  import opened Numerals
  import opened Accounts
  import opened AccountsOwnership
  import opened AccountListing
  import opened AccountDisplayNames
  import opened AccountSettingsRoundTrip

  predicate HasText(conf: Conf, server: bool, name: string, setting: string) {
    var k := ConfKey(server, name, setting);
    k in conf && conf[k].Text?
  }

  /** The account a setting names, if it names one, can be loaded: it has a protocol, and a URI or a host and a user. */
  predicate ServerLoads(conf: Conf, name: string) {
    && HasText(conf, true, name, "proto")
    && (|| HasText(conf, true, name, "uri")
        || (HasText(conf, true, name, "hostname") && HasText(conf, true, name, "username")))
  }

  predicate NamedServerLoads(conf: Conf, account: string, setting: string) {
    HasText(conf, false, account, setting) ==> ServerLoads(conf, conf[ConfKey(false, account, setting)].text)
  }

  lemma ServerLoadsExactly(p: Platform, conf: Conf, name: string)
    ensures LoadServer(p, conf, name).Some? <==> ServerLoads(conf, name)
  {
    if HasText(conf, true, name, "proto") {
      KeysAreNamed(conf, ConfKey(true, name, "proto"));
    }
  }

  /** When an account loads: it has some key, and the server accounts it names, if any, load. */
  lemma LoadsExactly(p: Platform, s: Store, account: string)
    ensures LoadAccount(p, s, account).Some?
       <==> && (exists k :: k in s.conf && !k.server && k.account == account)
            && NamedServerLoads(s.conf, account, "store_account")
            && NamedServerLoads(s.conf, account, "transport_account")
  {
    assert account in Names(s.conf, false) <==> exists k :: k in s.conf && !k.server && k.account == account;
    forall name ensures LoadServer(p, s.conf, name).Some? <==> ServerLoads(s.conf, name) {
      ServerLoadsExactly(p, s.conf, name);
    }
  }

  /** An account of which nothing but whether it is enabled is stored loads with the settings that stand for nothing. */
  lemma BareAccountLoads(p: Platform, s: Store, account: string)
    requires exists k :: k in s.conf && !k.server && k.account == account
    requires forall k :: k in s.conf && !k.server && k.account == account ==> k.setting == "enabled"
    ensures var server := ServerSettings(None, p.noProtocol, None, None, None, 0, p.noAuth, p.noSecurity, false, false);
            LoadAccount(p, s, account)
            == Some(Loaded(
                 AccountSettings(None, None, None, HeadersOnly, 0, false, None, false, false, server, server),
                 s.conf[ConfKey(false, account, "enabled")] == Flag(true), s.defaultAccount == Some(account)))
  {
    var k :| k in s.conf && !k.server && k.account == account;
    assert k == ConfKey(false, account, "enabled");
    assert account in Names(s.conf, false);
    forall setting: string | setting != "enabled" ensures ConfKey(false, account, setting) !in s.conf {
    }
  }

  /** What is stored as a text is no number and not TRUE. */
  lemma WrongTypes(conf: Conf, account: string, setting: string, server: bool)
    requires HasText(conf, server, account, setting)
    ensures GetInt(conf, account, setting, server) == -1 && !GetBool(conf, account, setting, server)
  {
  }

  // ----- the list of accounts -----

  lemma SameNames(conf: Conf, k: ConfKey, v: Value, server: bool)
    requires k in conf
    ensures Names(conf[k := v], server) == Names(conf, server)
  {
    forall n ensures n in Names(conf[k := v], server) <==> n in Names(conf, server) {
      if n in Names(conf, server) {
        var j :| j in conf && j.server == server && j.account == n;
        assert j in conf[k := v];
      }
    }
  }

  /** An account that is switched off is hidden from the list of enabled accounts, and nothing else changes in it. */
  lemma DisabledIsHidden(p: Platform, conf: Conf, account: string, m: string, onlyEnabled: bool)
    requires Owned(conf) && account in Names(conf, false)
    ensures IsListed(p, conf[ConfKey(false, account, "enabled") := Flag(false)], m, onlyEnabled)
       <==> m in Names(conf, false) && !(onlyEnabled && m == account)
  {
    var k := ConfKey(false, account, "enabled");
    var conf' := conf[k := Flag(false)];
    assert Complete(conf, account);
    SameNames(conf, k, Flag(false), false);
    SameNames(conf, k, Flag(false), true);
    NoneMissing(conf, p.ks.escape(m));
    if m in Names(conf, false) {
      assert Complete(conf, m);
    }
  }

  lemma SameTexts(conf: Conf, k: ConfKey, server: bool, name: string, setting: string)
    requires k in conf && conf[k].Flag?
    ensures HasText(conf[k := Flag(false)], server, name, setting) <==> HasText(conf, server, name, setting)
    ensures var j := ConfKey(server, name, setting);
            HasText(conf, server, name, setting) ==> conf[k := Flag(false)][j] == conf[j]
  {
  }

  lemma SameServerLoads(conf: Conf, k: ConfKey, name: string)
    requires k in conf && conf[k].Flag?
    ensures ServerLoads(conf[k := Flag(false)], name) <==> ServerLoads(conf, name)
  {
    SameTexts(conf, k, true, name, "proto");
    SameTexts(conf, k, true, name, "uri");
    SameTexts(conf, k, true, name, "hostname");
    SameTexts(conf, k, true, name, "username");
  }

  lemma SameNamedLoads(conf: Conf, k: ConfKey, account: string, setting: string)
    requires k in conf && conf[k].Flag?
    ensures NamedServerLoads(conf[k := Flag(false)], account, setting) <==> NamedServerLoads(conf, account, setting)
  {
    SameTexts(conf, k, false, account, setting);
    if HasText(conf, false, account, setting) {
      SameServerLoads(conf, k, conf[ConfKey(false, account, setting)].text);
    }
  }

  predicate Loads(conf: Conf, account: string) {
    && account in Names(conf, false)
    && NamedServerLoads(conf, account, "store_account") && NamedServerLoads(conf, account, "transport_account")
  }

  lemma LoadsIf(p: Platform, s: Store, account: string)
    ensures LoadAccount(p, s, account).Some? <==> Loads(s.conf, account)
  {
    LoadsExactly(p, s, account);
    assert account in Names(s.conf, false) <==> exists k :: k in s.conf && !k.server && k.account == account;
  }

  lemma StillLoads(conf: Conf, k: ConfKey, m: string)
    requires k in conf && conf[k].Flag?
    ensures Loads(conf[k := Flag(false)], m) <==> Loads(conf, m)
  {
    SameNames(conf, k, Flag(false), false);
    SameNamedLoads(conf, k, m, "store_account");
    SameNamedLoads(conf, k, m, "transport_account");
  }

  lemma ShowsIf(p: Platform, s: Store, m: string, displayName: string)
    ensures ShowsAs(p, s, m, displayName)
       <==> IsListed(p, s.conf, m, true) && Loads(s.conf, m) && Shown(s.conf, m) == Some(displayName)
  {
    LoadsIf(p, s, m);
  }

  lemma StillShown(conf: Conf, k: ConfKey, m: string)
    requires k in conf && conf[k].Flag?
    ensures Shown(conf[k := Flag(false)], m) == Shown(conf, m)
  {
  }

  lemma ShowsStill(p: Platform, s: Store, s': Store, account: string, m: string, displayName: string)
    requires Owned(s.conf) && Loads(s.conf, m) && account in Names(s.conf, false) && m in Names(s.conf, false)
    requires s'.conf == s.conf[ConfKey(false, account, "enabled") := Flag(false)]
    ensures ShowsAs(p, s', m, displayName) <==> m != account && Shown(s.conf, m) == Some(displayName)
  {
    var k := ConfKey(false, account, "enabled");
    assert k in s.conf && s.conf[k].Flag? by {
      assert Complete(s.conf, account);
    }
    ShowsIf(p, s', m, displayName);
    DisabledIsHidden(p, s.conf, account, m, true);
    StillLoads(s.conf, k, m);
    StillShown(s.conf, k, m);
  }

  /** The display name of an account that is switched off counts as free. */
  lemma DisabledNameIsFree(p: Platform, s: Store, s': Store, account: string, displayName: string)
    requires Inv(s) && AllLoad(p, s) && account in Names(s.conf, false)
    requires s'.conf == s.conf[ConfKey(false, account, "enabled") := Flag(false)]
    ensures DisplayNameExists(p, s', displayName)
       <==> exists m :: m in Names(s.conf, false) && m != account && Shown(s.conf, m) == Some(displayName)
  {
    assert Complete(s.conf, account);
    SameNames(s.conf, ConfKey(false, account, "enabled"), Flag(false), false);
    forall m | m in Names(s.conf, false)
      ensures ShowsAs(p, s', m, displayName) <==> m != account && Shown(s.conf, m) == Some(displayName)
    {
      LoadsIf(p, s, m);
      ShowsStill(p, s, s', account, m, displayName);
    }
  }

  // ----- the default account -----

  /** A default that is no account's name counts as none. */
  lemma LostDefault(s: Store)
    ensures Default(s).Some? <==>
            s.defaultAccount.Some? && exists k :: k in s.conf && !k.server && k.account == s.defaultAccount.value
    ensures Default(s).Some? ==> Default(s) == s.defaultAccount
  {
  }

  /** When the default account is removed, the new default is an account that none is before by title, if there is one
      left; and a default that is not removed stays. */
  lemma NewDefaultIsFirst(p: Platform, states: seq<Store>, changes: seq<Change>, k: nat)
    requires IsHistory(p, states, changes) && k < |changes| && changes[k].Remove?
    ensures var before, after := states[k].defaultAccount, states[k + 1].defaultAccount;
            if before == Some(changes[k].account) then
              && (after.None? ==> Names(states[k + 1].conf, false) == {})
              && (after.Some? ==>
                    && after.value in Names(states[k + 1].conf, false)
                    && forall m :: m in Names(states[k + 1].conf, false) ==> p.collate(after.value, m) <= 0)
            else after == before
  {
    OwnershipHolds(p, states, changes, k);
    OwnershipHolds(p, states, changes, k + 1);
    assert Follows(p, states[k], changes[k], states[k + 1]);
    var s, s' := states[k], states[k + 1];
    if s.defaultAccount == Some(changes[k].account) {
      FirstOfAll(p, s', s'.conf);
    }
  }

  lemma FirstOfAll(p: Platform, s: Store, conf: Conf)
    requires Owned(conf)
    ensures IsFirstByTitle(p, conf, s.defaultAccount) ==>
              if s.defaultAccount.None? then Names(conf, false) == {}
              else && s.defaultAccount.value in Names(conf, false)
                   && forall m :: m in Names(conf, false) ==> p.collate(s.defaultAccount.value, m) <= 0
  {
    forall m ensures IsListed(p, conf, m, true) <==> m in Names(conf, false) {
      EveryAccountIsListed(p, conf, m, true);
    }
  }

  // ----- the names of a new account -----

  lemma StartsWith(used: set<string>, start: string, name: string)
    requires IsFirstUnused(used, start, name) && start != "" && !IsDigit(start[|start| - 1])
    ensures start <= name && (start !in used ==> name == start)
  {
    UnusedStartsWith(used, start, name);
    if start !in used {
      KeepsStart(used, start, name);
    }
  }

  /** A new account is called after its display name, or the default name if it has none or one that is shown already,
      and its server accounts after it; just so if these names are free. */
  lemma NamedAfterDisplayName(p: Platform, s: Store, settings: AccountSettings, n: Chosen)
    requires IsChoice(p, s, settings, n)
    ensures var taken := settings.displayName.Some? && DisplayNameExists(p, s, settings.displayName.value);
            var shown := if settings.displayName.Some? && !taken then settings.displayName.value else p.defaultName;
            && shown + "ID" <= n.account && (shown + "ID" !in Names(s.conf, false) ==> n.account == shown + "ID")
            && n.account + "_store" <= n.store
            && (n.account + "_store" !in Names(s.conf, true) ==> n.store == n.account + "_store")
            && n.account + "_transport" <= n.transport
            && (n.account + "_transport" !in Names(s.conf, true) ==> n.transport == n.account + "_transport")
  {
    StartsWith(Names(s.conf, false), StartName(p, s, settings), n.account);
    StartsWith(Names(s.conf, true), n.account + "_store", n.store);
    StartsWith(Names(s.conf, true), n.account + "_transport", n.transport);
  }
}
