/** What adding and removing accounts keeps: every account owns its own two server accounts, and there is a
    default as long as there is an account. */
module AccountsOwnership {
  import opened Messages
  import opened AccountNames
  import opened AccountKeys
  import opened Numerals
  import opened Accounts

  ghost predicate Owned(conf: Conf) {
    && (forall n :: n in Names(conf, false) ==> Complete(conf, n))
    && (forall n, v :: Owns(conf, n, v) ==> v in Names(conf, true))
    && (forall m, n, v :: Owns(conf, m, v) && Owns(conf, n, v) ==> m == n)
    && (forall v :: v in Names(conf, true) ==> exists n :: Owns(conf, n, v))
  }

  /** The account is enabled and names two different server accounts. */
  predicate Complete(conf: Conf, account: string) {
    var store := GetString(conf, account, "store_account", false);
    var transport := GetString(conf, account, "transport_account", false);
    store.Some? && transport.Some? && store != transport && GetBool(conf, account, "enabled", false)
  }

  /** A default is set exactly if there is an account, and it exists. */
  ghost predicate HasDefault(s: Store) {
    if s.defaultAccount.None? then Names(s.conf, false) == {} else s.defaultAccount.value in Names(s.conf, false)
  }

  ghost predicate Inv(s: Store) {
    Owned(s.conf) && HasDefault(s)
  }

  // ----- the names in the store -----

  lemma NamesOfSum(a: Conf, b: Conf, server: bool)
    ensures Names(a + b, server) == Names(a, server) + Names(b, server)
  {
    forall n | n in Names(a, server) + Names(b, server) ensures n in Names(a + b, server) {
      if n in Names(a, server) {
        var k :| k in a && k.server == server && k.account == n;
        assert k in a + b;
      } else {
        var k :| k in b && k.server == server && k.account == n;
        assert k in a + b;
      }
    }
  }

  lemma NamesOfEntries(server: bool, account: string, values: map<string, Value>, setting: string)
    requires setting in values
    ensures Names(Entries(server, account, values), server) == {account}
    ensures Names(Entries(server, account, values), !server) == {}
  {
    assert ConfKey(server, account, setting) in Entries(server, account, values);
  }

  lemma ServerValuesHaveProtocol(s: ServerSettings)
    ensures "proto" in ServerValues(s)
  {
  }

  lemma AccountValuesNameServers(s: AccountSettings, n: Chosen)
    ensures var values := AccountValues(s, n);
            && "store_account" in values && values["store_account"] == Text(n.store)
            && "transport_account" in values && values["transport_account"] == Text(n.transport)
            && "enabled" in values && values["enabled"] == Flag(true)
  {
  }

  lemma NamesAfterSave(conf: Conf, settings: AccountSettings, n: Chosen)
    ensures Names(Saved(conf, settings, n), false) == Names(conf, false) + {n.account}
    ensures Names(Saved(conf, settings, n), true) == Names(conf, true) + {n.store, n.transport}
  {
    var a := Entries(false, n.account, AccountValues(settings, n));
    var b := Entries(true, n.store, ServerValues(settings.store));
    var c := Entries(true, n.transport, ServerValues(settings.transport));
    AccountValuesNameServers(settings, n);
    NamesOfEntries(false, n.account, AccountValues(settings, n), "enabled");
    ServerValuesHaveProtocol(settings.store);
    NamesOfEntries(true, n.store, ServerValues(settings.store), "proto");
    ServerValuesHaveProtocol(settings.transport);
    NamesOfEntries(true, n.transport, ServerValues(settings.transport), "proto");
    forall server: bool
      ensures Names(conf + a + b + c, server)
           == Names(conf, server) + Names(a, server) + Names(b, server) + Names(c, server) {
      NamesOfSum(conf + a + b, c, server);
      NamesOfSum(conf + a, b, server);
      NamesOfSum(conf, a, server);
    }
  }

  // ----- adding keeps ownership -----

  ghost predicate IsFresh(conf: Conf, n: Chosen) {
    && n.account !in Names(conf, false)
    && n.store !in Names(conf, true) && n.transport !in Names(conf, true) && n.store != n.transport
  }

  lemma UnusedStartsWith(used: set<string>, start: string, name: string)
    requires IsFirstUnused(used, start, name) && start != "" && !IsDigit(start[|start| - 1])
    ensures start <= name
  {
    var k: nat :| name == Nth(Incremented, start, k);
    NamesKeepStem(start, k);
  }

  /** The first unused store name and the first unused transport name are never the same. */
  lemma ChoiceIsFresh(p: Platform, s: Store, settings: AccountSettings, n: Chosen)
    requires IsChoice(p, s, settings, n)
    ensures IsFresh(s.conf, n)
  {
    var store, transport := n.account + "_store", n.account + "_transport";
    UnusedStartsWith(Names(s.conf, true), store, n.store);
    UnusedStartsWith(Names(s.conf, true), transport, n.transport);
    var i := |n.account| + 1;
    assert n.store[i] == store[i] == 's';
    assert n.transport[i] == transport[i] == 't';
  }

  lemma UnusedExists(used: set<string>, start: string, k: nat) returns (name: string)
    requires k <= |used| && AllUsed(used, start, k)
    ensures IsFirstUnused(used, start, name)
    decreases |used| - k
  {
    if Nth(Incremented, start, k) in used {
      OneMoreUsed(used, start, k);
      name := UnusedExists(used, start, k + 1);
    } else {
      name := Nth(Incremented, start, k);
    }
  }

  /** An account can always be added. */
  lemma ChoiceExists(p: Platform, s: Store, settings: AccountSettings) returns (n: Chosen)
    ensures IsChoice(p, s, settings, n)
  {
    var account := UnusedExists(Names(s.conf, false), StartName(p, s, settings), 0);
    var store := UnusedExists(Names(s.conf, true), account + "_store", 0);
    var transport := UnusedExists(Names(s.conf, true), account + "_transport", 0);
    n := Chosen(account, store, transport);
  }

  lemma KeysAreNamed(conf: Conf, k: ConfKey)
    requires k in conf
    ensures k.account in Names(conf, k.server)
  {
  }

  /** Saving a new account leaves every key of the store as it was. */
  lemma SavedKeepsKeys(conf: Conf, settings: AccountSettings, n: Chosen, k: ConfKey)
    requires IsFresh(conf, n)
    ensures k in conf ==> k in Saved(conf, settings, n) && Saved(conf, settings, n)[k] == conf[k]
    ensures k in Saved(conf, settings, n) && k !in conf ==>
              k.account in if k.server then {n.store, n.transport} else {n.account}
  {
    if k in conf { KeysAreNamed(conf, k); }
  }

  lemma SavedKeepsEveryKey(conf: Conf, settings: AccountSettings, n: Chosen)
    requires IsFresh(conf, n)
    ensures forall k :: k in conf ==> k in Saved(conf, settings, n) && Saved(conf, settings, n)[k] == conf[k]
    ensures forall k :: k in Saved(conf, settings, n) && k !in conf ==>
              k.account in if k.server then {n.store, n.transport} else {n.account}
  {
    forall k
      ensures k in conf ==> k in Saved(conf, settings, n) && Saved(conf, settings, n)[k] == conf[k]
      ensures k in Saved(conf, settings, n) && k !in conf ==>
                k.account in if k.server then {n.store, n.transport} else {n.account}
    {
      SavedKeepsKeys(conf, settings, n, k);
    }
  }

  lemma SavedAccountReads(conf: Conf, settings: AccountSettings, n: Chosen)
    ensures var conf' := Saved(conf, settings, n);
            && GetString(conf', n.account, "store_account", false) == Some(n.store)
            && GetString(conf', n.account, "transport_account", false) == Some(n.transport)
            && GetBool(conf', n.account, "enabled", false)
  {
    AccountValuesNameServers(settings, n);
    var values := AccountValues(settings, n);
    forall s | s in values
      ensures ConfKey(false, n.account, s) in Saved(conf, settings, n)
      ensures Saved(conf, settings, n)[ConfKey(false, n.account, s)] == values[s]
    {
      assert ConfKey(false, n.account, s) in Entries(false, n.account, values);
    }
  }

  /** What ownership depends on when an account is saved under unused names. */
  ghost predicate IsSaved(conf: Conf, n: Chosen, conf': Conf) {
    && IsFresh(conf, n)
    && Names(conf', false) == Names(conf, false) + {n.account}
    && Names(conf', true) == Names(conf, true) + {n.store, n.transport}
    && GetString(conf', n.account, "store_account", false) == Some(n.store)
    && GetString(conf', n.account, "transport_account", false) == Some(n.transport)
    && GetBool(conf', n.account, "enabled", false)
    && (forall k :: k in conf ==> k in conf' && conf'[k] == conf[k])
    && (forall k :: k in conf' && k !in conf ==>
              k.account in if k.server then {n.store, n.transport} else {n.account})
  }

  lemma SavedIsSaved(conf: Conf, settings: AccountSettings, n: Chosen)
    requires IsFresh(conf, n)
    ensures IsSaved(conf, n, Saved(conf, settings, n))
  {
    NamesAfterSave(conf, settings, n);
    SavedAccountReads(conf, settings, n);
    SavedKeepsEveryKey(conf, settings, n);
  }

  lemma OwnersAfterSave(conf: Conf, n: Chosen, conf': Conf, m: string, v: string)
    requires IsSaved(conf, n, conf')
    ensures Owns(conf', m, v) <==> if m == n.account then v == n.store || v == n.transport else Owns(conf, m, v)
    ensures m in Names(conf, false) ==> Complete(conf', m) == Complete(conf, m)
  {
    if m != n.account {
      KeyAfterSave(conf, n, conf', m, "store_account");
      KeyAfterSave(conf, n, conf', m, "transport_account");
      KeyAfterSave(conf, n, conf', m, "enabled");
    }
  }

  lemma KeyAfterSave(conf: Conf, n: Chosen, conf': Conf, m: string, setting: string)
    requires IsSaved(conf, n, conf') && m != n.account
    ensures var k := ConfKey(false, m, setting); (k in conf' <==> k in conf) && (k in conf ==> conf'[k] == conf[k])
  {
  }

  lemma AddKeepsOwnership(conf: Conf, n: Chosen, conf': Conf)
    requires Owned(conf) && IsSaved(conf, n, conf')
    ensures Owned(conf')
  {
    forall m, v
      ensures Owns(conf', m, v) <==> if m == n.account then v == n.store || v == n.transport else Owns(conf, m, v) {
      OwnersAfterSave(conf, n, conf', m, v);
    }
    forall m | m in Names(conf', false) ensures Complete(conf', m) {
      OwnersAfterSave(conf, n, conf', m, "");
    }
    forall v | v in Names(conf', true) ensures exists m :: Owns(conf', m, v) {
      if v in Names(conf, true) {
        var m :| Owns(conf, m, v);
        assert Owns(conf', m, v);
      } else {
        assert Owns(conf', n.account, v);
      }
    }
  }

  // ----- removing keeps ownership -----

  lemma KeysAfterRemove(conf: Conf, account: string, k: ConfKey)
    ensures k in conf - OwnKeys(conf, account) <==>
            k in conf && if k.server then !Owns(conf, account, k.account) else k.account != account
  {
  }

  lemma NamesAfterRemove(conf: Conf, account: string)
    ensures Names(conf - OwnKeys(conf, account), false) == Names(conf, false) - {account}
    ensures Names(conf - OwnKeys(conf, account), true) == set v | v in Names(conf, true) && !Owns(conf, account, v)
  {
    var conf' := conf - OwnKeys(conf, account);
    forall n | n in Names(conf, false) - {account} ensures n in Names(conf', false) {
      var k :| k in conf && !k.server && k.account == n;
      assert k in conf';
    }
    forall v | v in Names(conf, true) && !Owns(conf, account, v) ensures v in Names(conf', true) {
      var k :| k in conf && k.server && k.account == v;
      assert k in conf';
    }
  }

  lemma OwnersAfterRemove(conf: Conf, account: string, m: string, v: string)
    ensures Owns(conf - OwnKeys(conf, account), m, v) <==> m != account && Owns(conf, m, v)
    ensures m != account ==> Complete(conf - OwnKeys(conf, account), m) == Complete(conf, m)
  {
    NamesAfterRemove(conf, account);
    KeysAfterRemove(conf, account, ConfKey(false, m, "store_account"));
    KeysAfterRemove(conf, account, ConfKey(false, m, "transport_account"));
    KeysAfterRemove(conf, account, ConfKey(false, m, "enabled"));
  }

  lemma RemoveKeepsOwnership(conf: Conf, account: string)
    requires Owned(conf)
    ensures Owned(conf - OwnKeys(conf, account))
  {
    var conf' := conf - OwnKeys(conf, account);
    NamesAfterRemove(conf, account);
    forall m, v ensures Owns(conf', m, v) <==> m != account && Owns(conf, m, v) {
      OwnersAfterRemove(conf, account, m, v);
    }
    forall m | m in Names(conf', false) ensures Complete(conf', m) {
      OwnersAfterRemove(conf, account, m, "");
    }
    forall v | v in Names(conf', true) ensures exists m :: Owns(conf', m, v) {
      var m :| Owns(conf, m, v);
      assert Owns(conf', m, v);
    }
  }

  // ----- the list of accounts -----

  lemma NoneMissing(conf: Conf, account: string)
    requires Owned(conf)
    ensures !Missing(conf, GetString(conf, account, "store_account", false))
    ensures !Missing(conf, GetString(conf, account, "transport_account", false))
  {
    forall setting: string | GetString(conf, account, setting, false).Some?
      ensures account in Names(conf, false)
    {
      KeysAreNamed(conf, ConfKey(false, account, setting));
    }
    var store := GetString(conf, account, "store_account", false);
    if store.Some? { assert Owns(conf, account, store.value); }
    var transport := GetString(conf, account, "transport_account", false);
    if transport.Some? { assert Owns(conf, account, transport.value); }
  }

  /** While ownership holds, every account is listed, whichever account the escaped name belongs to. */
  lemma EveryAccountIsListed(p: Platform, conf: Conf, account: string, onlyEnabled: bool)
    requires Owned(conf)
    ensures IsListed(p, conf, account, onlyEnabled) <==> account in Names(conf, false)
  {
    NoneMissing(conf, p.ks.escape(account));
    if account in Names(conf, false) {
      assert Complete(conf, account);
    }
  }

  lemma RemoveKeepsDefault(p: Platform, s: Store, account: string, s': Store)
    requires Inv(s) && Owned(s'.conf) && IsRemoved(p, s, account, s')
    ensures HasDefault(s')
  {
    if account in Names(s.conf, false) {
      NamesAfterRemove(s.conf, account);
      if Default(s) == Some(account) {
        forall n ensures IsListed(p, s'.conf, n, true) <==> n in Names(s'.conf, false) {
          EveryAccountIsListed(p, s'.conf, n, true);
        }
      }
    }
  }

  lemma AddKeepsInv(s: Store, n: Chosen, s': Store)
    requires Inv(s) && IsSaved(s.conf, n, s'.conf)
    requires s'.defaultAccount == if Default(s).None? then Some(n.account) else s.defaultAccount
    ensures Inv(s')
  {
    AddKeepsOwnership(s.conf, n, s'.conf);
  }

  lemma FollowsKeepsInv(p: Platform, s: Store, c: Change, s': Store)
    requires Inv(s) && Follows(p, s, c, s')
    ensures Inv(s')
  {
    match c {
      case Add(settings) =>
        var n :| IsChoice(p, s, settings, n) && s' == Added(s, settings, n);
        ChoiceIsFresh(p, s, settings, n);
        SavedIsSaved(s.conf, settings, n);
        AddKeepsInv(s, n, s');
      case Remove(account) =>
        if account in Names(s.conf, false) {
          RemoveKeepsOwnership(s.conf, account);
          RemoveKeepsDefault(p, s, account, s');
        }
    }
  }

  /** However accounts are added and removed, every account is enabled and owns two server accounts of its
      own, no server account is without an owner, and a default is set exactly if there is an account. */
  lemma {:induction false} OwnershipHolds(p: Platform, states: seq<Store>, changes: seq<Change>, k: nat)
    requires IsHistory(p, states, changes) && k < |states|
    ensures Inv(states[k])
  {
    if k == 0 {
      assert Names(map[], false) == {} && Names(map[], true) == {};
    } else {
      OwnershipHolds(p, states, changes, k - 1);
      assert Follows(p, states[k - 1], changes[k - 1], states[k]);
      FollowsKeepsInv(p, states[k - 1], changes[k - 1], states[k]);
    }
  }

  lemma EmptyHistory(p: Platform)
    ensures IsHistory(p, [Store(map[], None)], [])
  {
  }

  lemma StepsTo(p: Platform, states: seq<Store>, changes: seq<Change>, c: Change, s': Store, k: nat)
    requires IsHistory(p, states, changes) && Follows(p, states[|changes|], c, s') && k <= |changes|
    ensures Follows(p, (states + [s'])[k], (changes + [c])[k], (states + [s'])[k + 1])
  {
    if k < |changes| {
      assert Follows(p, states[k], changes[k], states[k + 1]);
    }
  }

  lemma Extended(p: Platform, states: seq<Store>, changes: seq<Change>, c: Change, s': Store)
    requires IsHistory(p, states, changes) && Follows(p, states[|changes|], c, s')
    ensures IsHistory(p, states + [s'], changes + [c])
  {
    forall k | 0 <= k < |changes + [c]|
      ensures Follows(p, (states + [s'])[k], (changes + [c])[k], (states + [s'])[k + 1])
    {
      StepsTo(p, states, changes, c, s', k);
    }
  }

  lemma HistoryOfTwo(p: Platform, c1: Change, c2: Change, s1: Store, s2: Store)
    returns (states: seq<Store>, changes: seq<Change>)
    requires Follows(p, Store(map[], None), c1, s1) && Follows(p, s1, c2, s2)
    ensures IsHistory(p, states, changes) && |changes| == 2 && changes[0] == c1 && changes[1] == c2 && states[2] == s2
  {
    var s0 := Store(map[], None);
    EmptyHistory(p);
    Extended(p, [s0], [], c1, s1);
    Extended(p, [s0] + [s1], [] + [c1], c2, s2);
    states, changes := [s0] + [s1] + [s2], [] + [c1] + [c2];
  }

  // ----- what a change does -----

  /** Removing an account takes its own keys and those of its two server accounts; whatever belongs to
      another account stays. */
  lemma RemoveTakesOwnKeys(p: Platform, s: Store, account: string, s': Store, k: ConfKey)
    requires Inv(s) && IsRemoved(p, s, account, s') && account in Names(s.conf, false) && k in s.conf
    ensures k in s'.conf ==> s'.conf[k] == s.conf[k]
    ensures k !in s'.conf <==> if k.server then Owns(s.conf, account, k.account) else k.account == account
    ensures forall n :: n != account && (if k.server then Owns(s.conf, n, k.account) else k.account == n) ==>
              k in s'.conf
  {
    KeysAfterRemove(s.conf, account, k);
  }

  lemma OwnKeysAreTheNew(conf: Conf, n: Chosen, conf': Conf, k: ConfKey)
    requires Owned(conf) && IsSaved(conf, n, conf')
    ensures k in conf' - OwnKeys(conf', n.account) <==> k in conf
  {
    KeysAfterRemove(conf', n.account, k);
    OwnersAfterSave(conf, n, conf', n.account, k.account);
    if k in conf { KeysAreNamed(conf, k); }
  }

  lemma RemoveRestores(p: Platform, s: Store, n: Chosen, s': Store, s'': Store)
    requires Inv(s) && IsSaved(s.conf, n, s'.conf)
    requires s'.defaultAccount == if Default(s).None? then Some(n.account) else s.defaultAccount
    requires IsRemoved(p, s', n.account, s'')
    ensures s'' == s
  {
    forall k ensures k in s''.conf <==> k in s.conf {
      OwnKeysAreTheNew(s.conf, n, s'.conf, k);
    }
    assert s''.conf == s.conf;
    if Default(s).None? {
      assert IsFirstByTitle(p, s.conf, s''.defaultAccount);
    }
  }

  /** Removing an account just added restores the store, down to the default. */
  lemma RemoveUndoesAdd(p: Platform, s: Store, settings: AccountSettings, n: Chosen, s'': Store)
    requires Inv(s) && IsChoice(p, s, settings, n)
    requires IsRemoved(p, Added(s, settings, n), n.account, s'')
    ensures s'' == s
  {
    ChoiceIsFresh(p, s, settings, n);
    SavedIsSaved(s.conf, settings, n);
    RemoveRestores(p, s, n, Added(s, settings, n), s'');
  }

  /** The new account has the names chosen for it, its server accounts are its own, and it becomes the default
      exactly if it is the first account. */
  lemma AddedAccountIsOwned(p: Platform, s: Store, settings: AccountSettings, n: Chosen, v: string)
    requires Inv(s) && IsChoice(p, s, settings, n)
    ensures var s' := Added(s, settings, n);
            && Names(s'.conf, false) == Names(s.conf, false) + {n.account} && n.account !in Names(s.conf, false)
            && (Owns(s'.conf, n.account, v) <==> v == n.store || v == n.transport)
            && (Default(s') == Some(n.account) <==> Names(s.conf, false) == {})
  {
    ChoiceIsFresh(p, s, settings, n);
    SavedIsSaved(s.conf, settings, n);
    OwnersAfterSave(s.conf, n, Saved(s.conf, settings, n), n.account, v);
  }

  lemma DisplayNameIsSaved(conf: Conf, settings: AccountSettings, n: Chosen, displayName: string)
    requires settings.displayName == Some(displayName)
    ensures GetString(Saved(conf, settings, n), n.account, "display_name", false) == Some(displayName)
  {
    var values := AccountValues(settings, n);
    assert "display_name" in values && values["display_name"] == Text(displayName);
    assert ConfKey(false, n.account, "display_name") in Entries(false, n.account, values);
  }

  lemma ShownName(p: Platform, s: Store, displayName: string) returns (account: string)
    requires DisplayNameExists(p, s, displayName)
    ensures account in Names(s.conf, false) && GetString(s.conf, account, "display_name", false) == Some(displayName)
  {
    account :| account in Names(s.conf, false) && ShowsAs(p, s, account, displayName);
  }

  /** A display name that is taken is replaced in the name of the new account, but it is still the display name
      that is saved: afterwards two accounts show it. */
  lemma TakenDisplayNameIsSavedAgain(p: Platform, s: Store, settings: AccountSettings, n: Chosen, displayName: string)
    returns (other: string)
    requires IsChoice(p, s, settings, n)
    requires settings.displayName == Some(displayName) && DisplayNameExists(p, s, displayName)
    ensures other != n.account
    ensures var conf' := Added(s, settings, n).conf;
            && GetString(conf', other, "display_name", false) == Some(displayName)
            && GetString(conf', n.account, "display_name", false) == Some(displayName)
  {
    other := ShownName(p, s, displayName);
    ChoiceIsFresh(p, s, settings, n);
    SavedKeepsKeys(s.conf, settings, n, ConfKey(false, other, "display_name"));
    DisplayNameIsSaved(s.conf, settings, n, displayName);
  }
}
