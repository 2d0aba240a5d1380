/** Which accounts the list leaves out because a server account of theirs is missing, as it is while an account is
    being removed. The filter looks the server accounts up under the escaped name of the account. */
module AccountListing {
  import opened Messages
  import opened AccountNames
  import opened AccountKeys
  import opened Accounts
  import opened AccountsOwnership
  import opened Numerals

  predicate ServersThere(conf: Conf, account: string) {
    && !Missing(conf, GetString(conf, account, "store_account", false))
    && !Missing(conf, GetString(conf, account, "transport_account", false))
  }

  /** The filter is right about an account exactly if its name needs no escaping, or the escaped name, read as the
      name of an account, has its server accounts if and only if the account has. */
  lemma FilterIsRightExactly(p: Platform, conf: Conf, account: string)
    requires account in Names(conf, false)
    ensures (IsListed(p, conf, account, false) <==> ServersThere(conf, account))
       <==> (|| p.ks.escape(account) == account
             || (ServersThere(conf, account) <==> ServersThere(conf, p.ks.escape(account))))
  {
    assert IsListed(p, conf, account, false) <==> ServersThere(conf, p.ks.escape(account));
  }

  /** A name that belongs to no account has no server accounts that could be missing. */
  lemma UnknownHasNoneMissing(conf: Conf, account: string)
    requires account !in Names(conf, false)
    ensures ServersThere(conf, account)
  {
    forall setting: string ensures GetString(conf, account, setting, false).None? {
      if ConfKey(false, account, setting) in conf {
        KeysAreNamed(conf, ConfKey(false, account, setting));
        assert false;
      }
    }
  }

  /** The store after the directories of some server accounts are gone. */
  function WithoutServers(conf: Conf, gone: set<string>): Conf {
    conf - set k | k in conf && k.server && k.account in gone
  }

  lemma ServersAfter(conf: Conf, gone: set<string>)
    ensures Names(WithoutServers(conf, gone), true) == Names(conf, true) - gone
    ensures Names(WithoutServers(conf, gone), false) == Names(conf, false)
    ensures forall m, setting ::
              GetString(WithoutServers(conf, gone), m, setting, false) == GetString(conf, m, setting, false)
  {
    var conf' := WithoutServers(conf, gone);
    forall v | v in Names(conf, true) - gone ensures v in Names(conf', true) {
      var k :| k in conf && k.server && k.account == v;
      assert k in conf';
    }
    forall n | n in Names(conf, false) ensures n in Names(conf', false) {
      var k :| k in conf && !k.server && k.account == n;
      assert k in conf';
    }
  }

  /** While an account is being removed, and its server accounts are gone in part or all, exactly that account
      lacks server accounts. */
  lemma OneLacksServers(s: Store, account: string, gone: set<string>, m: string)
    requires Inv(s) && account in Names(s.conf, false)
    requires gone != {} && forall v :: v in gone ==> Owns(s.conf, account, v)
    ensures ServersThere(WithoutServers(s.conf, gone), m) <==> m != account
  {
    var conf' := WithoutServers(s.conf, gone);
    ServersAfter(s.conf, gone);
    NoneMissing(s.conf, m);
    if m == account {
      var v :| v in gone;
      assert Owns(s.conf, account, v);
    } else if m in Names(s.conf, false) {
      forall v | v in gone ensures !Owns(s.conf, m, v) {
        assert Owns(s.conf, account, v);
      }
      assert Complete(s.conf, m);
    } else {
      UnknownHasNoneMissing(conf', m);
    }
  }

  /** At that point the list leaves out exactly the accounts whose escaped name is the name of the account being
      removed. So it is right about an account if and only if that is the account being removed exactly when it is so
      called in escaped form. */
  lemma ListDuringRemoval(p: Platform, s: Store, account: string, gone: set<string>, m: string)
    requires Inv(s) && account in Names(s.conf, false) && m in Names(s.conf, false)
    requires gone != {} && forall v :: v in gone ==> Owns(s.conf, account, v)
    ensures var conf := WithoutServers(s.conf, gone);
            && (IsListed(p, conf, m, false) <==> p.ks.escape(m) != account)
            && ((IsListed(p, conf, m, false) <==> ServersThere(conf, m))
                <==> (p.ks.escape(m) == account <==> m == account))
  {
    ServersAfter(s.conf, gone);
    OneLacksServers(s, account, gone, m);
    OneLacksServers(s, account, gone, p.ks.escape(m));
    assert IsListed(p, WithoutServers(s.conf, gone), m, false)
      <==> ServersThere(WithoutServers(s.conf, gone), p.ks.escape(m));
  }

  /** An account whose name needs escaping stays listed while it is being removed, though a server account of its
      own is missing. */
  lemma LostServerAccountGoesUnnoticed(p: Platform, s: Store, account: string, gone: set<string>)
    requires Inv(s) && account in Names(s.conf, false) && p.ks.escape(account) != account
    requires gone != {} && forall v :: v in gone ==> Owns(s.conf, account, v)
    ensures var conf := WithoutServers(s.conf, gone);
            IsListed(p, conf, account, false) && !ServersThere(conf, account)
  {
    ListDuringRemoval(p, s, account, gone, account);
    OneLacksServers(s, account, gone, account);
  }

  /** And an account that is complete is left out while the account called like its escaped name is removed. */
  lemma CompleteAccountIsDropped(p: Platform, s: Store, account: string, gone: set<string>, m: string)
    requires Inv(s) && account in Names(s.conf, false) && m in Names(s.conf, false)
    requires m != account && p.ks.escape(m) == account
    requires gone != {} && forall v :: v in gone ==> Owns(s.conf, account, v)
    ensures var conf := WithoutServers(s.conf, gone);
            !IsListed(p, conf, m, false) && ServersThere(conf, m)
  {
    ListDuringRemoval(p, s, account, gone, m);
    OneLacksServers(s, account, gone, m);
  }

  // ----- such stores -----

  function Example(displayName: string): AccountSettings {
    var server := ServerSettings(None, "imap", None, None, None, 0, "none", "none", false, false);
    AccountSettings(Some(displayName), None, None, HeadersOnly, 0, false, None, false, false, server, server)
  }

  function ExamplePlatform(): Platform {
    Platform(KeySpace("/apps/modest", Escape, Unescape), (a: string, b: string) => 0, "new", "", "none", "none")
  }

  lemma EscapeOfDash()
    ensures Escape("-ID") == "@45@ID"
  {
    assert PrintNat(45) == "45";
    assert Escape("D") == "D" && Escape("ID") == "ID";
  }

  /** An added account has the name it starts with if no account is called so. */
  lemma KeepsStart(used: set<string>, start: string, name: string)
    requires IsFirstUnused(used, start, name) && start !in used
    ensures name == start
  {
    var k: nat :| name == Nth(Incremented, start, k) && AllUsed(used, start, k);
    if k > 0 {
      FirstIsUsed(used, start, k);
    }
  }

  lemma AddNamed(p: Platform, s: Store, displayName: string) returns (n: Chosen, s': Store)
    requires Inv(s) && displayName + "ID" !in Names(s.conf, false) && !DisplayNameExists(p, s, displayName)
    ensures Follows(p, s, Add(Example(displayName)), s') && Inv(s')
    ensures n.account == displayName + "ID" && Names(s'.conf, false) == Names(s.conf, false) + {n.account}
    ensures Owns(s'.conf, n.account, n.store) && forall m, v :: Owns(s.conf, m, v) ==> Owns(s'.conf, m, v)
    ensures GetString(s'.conf, n.account, "display_name", false) == Some(displayName)
  {
    var x := Example(displayName);
    n := ChoiceExists(p, s, x);
    KeepsStart(Names(s.conf, false), displayName + "ID", n.account);
    s' := Added(s, x, n);
    FollowsKeepsInv(p, s, Add(x), s');
    AddedAccountIsOwned(p, s, x, n, n.store);
    DisplayNameIsSaved(s.conf, x, n, displayName);
    ChoiceIsFresh(p, s, x, n);
    OwnersStay(s.conf, x, n);
  }

  lemma OwnersStay(conf: Conf, x: AccountSettings, n: Chosen)
    requires IsFresh(conf, n)
    ensures forall m, v :: Owns(conf, m, v) ==> Owns(Saved(conf, x, n), m, v)
  {
    SavedIsSaved(conf, x, n);
    forall m, v | Owns(conf, m, v) ensures Owns(Saved(conf, x, n), m, v) {
      OwnersAfterSave(conf, n, Saved(conf, x, n), m, v);
    }
  }

  lemma NotShown(p: Platform, s: Store, account: string, displayName: string, other: string)
    requires Names(s.conf, false) == {account} && displayName != other
    requires GetString(s.conf, account, "display_name", false) == Some(displayName)
    ensures !DisplayNameExists(p, s, other)
  {
    if DisplayNameExists(p, s, other) {
      var m := ShownName(p, s, other);
    }
  }

  /** Two accounts, of which the second is called like the escaped name of the first: when the first is removed it
      stays listed without its store account; when the second is, the first drops out of the list although nothing of
      it is missing. */
  lemma ListIsWrongBothWays(p: Platform, x: string, y: string)
    returns (states: seq<Store>, changes: seq<Change>, s: Store, n: Chosen, m: Chosen)
    requires x != y && x + "ID" != y + "ID" && p.ks.escape(x + "ID") == y + "ID"
    ensures IsHistory(p, states, changes) && states[|changes|] == s
    ensures Owns(s.conf, n.account, n.store) && Owns(s.conf, m.account, m.store)
    ensures WrongBothWays(p, s, n, m)
  {
    var s1;
    n, m, s1, s := TwoAdded(p, x, y);
    states, changes := HistoryOfTwo(p, Add(Example(x)), Add(Example(y)), s1, s);
    IsWrongBothWays(p, s, n, m);
  }

  predicate WrongBothWays(p: Platform, s: Store, n: Chosen, m: Chosen) {
    var first, second := WithoutServers(s.conf, {n.store}), WithoutServers(s.conf, {m.store});
    && IsListed(p, first, n.account, false) && !ServersThere(first, n.account)
    && !IsListed(p, second, n.account, false) && ServersThere(second, n.account)
  }

  lemma TwoAdded(p: Platform, x: string, y: string) returns (n: Chosen, m: Chosen, s1: Store, s2: Store)
    requires x != y && x + "ID" != y + "ID"
    ensures Follows(p, Store(map[], None), Add(Example(x)), s1) && Follows(p, s1, Add(Example(y)), s2) && Inv(s2)
    ensures n.account == x + "ID" && m.account == y + "ID"
    ensures Owns(s2.conf, n.account, n.store) && Owns(s2.conf, m.account, m.store)
  {
    assert Names(map[], false) == {} && Names(map[], true) == {};
    n, s1 := AddNamed(p, Store(map[], None), x);
    NotShown(p, s1, n.account, x, y);
    m, s2 := AddNamed(p, s1, y);
  }

  lemma IsWrongBothWays(p: Platform, s: Store, n: Chosen, m: Chosen)
    requires Inv(s) && Owns(s.conf, n.account, n.store) && Owns(s.conf, m.account, m.store)
    requires n.account != m.account && p.ks.escape(n.account) == m.account
    ensures WrongBothWays(p, s, n, m)
  {
    LostServerAccountGoesUnnoticed(p, s, n.account, {n.store});
    CompleteAccountIsDropped(p, s, m.account, {m.store}, n.account);
  }

  /** With an escaping in the manner of GConf, "-" and "@45@" are the display names of two such accounts. */
  lemma SuchNamesExist()
    ensures ExamplePlatform().Valid()
    ensures "-" + "ID" != "@45@" + "ID" && ExamplePlatform().ks.escape("-" + "ID") == "@45@" + "ID"
  {
    EscapingIsFaithful();
    EscapeOfDash();
    assert "-" + "ID" == "-ID" && "@45@" + "ID" == "@45@ID";
  }
}
