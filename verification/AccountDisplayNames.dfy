/** Whether accounts keep different display names. A name that is taken is replaced in the name of the new account,
    but not in what is saved. */
module AccountDisplayNames {
  import opened Messages
  import opened AccountNames
  import opened AccountKeys
  import opened Accounts
  import opened AccountsOwnership
  import opened AccountSettingsRoundTrip

  function Shown(conf: Conf, account: string): Option<string> {
    GetString(conf, account, "display_name", false)
  }

  predicate IsTaken(conf: Conf, displayName: string) {
    exists n :: n in Names(conf, false) && Shown(conf, n) == Some(displayName)
  }

  ghost predicate AllDifferent(conf: Conf) {
    forall m, n :: m in Names(conf, false) && n in Names(conf, false) && m != n && Shown(conf, m).Some?
             ==> Shown(conf, m) != Shown(conf, n)
  }

  // ----- the code's own guard -----

  ghost predicate AllLoad(p: Platform, s: Store) {
    forall n :: n in Names(s.conf, false) ==> LoadAccount(p, s, n).Some?
  }

  lemma AddKeepsLoading(p: Platform, s: Store, settings: AccountSettings, n: Chosen)
    requires Inv(s) && AllLoad(p, s) && IsChoice(p, s, settings, n)
    ensures AllLoad(p, Added(s, settings, n))
  {
    AddedAccountIsOwned(p, s, settings, n, n.store);
    LoadUndoesAdd(p, s, settings, n);
    forall m | m in Names(s.conf, false) ensures LoadAccount(p, Added(s, settings, n), m).Some? {
      AddLeavesOthers(p, s, settings, n, m);
    }
  }

  lemma RemoveKeepsLoading(p: Platform, s: Store, account: string, s': Store)
    requires Inv(s) && AllLoad(p, s) && IsRemoved(p, s, account, s')
    ensures AllLoad(p, s')
  {
    if account in Names(s.conf, false) {
      NamesAfterRemove(s.conf, account);
      forall m | m in Names(s'.conf, false) ensures LoadAccount(p, s', m).Some? {
        RemoveLeavesOthers(p, s, account, s', m);
      }
    }
  }

  lemma FollowsKeepsLoading(p: Platform, s: Store, c: Change, s': Store)
    requires Inv(s) && AllLoad(p, s) && Follows(p, s, c, s')
    ensures AllLoad(p, s')
  {
    match c {
      case Add(settings) =>
        var n :| IsChoice(p, s, settings, n) && s' == Added(s, settings, n);
        AddKeepsLoading(p, s, settings, n);
      case Remove(account) =>
        RemoveKeepsLoading(p, s, account, s');
    }
  }

  lemma StartLoads(p: Platform)
    ensures AllLoad(p, Store(map[], None))
  {
    assert Names(map[], false) == {};
  }

  lemma HistoryFollows(p: Platform, states: seq<Store>, changes: seq<Change>, k: nat)
    requires IsHistory(p, states, changes) && k < |changes|
    ensures Follows(p, states[k], changes[k], states[k + 1])
  {
  }

  lemma OneMoreLoads(p: Platform, states: seq<Store>, changes: seq<Change>, k: nat)
    requires IsHistory(p, states, changes) && k < |changes| && AllLoad(p, states[k])
    ensures AllLoad(p, states[k + 1])
  {
    OwnershipHolds(p, states, changes, k);
    HistoryFollows(p, states, changes, k);
    FollowsKeepsLoading(p, states[k], changes[k], states[k + 1]);
  }

  /** However accounts are added and removed, the settings of every account load. */
  lemma EveryAccountLoads(p: Platform, states: seq<Store>, changes: seq<Change>, k: nat)
    requires IsHistory(p, states, changes) && k < |states|
    ensures Inv(states[k]) && AllLoad(p, states[k])
  {
    StartLoads(p);
    for j := 0 to k
      invariant AllLoad(p, states[j])
    {
      OneMoreLoads(p, states, changes, j);
    }
    OwnershipHolds(p, states, changes, k);
  }

  /** The code's guard then tells whether the name is taken. */
  lemma GuardTells(p: Platform, s: Store, displayName: string)
    requires Inv(s) && AllLoad(p, s)
    ensures DisplayNameExists(p, s, displayName) <==> IsTaken(s.conf, displayName)
  {
    forall n | n in Names(s.conf, false)
      ensures ShowsAs(p, s, n, displayName) <==> Shown(s.conf, n) == Some(displayName) {
      EveryAccountIsListed(p, s.conf, n, true);
      assert LoadAccount(p, s, n).Some?;
    }
  }

  // ----- one addition -----

  lemma ShownAfterAdd(p: Platform, s: Store, settings: AccountSettings, n: Chosen, m: string)
    requires IsChoice(p, s, settings, n)
    ensures Shown(Added(s, settings, n).conf, m) == if m == n.account then settings.displayName else Shown(s.conf, m)
  {
    if m == n.account {
      LoadUndoesAdd(p, s, settings, n);
    } else {
      ChoiceIsFresh(p, s, settings, n);
      SavedIsSaved(s.conf, settings, n);
      KeyAfterSave(s.conf, n, Saved(s.conf, settings, n), m, "display_name");
    }
  }

  lemma DifferentAfter(conf: Conf, conf': Conf, account: string, displayName: Option<string>)
    requires AllDifferent(conf) && account !in Names(conf, false)
    requires Names(conf', false) == Names(conf, false) + {account}
    requires forall m :: Shown(conf', m) == if m == account then displayName else Shown(conf, m)
    ensures AllDifferent(conf') <==> displayName.None? || !IsTaken(conf, displayName.value)
  {
    if displayName.Some? && IsTaken(conf, displayName.value) {
      var m :| m in Names(conf, false) && Shown(conf, m) == displayName;
      assert m in Names(conf', false) && account in Names(conf', false) && Shown(conf', m) == Shown(conf', account);
    }
  }

  /** Adding an account keeps the display names different exactly if it has none or it is not taken. */
  lemma AddKeepsDifferentExactly(p: Platform, s: Store, settings: AccountSettings, n: Chosen)
    requires IsChoice(p, s, settings, n) && AllDifferent(s.conf)
    ensures AllDifferent(Added(s, settings, n).conf)
       <==> settings.displayName.None? || !IsTaken(s.conf, settings.displayName.value)
  {
    var conf' := Added(s, settings, n).conf;
    ChoiceIsFresh(p, s, settings, n);
    NamesAfterSave(s.conf, settings, n);
    forall m ensures Shown(conf', m) == if m == n.account then settings.displayName else Shown(s.conf, m) {
      ShownAfterAdd(p, s, settings, n, m);
    }
    DifferentAfter(s.conf, conf', n.account, settings.displayName);
  }

  lemma RemoveKeepsDifferent(p: Platform, s: Store, account: string, s': Store)
    requires AllDifferent(s.conf) && IsRemoved(p, s, account, s')
    ensures AllDifferent(s'.conf)
  {
    if account in Names(s.conf, false) {
      NamesAfterRemove(s.conf, account);
      forall m | m in Names(s'.conf, false) ensures Shown(s'.conf, m) == Shown(s.conf, m) {
        KeysAfterRemove(s.conf, account, ConfKey(false, m, "display_name"));
      }
    }
  }

  // ----- histories -----

  /** The change adds an account under a display name for which the code finds another account. */
  predicate TakesName(p: Platform, s: Store, c: Change) {
    c.Add? && c.settings.displayName.Some? && DisplayNameExists(p, s, c.settings.displayName.value)
  }

  lemma ChangeKeepsDifferentExactly(p: Platform, s: Store, c: Change, s': Store)
    requires Inv(s) && AllLoad(p, s) && AllDifferent(s.conf) && Follows(p, s, c, s')
    ensures AllDifferent(s'.conf) <==> !TakesName(p, s, c)
  {
    match c {
      case Add(settings) =>
        var n :| IsChoice(p, s, settings, n) && s' == Added(s, settings, n);
        AddKeepsDifferentExactly(p, s, settings, n);
        if settings.displayName.Some? {
          GuardTells(p, s, settings.displayName.value);
        }
      case Remove(account) =>
        RemoveKeepsDifferent(p, s, account, s');
    }
  }

  ghost predicate DifferentUpTo(states: seq<Store>, k: nat)
    requires k < |states|
  {
    forall j :: 0 <= j <= k ==> AllDifferent(states[j].conf)
  }

  ghost predicate NoneTakenBefore(p: Platform, states: seq<Store>, changes: seq<Change>, k: nat)
    requires k <= |changes| && |states| == |changes| + 1
  {
    forall j :: 0 <= j < k ==> !TakesName(p, states[j], changes[j])
  }

  lemma DifferentNext(states: seq<Store>, k: nat)
    requires k + 1 < |states|
    ensures DifferentUpTo(states, k + 1) <==> DifferentUpTo(states, k) && AllDifferent(states[k + 1].conf)
  {
  }

  lemma NoneTakenNext(p: Platform, states: seq<Store>, changes: seq<Change>, k: nat)
    requires k < |changes| && |states| == |changes| + 1
    ensures NoneTakenBefore(p, states, changes, k + 1)
       <==> NoneTakenBefore(p, states, changes, k) && !TakesName(p, states[k], changes[k])
  {
  }

  lemma LastDiffers(states: seq<Store>, k: nat)
    requires k < |states| && DifferentUpTo(states, k)
    ensures AllDifferent(states[k].conf)
  {
  }

  lemma OneMoreChange(p: Platform, states: seq<Store>, changes: seq<Change>, k: nat)
    requires k < |changes| && |states| == |changes| + 1 && Follows(p, states[k], changes[k], states[k + 1])
    requires Inv(states[k]) && AllLoad(p, states[k])
    requires DifferentUpTo(states, k) <==> NoneTakenBefore(p, states, changes, k)
    ensures DifferentUpTo(states, k + 1) <==> NoneTakenBefore(p, states, changes, k + 1)
  {
    DifferentNext(states, k);
    NoneTakenNext(p, states, changes, k);
    if DifferentUpTo(states, k) {
      LastDiffers(states, k);
      ChangeKeepsDifferentExactly(p, states[k], changes[k], states[k + 1]);
    }
  }

  lemma OneMoreStep(p: Platform, states: seq<Store>, changes: seq<Change>, k: nat)
    requires IsHistory(p, states, changes) && k < |changes|
    requires DifferentUpTo(states, k) <==> NoneTakenBefore(p, states, changes, k)
    ensures DifferentUpTo(states, k + 1) <==> NoneTakenBefore(p, states, changes, k + 1)
  {
    EveryAccountLoads(p, states, changes, k);
    HistoryFollows(p, states, changes, k);
    OneMoreChange(p, states, changes, k);
  }

  /** In every history of additions and removals the accounts have different display names throughout if and only if
      no account was added under a name for which the code had found another account. */
  lemma NamesStayDifferentExactly(p: Platform, states: seq<Store>, changes: seq<Change>, k: nat)
    requires IsHistory(p, states, changes) && k < |states|
    ensures DifferentUpTo(states, k) <==> NoneTakenBefore(p, states, changes, k)
  {
    assert Names(map[], false) == {};
    for j := 0 to k
      invariant DifferentUpTo(states, j) <==> NoneTakenBefore(p, states, changes, j)
    {
      OneMoreStep(p, states, changes, j);
    }
  }

  lemma AddOne(p: Platform, s: Store, settings: AccountSettings) returns (n: Chosen, s': Store)
    ensures IsChoice(p, s, settings, n) && s' == Added(s, settings, n) && Follows(p, s, Add(settings), s')
    ensures n.account !in Names(s.conf, false) && Names(s'.conf, false) == Names(s.conf, false) + {n.account}
    ensures forall m :: Shown(s'.conf, m) == if m == n.account then settings.displayName else Shown(s.conf, m)
  {
    n := ChoiceExists(p, s, settings);
    s' := Added(s, settings, n);
    ChoiceIsFresh(p, s, settings, n);
    NamesAfterSave(s.conf, settings, n);
    forall m ensures Shown(s'.conf, m) == if m == n.account then settings.displayName else Shown(s.conf, m) {
      ShownAfterAdd(p, s, settings, n, m);
    }
  }

  /** Adding an account twice, on any platform: then two accounts show its display name. */
  lemma SameNameTwice(p: Platform, settings: AccountSettings)
    returns (states: seq<Store>, changes: seq<Change>, m: string, n: string)
    requires settings.displayName.Some?
    ensures IsHistory(p, states, changes) && |changes| == 2 && changes[0] == changes[1] == Add(settings)
    ensures var conf := states[2].conf;
            && m != n && m in Names(conf, false) && n in Names(conf, false)
            && Shown(conf, m) == Shown(conf, n) == settings.displayName
  {
    var n1, s1 := AddOne(p, Store(map[], None), settings);
    var n2, s2 := AddOne(p, s1, settings);
    m, n := n1.account, n2.account;
    states, changes := HistoryOfTwo(p, Add(settings), Add(settings), s1, s2);
  }
}
