/** Every account update comes to its end: callbacks and timeouts are bounded by the size of the folder
    tree and the number of new headers, and until the end one of them is always outstanding. */
module AccountUpdateTermination {
  import opened Sequences
  import opened FolderTrees
  import opened Messages
  import opened HeaderSelection
  import opened AccountUpdate
  import opened AccountUpdateRuns

  /** The events a folder can still cause once it is listed: its refresh, and the listing of its own
      folders when every folder is poked. */
  function FolderCost(c: Config, f: Folder): nat
    decreases f
  {
    2 + if c.pokeAll then 3 + FoldersCost(c, f.children) else 0
  }

  function FoldersCost(c: Config, fs: seq<Folder>): nat
    decreases fs
  {
    if fs == [] then 0 else FolderCost(c, fs[0]) + FoldersCost(c, fs[1..])
  }

  function RequestsCost(c: Config, rs: seq<Request>, each: nat): nat {
    if rs == [] then 0
    else RequestsCost(c, rs[..|rs| - 1], each) + each + FoldersCost(c, rs[|rs| - 1].list + rs[|rs| - 1].children)
  }

  lemma {:induction false} FoldersCostConcat(c: Config, a: seq<Folder>, b: seq<Folder>)
    ensures FoldersCost(c, a + b) == FoldersCost(c, a) + FoldersCost(c, b)
  {
    if a == [] {
      assert a + b == b;
    } else {
      assert (a + b)[1..] == a[1..] + b;
      FoldersCostConcat(c, a[1..], b);
    }
  }

  lemma {:induction false} RequestsCostConcat(c: Config, a: seq<Request>, b: seq<Request>, each: nat)
    ensures RequestsCost(c, a + b, each) == RequestsCost(c, a, each) + RequestsCost(c, b, each)
  {
    if b == [] {
      assert a + b == a;
    } else {
      assert (a + b)[..|a + b| - 1] == a + b[..|b| - 1];
      RequestsCostConcat(c, a, b[..|b| - 1], each);
    }
  }

  lemma RequestCost(c: Config, r: Request, each: nat)
    ensures RequestsCost(c, [r], each) == each + FoldersCost(c, r.list + r.children)
  {
    assert [r][..0] == [];
  }

  lemma RequestsCostWithout(c: Config, rs: seq<Request>, i: nat, each: nat)
    requires i < |rs|
    ensures RequestsCost(c, rs, each)
         == RequestsCost(c, Without(rs, i), each) + each + FoldersCost(c, rs[i].list + rs[i].children)
  {
    var a, b := SplitAt(rs, i);
    RequestsCostConcat(c, a + [rs[i]], b, each);
    RequestsCostConcat(c, a, [rs[i]], each);
    RequestsCostConcat(c, a, b, each);
    RequestCost(c, rs[i], each);
  }

  lemma {:induction false} ListedCost(c: Config, fs: seq<Folder>)
    ensures FoldersCost(c, fs) == 2 * |fs| + if c.pokeAll then RequestsCost(c, Requests(fs), 3) else 0
  {
    if fs != [] {
      var front, last := fs[..|fs| - 1], fs[|fs| - 1];
      assert fs == front + [last];
      ListedCost(c, front);
      FoldersCostConcat(c, front, [last]);
      assert FoldersCost(c, [last]) == FolderCost(c, last) + FoldersCost(c, []);
      assert [] + last.children == last.children;
      assert Requests(fs)[..|Requests(fs)| - 1] == Requests(front);
    }
  }

  function ListingCost(c: Config, timeouts: seq<Request>, calls: seq<Request>): nat {
    RequestsCost(c, timeouts, 3) + RequestsCost(c, calls, 2)
  }

  /** While a retry is left, each outstanding call may come twice. */
  function ListingBudget(c: Config, timeouts: seq<Request>, calls: seq<Request>, retriesLeft: nat, folders: nat): nat {
    (if retriesLeft > 0 then 2 * ListingCost(c, timeouts, calls) else ListingCost(c, timeouts, calls)) + 2 * folders
  }

  function ListingBudgetOf(c: Config, s: State): nat {
    ListingBudget(c, s.timeouts, s.calls, s.retriesLeft, |s.folders|)
  }

  /** How many callbacks and timeouts can still come if no further header turns up. */
  function Budget(c: Config, s: State): nat {
    if !s.alive then 0
    else if s.pendingCalls > 0 then ListingBudgetOf(c, s)
    else 2 * |s.refreshTimeouts| + |s.refreshCalls| + 2 * |s.folders2| + |s.downloads|
         + if s.observer.Some? then |s.observer.value| else 0
  }

  lemma {:induction false} FewerWanted(c: Config, fs: seq<Folder>)
    ensures |Wanted(c, fs)| <= |fs|
  {
    if fs != [] { FewerWanted(c, fs[..|fs| - 1]); }
  }

  lemma {:induction false} FewerUnderSize(hs: seq<Header>, maxSize: int)
    ensures |UnderSize(hs, maxSize)| <= |hs|
  {
    if hs != [] { FewerUnderSize(hs[..|hs| - 1], maxSize); }
  }

  lemma RefreshCostsLess(c: Config, s: State)
    requires c.Valid() && Counted(c, s) && s.pendingCalls == 0
    ensures Budget(c, AllListed(c, s)) <= 2 * |s.folders|
  {
    FewerWanted(c, s.folders);
  }

  lemma PendingCallDoneBudget(c: Config, s: State)
    requires c.Valid() && Counted(c, s.(pendingCalls := s.pendingCalls - 1))
    ensures Budget(c, PendingCallDone(c, s)) <= ListingBudgetOf(c, s)
  {
    var s' := s.(pendingCalls := s.pendingCalls - 1);
    if s'.pendingCalls == 0 {
      RefreshCostsLess(c, s');
    } else {
      assert Budget(c, s') == ListingBudgetOf(c, s');
    }
  }

  /** What a listing that comes back takes from the costs: its own call, and a share for what it still promises. */
  lemma CallCost(c: Config, timeouts: seq<Request>, calls: seq<Request>, i: nat)
    requires i < |calls|
    ensures ListingCost(c, timeouts, calls)
         == ListingCost(c, timeouts, Without(calls, i)) + 2 + FoldersCost(c, calls[i].list + calls[i].children)
  {
    RequestsCostWithout(c, calls, i, 2);
  }

  lemma ListCost(c: Config, timeouts: seq<Request>, calls: seq<Request>, list: seq<Folder>)
    ensures FoldersCost(c, list) + ListingCost(c, timeouts, calls)
         == 2 * |list| + ListingCost(c, if c.pokeAll then timeouts + Requests(list) else timeouts, calls)
  {
    ListedCost(c, list);
    if c.pokeAll {
      RequestsCostConcat(c, timeouts, Requests(list), 3);
    }
  }

  lemma PartialCost(c: Config, r: Request, partial: seq<Folder>)
    requires partial <= r.children
    ensures FoldersCost(c, r.list + partial + r.children) <= 2 * FoldersCost(c, r.list + r.children)
  {
    FoldersCostConcat(c, r.list + partial, r.children);
    FoldersCostConcat(c, r.list, partial);
    FoldersCostConcat(c, r.list, r.children);
    FoldersCostConcat(c, partial, r.children[|partial|..]);
    assert r.children == partial + r.children[|partial|..];
  }

  lemma RetryCost(c: Config, timeouts: seq<Request>, calls: seq<Request>, r: Request, partial: seq<Folder>)
    requires partial <= r.children
    ensures ListingCost(c, timeouts + [Request(r.list + partial, r.children)], calls)
         <= ListingCost(c, timeouts, calls) + 3 + 2 * FoldersCost(c, r.list + r.children)
  {
    var again := Request(r.list + partial, r.children);
    RequestsCostConcat(c, timeouts, [again], 3);
    RequestCost(c, again, 3);
    PartialCost(c, r, partial);
  }

  lemma SuccessCost(c: Config, s: State, i: nat)
    requires i < |s.calls|
    ensures var r := s.calls[i];
            var s1 := FoldersFound(c, s.(calls := Without(s.calls, i)), r.list + r.children);
            ListingBudgetOf(c, s1) < ListingBudgetOf(c, s)
  {
    var rest, list := Without(s.calls, i), s.calls[i].list + s.calls[i].children;
    CallCost(c, s.timeouts, s.calls, i);
    ListCost(c, s.timeouts, rest, list);
  }

  lemma RetryLowers(c: Config, timeouts: seq<Request>, calls: seq<Request>, i: nat, partial: seq<Folder>, folders: nat)
    requires i < |calls| && partial <= calls[i].children
    ensures ListingBudget(c, timeouts + [Request(calls[i].list + partial, calls[i].children)],
                          Without(calls, i), 0, folders)
          < ListingBudget(c, timeouts, calls, 1, folders)
  {
    CallCost(c, timeouts, calls, i);
    RetryCost(c, timeouts, Without(calls, i), calls[i], partial);
  }

  lemma LossLowers(c: Config, timeouts: seq<Request>, calls: seq<Request>, i: nat, retriesLeft: nat, folders: nat)
    requires i < |calls|
    ensures ListingBudget(c, timeouts, Without(calls, i), retriesLeft, folders)
          < ListingBudget(c, timeouts, calls, retriesLeft, folders)
  {
    CallCost(c, timeouts, calls, i);
  }

  lemma FailureCost(c: Config, s: State, i: nat, err: bool, partial: seq<Folder>)
    requires i < |s.calls| && partial <= s.calls[i].children && s.retriesLeft <= 1
    ensures var s1 := ListingFailed(c, s.(calls := Without(s.calls, i)), s.calls[i], err, partial);
            ListingBudgetOf(c, s1) < ListingBudgetOf(c, s)
  {
    if err && s.error.None? && s.retriesLeft > 0 {
      RetryLowers(c, s.timeouts, s.calls, i, partial, |s.folders|);
    } else {
      LossLowers(c, s.timeouts, s.calls, i, s.retriesLeft, |s.folders|);
    }
  }

  lemma SuccessLowersBudget(c: Config, s: State, i: nat)
    requires c.Valid() && Common(c, s) && Listing(c, s) && i < |s.calls|
    ensures var r := s.calls[i];
            var s1 := FoldersFound(c, s.(calls := Without(s.calls, i)), r.list + r.children);
            Budget(c, PendingCallDone(c, s1)) < ListingBudgetOf(c, s)
  {
    var r := s.calls[i];
    SuccessCounted(c, s, i);
    SuccessCost(c, s, i);
    PendingCallDoneBudget(c, FoldersFound(c, s.(calls := Without(s.calls, i)), r.list + r.children));
  }

  lemma FailureLowersBudget(c: Config, s: State, i: nat, err: bool, partial: seq<Folder>)
    requires c.Valid() && Common(c, s) && Listing(c, s) && i < |s.calls| && partial <= s.calls[i].children
    ensures var s1 := ListingFailed(c, s.(calls := Without(s.calls, i)), s.calls[i], err, partial);
            Budget(c, PendingCallDone(c, s1)) < ListingBudgetOf(c, s)
  {
    FailureCounted(c, s, i, err, partial);
    FailureCost(c, s, i, err, partial);
    PendingCallDoneBudget(c, ListingFailed(c, s.(calls := Without(s.calls, i)), s.calls[i], err, partial));
  }

  lemma BudgetWhileListing(c: Config, s: State)
    requires s.alive && s.pendingCalls > 0
    ensures Budget(c, s) == ListingBudgetOf(c, s)
  {
  }

  lemma ListedLowersBudget(c: Config, s: State, i: nat, canceled: bool, err: bool, partial: seq<Folder>)
    requires c.Valid() && Common(c, s) && Listing(c, s) && Enabled(s, Listed(i, canceled, err, partial))
    ensures Budget(c, RecurseFolders(c, s, i, canceled, err, partial)) < Budget(c, s)
  {
    BudgetWhileListing(c, s);
    if canceled || err {
      FailureLowersBudget(c, s, i, err, partial);
    } else {
      SuccessLowersBudget(c, s, i);
    }
  }

  lemma TimeoutCost(c: Config, timeouts: seq<Request>, calls: seq<Request>, i: nat)
    requires i < |timeouts|
    ensures ListingCost(c, Without(timeouts, i), calls + [timeouts[i]]) == ListingCost(c, timeouts, calls) - 1
  {
    RequestsCostWithout(c, timeouts, i, 3);
    RequestsCostConcat(c, calls, [timeouts[i]], 2);
    RequestCost(c, timeouts[i], 2);
  }

  lemma ListTimeoutLowersBudget(c: Config, s: State, i: nat)
    requires c.Valid() && Common(c, s) && Listing(c, s) && i < |s.timeouts|
    ensures Budget(c, ListTimeoutFired(s, i)) < Budget(c, s)
  {
    TimeoutCost(c, s.timeouts, s.calls, i);
  }

  lemma FewerRequested(c: Config, s: State)
    requires c.Valid() && AllRefreshed(c, s)
    ensures Budget(c, StartDownloads(c, s)) <= |s.offered|
  {
    var maxSize := MaxSize(c.sizeLimitKb);
    NewestIsOrdered(s.offered, maxSize);
    FewerUnderSize(s.offered, maxSize);
    var newest := Newest(s.offered, maxSize);
    assert |[] + newest[..RetrieveCount(|newest|, c.retrieveLimit)]| <= |newest|;
  }

  lemma NextRefreshCost(c: Config, s: State, i: nat)
    requires c.Valid() && s.alive && s.pendingCalls == 0
    requires |s.refreshTimeouts| + |s.refreshCalls| == 1 && i < |s.refreshCalls| && s.folders2 != []
    ensures Budget(c, Step(c, s, Refreshed(i, false, false))) < Budget(c, s)
  {
    NextRefresh(c, s, i);
  }

  lemma LastRefreshCost(c: Config, s: State, i: nat)
    requires c.Valid() && Common(c, s) && Refreshing(c, s) && i < |s.refreshCalls| && s.folders2 == []
    ensures Budget(c, Step(c, s, Refreshed(i, false, false))) < Budget(c, s)
  {
    var s' := s.(refreshCalls := Without(s.refreshCalls, i));
    LastRefresh(c, s, i);
    FewerRequested(c, s');
    assert Step(c, s, Refreshed(i, false, false)) == StartDownloads(c, s');
  }

  lemma FailedRefreshCost(c: Config, s: State, i: nat, canceled: bool, err: bool)
    requires c.Valid() && Common(c, s) && Refreshing(c, s) && i < |s.refreshCalls| && (canceled || err)
    ensures Budget(c, Step(c, s, Refreshed(i, canceled, err))) < Budget(c, s)
  {
    FailedRefreshEnds(c, s, i, canceled, err);
  }

  lemma RefreshedLowersBudget(c: Config, s: State, i: nat, canceled: bool, err: bool)
    requires c.Valid() && Common(c, s) && Refreshing(c, s) && i < |s.refreshCalls|
    ensures Budget(c, Step(c, s, Refreshed(i, canceled, err))) < Budget(c, s)
  {
    if canceled || err {
      FailedRefreshCost(c, s, i, canceled, err);
    } else if s.folders2 == [] {
      LastRefreshCost(c, s, i);
    } else {
      NextRefreshCost(c, s, i);
    }
  }

  lemma RefreshTimeoutCost(c: Config, s: State, i: nat)
    requires i < |s.refreshTimeouts| && s.alive && s.pendingCalls == 0
    ensures Budget(c, RefreshTimeoutFired(s, i)) < Budget(c, s)
  {
  }

  lemma MessageCost(c: Config, s: State, i: nat, arrived: bool)
    requires i < |s.downloads| && s.alive && s.pendingCalls == 0
    ensures Budget(c, MessageReceived(s, i, arrived)) < Budget(c, s)
  {
  }

  /** Every callback and every timeout uses up some of the budget. */
  lemma WorkLowersBudget(c: Config, s: State, e: Event)
    requires c.Valid() && Inv(c, s) && Enabled(s, e) && IsWork(e)
    ensures Budget(c, Step(c, s, e)) < Budget(c, s)
  {
    PhaseOf(c, s);
    match e
    case ListTimeout(i) => ListTimeoutLowersBudget(c, s, i);
    case Listed(i, canceled, err, partial) => ListedLowersBudget(c, s, i, canceled, err, partial);
    case RefreshTimeout(i) => RefreshTimeoutCost(c, s, i);
    case Refreshed(i, canceled, err) => RefreshedLowersBudget(c, s, i, canceled, err);
    case GotMessage(i, arrived) => MessageCost(c, s, i, arrived);
  }

  lemma EnvironmentBudget(c: Config, s: State, e: Event)
    requires c.Valid() && Enabled(s, e) && !IsWork(e)
    ensures Budget(c, Step(c, s, e)) <= Budget(c, s) + if e.NewHeaders? then |e.headers| else 0
  {
    assert ListingBudgetOf(c, Step(c, s, e)) == ListingBudgetOf(c, s);
  }

  function Work(events: seq<Event>): nat {
    if events == [] then 0
    else Work(events[..|events| - 1]) + if IsWork(events[|events| - 1]) then 1 else 0
  }

  function HeadersOffered(events: seq<Event>): nat {
    if events == [] then 0
    else HeadersOffered(events[..|events| - 1])
         + if events[|events| - 1].NewHeaders? then |events[|events| - 1].headers| else 0
  }

  /** The number of callbacks and timeouts in a run is bounded beforehand, whatever their order and
      outcome: by the budget of the folder tree plus the new headers that turned up. */
  lemma {:induction false} RunsAreBounded(c: Config, states: seq<State>, events: seq<Event>, n: nat)
    requires c.Valid() && IsRun(c, states, events) && n <= |events|
    ensures Work(events[..n]) + Budget(c, states[n]) <= Budget(c, Started(c)) + HeadersOffered(events[..n])
  {
    if n > 0 {
      var s, e := states[n - 1], events[n - 1];
      assert events[..n][..n - 1] == events[..n - 1];
      RunsAreBounded(c, states, events, n - 1);
      EveryStateInv(c, states, events, n - 1);
      assert states[n - 1 + 1] == Step(c, s, e);
      if IsWork(e) {
        WorkLowersBudget(c, s, e);
      } else {
        EnvironmentBudget(c, s, e);
      }
    }
  }

  /** Until the end, some callback or timeout is outstanding; after it, none is, so nothing is left that
      could touch the freed helper. */
  lemma OutstandingIffAlive(c: Config, states: seq<State>, events: seq<Event>, k: nat)
    requires c.Valid() && IsRun(c, states, events) && k < |states|
    ensures states[k].alive <==> exists e :: IsWork(e) && Enabled(states[k], e)
  {
    var s := states[k];
    EveryStateInv(c, states, events, k);
    if s.alive {
      var e := if s.timeouts != [] then ListTimeout(0)
               else if s.calls != [] then Listed(0, false, false, [])
               else if s.refreshTimeouts != [] then RefreshTimeout(0)
               else if s.refreshCalls != [] then Refreshed(0, false, false)
               else GotMessage(0, true);
      assert IsWork(e) && Enabled(s, e);
    }
  }
}
