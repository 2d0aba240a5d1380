/** The promises of an account update, over all runs. */
module AccountUpdateTheorems {
  import opened Sequences
  import opened FolderTrees
  import opened Messages
  import opened HeaderSelection
  import opened AccountUpdate
  import opened AccountUpdateRuns

  /** pending_calls counts the scheduled and running listing calls. It reaches 0 once, and the operation
      finishes once: then the account is not busy, the user was called back once, no observer is left on
      a folder and nothing that holds the helper is outstanding. */
  lemma EndsExactlyOnce(c: Config, states: seq<State>, events: seq<Event>, k: nat)
    requires c.Valid() && IsRun(c, states, events) && k < |states|
    ensures var s := states[k];
            && s.pendingCalls == |s.timeouts| + |s.calls|
            && s.finished == |s.callbacks| == (if s.alive then 0 else 1)
            && s.busy == s.alive
            && (!s.alive ==>
                  && s.timeouts == [] && s.calls == [] && s.refreshTimeouts == [] && s.refreshCalls == []
                  && s.downloads == [] && s.folders2 == [] && s.observer.None? && s.observed == multiset{})
  {
    EveryStateInv(c, states, events, k);
  }

  lemma ForestIsEmpty(fs: seq<Folder>)
    ensures Forest(fs) == multiset{} <==> fs == []
  {
    if fs != [] {
      assert fs[0] in Tree(fs[0]);
      assert fs[0] in Forest(fs);
    }
  }

  /** An enumeration without error collects every folder of the account's tree exactly once, or its top
      folders when not every folder is poked, in whatever order the calls came back; and it is exact if
      and only if the call that was retried had delivered nothing into the list used again. */
  lemma EnumerationIsExact(c: Config, states: seq<State>, events: seq<Event>, k: nat)
    requires c.Valid() && IsRun(c, states, events) && k < |states|
    requires states[k].pendingCalls == 0 && states[k].error.None?
    ensures var s := states[k];
            && multiset(s.folders) == Share(c, c.root) + Share(c, s.leftover)
            && (multiset(s.folders) == (if c.pokeAll then Forest(c.root) else multiset(c.root)) <==> s.leftover == [])
  {
    var s := states[k];
    EveryStateInv(c, states, events, k);
    assert s.timeouts == [] && s.calls == [];
    ForestIsEmpty(s.leftover);
    assert multiset(s.leftover) == multiset{} <==> s.leftover == [] by {
      if s.leftover != [] { assert s.leftover[0] in multiset(s.leftover); }
    }
    var extra := Share(c, s.leftover);
    assert Share(c, c.root) + extra == Share(c, c.root) <==> extra == multiset{} by {
      if extra != multiset{} {
        var f :| f in extra;
        assert (Share(c, c.root) + extra)[f] > Share(c, c.root)[f];
      }
    }
  }

  // ----- the refresh -----

  /** The n-th event brought the last listing. */
  predicate IsLastListing(states: seq<State>, n: nat)
    requires n + 1 < |states|
  {
    states[n].pendingCalls > 0 && states[n + 1].pendingCalls == 0
  }

  /** The status was CANCELED when the last listing came back. */
  predicate CanceledAtLastListing(states: seq<State>, k: nat)
    requires k < |states|
  {
    exists n :: 0 <= n < k && IsLastListing(states, n) && states[n].status == Canceled
  }

  lemma NoFolderKeepsFolders(c: Config, s: State)
    requires c.Valid()
    ensures var s' := FolderRefreshed(c, s, None, false, false);
            && s'.folders == s.folders && s'.error == s.error && s'.leftover == s.leftover
            && s'.pendingCalls == s.pendingCalls && s'.selected == s.selected
  {
  }

  lemma AllListedKeepsFolders(c: Config, s: State)
    requires c.Valid()
    ensures var s' := AllListed(c, s);
            && s'.folders == s.folders && s'.error == s.error && s'.leftover == s.leftover
            && s'.pendingCalls == s.pendingCalls
            && (s.error.None? ==> s'.selected == if s.status == InProgress then Wanted(c, s.folders) else [])
  {
    var poked := if c.pokeAll && s.status == InProgress then s.folders else [];
    var s1 := s.(poked := poked, selected := []);
    NoFolderKeepsFolders(c, s1);
    if s.error.None? && (s.status != InProgress || Wanted(c, s.folders) == []) {
      assert AllListed(c, s) == FolderRefreshed(c, s1, None, false, false);
    }
  }

  lemma CallDoneSelects(c: Config, s: State)
    requires c.Valid()
    ensures var s' := PendingCallDone(c, s);
            && s'.pendingCalls == s.pendingCalls - 1 && s'.error == s.error
            && (s'.pendingCalls == 0 && s'.error.None? ==>
                  s'.selected == if s.status == InProgress then Wanted(c, s'.folders) else [])
  {
    AllListedKeepsFolders(c, s.(pendingCalls := 0));
  }

  lemma LastListingSelects(c: Config, s: State, i: nat, canceled: bool, err: bool, partial: seq<Folder>)
    requires c.Valid() && i < |s.calls| && s.pendingCalls > 0
    ensures var s' := RecurseFolders(c, s, i, canceled, err, partial);
            s'.pendingCalls == 0 && s'.error.None? ==>
              s'.selected == if s.status == InProgress then Wanted(c, s'.folders) else []
  {
    var r := s.calls[i];
    var s0 := s.(calls := Without(s.calls, i));
    if canceled || err {
      FailureAndStatus(c, s0, r, err, partial);
      CallDoneSelects(c, ListingFailed(c, s0, r, err, partial));
    } else {
      CallDoneSelects(c, FoldersFound(c, s0, r.list + r.children));
    }
  }

  /** As long as listings are outstanding, only they lead on to the refresh. */
  lemma StepSelects(c: Config, s: State, e: Event, s': State)
    requires c.Valid() && Settled(s) && Enabled(s, e) && s' == Step(c, s, e)
    requires s.pendingCalls > 0 && s'.pendingCalls == 0 && s'.error.None?
    ensures s'.selected == if s.status == Canceled then [] else Wanted(c, s'.folders)
  {
    if e.Listed? {
      LastListingSelects(c, s, e.i, e.canceled, e.err, e.partial);
      StepAndStatus(c, s, e);
    }
  }

  lemma DownloadsKeepSelection(c: Config, s: State)
    requires c.Valid()
    ensures var s' := StartDownloads(c, s);
            && s'.pendingCalls == s.pendingCalls && s'.selected == s.selected && s'.folders == s.folders
            && s'.error == s.error
  {
  }

  lemma WithdrawnKeepsSelection(s: State)
    ensures var s' := Withdrawn(s);
            && s'.pendingCalls == s.pendingCalls && s'.selected == s.selected && s'.folders == s.folders
            && s'.error == s.error
  {
  }

  lemma RefreshKeepsSelection(c: Config, s: State, folder: Option<Folder>, canceled: bool, err: bool)
    requires c.Valid()
    ensures var s' := FolderRefreshed(c, s, folder, canceled, err);
            && s'.pendingCalls == s.pendingCalls && s'.selected == s.selected && s'.folders == s.folders
            && (s.error.Some? ==> s'.error.Some?)
  {
    var s' := FolderRefreshed(c, s, folder, canceled, err);
    if canceled || err {
      var failed := s.(status := Failed, error := Some(if err then Reported else OperationCanceled));
      assert s' == NotifyUserAndFree(Withdrawn(failed), None);
      WithdrawnKeepsSelection(failed);
    } else if s.folders2 == [] && folder.Some? {
      assert s' == StartDownloads(c, s);
      DownloadsKeepSelection(c, s);
    }
  }

  /** Afterwards the selection stands. */
  lemma StepKeepsSelection(c: Config, s: State, e: Event)
    requires c.Valid() && Settled(s) && Enabled(s, e) && s.pendingCalls == 0
    ensures var s' := Step(c, s, e);
            s'.pendingCalls == 0 && s'.selected == s.selected && s'.folders == s.folders
            && (s.error.Some? ==> s'.error.Some?)
  {
    match e
    case ListTimeout(i) => assert false;
    case Listed(i, canceled, err, partial) => assert false;
    case Refreshed(i, canceled, err) =>
      RefreshKeepsSelection(c, s.(refreshCalls := Without(s.refreshCalls, i)), Some(s.refreshCalls[i]), canceled, err);
    case RefreshTimeout(i) =>
    case GotMessage(i, arrived) =>
    case NewHeaders(headers) =>
    case RefreshStatus(position, ofTotal) =>
    case CancelOperation =>
  }

  predicate SelectionTells(c: Config, states: seq<State>, k: nat)
    requires k < |states|
  {
    var s := states[k];
    && (s.pendingCalls > 0 ==> forall n :: 0 <= n < k ==> !IsLastListing(states, n))
    && (s.pendingCalls == 0 && s.error.None? ==>
          s.selected == if CanceledAtLastListing(states, k) then [] else Wanted(c, s.folders))
  }

  lemma OneMoreListing(states: seq<State>, k: nat)
    requires k + 1 < |states|
    ensures CanceledAtLastListing(states, k + 1)
       <==> CanceledAtLastListing(states, k) || (IsLastListing(states, k) && states[k].status == Canceled)
  {
  }

  lemma SelectionNext(c: Config, states: seq<State>, events: seq<Event>, k: nat)
    requires c.Valid() && IsRun(c, states, events) && k < |events| && SelectionTells(c, states, k)
    ensures SelectionTells(c, states, k + 1)
  {
    var s, s' := states[k], states[k + 1];
    RunSettles(c, states, events, k);
    RunSettles(c, states, events, k + 1);
    OneMoreListing(states, k);
    if s.pendingCalls == 0 {
      StepKeepsSelection(c, s, events[k]);
    } else if s'.pendingCalls == 0 && s'.error.None? {
      StepSelects(c, s, events[k], s');
    }
  }

  lemma EverySelectionTells(c: Config, states: seq<State>, events: seq<Event>, k: nat)
    requires c.Valid() && IsRun(c, states, events) && k < |states|
    ensures SelectionTells(c, states, k)
  {
    for j := 0 to k
      invariant SelectionTells(c, states, j)
    {
      SelectionNext(c, states, events, j);
    }
  }

  lemma RefreshesInOrder(c: Config, s: State)
    requires c.Valid() && Inv(c, s)
    ensures s.refreshed <= Wanted(c, s.folders) && |s.refreshTimeouts| + |s.refreshCalls| <= 1
    ensures !s.alive ==> s.pendingCalls == 0
    ensures !s.alive && s.error.None? ==>
              s.refreshed == s.selected && (s.cancelAsked || s.selected == Wanted(c, s.folders))
  {
    if Refreshing(c, s) {
      PartsOf(s.refreshed, s.refreshTimeouts, s.folders2, s.selected, multiset(s.selected));
    }
  }

  /** The selected folders are refreshed in list order, one at a time. An update without error has refreshed all of
      them in the end, if there are any, exactly unless its status was CANCELED when the last listing came back: a later
      cancel stops no refresh. */
  lemma RefreshedInOrder(c: Config, states: seq<State>, events: seq<Event>, k: nat)
    requires c.Valid() && IsRun(c, states, events) && k < |states|
    ensures var s, wanted := states[k], Wanted(c, states[k].folders);
            && s.refreshed <= wanted
            && |s.refreshTimeouts| + |s.refreshCalls| <= 1
            && (!s.alive && s.error.None? ==>
                  && (s.refreshed == wanted <==> wanted == [] || !CanceledAtLastListing(states, k))
                  && (s.refreshed == [] || s.refreshed == wanted))
            && (!s.alive && s.error.None? && !s.cancelAsked ==> s.refreshed == wanted)
  {
    EveryStateInv(c, states, events, k);
    RefreshesInOrder(c, states[k]);
    EverySelectionTells(c, states, events, k);
  }

  /** While messages are outstanding, done counts those received and stays below total; the bytes
      received never exceed the size computed for the messages asked for. When the update is over, the
      two agree exactly if every message arrived (up to messages of size 0). */
  lemma DownloadAccounts(c: Config, states: seq<State>, events: seq<Event>, k: nat)
    requires c.Valid() && IsRun(c, states, events) && k < |states|
    ensures var s := states[k];
            && (s.downloads != [] ==>
                  && s.done == |s.requested| - |s.downloads| < s.total == |s.requested|
                  && s.totalBytes == ListSize(s.newHeaders, s.total))
            && s.sumTotalBytes <= Size(s.requested)
            && (!s.alive ==> (s.sumTotalBytes == Size(s.requested) <==> s.lostBytes == 0))
  {
    EveryStateInv(c, states, events, k);
  }

  lemma EndsByLastMessage(c: Config, s: State, i: nat, arrived: bool)
    requires c.Valid() && Inv(c, s) && i < |s.downloads|
    ensures var s' := MessageReceived(s, i, arrived);
            s.alive && (s'.alive <==> |s.downloads| > 1) && (s'.alive <==> s'.done < |s.requested|)
  {
  }

  /** The callback of a message ends the update exactly if it is the last one outstanding, and then it is the
      total-th. */
  lemma LastMessageEnds(c: Config, states: seq<State>, events: seq<Event>, k: nat)
    requires c.Valid() && IsRun(c, states, events) && k < |events| && events[k].GotMessage?
    ensures states[k].alive
    ensures states[k + 1].alive <==> |states[k].downloads| > 1
    ensures states[k + 1].alive <==> states[k + 1].done < |states[k].requested|
  {
    EveryStateInv(c, states, events, k);
    assert Enabled(states[k], events[k]) && states[k + 1] == Step(c, states[k], events[k]);
    EndsByLastMessage(c, states[k], events[k].i, events[k].arrived);
  }

  /** The messages asked for are the newest of the new headers under the size limit, as many as the
      account's limit allows; without an error, the user gets the whole list of new headers. */
  lemma NewestAreRequested(c: Config, states: seq<State>, events: seq<Event>, k: nat)
    requires c.Valid() && IsRun(c, states, events) && k < |states|
    requires !states[k].alive && states[k].error.None? && !c.headersOnly && !c.updateFolderCounts
    ensures var s := states[k];
            var candidates := UnderSize(s.offered, MaxSize(c.sizeLimitKb));
            && (0 < c.retrieveLimit ==> |s.requested| == Min(|candidates|, c.retrieveLimit))
            && (c.retrieveLimit < 0 ==> |s.requested| == Min(|candidates|, c.retrieveLimit + G_MAXUINT + 1))
            && (c.retrieveLimit == 0 ==> |s.requested| == Min(|candidates|, G_MAXINT))
            && multiset(s.requested) <= multiset(candidates)
            && (forall h, g :: h in s.requested && g in multiset(candidates) - multiset(s.requested)
                  ==> g.dateSent <= h.dateSent)
            && (candidates != [] ==>
                  && |s.callbacks| == 1 && s.callbacks[0].Some? && NewestFirst(s.callbacks[0].value)
                  && multiset(s.callbacks[0].value) == multiset(candidates))
  {
    var s := states[k];
    EveryStateInv(c, states, events, k);
    var maxSize := MaxSize(c.sizeLimitKb);
    RequestedAreTheNewest(s.offered, maxSize, c.retrieveLimit);
    NewestIsOrdered(s.offered, maxSize);
    var newest := Newest(s.offered, maxSize);
    if newest == [] {
      assert s.requested == newest[..RetrieveCount(|newest|, c.retrieveLimit)];
    }
  }

  /** An update that nobody cancels ends as FAILED if the account is not known or some listing or refresh failed for
      good, and as SUCCESS otherwise, having tried to send exactly once. */
  lemma FinalStatus(c: Config, states: seq<State>, events: seq<Event>, k: nat)
    requires c.Valid() && IsRun(c, states, events) && k < |states| && !states[k].alive
    ensures var s := states[k];
            && s.sends == (if s.error.Some? then 0 else 1)
            && (!s.cancelAsked ==> s.status == if s.error.Some? then Failed else Success)
  {
    EveryStateInv(c, states, events, k);
  }

  // ----- cancelled updates -----

  /** A listing or a refresh came back without success. */
  predicate Fails(e: Event) {
    (e.Listed? || e.Refreshed?) && (e.canceled || e.err)
  }

  /** The status an update ends with, by what is known before its last callback. */
  function EndStatus(s: State, e: Event): Status {
    if s.error.None? && !Fails(e) then Success
    else if s.error.Some? && s.status == Canceled then Canceled
    else Failed
  }

  /** As much of the invariant as the status depends on: an error is only set while folders are listed, and nothing
      is outstanding after the end. */
  predicate Settled(s: State) {
    && StatusFits(s) && s.pendingCalls == |s.timeouts| + |s.calls|
    && (!s.alive || s.error.Some? ==>
          s.refreshTimeouts == [] && s.refreshCalls == [] && s.observer.None? && s.downloads == [])
    && (!s.alive ==> s.pendingCalls == 0)
  }

  lemma InvSettles(c: Config, s: State)
    requires c.Valid() && Inv(c, s)
    ensures Settled(s)
  {
  }

  lemma RunSettles(c: Config, states: seq<State>, events: seq<Event>, k: nat)
    requires c.Valid() && IsRun(c, states, events) && k < |states|
    ensures Settled(states[k])
  {
    EveryStateInv(c, states, events, k);
    InvSettles(c, states[k]);
  }

  /** The last test of a listing callback leaves error and status alone, except for a success. */
  lemma AfterListing(c: Config, s: State)
    requires c.Valid() && s.alive
    ensures var s' := PendingCallDone(c, s);
            s'.error == s.error && s'.status == if !s'.alive && s.error.None? then Success else s.status
  {
  }

  lemma FailureAndStatus(c: Config, s: State, r: Request, err: bool, partial: seq<Folder>)
    ensures var s' := ListingFailed(c, s, r, err, partial);
            && s'.alive == s.alive && (s.error.Some? ==> s'.error.Some?)
            && s'.status == (if s.error.None? && s'.error.Some? then Failed else s.status)
            && (s'.error.None? ==> s'.pendingCalls == s.pendingCalls + 1)
  {
  }

  lemma GoesOn(c: Config, s: State)
    requires c.Valid() && s.alive && s.pendingCalls > 1
    ensures PendingCallDone(c, s).alive
  {
  }

  lemma ListedFolders(c: Config, s: State, i: nat, canceled: bool, err: bool, partial: seq<Folder>)
    requires c.Valid() && Settled(s) && s.alive && i < |s.calls|
    ensures var s' := RecurseFolders(c, s, i, canceled, err, partial);
            && (!s'.alive ==> s'.status == EndStatus(s, Listed(i, canceled, err, partial)))
            && (!s'.alive ==> (s'.error.None? <==> s.error.None? && !canceled && !err))
            && (s'.alive ==> s'.status == if s.error.None? && s'.error.Some? then Failed else s.status)
            && (s.error.Some? ==> s'.error.Some?)
  {
    var r := s.calls[i];
    var s0 := s.(calls := Without(s.calls, i));
    if canceled || err {
      var s1 := ListingFailed(c, s0, r, err, partial);
      FailureAndStatus(c, s0, r, err, partial);
      AfterListing(c, s1);
      if s1.error.None? {
        GoesOn(c, s1);
      }
    } else {
      AfterListing(c, FoldersFound(c, s0, r.list + r.children));
    }
  }

  lemma RefreshedFolder(c: Config, s: State, i: nat, canceled: bool, err: bool)
    requires c.Valid() && Settled(s) && s.alive && i < |s.refreshCalls|
    ensures var s' := Step(c, s, Refreshed(i, canceled, err));
            && (!s'.alive ==>
                  s'.status == EndStatus(s, Refreshed(i, canceled, err)) && (s'.error.None? <==> !canceled && !err))
            && (s'.alive ==> s'.status == s.status && s'.error == s.error)
  {
  }

  lemma ReceivedMessage(c: Config, s: State, i: nat, arrived: bool)
    requires c.Valid() && Settled(s) && s.alive && i < |s.downloads|
    ensures var s' := Step(c, s, GotMessage(i, arrived));
            && s'.error.None? && s.error.None? && s'.status == if s'.alive then s.status else Success
  {
  }

  /** What a step does to error and status. */
  lemma StepAndStatus(c: Config, s: State, e: Event)
    requires c.Valid() && Settled(s) && Enabled(s, e) && s.alive
    ensures var s' := Step(c, s, e);
            && (!s'.alive ==> s'.status == EndStatus(s, e) && (s'.error.None? <==> s.error.None? && !Fails(e)))
            && (s'.alive && e == CancelOperation ==> s'.error == s.error && s'.status == Canceled)
            && (s'.alive && e != CancelOperation ==>
                  s'.status == if s.error.None? && s'.error.Some? then Failed else s.status)
            && (s.error.Some? ==> s'.error.Some?)
  {
    match e
    case Listed(i, canceled, err, partial) => ListedFolders(c, s, i, canceled, err, partial);
    case Refreshed(i, canceled, err) => RefreshedFolder(c, s, i, canceled, err);
    case GotMessage(i, arrived) => ReceivedMessage(c, s, i, arrived);
    case ListTimeout(i) =>
    case RefreshTimeout(i) =>
    case NewHeaders(headers) =>
    case RefreshStatus(position, ofTotal) =>
    case CancelOperation =>
  }

  lemma NextAndStatus(c: Config, s: State, e: Event, s': State)
    requires c.Valid() && Settled(s) && Enabled(s, e) && s.alive && s' == Step(c, s, e)
    ensures !s'.alive ==> s'.status == EndStatus(s, e) && (s'.error.None? <==> s.error.None? && !Fails(e))
    ensures s'.alive && e == CancelOperation ==> s'.error == s.error && s'.status == Canceled
    ensures s'.alive && e != CancelOperation ==>
              s'.status == if s.error.None? && s'.error.Some? then Failed else s.status
    ensures s.error.Some? ==> s'.error.Some?
  {
    StepAndStatus(c, s, e);
  }

  /** In any run the last callback reports SUCCESS exactly if nothing has failed, whether or not the operation was
      cancelled: modest_mail_operation_cancel sets CANCELED, and the end overwrites it. It reports CANCELED exactly if
      a listing had failed already and CANCELED was set after that. */
  lemma SuccessOverwritesCancel(c: Config, states: seq<State>, events: seq<Event>, k: nat)
    requires c.Valid() && IsRun(c, states, events) && k < |events| && states[k].alive && !states[k + 1].alive
    ensures var s, s' := states[k], states[k + 1];
            && (s'.status == Success <==> s.error.None? && !Fails(events[k]))
            && (s'.status == Success <==> s'.error.None?)
            && (s'.status == Canceled <==> s.error.Some? && s.status == Canceled)
            && (s'.status == Success || s'.status == Canceled || s'.status == Failed)
  {
    RunSettles(c, states, events, k);
    NextAndStatus(c, states[k], events[k], states[k + 1]);
  }

  /** The k-th event made the first failure that was for good. */
  predicate FailsAt(states: seq<State>, k: nat)
    requires k + 1 < |states|
  {
    states[k].error.None? && states[k + 1].error.Some?
  }

  /** Before the n-th event something failed for good, and the operation was cancelled after that. */
  predicate FailedThenCancelled(states: seq<State>, events: seq<Event>, n: nat)
    requires n <= |events| && |states| == |events| + 1
  {
    exists i, j :: 0 <= i < j < n && FailsAt(states, i) && events[j] == CancelOperation
  }

  predicate HasFailed(states: seq<State>, n: nat)
    requires n < |states|
  {
    exists i :: 0 <= i < n && FailsAt(states, i)
  }

  /** The history of a run tells whether it has failed, and whether it was cancelled after that. */
  predicate HistoryTells(states: seq<State>, events: seq<Event>, n: nat)
    requires n <= |events| && |states| == |events| + 1
  {
    && (states[n].error.Some? <==> HasFailed(states, n))
    && (states[n].error.Some? && states[n].status == Canceled <==> FailedThenCancelled(states, events, n))
  }

  lemma StaysOver(c: Config, s: State, e: Event, s': State)
    requires c.Valid() && Settled(s) && Enabled(s, e) && !s.alive && s' == Step(c, s, e)
    ensures !s'.alive
  {
    assert e == CancelOperation;
  }

  lemma AliveBefore(c: Config, states: seq<State>, events: seq<Event>, n: nat)
    requires c.Valid() && IsRun(c, states, events) && n < |events| && states[n + 1].alive
    ensures states[n].alive
  {
    RunSettles(c, states, events, n);
    if !states[n].alive {
      StaysOver(c, states[n], events[n], states[n + 1]);
    }
  }

  lemma HistoryGrows(c: Config, states: seq<State>, events: seq<Event>, n: nat)
    requires c.Valid() && IsRun(c, states, events) && n < |events|
    requires states[n].alive && states[n + 1].alive && HistoryTells(states, events, n)
    ensures HistoryTells(states, events, n + 1)
  {
    RunSettles(c, states, events, n);
    NextAndStatus(c, states[n], events[n], states[n + 1]);
    OneMoreEvent(states, events, n);
  }

  lemma {:induction false} CanceledWhileAlive(c: Config, states: seq<State>, events: seq<Event>, n: nat)
    requires c.Valid() && IsRun(c, states, events) && n < |states| && states[n].alive
    ensures HistoryTells(states, events, n)
  {
    if n > 0 {
      AliveBefore(c, states, events, n - 1);
      CanceledWhileAlive(c, states, events, n - 1);
      HistoryGrows(c, states, events, n - 1);
    }
  }

  lemma OneMoreEvent(states: seq<State>, events: seq<Event>, n: nat)
    requires n < |events| && |states| == |events| + 1
    ensures HasFailed(states, n + 1) <==> HasFailed(states, n) || FailsAt(states, n)
    ensures FailedThenCancelled(states, events, n + 1)
       <==> FailedThenCancelled(states, events, n) || (HasFailed(states, n) && events[n] == CancelOperation)
  {
    if HasFailed(states, n) && events[n] == CancelOperation {
      var i :| 0 <= i < n && FailsAt(states, i);
      assert FailsAt(states, i) && events[n] == CancelOperation;
    }
    if FailedThenCancelled(states, events, n) {
      var i, j :| 0 <= i < j < n && FailsAt(states, i) && events[j] == CancelOperation;
      assert FailsAt(states, i) && events[j] == CancelOperation;
    }
  }

  /** An update ends as CANCELED if and only if a listing failed for good and the operation was cancelled after
      that, before the last callback. */
  lemma CanceledExactly(c: Config, states: seq<State>, events: seq<Event>, k: nat)
    requires c.Valid() && IsRun(c, states, events) && k < |events| && states[k].alive && !states[k + 1].alive
    ensures states[k + 1].status == Canceled <==> FailedThenCancelled(states, events, k)
  {
    SuccessOverwritesCancel(c, states, events, k);
    CanceledWhileAlive(c, states, events, k);
  }

  // ----- runs that show it -----

  lemma ListedAfterCancel(c: Config, s: State)
    requires c.Valid() && !c.pokeAll && s.calls == [Request([], c.root)] && s.pendingCalls == 1 && s.error.None?
    requires s.status == Canceled && s.refreshed == [] && s.folders2 == []
    ensures var s' := Step(c, s, Listed(0, false, false, []));
            !s'.alive && s'.refreshed == [] && s'.status == Success
  {
    assert Without(s.calls, 0) == [];
  }

  lemma CancelledRun(c: Config) returns (states: seq<State>, events: seq<Event>)
    requires c.Valid() && c.accountKnown
    ensures IsRun(c, states, events) && events == [CancelOperation]
    ensures states[1] == Started(c).(status := Canceled, cancelAsked := true)
  {
    states, events := Extend(c, [Started(c)], [], CancelOperation, Step(c, Started(c), CancelOperation));
  }

  /** For every account whose folders are not all poked: the operation is cancelled, then the listing comes back.
      Nothing is refreshed, whatever there is to refresh, and the update still succeeds. */
  lemma CancelledUpdateSucceeds(c: Config) returns (states: seq<State>, events: seq<Event>)
    requires c.Valid() && c.accountKnown && !c.pokeAll
    ensures IsRun(c, states, events) && CancelOperation in events
    ensures var s := states[|events|];
            !s.alive && s.refreshed == [] && s.status == Success
  {
    states, events := CancelledRun(c);
    var s := states[1];
    ListedAfterCancel(c, s);
    states, events := Extend(c, states, events, Listed(0, false, false, []), Step(c, s, Listed(0, false, false, [])));
  }

  /** So many listings are scheduled and so many running, and nothing else counts. */
  predicate Waiting(s: State, timeouts: nat, calls: nat, failed: bool) {
    && |s.timeouts| == timeouts && |s.calls| == calls && s.pendingCalls == timeouts + calls
    && s.error.Some? == failed && s.alive
  }

  lemma TopListed(c: Config)
    requires c.Valid() && c.accountKnown && c.pokeAll && |c.root| == 2
    ensures Waiting(Step(c, Started(c), Listed(0, false, false, [])), 2, 0, false)
  {
    assert Without([Request([], c.root)], 0) == [];
  }

  lemma TimeoutFires(c: Config, s: State, timeouts: nat, calls: nat, failed: bool)
    requires c.Valid() && Waiting(s, timeouts, calls, failed) && timeouts > 0
    ensures var s' := Step(c, s, ListTimeout(0)); Waiting(s', timeouts - 1, calls + 1, failed) && s'.status == s.status
  {
  }

  lemma ListingCanceled(c: Config, s: State, timeouts: nat, failed: bool)
    requires c.Valid() && Waiting(s, timeouts, 1, failed)
    ensures var s' := Step(c, s, Listed(0, true, false, []));
            if timeouts > 0 then Waiting(s', timeouts, 0, true)
            else failed ==> !s'.alive && s'.status == s.status
  {
  }

  lemma TopListedRun(c: Config) returns (states: seq<State>, events: seq<Event>)
    requires c.Valid() && c.accountKnown && c.pokeAll && |c.root| == 2
    ensures IsRun(c, states, events) && Waiting(states[|events|], 2, 0, false)
  {
    TopListed(c);
    states, events := Extend(c, [Started(c)], [], Listed(0, false, false, []),
                             Step(c, Started(c), Listed(0, false, false, [])));
  }

  lemma TimeoutRun(c: Config, states: seq<State>, events: seq<Event>, timeouts: nat, calls: nat, failed: bool)
    returns (states': seq<State>, events': seq<Event>)
    requires c.Valid() && IsRun(c, states, events) && Waiting(states[|events|], timeouts, calls, failed) && timeouts > 0
    ensures IsRun(c, states', events') && Waiting(states'[|events'|], timeouts - 1, calls + 1, failed)
  {
    TimeoutFires(c, states[|events|], timeouts, calls, failed);
    states', events' := Extend(c, states, events, ListTimeout(0), Step(c, states[|events|], ListTimeout(0)));
  }

  lemma CanceledRun(c: Config, states: seq<State>, events: seq<Event>, timeouts: nat, failed: bool)
    returns (states': seq<State>, events': seq<Event>)
    requires c.Valid() && IsRun(c, states, events) && Waiting(states[|events|], timeouts, 1, failed) && timeouts > 0
    ensures IsRun(c, states', events') && Waiting(states'[|events'|], timeouts, 0, true)
  {
    ListingCanceled(c, states[|events|], timeouts, failed);
    states', events' := Extend(c, states, events, Listed(0, true, false, []),
                               Step(c, states[|events|], Listed(0, true, false, [])));
  }

  lemma FailedRun(c: Config) returns (states: seq<State>, events: seq<Event>)
    requires c.Valid() && c.accountKnown && c.pokeAll && |c.root| == 2
    ensures IsRun(c, states, events) && Waiting(states[|events|], 1, 0, true)
  {
    states, events := TopListedRun(c);
    states, events := TimeoutRun(c, states, events, 2, 0, false);
    states, events := CanceledRun(c, states, events, 1, false);
  }

  /** An account with two folders, all poked: the listing below one of them is cancelled, then the operation, and
      the listing below the other comes back last. This update does report CANCELED. */
  lemma CanceledIsReported(c: Config) returns (states: seq<State>, events: seq<Event>)
    requires c.Valid() && c.accountKnown && c.pokeAll && |c.root| == 2
    ensures IsRun(c, states, events) && !states[|events|].alive && states[|events|].status == Canceled
  {
    states, events := FailedRun(c);
    var s1 := Step(c, states[|events|], CancelOperation);
    states, events := Extend(c, states, events, CancelOperation, s1);
    TimeoutFires(c, s1, 1, 0, true);
    var s2 := Step(c, s1, ListTimeout(0));
    states, events := Extend(c, states, events, ListTimeout(0), s2);
    ListingCanceled(c, s2, 0, true);
    states, events := Extend(c, states, events, Listed(0, true, false, []), Step(c, s2, Listed(0, true, false, [])));
  }

  lemma ListingFailsOnce(c: Config, partial: seq<Folder>)
    requires c.Valid() && c.accountKnown && partial <= c.root
    ensures var s := Step(c, Started(c), Listed(0, false, true, partial));
            s == Started(c).(calls := [], timeouts := [Request(partial, c.root)], retriesLeft := 0, leftover := partial)
  {
    assert Without([Request([], c.root)], 0) == [];
    assert [] + partial == partial;
  }

  lemma ListingRetried(c: Config, s: State, partial: seq<Folder>)
    requires c.Valid() && s.timeouts == [Request(partial, c.root)] && s.calls == []
    ensures Step(c, s, ListTimeout(0)) == s.(timeouts := [], calls := [Request(partial, c.root)])
  {
    assert Without(s.timeouts, 0) == [];
  }

  lemma ListingSucceeds(c: Config, s: State, partial: seq<Folder>)
    requires c.Valid() && !c.pokeAll && s.calls == [Request(partial, c.root)] && s.pendingCalls == 1 && s.folders == []
    ensures var s' := Step(c, s, Listed(0, false, false, []));
            s'.folders == partial + c.root && s'.error == s.error && s'.leftover == s.leftover && s'.pendingCalls == 0
  {
    var s1 := FoldersFound(c, s.(calls := Without(s.calls, 0)), partial + c.root);
    AllListedKeepsFolders(c, s1.(pendingCalls := 0));
    assert [] + (partial + c.root) == partial + c.root;
  }

  lemma RetriedRun(c: Config, partial: seq<Folder>) returns (states: seq<State>, events: seq<Event>)
    requires c.Valid() && c.accountKnown && partial <= c.root
    ensures IsRun(c, states, events) && |events| == 2
    ensures states[2] == Started(c).(calls := [Request(partial, c.root)], timeouts := [], retriesLeft := 0,
                                            leftover := partial)
  {
    var s1 := Step(c, Started(c), Listed(0, false, true, partial));
    ListingFailsOnce(c, partial);
    states, events := Extend(c, [Started(c)], [], Listed(0, false, true, partial), s1);
    ListingRetried(c, s1, partial);
    states, events := Extend(c, states, events, ListTimeout(0), Step(c, s1, ListTimeout(0)));
  }

  /** For every account whose folders are not all poked: the listing fails after delivering some folders, is retried
      and succeeds. Those folders are collected twice. */
  lemma RetryCollectsTwice(c: Config, partial: seq<Folder>) returns (states: seq<State>, events: seq<Event>)
    requires c.Valid() && c.accountKnown && !c.pokeAll && partial <= c.root
    ensures IsRun(c, states, events)
    ensures states[|events|].folders == partial + c.root && states[|events|].error.None?
    ensures states[|events|].leftover == partial && states[|events|].pendingCalls == 0
  {
    states, events := RetriedRun(c, partial);
    var s := states[2];
    ListingSucceeds(c, s, partial);
    states, events := Extend(c, states, events, Listed(0, false, false, []), Step(c, s, Listed(0, false, false, [])));
  }

  lemma Extend(c: Config, states: seq<State>, events: seq<Event>, e: Event, s': State)
    returns (states': seq<State>, events': seq<Event>)
    requires c.Valid() && IsRun(c, states, events)
    requires Enabled(states[|events|], e) && s' == Step(c, states[|events|], e)
    ensures IsRun(c, states', events') && states' == states + [s'] && events' == events + [e]
  {
    states', events' := states + [s'], events + [e];
  }
}
