/** What a run of an account update leaves, told from its events and from the configuration alone. */
module AccountUpdateHistory {
  import opened Sequences
  import opened FolderTrees
  import opened Messages
  import opened HeaderSelection
  import opened AccountUpdate
  import opened AccountUpdateRuns
  import opened AccountUpdateTheorems

  /** An error of a listing, which is retried if it is the first. */
  predicate IsListingError(e: Event) {
    e.Listed? && e.err
  }

  /** The event is a failure for good, after those before it. */
  predicate FailsForGood(before: seq<Event>, e: Event) {
    || (e.Refreshed? && (e.canceled || e.err))
    || (IsListingError(e) && exists b :: b in before && IsListingError(b))
    || (e.Listed? && e.canceled && !e.err)
  }

  /** The error of the first failure for good. */
  function FailureOf(events: seq<Event>): Option<OperationError> {
    if events == [] then None
    else
      var front, e := events[..|events| - 1], events[|events| - 1];
      if FailureOf(front).Some? then FailureOf(front)
      else if FailsForGood(front, e) then Some(if e.err then Reported else OperationCanceled)
      else None
  }

  /** All headers the observer was told of. */
  function AllOffered(events: seq<Event>): seq<Header> {
    if events == [] then []
    else
      var e := events[|events| - 1];
      AllOffered(events[..|events| - 1]) + if e.NewHeaders? then e.headers else []
  }

  /** The latest progress reported by a refresh. */
  function LatestProgress(events: seq<Event>): (int, int) {
    if events == [] then (0, 0)
    else
      var e := events[|events| - 1];
      if e.RefreshStatus? then (e.position, e.ofTotal) else LatestProgress(events[..|events| - 1])
  }

  /** The sizes of the messages that arrived, or of those that did not. */
  function BytesOf(states: seq<State>, events: seq<Event>, n: nat, arrived: bool): nat
    requires n <= |events| && |states| == |events| + 1
  {
    if n == 0 then 0
    else
      var s, e := states[n - 1], events[n - 1];
      BytesOf(states, events, n - 1, arrived)
      + if e.GotMessage? && e.arrived == arrived && e.i < |s.downloads| then s.downloads[e.i].size else 0
  }

  /** The folders of the listings that came back well, as they came. */
  function ListedFolders(states: seq<State>, events: seq<Event>, n: nat): seq<Folder>
    requires n <= |events| && |states| == |events| + 1
  {
    if n == 0 then []
    else
      var s, e := states[n - 1], events[n - 1];
      ListedFolders(states, events, n - 1)
      + if e.Listed? && !e.canceled && !e.err && e.i < |s.calls| then s.calls[e.i].list + s.calls[e.i].children else []
  }

  lemma OneMoreOf(events: seq<Event>, n: nat)
    requires n < |events|
    ensures var front, e := events[..n], events[n];
            && events[..n + 1] == front + [e] && events[..n + 1][..n] == front && |events[..n + 1]| == n + 1
            && events[..n + 1][n] == e
  {
  }

  // ----- what a callback leaves alone -----

  predicate SameBooks(s: State, s': State) {
    && s'.offered == s.offered && s'.lostBytes == s.lostBytes && s'.sumTotalBytes == s.sumTotalBytes
    && (s'.requested == [] ==> s'.done == s.done && s'.total == s.total)
  }

  lemma DownloadsFrame(c: Config, s: State)
    requires c.Valid() && NoDownload(s)
    ensures var s' := StartDownloads(c, s);
            SameBooks(s, s') && s'.error == s.error && s'.poked == s.poked
  {
    var s' := StartDownloads(c, s);
    var newest := if s.observer.Some?
                  then Newest(s.observer.value, if c.updateFolderCounts then G_MAXINT else MaxSize(c.sizeLimitKb))
                  else [];
    if newest != [] && !c.headersOnly {
      assert s'.requested == [] + newest[..RetrieveCount(|newest|, c.retrieveLimit)];
    }
  }

  lemma WithdrawnFrame(s: State)
    ensures var s' := NotifyUserAndFree(Withdrawn(s), None);
            SameBooks(s, s') && s'.error == s.error && s'.poked == s.poked && s'.pendingCalls == s.pendingCalls
  {
  }

  lemma RefreshFrame(c: Config, s: State, folder: Option<Folder>, canceled: bool, err: bool)
    requires c.Valid() && NoDownload(s)
    ensures var s' := FolderRefreshed(c, s, folder, canceled, err);
            && SameBooks(s, s') && s'.poked == s.poked
            && s'.error == if canceled || err then Some(if err then Reported else OperationCanceled) else s.error
  {
    var s' := FolderRefreshed(c, s, folder, canceled, err);
    if canceled || err {
      var failed := s.(status := Failed, error := Some(if err then Reported else OperationCanceled));
      assert s' == NotifyUserAndFree(Withdrawn(failed), None);
      WithdrawnFrame(failed);
    } else if s.folders2 == [] && folder.Some? {
      assert s' == StartDownloads(c, s);
      DownloadsFrame(c, s);
    }
  }

  lemma NothingRefreshedFrame(c: Config, s: State)
    requires c.Valid() && NoDownload(s)
    ensures var s' := FolderRefreshed(c, s, None, false, false);
            SameBooks(s, s') && s'.poked == s.poked
  {
    RefreshFrame(c, s, None, false, false);
  }

  lemma AllListedFrame(c: Config, s: State)
    requires c.Valid() && NoDownload(s)
    ensures var s' := AllListed(c, s);
            && SameBooks(s, s')
            && (s.error.None? ==> s'.poked == if c.pokeAll && s.status == InProgress then s.folders else [])
  {
    var poked := if c.pokeAll && s.status == InProgress then s.folders else [];
    var s1 := s.(poked := poked, selected := []);
    NothingRefreshedFrame(c, s1);
    if s.error.None? && (s.status != InProgress || Wanted(c, s.folders) == []) {
      assert AllListed(c, s) == FolderRefreshed(c, s1, None, false, false);
    }
  }

  lemma PendingFrame(c: Config, s: State)
    requires c.Valid() && NoDownload(s)
    ensures var s' := PendingCallDone(c, s);
            && SameBooks(s, s') && s'.error == s.error && s'.pendingCalls == s.pendingCalls - 1
            && (s'.pendingCalls > 0 ==> s'.retriesLeft == s.retriesLeft && s'.poked == s.poked)
            && (s'.pendingCalls == 0 && s.error.None? ==>
                  s'.poked == if c.pokeAll && s.status == InProgress then s.folders else [])
            && s'.folders == s.folders
  {
    AllListedFrame(c, s.(pendingCalls := 0));
    AllListedKeepsFolders(c, s.(pendingCalls := 0));
  }

  /** How a listing that came back leaves the error and the retry. */
  predicate ListingTells(s: State, s': State, canceled: bool, err: bool) {
    var retried := err && s.error.None? && s.retriesLeft > 0;
    && s'.error == (if s.error.Some? || retried || (!canceled && !err) then s.error
                    else Some(if err then Reported else OperationCanceled))
    && (s'.pendingCalls > 0 ==> s'.retriesLeft == if retried then s.retriesLeft - 1 else s.retriesLeft)
  }

  lemma FailedListingFrame(c: Config, s: State, r: Request, canceled: bool, err: bool, partial: seq<Folder>)
    requires c.Valid() && NoDownload(s) && (canceled || err)
    ensures var s' := PendingCallDone(c, ListingFailed(c, s, r, err, partial));
            && SameBooks(s, s') && ListingTells(s, s', canceled, err) && s'.folders == s.folders
            && (s'.pendingCalls > 0 ==> s'.poked == s.poked)
            && (s'.error.None? ==> s'.pendingCalls == s.pendingCalls)
  {
    PendingFrame(c, ListingFailed(c, s, r, err, partial));
  }

  lemma FullListingFrame(c: Config, s: State, list: seq<Folder>)
    requires c.Valid() && NoDownload(s)
    ensures var s' := PendingCallDone(c, FoldersFound(c, s, list));
            && SameBooks(s, s') && ListingTells(s, s', false, false) && s'.folders == s.folders + list
            && (s'.pendingCalls > 0 ==> s'.poked == s.poked)
            && (s'.pendingCalls == 0 && s.error.None? ==>
                  s'.poked == if c.pokeAll && s.status == InProgress then s'.folders else [])
  {
    PendingFrame(c, FoldersFound(c, s, list));
  }

  lemma ListedFrame(c: Config, s: State, i: nat, canceled: bool, err: bool, partial: seq<Folder>)
    requires c.Valid() && NoDownload(s) && i < |s.calls| && s.pendingCalls > 0
    ensures var s' := RecurseFolders(c, s, i, canceled, err, partial);
            && SameBooks(s, s') && ListingTells(s, s', canceled, err)
            && s'.folders == s.folders + (if canceled || err then [] else s.calls[i].list + s.calls[i].children)
            && (s'.pendingCalls > 0 ==> s'.poked == s.poked)
            && (s'.pendingCalls == 0 && s'.error.None? ==>
                  s'.poked == if c.pokeAll && s.status == InProgress then s'.folders else [])
  {
    var r := s.calls[i];
    var s1 := s.(calls := Without(s.calls, i));
    if canceled || err {
      FailedListingFrame(c, s1, r, canceled, err, partial);
    } else {
      FullListingFrame(c, s1, r.list + r.children);
    }
  }

  lemma MessageFrame(s: State, i: nat, arrived: bool)
    requires i < |s.downloads|
    ensures var s', size := MessageReceived(s, i, arrived), s.downloads[i].size;
            && s'.offered == s.offered && s'.error == s.error && s'.poked == s.poked && s'.requested == s.requested
            && s'.sumTotalBytes == (if arrived then s.sumTotalBytes + size else s.sumTotalBytes)
            && s'.lostBytes == (if arrived then s.lostBytes else s.lostBytes + size)
            && s'.folders == s.folders && s'.pendingCalls == s.pendingCalls && s'.retriesLeft == s.retriesLeft
  {
  }

  /** What each event does to the books. */
  ghost predicate Booked(c: Config, s: State, e: Event, s': State) {
    match e
    case NewHeaders(headers) => s' == s.(observer := s'.observer, offered := s.offered + headers)
    case RefreshStatus(position, ofTotal) => s' == s.(done := position, total := ofTotal)
    case GotMessage(i, arrived) =>
      && i < |s.downloads|
      && s'.offered == s.offered && s'.error == s.error && s'.poked == s.poked && s'.requested == s.requested != []
      && s'.sumTotalBytes == (if arrived then s.sumTotalBytes + s.downloads[i].size else s.sumTotalBytes)
      && s'.lostBytes == (if arrived then s.lostBytes else s.lostBytes + s.downloads[i].size)
      && s'.folders == s.folders && s'.pendingCalls == s.pendingCalls && s'.retriesLeft == s.retriesLeft
    case Listed(i, canceled, err, partial) =>
      && i < |s.calls| && SameBooks(s, s') && ListingTells(s, s', canceled, err) && s.pendingCalls > 0
      && s'.folders == s.folders + (if canceled || err then [] else s.calls[i].list + s.calls[i].children)
      && (s'.pendingCalls > 0 ==> s'.poked == s.poked)
      && (s'.pendingCalls == 0 && s'.error.None? ==>
            s'.poked == if c.pokeAll && s.status == InProgress then s'.folders else [])
    case Refreshed(i, canceled, err) =>
      && SameBooks(s, s') && s'.poked == s.poked && s.error.None? && s.pendingCalls == s'.pendingCalls == 0
      && s'.error == (if canceled || err then Some(if err then Reported else OperationCanceled) else None)
      && s'.folders == s.folders
    case _ =>
      && SameBooks(s, s') && s'.error == s.error && s'.poked == s.poked && s'.retriesLeft == s.retriesLeft
      && s'.pendingCalls == s.pendingCalls && s'.folders == s.folders
  }

  lemma ListedBooks(c: Config, s: State, i: nat, canceled: bool, err: bool, partial: seq<Folder>)
    requires c.Valid() && Listing(c, s) && i < |s.calls|
    ensures Booked(c, s, Listed(i, canceled, err, partial), RecurseFolders(c, s, i, canceled, err, partial))
  {
    ListedFrame(c, s, i, canceled, err, partial);
  }

  lemma RefreshedBooks(c: Config, s: State, i: nat, canceled: bool, err: bool)
    requires c.Valid() && Refreshing(c, s) && i < |s.refreshCalls|
    ensures var s1 := s.(refreshCalls := Without(s.refreshCalls, i));
            Booked(c, s, Refreshed(i, canceled, err),
                   FolderRefreshed(c, s1, Some(s.refreshCalls[i]), canceled, err))
  {
    var s1 := s.(refreshCalls := Without(s.refreshCalls, i));
    RefreshFrame(c, s1, Some(s.refreshCalls[i]), canceled, err);
    RefreshKeepsSelection(c, s1, Some(s.refreshCalls[i]), canceled, err);
  }

  lemma MessageBooks(c: Config, s: State, i: nat, arrived: bool)
    requires c.Valid() && Downloading(c, s) && i < |s.downloads|
    ensures Booked(c, s, GotMessage(i, arrived), MessageReceived(s, i, arrived))
  {
    MessageFrame(s, i, arrived);
    assert s.downloads[i] in multiset(s.downloads) && s.downloads[i] in multiset(s.requested);
  }

  lemma OtherBooks(c: Config, s: State, e: Event)
    requires c.Valid() && Enabled(s, e) && !e.Listed? && !e.Refreshed? && !e.GotMessage?
    ensures Booked(c, s, e, Step(c, s, e))
  {
  }

  lemma StepBooks(c: Config, s: State, e: Event)
    requires c.Valid() && Inv(c, s) && Enabled(s, e)
    ensures Booked(c, s, e, Step(c, s, e))
  {
    PhaseOf(c, s);
    match e
    case Listed(i, canceled, err, partial) => ListedBooks(c, s, i, canceled, err, partial);
    case Refreshed(i, canceled, err) => RefreshedBooks(c, s, i, canceled, err);
    case GotMessage(i, arrived) => MessageBooks(c, s, i, arrived);
    case _ => OtherBooks(c, s, e);
  }

  lemma EveryStepBooks(c: Config, states: seq<State>, events: seq<Event>, n: nat)
    requires c.Valid() && IsRun(c, states, events) && n < |events|
    ensures Booked(c, states[n], events[n], states[n + 1])
  {
    EveryStateInv(c, states, events, n);
    assert Enabled(states[n], events[n]) && states[n + 1] == Step(c, states[n], events[n]);
    StepBooks(c, states[n], events[n]);
  }

  // ----- the books -----

  /** The offered headers, the bytes and the progress are those of the events. */
  predicate BooksTell(states: seq<State>, events: seq<Event>, n: nat)
    requires n <= |events| && |states| == |events| + 1
  {
    var s := states[n];
    && s.offered == AllOffered(events[..n]) && s.folders == ListedFolders(states, events, n)
    && s.sumTotalBytes == BytesOf(states, events, n, true) && s.lostBytes == BytesOf(states, events, n, false)
    && (s.requested == [] ==> (s.done, s.total) == LatestProgress(events[..n]))
  }

  lemma BooksNext(c: Config, states: seq<State>, events: seq<Event>, n: nat)
    requires n < |events| && |states| == |events| + 1
    requires Booked(c, states[n], events[n], states[n + 1]) && BooksTell(states, events, n)
    requires states[n].requested != [] ==> states[n + 1].requested != []
    ensures BooksTell(states, events, n + 1)
  {
    OneMoreOf(events, n);
  }

  lemma RequestsStay(c: Config, states: seq<State>, events: seq<Event>, n: nat)
    requires c.Valid() && IsRun(c, states, events) && n < |events|
    ensures states[n].requested != [] ==> states[n + 1].requested != []
  {
    EveryStateInv(c, states, events, n);
    assert Enabled(states[n], events[n]) && states[n + 1] == Step(c, states[n], events[n]);
    PhaseOf(c, states[n]);
    EveryStepBooks(c, states, events, n);
  }

  /** The folders collected are those of the listings that came back well, as they came; the headers offered are those
      the observer was told of, in that order; the bytes counted are those of the messages
      that arrived, and those missing of the others; until messages are asked for, the progress is the latest that was
      reported. */
  lemma BooksAreKept(c: Config, states: seq<State>, events: seq<Event>, n: nat)
    requires c.Valid() && IsRun(c, states, events) && n < |states|
    ensures BooksTell(states, events, n)
  {
    for j := 0 to n
      invariant BooksTell(states, events, j)
    {
      EveryStepBooks(c, states, events, j);
      RequestsStay(c, states, events, j);
      BooksNext(c, states, events, j);
    }
  }

  // ----- the error -----

  predicate ErrorTells(s: State, events: seq<Event>) {
    && s.error == FailureOf(events)
    && (s.error.None? && s.pendingCalls > 0 ==>
          s.retriesLeft == if exists b :: b in events && IsListingError(b) then 0 else 1)
  }

  lemma ErrorNext(c: Config, s: State, s': State, events: seq<Event>, e: Event)
    requires Booked(c, s, e, s') && ErrorTells(s, events)
    ensures ErrorTells(s', events + [e])
  {
    var more := events + [e];
    assert more[..|more| - 1] == events && more[|more| - 1] == e;
    assert forall b :: b in more <==> b in events || b == e;
    assert (exists b :: b in more && IsListingError(b)) <==>
           (exists b :: b in events && IsListingError(b)) || IsListingError(e);
  }

  /** The error of an update is that of the first failure for good, if there was one: of a refresh that failed or was
      cancelled, of a listing that was cancelled, or of the second listing that failed, the first being retried. An
      account that is not known is the error of its update. */
  lemma ErrorExactly(c: Config, states: seq<State>, events: seq<Event>, n: nat)
    requires c.Valid() && IsRun(c, states, events) && n < |states|
    ensures states[n].error == if c.accountKnown then FailureOf(events[..n]) else Some(ItemNotFound)
  {
    if c.accountKnown {
      for j := 0 to n
        invariant ErrorTells(states[j], events[..j])
      {
        EveryStepBooks(c, states, events, j);
        ErrorNext(c, states[j], states[j + 1], events[..j], events[j]);
        OneMoreOf(events, j);
      }
    } else {
      UnknownStaysUnknown(c, states, events, n);
    }
  }

  lemma UnknownStaysUnknown(c: Config, states: seq<State>, events: seq<Event>, n: nat)
    requires c.Valid() && IsRun(c, states, events) && n < |states| && !c.accountKnown
    ensures states[n].error == Some(ItemNotFound)
  {
    for j := 0 to n
      invariant !states[j].alive && states[j].error == Some(ItemNotFound)
    {
      RunSettles(c, states, events, j);
      StaysOver(c, states[j], events[j], states[j + 1]);
      EveryStepBooks(c, states, events, j);
    }
  }

  // ----- what is poked and refreshed -----

  predicate PokedTells(c: Config, states: seq<State>, n: nat)
    requires n < |states|
  {
    var s := states[n];
    && (s.pendingCalls > 0 ==> s.poked == [])
    && (s.pendingCalls == 0 && s.error.None? ==>
          s.poked == if c.pokeAll && !CanceledAtLastListing(states, n) then s.folders else [])
  }

  lemma PokedNext(c: Config, states: seq<State>, events: seq<Event>, n: nat)
    requires c.Valid() && n < |events| && |states| == |events| + 1 && Booked(c, states[n], events[n], states[n + 1])
    requires Settled(states[n]) && states[n].alive == (states[n].alive || states[n + 1].alive)
    requires states[n].pendingCalls > 0 ==> states[n].alive
    requires PokedTells(c, states, n) && SelectionTells(c, states, n)
    ensures PokedTells(c, states, n + 1)
  {
    OneMoreListing(states, n);
  }

  /** Every collected folder is poked, and nothing else, when that is asked for, unless the status was CANCELED when the
      last listing came back. */
  lemma PokedExactly(c: Config, states: seq<State>, events: seq<Event>, n: nat)
    requires c.Valid() && IsRun(c, states, events) && n < |states|
    ensures PokedTells(c, states, n)
  {
    for j := 0 to n
      invariant PokedTells(c, states, j)
    {
      EveryStepBooks(c, states, events, j);
      RunSettles(c, states, events, j);
      EverySelectionTells(c, states, events, j);
      PokedNext(c, states, events, j);
    }
  }

  /** The elements of a are among those of b in the same order. */
  predicate IsPartOf<T(==)>(a: seq<T>, b: seq<T>)
    decreases |b|
  {
    if a == [] then true
    else if b == [] then false
    else if a[|a| - 1] == b[|b| - 1] then IsPartOf(a[..|a| - 1], b[..|b| - 1])
    else IsPartOf(a, b[..|b| - 1])
  }

  lemma {:induction false} WantedExactly(c: Config, fs: seq<Folder>, f: Folder)
    ensures IsPartOf(Wanted(c, fs), fs)
    ensures multiset(Wanted(c, fs))[f]
         == if !c.updateFolderCounts && (f.kind == Inbox || c.updateAllFolders) then multiset(fs)[f] else 0
  {
    if fs != [] {
      var front, last := fs[..|fs| - 1], fs[|fs| - 1];
      assert fs == front + [last];
      WantedExactly(c, front, f);
      WantedExactly(c, front, last);
      if Wanted(c, fs) != [] {
        LastWanted(c, front, last);
      }
    }
  }

  lemma LastWanted(c: Config, front: seq<Folder>, last: Folder)
    ensures Wanted(c, front + [last]) == if c.Wants(last) then Wanted(c, front) + [last] else Wanted(c, front)
  {
    assert (front + [last])[..|front|] == front;
  }

  /** Which folders an update refreshes: a folder that was collected is refreshed each time it was collected if it is an
      inbox, or all folders are to be updated, and not only folder counts are. */
  lemma RefreshedExactly(c: Config, states: seq<State>, events: seq<Event>, n: nat, f: Folder)
    requires c.Valid() && IsRun(c, states, events) && n < |states| && !states[n].alive && states[n].error.None?
    requires !CanceledAtLastListing(states, n)
    ensures var s := states[n];
            && IsPartOf(s.refreshed, s.folders)
            && multiset(s.refreshed)[f]
               == (if !c.updateFolderCounts && (f.kind == Inbox || c.updateAllFolders) then multiset(s.folders)[f]
                   else 0)
  {
    RefreshedInOrder(c, states, events, n);
    WantedExactly(c, states[n].folders, f);
  }

  // ----- the messages -----

  lemma {:induction false} UnderSizeExactly(hs: seq<Header>, maxSize: int, h: Header)
    ensures multiset(UnderSize(hs, maxSize))[h] == if h.size < maxSize then multiset(hs)[h] else 0
  {
    if hs != [] {
      assert hs == hs[..|hs| - 1] + [hs[|hs| - 1]];
      UnderSizeExactly(hs[..|hs| - 1], maxSize, h);
    }
  }

  lemma NobodyListens(c: Config, s: State)
    requires c.Valid() && Inv(c, s) && c.updateFolderCounts
    ensures s.observer.None?
  {
    NothingWanted(c, s.folders);
  }

  lemma NothingOffered(c: Config, states: seq<State>, events: seq<Event>, n: nat)
    requires c.Valid() && IsRun(c, states, events) && n < |states| && c.updateFolderCounts
    ensures states[n].offered == []
  {
    for j := 0 to n
      invariant states[j].offered == []
    {
      NothingMoreOffered(c, states, events, j);
    }
  }

  lemma NothingMoreOffered(c: Config, states: seq<State>, events: seq<Event>, n: nat)
    requires c.Valid() && IsRun(c, states, events) && n < |events| && c.updateFolderCounts
    ensures states[n + 1].offered == states[n].offered
  {
    EveryStateInv(c, states, events, n);
    NobodyListens(c, states[n]);
    assert Enabled(states[n], events[n]);
    EveryStepBooks(c, states, events, n);
  }

  /** The list holds each header offered that has fewer bytes than the limit as often as it was offered, newest first,
      and those of one date in the order they were offered. */
  ghost predicate HoldsBelow(list: seq<Header>, offered: seq<Header>, bytes: int) {
    && NewestFirst(list)
    && (forall h :: multiset(list)[h] == if h.size < bytes then multiset(offered)[h] else 0)
    && (forall date :: Dated(list, date, bytes) == Dated(offered, date, bytes))
  }

  lemma NewestHolds(offered: seq<Header>, bytes: int)
    ensures HoldsBelow(Newest(offered, bytes), offered, bytes)
  {
    NewestIsOrdered(offered, bytes);
    forall h ensures multiset(Newest(offered, bytes))[h] == if h.size < bytes then multiset(offered)[h] else 0 {
      UnderSizeExactly(offered, bytes, h);
    }
    forall date ensures Dated(Newest(offered, bytes), date, bytes) == Dated(offered, date, bytes)
    {
      OneDateInOrder(offered, date, bytes);
    }
  }

  lemma NothingHolds(bytes: int, other: int)
    ensures HoldsBelow(Newest([], bytes), [], other)
  {
    assert Newest([], bytes) == [];
  }

  /** The list the user of an update gets, and the messages asked for, without the functions of the update. */
  ghost predicate GetsTheNewest(c: Config, s: State, list: seq<Header>) {
    && s.callbacks == [if list == [] then None else Some(list)]
    && HoldsBelow(list, s.offered, if c.sizeLimitKb == 0 then G_MAXINT else 1024 * c.sizeLimitKb)
    && s.requested <= list
    && |s.requested| == if c.headersOnly then 0
                        else if c.retrieveLimit == 0 then Min(|list|, G_MAXINT)
                        else if c.retrieveLimit < 0 then Min(|list|, c.retrieveLimit + 0x1_0000_0000)
                        else Min(|list|, c.retrieveLimit)
  }

  lemma OutcomeIsList(c: Config, s: State, list: seq<Header>)
    requires c.Valid() && Outcome(c, s) && s.error.None?
    requires list == Newest(s.offered, if c.updateFolderCounts then G_MAXINT else MaxSize(c.sizeLimitKb))
    ensures s.callbacks == [if list == [] then None else Some(list)]
    ensures s.requested == if c.headersOnly then [] else list[..RetrieveCount(|list|, c.retrieveLimit)]
  {
  }

  lemma LimitIs(c: Config, list: seq<Header>)
    requires c.Valid()
    ensures var n := RetrieveCount(|list|, c.retrieveLimit);
            |list[..n]| == if c.retrieveLimit == 0 then Min(|list|, G_MAXINT)
                           else if c.retrieveLimit < 0 then Min(|list|, c.retrieveLimit + 0x1_0000_0000)
                           else Min(|list|, c.retrieveLimit)
  {
  }

  lemma NewestIsBelow(c: Config, offered: seq<Header>, list: seq<Header>)
    requires list == Newest(offered, if c.updateFolderCounts then G_MAXINT else MaxSize(c.sizeLimitKb))
    requires c.updateFolderCounts ==> offered == []
    ensures HoldsBelow(list, offered, if c.sizeLimitKb == 0 then G_MAXINT else 1024 * c.sizeLimitKb)
  {
    if c.updateFolderCounts {
      NothingHolds(G_MAXINT, if c.sizeLimitKb == 0 then G_MAXINT else 1024 * c.sizeLimitKb);
    } else {
      NewestHolds(offered, MaxSize(c.sizeLimitKb));
    }
  }

  lemma NewestIsList(c: Config, s: State, list: seq<Header>)
    requires c.Valid() && Outcome(c, s) && s.error.None?
    requires list == Newest(s.offered, if c.updateFolderCounts then G_MAXINT else MaxSize(c.sizeLimitKb))
    requires c.updateFolderCounts ==> s.offered == []
    ensures GetsTheNewest(c, s, list)
  {
    OutcomeIsList(c, s, list);
    LimitIs(c, list);
    NewestIsBelow(c, s.offered, list);
  }

  /** An update that ends without error calls back with the new headers the observer was told of that are below the size
      limit, given in kilobytes, or below G_MAXINT bytes without a limit: newest first, and None if there are none. The
      messages asked for are the first of these, as many as the account's limit allows, or none if only headers are
      wanted. */
  lemma UserGetsTheNewest(c: Config, states: seq<State>, events: seq<Event>, n: nat) returns (list: seq<Header>)
    requires c.Valid() && IsRun(c, states, events) && n < |states| && !states[n].alive && states[n].error.None?
    ensures GetsTheNewest(c, states[n], list) && states[n].offered == AllOffered(events[..n])
  {
    var s := states[n];
    EveryStateInv(c, states, events, n);
    BooksAreKept(c, states, events, n);
    if c.updateFolderCounts {
      NothingOffered(c, states, events, n);
    }
    list := Newest(s.offered, if c.updateFolderCounts then G_MAXINT else MaxSize(c.sizeLimitKb));
    NewestIsList(c, s, list);
  }
}
