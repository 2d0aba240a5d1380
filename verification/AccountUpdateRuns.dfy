/** What holds in every run of an account update, whatever the order and outcome of its callbacks. */
module AccountUpdateRuns {
  import opened Sequences
  import opened FolderTrees
  import opened Messages
  import opened HeaderSelection
  import opened AccountUpdate

  /** What the outstanding calls will still deliver. */
  function Promised(c: Config, rs: seq<Request>): multiset<Folder> {
    if rs == [] then multiset{}
    else Promised(c, rs[..|rs| - 1]) + Share(c, rs[|rs| - 1].list + rs[|rs| - 1].children)
  }

  lemma {:induction false} PromisedConcat(c: Config, a: seq<Request>, b: seq<Request>)
    ensures Promised(c, a + b) == Promised(c, a) + Promised(c, b)
  {
    if b == [] {
      assert a + b == a;
    } else {
      assert (a + b)[..|a + b| - 1] == a + b[..|b| - 1];
      PromisedConcat(c, a, b[..|b| - 1]);
    }
  }

  lemma PromisedOne(c: Config, r: Request)
    ensures Promised(c, [r]) == Share(c, r.list + r.children)
  {
    assert [r][..0] == [];
  }

  lemma PromisedWithout(c: Config, rs: seq<Request>, i: nat)
    requires i < |rs|
    ensures Promised(c, rs) == Promised(c, Without(rs, i)) + Share(c, rs[i].list + rs[i].children)
  {
    assert rs == rs[..i] + ([rs[i]] + rs[i+1..]);
    PromisedConcat(c, rs[..i], [rs[i]] + rs[i+1..]);
    PromisedConcat(c, [rs[i]], rs[i+1..]);
    PromisedOne(c, rs[i]);
    PromisedConcat(c, rs[..i], rs[i+1..]);
  }

  lemma ShareConcat(c: Config, a: seq<Folder>, b: seq<Folder>)
    ensures Share(c, a + b) == Share(c, a) + Share(c, b)
  {
    ForestConcat(a, b);
  }

  /** Poking every folder trades a list for its folders and the calls on them. */
  lemma {:induction false} PromisedRequests(c: Config, fs: seq<Folder>)
    requires c.pokeAll
    ensures multiset(fs) + Promised(c, Requests(fs)) == Forest(fs)
  {
    if fs != [] {
      var front, last := fs[..|fs| - 1], fs[|fs| - 1];
      assert fs == front + [last];
      PromisedRequests(c, front);
      ForestConcat(front, [last]);
      assert Forest([last]) == Tree(last) + Forest([]);
      assert [] + last.children == last.children;
      assert Requests(fs)[..|Requests(fs)| - 1] == Requests(front);
    }
  }

  /** Nothing is lost or made up by the enumeration: collected folders, what outstanding calls will
      deliver and what failed calls will never deliver are together the account's folders and the
      leftovers of the retried call. */
  ghost predicate Conserved(c: Config, s: State) {
    multiset(s.folders) + Promised(c, s.timeouts) + Promised(c, s.calls) + s.lost
      == Share(c, c.root) + Share(c, s.leftover)
  }

  lemma StartConserves(c: Config)
    ensures Conserved(c, Started(c))
  {
    PromisedOne(c, Request([], c.root));
    assert [] + c.root == c.root;
    assert Share(c, []) == multiset{};
  }

  lemma ConservedByTimeout(c: Config, s: State, i: nat)
    requires Conserved(c, s) && i < |s.timeouts|
    ensures Conserved(c, ListTimeoutFired(s, i))
  {
    PromisedWithout(c, s.timeouts, i);
    PromisedConcat(c, s.calls, [s.timeouts[i]]);
    PromisedOne(c, s.timeouts[i]);
  }

  lemma RetryShare(c: Config, r: Request, partial: seq<Folder>)
    ensures Share(c, r.list + partial + r.children) == Share(c, r.list + r.children) + Share(c, partial)
  {
    ShareConcat(c, r.list + partial, r.children);
    ShareConcat(c, r.list, partial);
    ShareConcat(c, r.list, r.children);
  }

  lemma ConservedByRetry(c: Config, s: State, i: nat, partial: seq<Folder>)
    requires Conserved(c, s) && i < |s.calls| && s.error.None? && s.retriesLeft > 0
    ensures Conserved(c, ListingFailed(c, s.(calls := Without(s.calls, i)), s.calls[i], true, partial))
  {
    var r := s.calls[i];
    var again := Request(r.list + partial, r.children);
    PromisedWithout(c, s.calls, i);
    PromisedConcat(c, s.timeouts, [again]);
    PromisedOne(c, again);
    RetryShare(c, r, partial);
    ShareConcat(c, s.leftover, partial);
    Moved(multiset(s.folders), Promised(c, s.timeouts), Promised(c, Without(s.calls, i)), s.lost,
          Share(c, r.list + r.children), Share(c, c.root) + Share(c, s.leftover), Share(c, partial));
    assert Share(c, c.root) + Share(c, s.leftover) + Share(c, partial)
        == Share(c, c.root) + Share(c, s.leftover + partial);
  }

  /** A share x leaves the calls and comes back, with an addition y, among the timeouts. */
  lemma Moved(folders: multiset<Folder>, timeouts: multiset<Folder>, calls: multiset<Folder>,
              lost: multiset<Folder>, x: multiset<Folder>, total: multiset<Folder>, y: multiset<Folder>)
    requires folders + timeouts + (calls + x) + lost == total
    ensures folders + (timeouts + (x + y)) + calls + lost == total + y
  {
    assert folders + (timeouts + (x + y)) + calls + lost == folders + timeouts + (calls + x) + lost + y;
  }

  lemma ConservedByLoss(c: Config, s: State, s': State, i: nat)
    requires Conserved(c, s) && i < |s.calls|
    requires s'.folders == s.folders && s'.timeouts == s.timeouts && s'.leftover == s.leftover
    requires s'.calls == Without(s.calls, i)
    requires s'.lost == s.lost + Share(c, s.calls[i].list + s.calls[i].children)
    ensures Conserved(c, s')
  {
    PromisedWithout(c, s.calls, i);
  }

  lemma ConservedByFailure(c: Config, s: State, i: nat, err: bool, partial: seq<Folder>)
    requires Conserved(c, s) && i < |s.calls|
    ensures Conserved(c, ListingFailed(c, s.(calls := Without(s.calls, i)), s.calls[i], err, partial))
  {
    if err && s.error.None? && s.retriesLeft > 0 {
      ConservedByRetry(c, s, i, partial);
    } else {
      ConservedByLoss(c, s, ListingFailed(c, s.(calls := Without(s.calls, i)), s.calls[i], err, partial), i);
    }
  }

  lemma ConservedBySuccess(c: Config, s: State, i: nat)
    requires Conserved(c, s) && i < |s.calls|
    ensures var r := s.calls[i];
            Conserved(c, FoldersFound(c, s.(calls := Without(s.calls, i)), r.list + r.children))
  {
    var list := s.calls[i].list + s.calls[i].children;
    var timeouts, calls := Promised(c, s.timeouts), Promised(c, Without(s.calls, i));
    PromisedWithout(c, s.calls, i);
    assert multiset(s.folders + list) == multiset(s.folders) + multiset(list);
    if c.pokeAll {
      PromisedRequests(c, list);
      PromisedConcat(c, s.timeouts, Requests(list));
      Delivered(multiset(s.folders), timeouts, calls, s.lost, multiset(list), Promised(c, Requests(list)));
    } else {
      Delivered(multiset(s.folders), timeouts, calls, s.lost, multiset(list), multiset{});
    }
  }

  /** A share x + y leaves the calls; x is collected and y is asked for. */
  lemma Delivered(folders: multiset<Folder>, timeouts: multiset<Folder>, calls: multiset<Folder>,
                  lost: multiset<Folder>, x: multiset<Folder>, y: multiset<Folder>)
    ensures folders + timeouts + (calls + (x + y)) + lost == (folders + x) + (timeouts + y) + calls + lost
  {
  }

  // ----- the phases of a run -----

  ghost predicate NoRefresh(s: State) {
    s.refreshTimeouts == [] && s.refreshCalls == [] && s.observer.None? && s.observed == multiset{} && s.folders2 == []
  }

  ghost predicate NoDownload(s: State) {
    s.downloads == [] && s.requested == [] && s.sumTotalBytes == 0 && s.lostBytes == 0
  }

  ghost predicate NotEnded(s: State) {
    s.alive && s.busy && s.sends == 0 && s.callbacks == [] && s.finished == 0
  }

  ghost predicate Listing(c: Config, s: State) {
    && NotEnded(s) && NoRefresh(s) && NoDownload(s)
    && s.pendingCalls > 0
    && s.poked == [] && s.refreshed == [] && s.selected == [] && s.offered == []
  }

  /** Exactly one refresh is under way; the folders refreshed before, the one that is waiting and the
      ones still queued are the selected folders in their order. */
  ghost predicate Refreshing(c: Config, s: State) {
    && NotEnded(s) && NoDownload(s)
    && s.pendingCalls == 0 && s.error.None?
    && s.observer == Some(s.offered)
    && |s.refreshTimeouts| + |s.refreshCalls| == 1
    && (s.refreshCalls != [] ==> s.refreshed != [] && s.refreshed[|s.refreshed| - 1] == s.refreshCalls[0])
    && s.refreshed + s.refreshTimeouts + s.folders2 == s.selected
    && s.selected == Wanted(c, s.folders)
    && s.observed == multiset(s.selected)
  }

  ghost predicate Chosen(c: Config, s: State)
    requires c.Valid()
  {
    s.requested == s.newHeaders[..RetrieveCount(|s.newHeaders|, c.retrieveLimit)]
  }

  /** Every message asked for is outstanding, arrived or lost, and done and the byte sums say so. */
  ghost predicate Downloading(c: Config, s: State)
    requires c.Valid()
  {
    && NotEnded(s) && NoRefresh(s)
    && s.pendingCalls == 0 && s.error.None?
    && s.refreshed == s.selected == Wanted(c, s.folders)
    && s.downloads != [] && !c.headersOnly && !c.updateFolderCounts
    && s.newHeaders == Newest(s.offered, MaxSize(c.sizeLimitKb))
    && Chosen(c, s)
    && multiset(s.downloads) <= multiset(s.requested)
    && s.total == |s.requested|
    && s.done + |s.downloads| == s.total
    && s.totalBytes == Size(s.requested)
    && s.sumTotalBytes + s.lostBytes + Size(s.downloads) == s.totalBytes
  }

  /** How a finished update ended. */
  ghost predicate Outcome(c: Config, s: State)
    requires c.Valid()
  {
    && (s.selected == [] || s.selected == Wanted(c, s.folders))
    && if s.error.Some? then
      && s.callbacks == [None] && s.sends == 0
      && s.refreshed <= s.selected
      && s.requested == [] && s.sumTotalBytes == 0 && s.lostBytes == 0
    else
      && s.sends == 1
      && (s.cancelAsked || s.selected == Wanted(c, s.folders))
      && s.refreshed == s.selected
      && var newest := Newest(s.offered, if c.updateFolderCounts then G_MAXINT else MaxSize(c.sizeLimitKb));
      && s.callbacks == [if newest == [] then None else Some(newest)]
      && s.requested == (if newest == [] || c.headersOnly then []
                         else newest[..RetrieveCount(|newest|, c.retrieveLimit)])
      && s.sumTotalBytes + s.lostBytes == Size(s.requested)
  }

  ghost predicate Over(c: Config, s: State)
    requires c.Valid()
  {
    && !s.alive && !s.busy && s.finished == 1
    && NoRefresh(s) && s.downloads == []
    && s.pendingCalls == 0
    && Outcome(c, s)
  }

  /** What holds in every phase. */
  ghost predicate Common(c: Config, s: State) {
    && Conserved(c, s)
    && (s.error.None? ==> s.lost == multiset{})
    && s.pendingCalls == |s.timeouts| + |s.calls|
    && s.retriesLeft <= 1
    && (s.retriesLeft == 1 ==> s.leftover == [])
    && StatusFits(s)
  }

  /** The status tells whether the update has failed or ended, unless it was cancelled since. */
  predicate StatusFits(s: State) {
    || s.status == (if s.error.Some? then Failed else if s.alive then InProgress else Success)
    || (s.cancelAsked && s.status == Canceled)
  }

  ghost predicate Inv(c: Config, s: State)
    requires c.Valid()
  {
    Common(c, s) && (Listing(c, s) || Refreshing(c, s) || Downloading(c, s) || Over(c, s))
  }

  lemma {:induction false} WantedAreFolders(c: Config, fs: seq<Folder>)
    ensures multiset(Wanted(c, fs)) <= multiset(fs)
  {
    if fs != [] {
      WantedAreFolders(c, fs[..|fs| - 1]);
      assert fs == fs[..|fs| - 1] + [fs[|fs| - 1]];
    }
  }

  lemma StartInv(c: Config)
    requires c.Valid()
    ensures Inv(c, Started(c))
  {
    StartConserves(c);
  }

  lemma ListTimeoutKeeps(c: Config, s: State, i: nat)
    requires c.Valid() && Common(c, s) && Listing(c, s) && i < |s.timeouts|
    ensures Inv(c, ListTimeoutFired(s, i))
  {
    ConservedByTimeout(c, s, i);
    assert Listing(c, ListTimeoutFired(s, i));
  }

  /** The state a listing callback leaves right before its last test. */
  ghost predicate Counted(c: Config, s: State) {
    Common(c, s) && Listing(c, s.(pendingCalls := 1))
  }

  lemma FailureCounted(c: Config, s: State, i: nat, err: bool, partial: seq<Folder>)
    requires c.Valid() && Common(c, s) && Listing(c, s) && i < |s.calls|
    ensures var s1 := ListingFailed(c, s.(calls := Without(s.calls, i)), s.calls[i], err, partial);
            Counted(c, s1.(pendingCalls := s1.pendingCalls - 1))
  {
    ConservedByFailure(c, s, i, err, partial);
  }

  lemma SuccessCounted(c: Config, s: State, i: nat)
    requires c.Valid() && Common(c, s) && Listing(c, s) && i < |s.calls|
    ensures var r := s.calls[i];
            var s1 := FoldersFound(c, s.(calls := Without(s.calls, i)), r.list + r.children);
            Counted(c, s1.(pendingCalls := s1.pendingCalls - 1))
  {
    ConservedBySuccess(c, s, i);
  }

  lemma RefreshStarts(c: Config, s: State)
    requires c.Valid() && Counted(c, s) && s.pendingCalls == 0 && s.error.None?
    requires s.status == InProgress && Wanted(c, s.folders) != []
    ensures Inv(c, AllListed(c, s))
  {
    var s' := AllListed(c, s);
    var selected := Wanted(c, s.folders);
    assert [] + [selected[0]] + selected[1..] == selected;
    assert s'.folders2 == selected[1..] && s'.refreshTimeouts == [selected[0]];
    assert Refreshing(c, s');
  }

  lemma NothingToRefresh(c: Config, s: State)
    requires c.Valid() && Counted(c, s) && s.pendingCalls == 0
    requires s.error.Some? || s.status != InProgress || Wanted(c, s.folders) == []
    ensures Inv(c, AllListed(c, s))
  {
    assert Newest([], MaxSize(c.sizeLimitKb)) == [] == Newest([], G_MAXINT);
    assert Over(c, AllListed(c, s));
  }

  lemma PendingCallDoneKeeps(c: Config, s: State)
    requires c.Valid() && Counted(c, s.(pendingCalls := s.pendingCalls - 1))
    ensures Inv(c, PendingCallDone(c, s))
  {
    var s' := s.(pendingCalls := s.pendingCalls - 1);
    if s'.pendingCalls != 0 {
      assert Listing(c, s');
    } else if s'.error.None? && s'.status == InProgress && Wanted(c, s'.folders) != [] {
      RefreshStarts(c, s');
    } else {
      NothingToRefresh(c, s');
    }
  }

  lemma FailedListingKeeps(c: Config, s: State, i: nat, err: bool, partial: seq<Folder>)
    requires c.Valid() && Common(c, s) && Listing(c, s) && i < |s.calls|
    ensures Inv(c, PendingCallDone(c, ListingFailed(c, s.(calls := Without(s.calls, i)), s.calls[i], err, partial)))
  {
    FailureCounted(c, s, i, err, partial);
    PendingCallDoneKeeps(c, ListingFailed(c, s.(calls := Without(s.calls, i)), s.calls[i], err, partial));
  }

  lemma FullListingKeeps(c: Config, s: State, i: nat)
    requires c.Valid() && Common(c, s) && Listing(c, s) && i < |s.calls|
    ensures var r := s.calls[i];
            Inv(c, PendingCallDone(c, FoldersFound(c, s.(calls := Without(s.calls, i)), r.list + r.children)))
  {
    var r := s.calls[i];
    SuccessCounted(c, s, i);
    PendingCallDoneKeeps(c, FoldersFound(c, s.(calls := Without(s.calls, i)), r.list + r.children));
  }

  lemma RecurseFoldersKeeps(c: Config, s: State, i: nat, canceled: bool, err: bool, partial: seq<Folder>)
    requires c.Valid() && Common(c, s) && Listing(c, s) && i < |s.calls|
    ensures Inv(c, RecurseFolders(c, s, i, canceled, err, partial))
  {
    if canceled || err {
      FailedListingKeeps(c, s, i, err, partial);
    } else {
      FullListingKeeps(c, s, i);
    }
  }

  lemma RefreshTimeoutKeeps(c: Config, s: State, i: nat)
    requires c.Valid() && Common(c, s) && Refreshing(c, s) && i < |s.refreshTimeouts|
    ensures Inv(c, RefreshTimeoutFired(s, i))
  {
    var s' := RefreshTimeoutFired(s, i);
    assert i == 0 && s.refreshTimeouts == [s.refreshTimeouts[0]];
    assert s'.refreshed + s'.refreshTimeouts + s'.folders2 == s.refreshed + s.refreshTimeouts + s.folders2;
    assert Refreshing(c, s');
  }

  lemma QueuedAreFolders(c: Config, s: State)
    requires Refreshing(c, s)
    ensures RemoveEach(s.folders2, s.folders) == [] && s.observed - multiset(s.folders) == multiset{}
    ensures s.refreshed <= s.selected
  {
    WantedAreFolders(c, s.folders);
    PartsOf(s.refreshed, s.refreshTimeouts, s.folders2, s.selected, multiset(s.folders));
    RemoveEachCovers(s.folders2, s.folders);
  }

  lemma WithdrawnAll(s: State)
    requires RemoveEach(s.folders2, s.folders) == [] && s.observed - multiset(s.folders) == multiset{}
    ensures Withdrawn(s) == s.(observed := multiset{}, folders2 := [], observer := None)
  {
  }

  /** The state a failed refresh leaves. */
  lemma FailedRefresh(c: Config, s: State, folder: Option<Folder>, canceled: bool, err: bool)
    requires c.Valid() && (canceled || err)
    requires RemoveEach(s.folders2, s.folders) == [] && s.observed - multiset(s.folders) == multiset{}
    ensures FolderRefreshed(c, s, folder, canceled, err)
         == NotifyUserAndFree(s.(status := Failed, error := Some(if err then Reported else OperationCanceled),
                                 observed := multiset{}, folders2 := [], observer := None), None)
  {
    WithdrawnAll(s.(status := Failed, error := Some(if err then Reported else OperationCanceled)));
  }

  /** The state a failed update ends in. */
  ghost predicate EndedByError(c: Config, s: State, s': State) {
    && Common(c, s') && !s'.alive && !s'.busy && s'.finished == 1 && s'.pendingCalls == 0
    && NoRefresh(s') && NoDownload(s')
    && s'.error.Some? && s'.callbacks == [None] && s'.sends == 0
    && s'.refreshed <= s'.selected == s.selected && s'.folders == s.folders
  }

  lemma ErrorEnds(c: Config, s: State)
    requires Common(c, s) && NotEnded(s) && NoRefresh(s) && NoDownload(s)
    requires s.pendingCalls == 0 && s.error.Some? && s.status == Failed && s.refreshed <= s.selected
    ensures EndedByError(c, s, NotifyUserAndFree(s, None))
  {
  }

  lemma LastRefreshEnds(c: Config, s: State, folder: Option<Folder>, canceled: bool, err: bool)
    requires c.Valid() && Common(c, s) && NotEnded(s) && NoDownload(s) && (canceled || err)
    requires s.pendingCalls == 0 && s.error.None? && s.refreshTimeouts == [] && s.refreshCalls == []
    requires RemoveEach(s.folders2, s.folders) == [] && s.observed - multiset(s.folders) == multiset{}
    requires s.refreshed <= s.selected
    ensures EndedByError(c, s, FolderRefreshed(c, s, folder, canceled, err))
  {
    FailedRefresh(c, s, folder, canceled, err);
    ErrorEnds(c, s.(status := Failed, error := Some(if err then Reported else OperationCanceled),
                    observed := multiset{}, folders2 := [], observer := None));
  }

  lemma FailedRefreshEnds(c: Config, s: State, i: nat, canceled: bool, err: bool)
    requires c.Valid() && Common(c, s) && Refreshing(c, s) && i < |s.refreshCalls| && (canceled || err)
    ensures EndedByError(c, s, Step(c, s, Refreshed(i, canceled, err)))
    ensures s.selected == Wanted(c, s.folders)
  {
    RefreshReturned(c, s, i, canceled, err);
    RefreshLeft(c, s, i);
    LastRefreshEnds(c, s.(refreshCalls := []), Some(s.refreshCalls[i]), canceled, err);
  }

  lemma RefreshReturned(c: Config, s: State, i: nat, canceled: bool, err: bool)
    requires c.Valid() && |s.refreshCalls| == 1 && i == 0
    ensures Step(c, s, Refreshed(i, canceled, err))
         == FolderRefreshed(c, s.(refreshCalls := []), Some(s.refreshCalls[i]), canceled, err)
  {
    assert Without(s.refreshCalls, i) == [];
  }

  /** Right after a refresh came back none is under way, and all that wait are known folders. */
  lemma RefreshLeft(c: Config, s: State, i: nat)
    requires c.Valid() && Common(c, s) && Refreshing(c, s) && i < |s.refreshCalls|
    ensures var s1 := s.(refreshCalls := []);
            && Common(c, s1) && s1.refreshTimeouts == []
            && RemoveEach(s1.folders2, s1.folders) == [] && s1.observed - multiset(s1.folders) == multiset{}
            && s1.refreshed <= s1.selected
  {
    QueuedAreFolders(c, s);
  }

  lemma RefreshFailedKeeps(c: Config, s: State, i: nat, canceled: bool, err: bool)
    requires c.Valid() && Common(c, s) && Refreshing(c, s) && i < |s.refreshCalls| && (canceled || err)
    ensures Inv(c, Step(c, s, Refreshed(i, canceled, err)))
  {
    FailedRefreshEnds(c, s, i, canceled, err);
  }

  lemma NextRefreshKeeps(c: Config, s: State, i: nat)
    requires c.Valid() && Common(c, s) && Refreshing(c, s) && i < |s.refreshCalls| && s.folders2 != []
    ensures Inv(c, Step(c, s, Refreshed(i, false, false)))
  {
    var s' := Step(c, s, Refreshed(i, false, false));
    NextRefresh(c, s, i);
    assert Conserved(c, s') && Refreshing(c, s');
  }

  lemma NextRefresh(c: Config, s: State, i: nat)
    requires c.Valid() && |s.refreshTimeouts| + |s.refreshCalls| == 1 && i < |s.refreshCalls| && s.folders2 != []
    ensures var s' := Step(c, s, Refreshed(i, false, false));
            && s' == s.(refreshCalls := [], refreshTimeouts := [s.folders2[0]], folders2 := s.folders2[1..])
            && s'.refreshed + s'.refreshTimeouts + s'.folders2 == s.refreshed + s.refreshTimeouts + s.folders2
  {
    assert s.refreshTimeouts == [] && Without(s.refreshCalls, i) == [];
  }

  /** The refreshes are done and the observer is about to be read and detached. */
  ghost predicate AllRefreshed(c: Config, s: State) {
    && Common(c, s) && NotEnded(s) && NoDownload(s)
    && s.refreshTimeouts == [] && s.refreshCalls == [] && s.folders2 == []
    && s.pendingCalls == 0 && s.error.None? && s.observer == Some(s.offered)
    && s.refreshed == s.selected == Wanted(c, s.folders) && !c.updateFolderCounts
    && s.observed - multiset(s.folders) == multiset{}
  }

  lemma DownloadsBegin(c: Config, s: State, newest: seq<Header>)
    requires c.Valid() && AllRefreshed(c, s)
    requires newest == Newest(s.offered, MaxSize(c.sizeLimitKb)) && newest != [] && !c.headersOnly
    ensures Inv(c, StartDownloads(c, s))
  {
    var s' := StartDownloads(c, s);
    var n := RetrieveCount(|newest|, c.retrieveLimit);
    assert [] + newest[..n] == newest[..n];
    assert s'.requested == s'.downloads == newest[..n] && s'.newHeaders == newest;
    assert Downloading(c, s');
  }

  lemma DownloadsKeep(c: Config, s: State)
    requires c.Valid() && AllRefreshed(c, s)
    ensures Inv(c, StartDownloads(c, s))
  {
    var newest := Newest(s.offered, MaxSize(c.sizeLimitKb));
    if newest != [] && !c.headersOnly {
      DownloadsBegin(c, s, newest);
    } else {
      assert Over(c, StartDownloads(c, s));
    }
  }

  lemma LastRefresh(c: Config, s: State, i: nat)
    requires c.Valid() && Common(c, s) && Refreshing(c, s) && i < |s.refreshCalls| && s.folders2 == []
    ensures AllRefreshed(c, s.(refreshCalls := Without(s.refreshCalls, i)))
  {
    QueuedAreFolders(c, s);
    assert s.refreshTimeouts == [] && Without(s.refreshCalls, i) == [];
    assert s.refreshed + [] + [] == s.refreshed;
    if c.updateFolderCounts { NothingWanted(c, s.folders); }
  }

  lemma LastRefreshKeeps(c: Config, s: State, i: nat)
    requires c.Valid() && Common(c, s) && Refreshing(c, s) && i < |s.refreshCalls| && s.folders2 == []
    ensures Inv(c, Step(c, s, Refreshed(i, false, false)))
  {
    var s' := s.(refreshCalls := Without(s.refreshCalls, i));
    assert Step(c, s, Refreshed(i, false, false)) == StartDownloads(c, s');
    LastRefresh(c, s, i);
    DownloadsKeep(c, s');
  }

  lemma {:induction false} NothingWanted(c: Config, fs: seq<Folder>)
    requires c.updateFolderCounts
    ensures Wanted(c, fs) == []
  {
    if fs != [] { NothingWanted(c, fs[..|fs| - 1]); }
  }

  lemma {:induction false} SizeInsert(a: seq<Header>, h: Header, b: seq<Header>)
    ensures Size(a + [h] + b) == Size(a + b) + h.size
  {
    var all, less := a + [h] + b, a + b;
    if b == [] {
      assert all[..|all| - 1] == a == less;
    } else {
      assert all[..|all| - 1] == a + [h] + b[..|b| - 1];
      assert less[..|less| - 1] == a + b[..|b| - 1];
      SizeInsert(a, h, b[..|b| - 1]);
    }
  }

  lemma SizeWithout(hs: seq<Header>, i: nat)
    requires i < |hs|
    ensures Size(hs) == Size(Without(hs, i)) + hs[i].size
  {
    var a, b := SplitAt(hs, i);
    SizeInsert(a, hs[i], b);
  }

  lemma MessageKeeps(c: Config, s: State, i: nat, arrived: bool)
    requires c.Valid() && Common(c, s) && Downloading(c, s) && i < |s.downloads|
    ensures Inv(c, MessageReceived(s, i, arrived))
  {
    var s' := MessageReceived(s, i, arrived);
    assert Downloading(c, s);
    SizeWithout(s.downloads, i);
    WithoutTakesOne(s.downloads, i);
    if s'.alive {
      assert multiset(s'.downloads) <= multiset(s.downloads);
      assert Downloading(c, s');
    } else {
      assert s'.downloads == [];
      assert Over(c, s');
    }
  }

  lemma NewHeadersKeep(c: Config, s: State, headers: seq<Header>)
    requires c.Valid() && Common(c, s) && Refreshing(c, s)
    ensures Inv(c, Step(c, s, NewHeaders(headers)))
  {
    assert Refreshing(c, Step(c, s, NewHeaders(headers)));
  }

  lemma RefreshStatusKeeps(c: Config, s: State, position: nat, ofTotal: nat)
    requires c.Valid() && Common(c, s) && Refreshing(c, s) && s.refreshCalls != []
    ensures Inv(c, Step(c, s, RefreshStatus(position, ofTotal)))
  {
    assert Refreshing(c, Step(c, s, RefreshStatus(position, ofTotal)));
  }

  lemma CancelKeepsCommon(c: Config, s: State)
    requires Common(c, s)
    ensures Common(c, s.(status := Canceled, cancelAsked := true))
  {
  }

  lemma CancelKeepsPhase(c: Config, s: State)
    requires c.Valid() && (Listing(c, s) || Refreshing(c, s) || Downloading(c, s) || Over(c, s))
    ensures var s' := s.(status := Canceled, cancelAsked := true);
            Listing(c, s') || Refreshing(c, s') || Downloading(c, s') || Over(c, s')
  {
    var s' := s.(status := Canceled, cancelAsked := true);
    if Listing(c, s) { assert Listing(c, s'); }
    else if Refreshing(c, s) { assert Refreshing(c, s'); }
    else if Downloading(c, s) { assert Downloading(c, s'); }
    else { assert Over(c, s'); }
  }

  lemma CancelKeeps(c: Config, s: State)
    requires c.Valid() && Inv(c, s)
    ensures Inv(c, Step(c, s, CancelOperation))
  {
    CancelKeepsCommon(c, s);
    CancelKeepsPhase(c, s);
  }

  /** What is outstanding tells the phase. */
  lemma PhaseOf(c: Config, s: State)
    requires c.Valid() && Inv(c, s)
    ensures s.timeouts != [] || s.calls != [] ==> Listing(c, s)
    ensures s.refreshTimeouts != [] || s.refreshCalls != [] || s.observer.Some? ==> Refreshing(c, s)
    ensures s.downloads != [] ==> Downloading(c, s)
  {
  }

  lemma StepKeeps(c: Config, s: State, e: Event)
    requires c.Valid() && Inv(c, s) && Enabled(s, e)
    ensures Inv(c, Step(c, s, e))
  {
    PhaseOf(c, s);
    match e
    case ListTimeout(i) => ListTimeoutKeeps(c, s, i);
    case Listed(i, canceled, err, partial) => RecurseFoldersKeeps(c, s, i, canceled, err, partial);
    case RefreshTimeout(i) => RefreshTimeoutKeeps(c, s, i);
    case Refreshed(i, canceled, err) =>
      if canceled || err { RefreshFailedKeeps(c, s, i, canceled, err); }
      else if s.folders2 != [] { NextRefreshKeeps(c, s, i); }
      else { LastRefreshKeeps(c, s, i); }
    case GotMessage(i, arrived) => MessageKeeps(c, s, i, arrived);
    case NewHeaders(headers) => NewHeadersKeep(c, s, headers);
    case RefreshStatus(position, ofTotal) => RefreshStatusKeeps(c, s, position, ofTotal);
    case CancelOperation => CancelKeeps(c, s);
  }

  lemma NextKeeps(c: Config, s: State, e: Event, s': State)
    requires c.Valid() && Inv(c, s) && Enabled(s, e) && s' == Step(c, s, e)
    ensures Inv(c, s')
  {
    StepKeeps(c, s, e);
  }

  lemma RunStarts(c: Config, states: seq<State>, events: seq<Event>)
    requires c.Valid() && IsRun(c, states, events)
    ensures Inv(c, states[0])
  {
    StartInv(c);
  }

  lemma RunKeeps(c: Config, states: seq<State>, events: seq<Event>, k: nat)
    requires c.Valid() && IsRun(c, states, events) && k < |events| && Inv(c, states[k])
    ensures Inv(c, states[k + 1])
  {
    NextKeeps(c, states[k], events[k], states[k + 1]);
  }

  lemma EveryStateInv(c: Config, states: seq<State>, events: seq<Event>, k: nat)
    requires c.Valid() && IsRun(c, states, events) && k < |states|
    ensures Inv(c, states[k])
  {
    RunStarts(c, states, events);
    for j := 0 to k
      invariant Inv(c, states[j])
    {
      RunKeeps(c, states, events, j);
    }
  }
}
