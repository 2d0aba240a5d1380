/** The callbacks of an account update on the structures they share, step by step as the main loop runs
    them. Each is proved to take the state machine of AccountUpdate along its step. */
module AccountUpdateOperation {
  import opened Sequences
  import opened FolderTrees
  import opened Messages
  import opened HeaderSelection
  import opened AccountUpdate

  method ComputeMessageListSize(headers: seq<Header>, numElements: nat) returns (size: nat)
    ensures size == ListSize(headers, numElements)
    ensures size == Size(if 0 < numElements <= |headers| then headers[..numElements] else headers)
  {
    var n := if numElements <= 0 || numElements > |headers| then |headers| else numElements;
    size := 0;
    var element := 0;
    while element < n
      invariant element <= n
      invariant size == Size(headers[..element])
    {
      assert headers[..element + 1][..element] == headers[..element];
      size := size + headers[element].size;
      element := element + 1;
    }
    assert numElements == 0 || numElements > |headers| ==> headers[..n] == headers;
  }

  method PrependAll(headersArray: seq<Header>) returns (list: seq<Header>)
    ensures list == Prepended(headersArray)
  {
    list := [];
    var i := 0;
    while i < |headersArray|
      invariant i <= |headersArray|
      invariant list == Prepended(headersArray[..i])
    {
      assert headersArray[..i + 1][..i] == headersArray[..i];
      list := [headersArray[i]] + list;
      i := i + 1;
    }
    assert headersArray[..i] == headersArray;
  }

  method ApplySizeLimit(offers: seq<Header>, maxSize: int) returns (headersArray: seq<Header>)
    ensures headersArray == UnderSize(offers, maxSize)
  {
    headersArray := [];
    var k := 0;
    while k < |offers|
      invariant k <= |offers|
      invariant headersArray == UnderSize(offers[..k], maxSize)
    {
      assert offers[..k + 1][..k] == offers[..k];
      if offers[k].size < maxSize {
        headersArray := headersArray + [offers[k]];
      }
      k := k + 1;
    }
    assert offers[..k] == offers;
  }

  lemma WantedStep(c: Config, fs: seq<Folder>, folder: Folder)
    ensures Wanted(c, fs + [folder]) == if c.Wants(folder) then Wanted(c, fs) + [folder] else Wanted(c, fs)
  {
    assert (fs + [folder])[..|fs|] == fs;
  }

  datatype UpdateAccountInfo = UpdateAccountInfo(
    folders: seq<Folder>, folders2: seq<Folder>, pendingCalls: int, observer: Option<seq<Header>>,
    retriesLeft: nat, alive: bool)

  datatype MailOperationPrivate = MailOperationPrivate(
    status: Status, error: Option<OperationError>, done: int, total: int)

  datatype GetMsgInfo = GetMsgInfo(newHeaders: seq<Header>, totalBytes: nat, sumTotalBytes: nat)

  datatype MainLoop = MainLoop(
    timeouts: seq<Request>, calls: seq<Request>, refreshTimeouts: seq<Folder>, refreshCalls: seq<Folder>,
    downloads: seq<Header>)

  /** What the folders, the account manager and the user have seen. */
  datatype Outside = Outside(
    observed: multiset<Folder>, poked: seq<Folder>, refreshed: seq<Folder>, requested: seq<Header>, busy: bool,
    sends: nat, callbacks: seq<Option<seq<Header>>>, finished: nat)

  datatype History = History(
    selected: seq<Folder>, cancelAsked: bool, leftover: seq<Folder>, lost: multiset<Folder>, offered: seq<Header>,
    lostBytes: nat)

  class UpdateAccount {
    const config: Config
    var info: UpdateAccountInfo
    var priv: MailOperationPrivate
    var msgInfo: GetMsgInfo
    var loop: MainLoop
    ghost var outside: Outside
    ghost var history: History

    ghost function View(): State
      reads this
    {
      State(info.folders, info.folders2, info.pendingCalls, info.observer, info.retriesLeft, info.alive,
            priv.status, priv.error, priv.done, priv.total,
            msgInfo.newHeaders, msgInfo.totalBytes, msgInfo.sumTotalBytes,
            loop.timeouts, loop.calls, loop.refreshTimeouts, loop.refreshCalls, loop.downloads,
            outside.observed, outside.poked, outside.refreshed, outside.requested, outside.busy,
            outside.sends, outside.callbacks, outside.finished,
            history.selected, history.cancelAsked, history.leftover, history.lost, history.offered,
            history.lostBytes)
    }

    constructor (c: Config)
      ensures config == c && View() == Started(c)
    {
      config := c;
      info := UpdateAccountInfo([], [], 0, None, 1, false);
      priv := MailOperationPrivate(InProgress, None, 0, 0);
      msgInfo := GetMsgInfo([], 0, 0);
      loop := MainLoop([], [], [], [], []);
      outside := Outside(multiset{}, [], [], [], false, 0, [], 0);
      history := History([], false, [], multiset{}, [], 0);
      new;
      if !config.accountKnown {
        priv := priv.(error := Some(ItemNotFound));
        priv := priv.(status := Failed);
        outside := outside.(callbacks := outside.callbacks + [None]);
        outside := outside.(finished := outside.finished + 1);
        history := history.(lost := Share(config, config.root));
        return;
      }
      info := info.(alive := true, pendingCalls := 1);
      outside := outside.(busy := true);
      loop := loop.(calls := loop.calls + [Request([], config.root)]);
    }

    method RecurseFoldersAsyncTimeoutCb(i: nat)
      requires i < |loop.timeouts|
      modifies this
      ensures View() == ListTimeoutFired(old(View()), i)
    {
      var data := loop.timeouts[i];
      loop := loop.(timeouts := Without(loop.timeouts, i));
      loop := loop.(calls := loop.calls + [data]);
    }

    method RecurseFoldersAsyncCb(i: nat, canceled: bool, err: bool, partial: seq<Folder>)
      requires config.Valid() && i < |loop.calls|
      modifies this
      ensures View() == RecurseFolders(config, old(View()), i, canceled, err, partial)
    {
      var r := loop.calls[i];
      loop := loop.(calls := Without(loop.calls, i));
      if err || canceled {
        HandleListingError(r, err, partial);
      } else {
        AddFolders(r.list + r.children);
      }
      RemovePendingCall();
    }

    /** The callback's own pending call is over. */
    method RemovePendingCall()
      requires config.Valid()
      modifies this
      ensures View() == PendingCallDone(config, old(View()))
    {
      info := info.(pendingCalls := info.pendingCalls - 1);
      if info.pendingCalls == 0 {
        AllFoldersListed();
      }
    }

    /** The error branch of recurse_folders_async_cb. */
    method HandleListingError(r: Request, err: bool, partial: seq<Folder>)
      modifies this
      ensures View() == ListingFailed(config, old(View()), r, err, partial)
    {
      var errorHandled := false;
      if err && priv.error.None? {
        if info.retriesLeft > 0 {
          RetryListing(r, partial);
          errorHandled := true;
        }
      }
      if !errorHandled {
        history := history.(lost := history.lost + Share(config, r.list + r.children));
      }
      if !errorHandled && priv.error.None? {
        priv := priv.(status := Failed);
        priv := priv.(error := Some(if err then Reported else OperationCanceled));
      }
    }

    /** Schedules the failed call again, with the list it was filling. */
    method RetryListing(r: Request, partial: seq<Folder>)
      requires info.retriesLeft > 0
      modifies this
      ensures var s := old(View());
              View() == s.(timeouts := s.timeouts + [Request(r.list + partial, r.children)],
                           pendingCalls := s.pendingCalls + 1, retriesLeft := s.retriesLeft - 1,
                           leftover := s.leftover + partial)
    {
      loop := loop.(timeouts := loop.timeouts + [Request(r.list + partial, r.children)]);
      info := info.(pendingCalls := info.pendingCalls + 1);
      info := info.(retriesLeft := info.retriesLeft - 1);
      history := history.(leftover := history.leftover + partial);
    }

    method AddFolder(folder: Folder)
      modifies `info, `loop
      ensures info == old(info).(folders := old(info).folders + [folder],
                                 pendingCalls := old(info).pendingCalls + if config.pokeAll then 1 else 0)
      ensures loop == if config.pokeAll then old(loop).(timeouts := old(loop).timeouts + [Request([], folder.children)])
                      else old(loop)
    {
      info := info.(folders := info.folders + [folder]);
      if config.pokeAll {
        info := info.(pendingCalls := info.pendingCalls + 1);
        loop := loop.(timeouts := loop.timeouts + [Request([], folder.children)]);
      }
    }

    /** The helper and the main loop once the folders are collected. */
    function Collecting(before: UpdateAccountInfo, list: seq<Folder>): UpdateAccountInfo {
      before.(folders := before.folders + list,
              pendingCalls := before.pendingCalls + if config.pokeAll then |list| else 0)
    }

    function Scheduling(before: MainLoop, list: seq<Folder>): MainLoop {
      if config.pokeAll then before.(timeouts := before.timeouts + Requests(list)) else before
    }

    lemma CollectingStep(i: UpdateAccountInfo, l: MainLoop, list: seq<Folder>, folder: Folder)
      ensures Collecting(i, list + [folder])
           == var now := Collecting(i, list);
              now.(folders := now.folders + [folder],
                   pendingCalls := now.pendingCalls + if config.pokeAll then 1 else 0)
      ensures Scheduling(l, list + [folder])
           == var now := Scheduling(l, list);
              if config.pokeAll then now.(timeouts := now.timeouts + [Request([], folder.children)]) else now
    {
      assert (list + [folder])[..|list|] == list;
      assert i.folders + (list + [folder]) == i.folders + list + [folder];
      assert l.timeouts + (Requests(list) + [Request([], folder.children)])
          == l.timeouts + Requests(list) + [Request([], folder.children)];
    }

    /** The loop of recurse_folders_async_cb over a listed folder sequence. */
    method AddFolders(list: seq<Folder>)
      modifies this
      ensures View() == FoldersFound(config, old(View()), list)
    {
      var k := 0;
      ghost var done: seq<Folder> := [];
      assert info.folders + [] == info.folders && loop.timeouts + Requests([]) == loop.timeouts;
      while k < |list|
        modifies `info, `loop
        invariant k <= |list| && done == list[..k]
        invariant info == Collecting(old(info), done) && loop == Scheduling(old(loop), done)
      {
        OneMore(list, k);
        CollectingStep(old(info), old(loop), done, list[k]);
        AddFolder(list[k]);
        done := done + [list[k]];
        k := k + 1;
      }
      assert done == list;
    }

    /** The end of recurse_folders_async_cb. */
    method AllFoldersListed()
      requires config.Valid()
      modifies this
      ensures View() == AllListed(config, old(View()))
    {
      if priv.error.Some? {
        UpdateAccountNotifyUserAndFree(None);
        return;
      }
      var first := ChooseFolders();
      if first.Some? {
        loop := loop.(refreshTimeouts := loop.refreshTimeouts + [first.value]);
      } else {
        FolderRefreshedCb(None, false, false);
      }
    }

    method ChooseFolders() returns (first: Option<Folder>)
      modifies this
      ensures var s := old(View());
              var chosen := if s.status == InProgress then Wanted(config, s.folders) else [];
              var poked := if config.pokeAll && s.status == InProgress then s.folders else [];
              && first == First(chosen)
              && View() == if chosen == [] then s.(poked := poked, selected := chosen)
                           else s.(poked := poked, selected := chosen, folders2 := s.folders2 + chosen[1..],
                                   observer := if s.observer.Some? then s.observer else Some([]),
                                   observed := s.observed + multiset(chosen))
    {
      first := SelectFolders();
    }

    /** Pokes the folders and queues those to refresh; the first of these is returned. */
    method SelectFolders() returns (first: Option<Folder>)
      modifies `info, `outside, `history
      ensures var inProgress := priv.status == InProgress;
              var chosen := if inProgress then Wanted(config, info.folders) else [];
              && first == First(chosen)
              && history == old(history).(selected := chosen)
              && outside == Watching(old(outside), chosen, if inProgress && config.pokeAll then info.folders else [])
              && info == Queued(old(info), chosen)
    {
      first := None;
      outside := outside.(poked := []);
      history := history.(selected := []);
      var k := 0;
      var folders := info.folders;
      ghost var done: seq<Folder> := [];
      while k < |folders| && priv.status == InProgress
        modifies `info, `outside, `history
        invariant k <= |folders| && done == folders[..k] && (priv.status != InProgress ==> k == 0)
        invariant Selecting(old(info), old(outside), old(history), done, first)
      {
        OneMore(folders, k);
        first := ConsiderFolder(folders[k], first, old(info), old(outside), old(history), done);
        done := done + [folders[k]];
        k := k + 1;
      }
      assert k == |folders| ==> done == folders;
    }

    /** The first of the folders have been considered. */
    ghost predicate Selecting(i: UpdateAccountInfo, o: Outside, h: History, done: seq<Folder>, first: Option<Folder>)
      reads this
    {
      var chosen := Wanted(config, done);
      && first == First(chosen) && history == h.(selected := chosen) && info == Queued(i, chosen)
      && outside == Watching(o, chosen, if config.pokeAll then done else [])
    }

    /** The body of the loop over the collected folders. */
    method ConsiderFolder(folder: Folder, first: Option<Folder>,
                          ghost i: UpdateAccountInfo, ghost o: Outside, ghost h: History,
                          ghost done: seq<Folder>)
      returns (first': Option<Folder>)
      requires Selecting(i, o, h, done, first)
      modifies `info, `outside, `history
      ensures Selecting(i, o, h, done + [folder], first')
    {
      first' := first;
      WantedStep(config, done, folder);
      if !config.updateFolderCounts && (folder.kind == Inbox || config.updateAllFolders) {
        SelectionStep(i, o, Wanted(config, done), folder, outside.poked);
        first' := SelectFolder(folder, first);
      }
      if config.pokeAll {
        outside := outside.(poked := outside.poked + [folder]);
      }
    }

    function First(fs: seq<Folder>): Option<Folder> {
      if fs == [] then None else Some(fs[0])
    }

    /** The helper once the chosen folders are observed, and all but the first are queued. */
    function Queued(before: UpdateAccountInfo, chosen: seq<Folder>): UpdateAccountInfo {
      if chosen == [] then before
      else before.(folders2 := before.folders2 + chosen[1..],
                   observer := if before.observer.None? then Some([]) else before.observer)
    }

    function Watching(before: Outside, chosen: seq<Folder>, poked: seq<Folder>): Outside {
      before.(observed := if chosen == [] then before.observed else before.observed + multiset(chosen), poked := poked)
    }

    lemma SelectionStep(i: UpdateAccountInfo, o: Outside, chosen: seq<Folder>, folder: Folder, poked: seq<Folder>)
      ensures Queued(i, chosen + [folder])
           == var now := Queued(i, chosen);
              now.(folders2 := now.folders2 + (if chosen == [] then [] else [folder]),
                   observer := if now.observer.None? then Some([]) else now.observer)
      ensures Watching(o, chosen + [folder], poked)
           == var now := Watching(o, chosen, poked);
              now.(observed := now.observed + multiset{folder})
      ensures First(chosen + [folder]) == if chosen == [] then Some(folder) else First(chosen)
    {
      if chosen == [] {
        assert i.folders2 + [] == i.folders2;
      } else {
        assert (chosen + [folder])[1..] == chosen[1..] + [folder];
        assert i.folders2 + (chosen[1..] + [folder]) == i.folders2 + chosen[1..] + [folder];
      }
      assert multiset(chosen + [folder]) == multiset(chosen) + multiset{folder};
    }

    /** Attaches the observer to a folder and queues it, unless it is the first. */
    method SelectFolder(folder: Folder, first: Option<Folder>) returns (first': Option<Folder>)
      modifies `info, `outside, `history
      ensures first' == if first.None? then Some(folder) else first
      ensures history == old(history).(selected := old(history).selected + [folder])
      ensures outside == old(outside).(observed := old(outside).observed + multiset{folder})
      ensures info == old(info).(folders2 := old(info).folders2 + (if first.None? then [] else [folder]),
                                 observer := if old(info).observer.None? then Some([]) else old(info).observer)
    {
      first' := first;
      if info.observer.None? {
        info := info.(observer := Some([]));
      }
      outside := outside.(observed := outside.observed + multiset{folder});
      if first'.None? {
        first' := Some(folder);
      } else {
        info := info.(folders2 := info.folders2 + [folder]);
      }
      history := history.(selected := history.selected + [folder]);
    }

    method FolderRefreshedTimeoutCb(i: nat)
      requires i < |loop.refreshTimeouts|
      modifies this
      ensures View() == RefreshTimeoutFired(old(View()), i)
    {
      var folder := loop.refreshTimeouts[i];
      loop := loop.(refreshTimeouts := Without(loop.refreshTimeouts, i));
      loop := loop.(refreshCalls := loop.refreshCalls + [folder]);
      outside := outside.(refreshed := outside.refreshed + [folder]);
    }

    /** The main loop delivers the outcome of a refresh. */
    method RefreshReturned(i: nat, canceled: bool, err: bool)
      requires config.Valid() && i < |loop.refreshCalls|
      modifies this
      ensures View() == Step(config, old(View()), Refreshed(i, canceled, err))
    {
      var folder := loop.refreshCalls[i];
      loop := loop.(refreshCalls := Without(loop.refreshCalls, i));
      FolderRefreshedCb(Some(folder), canceled, err);
    }

    method FolderRefreshedCb(currentFolder: Option<Folder>, canceled: bool, err: bool)
      requires config.Valid()
      modifies this
      ensures View() == FolderRefreshed(config, old(View()), currentFolder, canceled, err)
    {
      if canceled || err {
        RefreshFailed(err);
        return;
      }
      if |info.folders2| > 0 {
        var folder := info.folders2[0];
        info := info.(folders2 := RemoveFirst(info.folders2, folder));
        loop := loop.(refreshTimeouts := loop.refreshTimeouts + [folder]);
        return;
      }
      if currentFolder.None? {
        SendMail(None);
        return;
      }
      DownloadNewMessages();
    }

    /** The error branch of folder_refreshed_cb. */
    method RefreshFailed(err: bool)
      requires config.Valid()
      modifies this
      ensures View() == FolderRefreshed(config, old(View()), None, true, err)
    {
      priv := priv.(status := Failed);
      priv := priv.(error := Some(if err then Reported else OperationCanceled));
      Withdraw();
      UpdateAccountNotifyUserAndFree(None);
    }

    method Withdraw()
      modifies this
      ensures View() == Withdrawn(old(View()))
    {
      DetachAndUnqueue();
    }

    /** Takes the observer from every folder, and every folder from the refresh queue. */
    method DetachAndUnqueue()
      modifies `info, `outside
      ensures outside == old(outside).(observed := old(outside).observed - multiset(info.folders))
      ensures info == old(info).(observer := None, folders2 := RemoveEach(old(info).folders2, old(info).folders))
    {
      ghost var fs, queue, observed := info.folders, info.folders2, outside.observed;
      var k := 0;
      while k < |info.folders|
        modifies `info, `outside
        invariant k <= |fs| && info == old(info).(folders2 := RemoveEach(queue, fs[..k]))
        invariant outside == old(outside).(observed := observed - multiset(fs[..k]))
      {
        var folder := info.folders[k];
        RemoveEachStep(queue, fs, k);
        LessOneMore(observed, fs, k);
        outside := outside.(observed := outside.observed - multiset{folder});
        info := info.(folders2 := RemoveFirst(info.folders2, folder));
        k := k + 1;
      }
      assert fs[..k] == fs;
      info := info.(observer := None);
    }

    /** Takes the observer from every folder. */
    method DetachObserver()
      modifies `info, `outside
      ensures outside == old(outside).(observed := old(outside).observed - multiset(info.folders))
      ensures info == old(info).(observer := None)
    {
      ghost var before, done := outside, multiset{};
      var k := 0;
      while k < |info.folders|
        modifies `outside
        invariant k <= |info.folders| && done == multiset(info.folders[..k])
        invariant outside == before.(observed := before.observed - done)
      {
        OneMore(info.folders, k);
        outside := outside.(observed := outside.observed - multiset{info.folders[k]});
        done := done + multiset{info.folders[k]};
        k := k + 1;
      }
      assert info.folders[..k] == info.folders;
      info := info.(observer := None);
    }

    /** folder_refreshed_cb once every selected folder has been refreshed. */
    method DownloadNewMessages()
      requires config.Valid()
      modifies this
      ensures View() == StartDownloads(config, old(View()))
    {
      var maxSize := G_MAXINT;
      if !config.updateFolderCounts {
        maxSize := MaxSize(config.sizeLimitKb);
      }
      var headersArray: seq<Header> := [];
      if info.observer.Some? {
        headersArray := ApplySizeLimit(info.observer.value, maxSize);
        NewestIsOrdered(info.observer.value, maxSize);
        DetachObserver();
      }
      if |headersArray| == 0 {
        SendMail(None);
        return;
      }
      FetchNewest(headersArray);
    }

    method FetchNewest(headersArray: seq<Header>)
      requires config.Valid() && headersArray != []
      requires |Prepended(Sort(headersArray))| == |headersArray|
      modifies this
      ensures var newest := Prepended(Sort(headersArray));
              var n := RetrieveCount(|newest|, config.retrieveLimit);
              var s := old(View());
              View() == if config.headersOnly then SendAndFinish(s, Some(newest))
                        else s.(done := 0, total := n, newHeaders := newest,
                                totalBytes := ListSize(newest, n), sumTotalBytes := 0,
                                downloads := s.downloads + newest[..n], requested := s.requested + newest[..n])
    {
      var retrieveLimit := if config.retrieveLimit == 0 then G_MAXINT else config.retrieveLimit;
      var newHeaders := PrependAll(Sort(headersArray));
      if !config.headersOnly && |newHeaders| > 0 {
        RequestMessages(newHeaders, retrieveLimit);
        return;
      }
      SendMail(Some(newHeaders));
    }

    /** Asks for the first messages of the list, all at once. */
    method RequestMessages(list: seq<Header>, retrieveLimit: int)
      requires config.Valid() && list != []
      requires retrieveLimit == if config.retrieveLimit == 0 then G_MAXINT else config.retrieveLimit
      modifies `priv, `msgInfo, `loop, `outside
      ensures var n := RetrieveCount(|list|, config.retrieveLimit);
              && priv == old(priv).(done := 0, total := n)
              && msgInfo == GetMsgInfo(list, ListSize(list, n), 0)
              && loop == old(loop).(downloads := old(loop).downloads + list[..n])
              && outside == old(outside).(requested := old(outside).requested + list[..n])
    {
      priv := priv.(done := 0);
      priv := priv.(total := Min(|list|, if retrieveLimit < 0 then retrieveLimit + G_MAXUINT + 1 else retrieveLimit));
      var size := ComputeMessageListSize(list, priv.total);
      msgInfo := GetMsgInfo(list, size, 0);
      var msgNum := 0;
      while msgNum < priv.total && msgNum < |list|
        modifies `loop, `outside
        invariant msgNum <= priv.total
        invariant loop == old(loop).(downloads := old(loop).downloads + list[..msgNum])
        invariant outside == old(outside).(requested := old(outside).requested + list[..msgNum])
      {
        assert list[..msgNum + 1] == list[..msgNum] + [list[msgNum]];
        loop := loop.(downloads := loop.downloads + [list[msgNum]]);
        outside := outside.(requested := outside.requested + [list[msgNum]]);
        msgNum := msgNum + 1;
      }
    }

    method UpdateAccountGetMsgAsyncCb(i: nat, arrived: bool)
      requires i < |loop.downloads|
      modifies this
      ensures View() == MessageReceived(old(View()), i, arrived)
    {
      var header := loop.downloads[i];
      loop := loop.(downloads := Without(loop.downloads, i));
      priv := priv.(done := priv.done + 1);
      if arrived {
        msgInfo := msgInfo.(sumTotalBytes := msgInfo.sumTotalBytes + header.size);
      } else {
        history := history.(lostBytes := history.lostBytes + header.size);
      }
      if priv.done == priv.total {
        SendMail(Some(msgInfo.newHeaders));
      }
    }

    /** The common ending: update_account_send_mail, the status, and the notification. */
    method SendMail(headers: Option<seq<Header>>)
      modifies this
      ensures View() == SendAndFinish(old(View()), headers)
    {
      outside := outside.(sends := outside.sends + 1);
      if priv.error.None? {
        priv := priv.(status := Success);
      }
      UpdateAccountNotifyUserAndFree(headers);
    }

    method UpdateAccountNotifyUserAndFree(headers: Option<seq<Header>>)
      modifies this
      ensures View() == NotifyUserAndFree(old(View()), headers)
    {
      outside := outside.(busy := false);
      outside := outside.(callbacks := outside.callbacks + [headers]);
      outside := outside.(finished := outside.finished + 1);
      info := info.(alive := false);
    }

    method InternalFolderObserverUpdate(headers: seq<Header>)
      requires config.Valid() && info.observer.Some?
      modifies this
      ensures View() == Step(config, old(View()), NewHeaders(headers))
    {
      info := info.(observer := Some(info.observer.value + headers));
      history := history.(offered := history.offered + headers);
    }

    method FolderRefreshStatusUpdate(position: nat, ofTotal: nat)
      modifies this
      ensures View() == old(View()).(done := position, total := ofTotal)
    {
      priv := priv.(done := position);
      priv := priv.(total := ofTotal);
    }

    method Cancel()
      requires config.Valid()
      modifies this
      ensures View() == Step(config, old(View()), CancelOperation)
    {
      priv := priv.(status := Canceled);
      history := history.(cancelAsked := true);
    }
  }
}
