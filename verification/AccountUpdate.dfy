/** Send and receive on one account as a state machine.

    The folder lists are asked for by asynchronous calls that share one helper (UpdateAccountInfo);
    the callback that brings pending_calls to 0 starts the refresh of the selected folders, one after
    the other; the last refresh starts the parallel download of the newest messages; the last message
    ends the operation. A State holds the helper, the operation and everything outstanding in the main
    loop; an Event says which callback fires next and how it went. */
module AccountUpdate {
  import opened Sequences
  import opened FolderTrees
  import opened Messages
  import opened HeaderSelection

  datatype Config = Config(
    accountKnown: bool,           // the account store has a store account of that name
    root: seq<Folder>,            // the folders the account itself holds
    pokeAll: bool,
    updateFolderCounts: bool,
    updateAllFolders: bool,       // MODEST_ACCOUNT_UPDATE_ALL_FOLDERS of the account
    headersOnly: bool,
    sizeLimitKb: nat,
    retrieveLimit: int)
  {
    predicate Valid() {
      -0x8000_0000 <= retrieveLimit <= G_MAXINT
    }

    predicate Wants(f: Folder) {
      !updateFolderCounts && (f.kind == Inbox || updateAllFolders)
    }
  }

  /** A folder-list call on one store: the list it appends to, and the children it will deliver. */
  datatype Request = Request(list: seq<Folder>, children: seq<Folder>)

  datatype State = State(
    // UpdateAccountInfo
    folders: seq<Folder>,
    folders2: seq<Folder>,
    pendingCalls: int,
    observer: Option<seq<Header>>,
    retriesLeft: nat,
    alive: bool,                  // the helper has not been freed
    // ModestMailOperationPrivate
    status: Status,
    error: Option<OperationError>,
    done: int,
    total: int,
    // GetMsgInfo
    newHeaders: seq<Header>,
    totalBytes: nat,
    sumTotalBytes: nat,
    // outstanding in the main loop
    timeouts: seq<Request>,
    calls: seq<Request>,
    refreshTimeouts: seq<Folder>,
    refreshCalls: seq<Folder>,
    downloads: seq<Header>,
    // seen from outside
    observed: multiset<Folder>,   // folders the observer is attached to
    poked: seq<Folder>,
    refreshed: seq<Folder>,       // folders whose refresh was started, in order
    requested: seq<Header>,       // messages asked for, in order
    busy: bool,
    sends: nat,                   // runs of update_account_send_mail
    callbacks: seq<Option<seq<Header>>>,
    finished: nat,                // emissions of operation-finished
    // history
    selected: seq<Folder>,
    cancelAsked: bool,            // modest_mail_operation_cancel was called
    leftover: seq<Folder>,        // delivered by the failed call whose list was used again
    lost: multiset<Folder>,       // never delivered, because their call failed for good
    offered: seq<Header>,         // given to the observer
    lostBytes: nat)               // sizes of the messages that did not arrive

  datatype Event =
    | ListTimeout(i: nat)
    | Listed(i: nat, canceled: bool, err: bool, partial: seq<Folder>)
    | RefreshTimeout(i: nat)
    | Refreshed(i: nat, canceled: bool, err: bool)
    | GotMessage(i: nat, arrived: bool)
    | NewHeaders(headers: seq<Header>)
    | RefreshStatus(position: nat, ofTotal: nat)
    | CancelOperation

  /** modest_mail_operation_update_account up to its return to the main loop. An account that is not known ends the
      update at once. */
  function Started(c: Config): State {
    var s := State([], [], 1, None, 1, true,
                   InProgress, None, 0, 0,
                   [], 0, 0,
                   [], [Request([], c.root)], [], [], [],
                   multiset{}, [], [], [], true, 0, [], 0,
                   [], false, [], multiset{}, [], 0);
    if c.accountKnown then s
    else
      s.(status := Failed, error := Some(ItemNotFound), pendingCalls := 0, calls := [], lost := Share(c, c.root),
         busy := false, callbacks := [None], finished := 1, alive := false)
  }

  /** Events that can happen. A failed listing may have delivered the first few folders. The observer
      hears of new headers while it is attached; refresh progress is reported while a refresh runs. */
  predicate Enabled(s: State, e: Event) {
    match e
    case ListTimeout(i) => i < |s.timeouts|
    case Listed(i, canceled, err, partial) =>
      i < |s.calls| && (if canceled || err then partial <= s.calls[i].children else partial == [])
    case RefreshTimeout(i) => i < |s.refreshTimeouts|
    case Refreshed(i, canceled, err) => i < |s.refreshCalls|
    case GotMessage(i, arrived) => i < |s.downloads|
    case NewHeaders(headers) => s.observer.Some?
    case RefreshStatus(position, ofTotal) => s.refreshCalls != []
    case CancelOperation => true
  }

  /** A callback or timeout, as opposed to something the outside world does meanwhile. */
  predicate IsWork(e: Event) {
    !e.NewHeaders? && !e.RefreshStatus? && !e.CancelOperation?
  }

  function Step(c: Config, s: State, e: Event): State
    requires c.Valid() && Enabled(s, e)
  {
    match e
    case ListTimeout(i) => ListTimeoutFired(s, i)
    case Listed(i, canceled, err, partial) => RecurseFolders(c, s, i, canceled, err, partial)
    case RefreshTimeout(i) => RefreshTimeoutFired(s, i)
    case Refreshed(i, canceled, err) =>
      FolderRefreshed(c, s.(refreshCalls := Without(s.refreshCalls, i)), Some(s.refreshCalls[i]), canceled, err)
    case GotMessage(i, arrived) => MessageReceived(s, i, arrived)
    case NewHeaders(headers) =>
      s.(observer := Some(s.observer.value + headers), offered := s.offered + headers)
    case RefreshStatus(position, ofTotal) => s.(done := position, total := ofTotal)
    case CancelOperation => s.(status := Canceled, cancelAsked := true)
  }

  /** recurse_folders_async_timeout_cb. */
  function ListTimeoutFired(s: State, i: nat): State
    requires i < |s.timeouts|
  {
    s.(timeouts := Without(s.timeouts, i), calls := s.calls + [s.timeouts[i]])
  }

  /** recurse_folders_async_cb. */
  function RecurseFolders(c: Config, s: State, i: nat, canceled: bool, err: bool, partial: seq<Folder>): State
    requires c.Valid() && i < |s.calls|
  {
    var r := s.calls[i];
    var s' := s.(calls := Without(s.calls, i));
    PendingCallDone(c, if canceled || err then ListingFailed(c, s', r, err, partial)
                       else FoldersFound(c, s', r.list + r.children))
  }

  /** A callback drops its own pending call, and goes on with the refresh when no other is left. */
  function PendingCallDone(c: Config, s: State): State
    requires c.Valid()
  {
    var s' := s.(pendingCalls := s.pendingCalls - 1);
    if s'.pendingCalls == 0 then AllListed(c, s') else s'
  }

  function ListingFailed(c: Config, s: State, r: Request, err: bool, partial: seq<Folder>): State {
    if err && s.error.None? && s.retriesLeft > 0 then
      s.(timeouts := s.timeouts + [Request(r.list + partial, r.children)],
         pendingCalls := s.pendingCalls + 1,
         retriesLeft := s.retriesLeft - 1,
         leftover := s.leftover + partial)
    else
      var s' := s.(lost := s.lost + Share(c, r.list + r.children));
      if s.error.None? then
        s'.(status := Failed, error := Some(if err then Reported else OperationCanceled))
      else s'
  }

  /** What a listed folder sequence adds to the collection in the end: itself, and its subfolders too
      when every folder is poked. */
  function Share(c: Config, fs: seq<Folder>): multiset<Folder> {
    if c.pokeAll then Forest(fs) else multiset(fs)
  }

  function Requests(fs: seq<Folder>): (rs: seq<Request>)
    ensures |rs| == |fs|
  {
    if fs == [] then [] else Requests(fs[..|fs| - 1]) + [Request([], fs[|fs| - 1].children)]
  }

  function FoldersFound(c: Config, s: State, list: seq<Folder>): State {
    var s' := s.(folders := s.folders + list);
    if c.pokeAll then
      s'.(timeouts := s.timeouts + Requests(list), pendingCalls := s.pendingCalls + |list|)
    else s'
  }

  function Wanted(c: Config, fs: seq<Folder>): seq<Folder> {
    if fs == [] then []
    else if c.Wants(fs[|fs| - 1]) then Wanted(c, fs[..|fs| - 1]) + [fs[|fs| - 1]]
    else Wanted(c, fs[..|fs| - 1])
  }

  /** The end of recurse_folders_async_cb, once pending_calls is 0. */
  function AllListed(c: Config, s: State): State
    requires c.Valid()
  {
    if s.error.Some? then NotifyUserAndFree(s, None)
    else
      var selected := if s.status == InProgress then Wanted(c, s.folders) else [];
      var s' := s.(poked := if c.pokeAll && s.status == InProgress then s.folders else [], selected := selected);
      if selected == [] then FolderRefreshed(c, s', None, false, false)
      else
        s'.(observer := if s.observer.Some? then s.observer else Some([]),
            observed := s.observed + multiset(selected),
            folders2 := s.folders2 + selected[1..],
            refreshTimeouts := s.refreshTimeouts + [selected[0]])
  }

  /** folder_refreshed_timeout_cb. */
  function RefreshTimeoutFired(s: State, i: nat): State
    requires i < |s.refreshTimeouts|
  {
    var f := s.refreshTimeouts[i];
    s.(refreshTimeouts := Without(s.refreshTimeouts, i),
       refreshCalls := s.refreshCalls + [f],
       refreshed := s.refreshed + [f])
  }

  /** folder_refreshed_cb; it is also called without a folder when there is none to refresh. */
  function FolderRefreshed(c: Config, s: State, folder: Option<Folder>, canceled: bool, err: bool): State
    requires c.Valid()
  {
    if canceled || err then
      var error := Some(if err then Reported else OperationCanceled);
      NotifyUserAndFree(Withdrawn(s.(status := Failed, error := error)), None)
    else if s.folders2 != [] then
      s.(folders2 := s.folders2[1..], refreshTimeouts := s.refreshTimeouts + [s.folders2[0]])
    else if folder.None? then
      SendAndFinish(s, None)
    else
      StartDownloads(c, s)
  }

  /** The observer is taken from every folder, and every folder from the refresh queue. */
  function Withdrawn(s: State): State {
    s.(observed := s.observed - multiset(s.folders),
       folders2 := RemoveEach(s.folders2, s.folders),
       observer := None)
  }

  function StartDownloads(c: Config, s: State): State
    requires c.Valid()
  {
    var maxSize := if c.updateFolderCounts then G_MAXINT else MaxSize(c.sizeLimitKb);
    var newHeaders := if s.observer.Some? then Newest(s.observer.value, maxSize) else [];
    var s' := s.(observed := if s.observer.Some? then s.observed - multiset(s.folders) else s.observed,
                 observer := None);
    if newHeaders == [] then SendAndFinish(s', None)
    else if c.headersOnly then SendAndFinish(s', Some(newHeaders))
    else
      var n := RetrieveCount(|newHeaders|, c.retrieveLimit);
      s'.(done := 0, total := n, newHeaders := newHeaders,
          totalBytes := ListSize(newHeaders, n), sumTotalBytes := 0,
          downloads := s.downloads + newHeaders[..n],
          requested := s.requested + newHeaders[..n])
  }

  /** update_account_get_msg_async_cb. */
  function MessageReceived(s: State, i: nat, arrived: bool): State
    requires i < |s.downloads|
  {
    var size := s.downloads[i].size;
    var s' := s.(downloads := Without(s.downloads, i),
                 done := s.done + 1,
                 sumTotalBytes := if arrived then s.sumTotalBytes + size else s.sumTotalBytes,
                 lostBytes := if arrived then s.lostBytes else s.lostBytes + size);
    if s'.done == s'.total then SendAndFinish(s', Some(s.newHeaders)) else s'
  }

  /** The send_mail label of folder_refreshed_cb and the end of update_account_get_msg_async_cb. */
  function SendAndFinish(s: State, headers: Option<seq<Header>>): State {
    NotifyUserAndFree(s.(sends := s.sends + 1, status := if s.error.None? then Success else s.status), headers)
  }

  /** update_account_notify_user_and_free. */
  function NotifyUserAndFree(s: State, headers: Option<seq<Header>>): State {
    s.(busy := false, callbacks := s.callbacks + [headers], finished := s.finished + 1, alive := false)
  }

  /** A run of the main loop: every state follows from the one before by an event it allowed. */
  ghost predicate IsRun(c: Config, states: seq<State>, events: seq<Event>)
    requires c.Valid()
  {
    && |states| == |events| + 1
    && states[0] == Started(c)
    && forall k {:trigger events[k]} :: 0 <= k < |events| ==>
         Enabled(states[k], events[k]) && states[k + 1] == Step(c, states[k], events[k])
  }
}
