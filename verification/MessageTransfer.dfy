/** Copying or moving messages to another folder: in one call within an account, and message by message
    between accounts, so that the user can cancel. */
module MessageTransfer {
  import opened Sequences
  import opened Messages

  datatype Config = Config(
    headers: seq<Header>,
    source: seq<Header>,          // what is in the source folder at first, and
    dest: seq<Header>,            // in the destination
    nonWriteable: bool,           // the destination's rules
    folderKnown: bool,            // the first header knows its folder
    sameFolder: bool,
    sameAccount: bool,
    leaveOnServer: bool,          // the source account's protocol and settings
    deleteOriginal: bool)
  {
    predicate Deletes() { !leaveOnServer && deleteOriginal }

    predicate Starts() { !nonWriteable && headers != [] && folderKnown && !sameFolder }
  }

  datatype Priv = Priv(status: Status, error: Option<OperationError>, done: nat, total: nat)

  /** XFerMsgsAsyncHelper; more_msgs is a position in the list of headers. */
  datatype Helper = Helper(headers: seq<Header>, moreMsgs: Option<nat>, alive: bool)

  datatype State = State(
    priv: Priv,
    helper: Helper,
    // outstanding in the main loop
    transferring: bool,
    syncing: bool,
    // seen from outside
    source: seq<Header>,
    dest: seq<Header>,
    callbacks: nat,
    finished: nat,                // emissions of operation-finished
    // history
    cancelAsked: bool,
    callCancelled: bool,
    callFailed: bool)

  datatype Event =
    | Transferred(moved: nat, cancelled: bool, err: bool)
    | Synced
    | CancelOperation

  /** modest_mail_operation_xfer_msgs up to its return to the main loop. */
  function Started(c: Config): State {
    var s := State(Priv(InProgress, None, 0, |c.headers|), Helper([], None, false), false, false,
                   c.source, c.dest, 0, 0, false, false, false);
    if c.nonWriteable then
      s.(priv := s.priv.(status := Failed, error := Some(FolderRules)), finished := 1)
    else if c.headers == [] || !c.folderKnown then
      s.(finished := 1)
    else if c.sameFolder then
      s.(priv := s.priv.(status := Failed, error := Some(BadParameter)), finished := 1)
    else
      s.(helper := if c.sameAccount then Helper(c.headers, None, true) else Helper([c.headers[0]], Some(0), true),
         transferring := true)
  }

  /** A call that succeeds transfers all its messages, one that does not some of the first. */
  predicate Enabled(s: State, e: Event) {
    match e
    case Transferred(moved, cancelled, err) =>
      s.transferring && moved <= |s.helper.headers| && (!cancelled && !err ==> moved == |s.helper.headers|)
    case Synced => s.syncing
    case CancelOperation => true
  }

  function Step(c: Config, s: State, e: Event): State
    requires Enabled(s, e)
  {
    match e
    case Transferred(moved, cancelled, err) => TransferMsgs(c, Moved(c, s, moved), cancelled, err)
    case Synced => SyncedFolder(s)
    case CancelOperation => s.(priv := s.priv.(status := Canceled), cancelAsked := true)
  }

  /** What the call did to the folders. */
  function Moved(c: Config, s: State, moved: nat): State
    requires moved <= |s.helper.headers|
  {
    var hs := s.helper.headers[..moved];
    s.(transferring := false, dest := s.dest + hs, source := if c.Deletes() then RemoveEach(s.source, hs) else s.source)
  }

  /** transfer_msgs_cb. */
  function TransferMsgs(c: Config, s: State, cancelled: bool, err: bool): State {
    if cancelled then
      s.(priv := s.priv.(status := Canceled), syncing := true, callCancelled := true)
    else if err then
      s.(priv := s.priv.(status := Failed, error := Some(Reported), done := 0), syncing := true, callFailed := true)
    else if s.priv.status == Canceled then
      s.(syncing := true)
    else if s.helper.moreMsgs.Some? && s.helper.moreMsgs.value + 1 < |c.headers| then
      var next := s.helper.moreMsgs.value + 1;
      s.(helper := s.helper.(headers := [c.headers[next]], moreMsgs := Some(next)), transferring := true)
    else
      s.(helper := s.helper.(moreMsgs := if s.helper.moreMsgs.Some? then Some(s.helper.moreMsgs.value + 1) else None),
         priv := s.priv.(status := Success, done := 1), syncing := true)
  }

  /** transfer_msgs_sync_folder_cb. */
  function SyncedFolder(s: State): State {
    s.(syncing := false, finished := s.finished + 1, callbacks := s.callbacks + 1, helper := s.helper.(alive := false))
  }

  ghost predicate IsRun(c: Config, states: seq<State>, events: seq<Event>) {
    && |states| == |events| + 1
    && states[0] == Started(c)
    && forall k {:trigger events[k]} :: 0 <= k < |events| ==>
         Enabled(states[k], events[k]) && states[k + 1] == Step(c, states[k], events[k])
  }

  class XferMsgs {
    const config: Config
    var priv: Priv
    var helper: Helper
    var transferring: bool
    var syncing: bool
    ghost var source: seq<Header>
    ghost var dest: seq<Header>
    ghost var callbacks: nat
    ghost var finished: nat
    ghost var history: (bool, bool, bool)

    ghost function View(): State
      reads this
    {
      State(priv, helper, transferring, syncing, source, dest, callbacks, finished, history.0, history.1, history.2)
    }

    constructor (c: Config)
      ensures config == c && View() == Started(c)
    {
      config := c;
      helper, transferring, syncing := Helper([], None, false), false, false;
      source, dest, callbacks, finished, history := c.source, c.dest, 0, 0, (false, false, false);
      priv := Priv(InProgress, None, 0, |c.headers|);
      new;
      if config.nonWriteable {
        priv := priv.(status := Failed, error := Some(FolderRules));
        finished := finished + 1;
        return;
      }
      if config.headers == [] || !config.folderKnown {
        finished := finished + 1;
        return;
      }
      if config.sameFolder {
        priv := priv.(status := Failed, error := Some(BadParameter));
        finished := finished + 1;
        return;
      }
      if config.sameAccount {
        helper := Helper(config.headers, None, true);
      } else {
        helper := Helper([config.headers[0]], Some(0), true);
      }
      transferring := true;
    }

    ghost method Move(moved: nat)
      requires moved <= |helper.headers|
      modifies this`source, this`dest
      ensures source == if config.Deletes() then RemoveEach(old(source), helper.headers[..moved]) else old(source)
      ensures dest == old(dest) + helper.headers[..moved]
    {
      dest := dest + helper.headers[..moved];
      source := if config.Deletes() then RemoveEach(source, helper.headers[..moved]) else source;
    }

    method TransferMsgsCb(moved: nat, cancelled: bool, err: bool)
      requires Enabled(View(), Transferred(moved, cancelled, err))
      modifies this
      ensures View() == TransferMsgs(config, Moved(config, old(View()), moved), cancelled, err)
    {
      transferring := false;
      Move(moved);
      var done := true;
      if cancelled {
        priv := priv.(status := Canceled);
        history := history.(1 := true);
      } else if err {
        priv := priv.(error := Some(Reported), done := 0);
        priv := priv.(status := Failed);
        history := history.(2 := true);
      } else if priv.status != Canceled {
        if helper.moreMsgs.Some? {
          var next := helper.moreMsgs.value + 1;
          helper := helper.(moreMsgs := Some(next));
          if next < |config.headers| {
            helper := helper.(headers := [config.headers[next]]);
            done := false;
          }
        }
        if done {
          priv := priv.(done := 1);
          priv := priv.(status := Success);
        }
      }
      if done {
        syncing := true;
      } else {
        transferring := true;
      }
    }

    method TransferMsgsSyncFolderCb()
      requires syncing
      modifies this
      ensures View() == SyncedFolder(old(View()))
    {
      syncing := false;
      finished := finished + 1;
      callbacks := callbacks + 1;
      helper := helper.(alive := false);
    }

    method Cancel()
      modifies this
      ensures View() == old(View()).(priv := old(priv).(status := Canceled), cancelAsked := true)
    {
      priv := priv.(status := Canceled);
      history := history.(0 := true);
    }
  }

  // ----- what holds in every run -----

  /** The first k messages have been transferred. */
  predicate HasMoved(c: Config, s: State, k: nat) {
    && k <= |c.headers|
    && s.dest == c.dest + c.headers[..k]
    && s.source == if c.Deletes() then RemoveEach(c.source, c.headers[..k]) else c.source
  }

  /** The call outstanding is for the next message, or for all of them. */
  predicate IsNext(c: Config, s: State, k: nat) {
    if s.helper.moreMsgs.Some? then k == s.helper.moreMsgs.value < |c.headers| && s.helper.headers == [c.headers[k]]
    else k == 0 && s.helper.headers == c.headers
  }

  predicate StatusFits(s: State, k: nat, n: nat) {
    && (s.priv.status == Success ==> k == n && s.priv.done == 1 && s.priv.error.None?)
    && (!s.cancelAsked ==>
          s.priv.status == if s.callCancelled then Canceled else if s.callFailed then Failed else Success)
  }

  ghost predicate Inv(c: Config, s: State, k: nat) {
    && HasMoved(c, s, k)
    && s.helper.alive == (s.transferring || s.syncing) && !(s.transferring && s.syncing)
    && s.finished == (if s.helper.alive then 0 else 1)
    && s.callbacks == (if s.helper.alive || !c.Starts() then 0 else 1)
    && (s.transferring || s.syncing ==> c.Starts())
    && (if s.transferring then
          && IsNext(c, s, k) && !s.callCancelled && !s.callFailed && s.priv.error.None?
          && s.priv.status == if s.cancelAsked then Canceled else InProgress
        else if c.Starts() then StatusFits(s, k, |c.headers|)
        else k == 0 && s.priv.status != Success)
    && s.priv.total == |c.headers|
    && (!c.Starts() && !s.cancelAsked ==> s.priv == Started(c).priv)
  }

  lemma StartInv(c: Config)
    ensures Inv(c, Started(c), 0)
  {
    assert c.dest + c.headers[..0] == c.dest;
  }

  lemma MoveNone(c: Config, s: State)
    ensures 0 <= |s.helper.headers| && Moved(c, s, 0) == s.(transferring := false)
  {
    assert s.dest + s.helper.headers[..0] == s.dest;
  }

  /** The first call has moved some of its messages. */
  lemma MoveFirst(c: Config, s: State, moved: nat)
    requires HasMoved(c, s, 0) && moved <= |c.headers| && moved <= |s.helper.headers|
    requires s.helper.headers[..moved] == c.headers[..moved]
    ensures HasMoved(c, Moved(c, s, moved), moved)
  {
    assert c.headers[..0] == [] && c.dest + [] == c.dest;
  }

  lemma NextInList(dest: seq<Header>, source: seq<Header>, headers: seq<Header>, k: nat)
    requires k < |headers|
    ensures dest + headers[..k] + [headers[k]] == dest + headers[..k + 1]
    ensures RemoveEach(RemoveEach(source, headers[..k]), [headers[k]]) == RemoveEach(source, headers[..k + 1])
  {
    OneMore(headers, k);
    RemoveEachStep(source, headers, k);
    RemoveEachOne(RemoveEach(source, headers[..k]), headers[k]);
  }

  /** A later call has moved its one message. */
  lemma MoveNext(c: Config, s: State, k: nat)
    requires HasMoved(c, s, k) && k < |c.headers| && s.helper.headers == [c.headers[k]]
    ensures HasMoved(c, Moved(c, s, 1), k + 1)
  {
    NextInList(c.dest, c.source, c.headers, k);
    assert [c.headers[k]][..1] == [c.headers[k]];
  }

  /** Moving some of the messages of the outstanding call moves on along the list. */
  lemma MoveAlong(c: Config, s: State, k: nat, moved: nat)
    requires HasMoved(c, s, k) && IsNext(c, s, k) && moved <= |s.helper.headers|
    ensures k + moved <= |c.headers| && HasMoved(c, Moved(c, s, moved), k + moved)
  {
    if moved == 0 {
      MoveNone(c, s);
    } else if s.helper.moreMsgs.None? {
      MoveFirst(c, s, moved);
    } else {
      MoveNext(c, s, k);
    }
  }

  lemma TransferKeepsInv(c: Config, s: State, k: nat, moved: nat, cancelled: bool, err: bool)
    requires Inv(c, s, k) && Enabled(s, Transferred(moved, cancelled, err))
    ensures Inv(c, Step(c, s, Transferred(moved, cancelled, err)), k + moved)
  {
    MoveAlong(c, s, k, moved);
  }

  lemma SyncKeepsInv(c: Config, s: State, k: nat)
    requires Inv(c, s, k) && s.syncing
    ensures Inv(c, SyncedFolder(s), k)
  {
  }

  lemma CancelKeepsInv(c: Config, s: State, k: nat)
    requires Inv(c, s, k)
    ensures Inv(c, Step(c, s, CancelOperation), k)
  {
  }

  lemma StepKeepsInv(c: Config, s: State, e: Event, k: nat) returns (k': nat)
    requires Inv(c, s, k) && Enabled(s, e)
    ensures Inv(c, Step(c, s, e), k') && k' == k + if e.Transferred? then e.moved else 0
  {
    k' := k + if e.Transferred? then e.moved else 0;
    match e
    case Transferred(moved, cancelled, err) => TransferKeepsInv(c, s, k, moved, cancelled, err);
    case Synced => SyncKeepsInv(c, s, k);
    case CancelOperation => CancelKeepsInv(c, s, k);
  }

  /** How many messages the calls have transferred. */
  function MovedBy(events: seq<Event>): nat {
    if events == [] then 0
    else
      var e := events[|events| - 1];
      MovedBy(events[..|events| - 1]) + if e.Transferred? then e.moved else 0
  }

  /** Every state of every run. */
  lemma EveryState(c: Config, states: seq<State>, events: seq<Event>, i: nat) returns (k: nat)
    requires IsRun(c, states, events) && i < |states|
    ensures Inv(c, states[i], k) && k == MovedBy(events[..i])
  {
    StartInv(c);
    k := 0;
    for j := 0 to i
      invariant Inv(c, states[j], k) && k == MovedBy(events[..j])
    {
      assert events[..j + 1][..j] == events[..j];
      k := StepKeepsInv(c, states[j], events[j], k);
    }
  }

  /** At any point of any transfer, cancelled or failing or not, the destination has gained the first k of the
      messages, where k is what the calls have transferred. If messages are left on the server or not to be deleted the
      source is as it was, and else it has lost exactly those. */
  lemma TransferredIsPrefix(c: Config, states: seq<State>, events: seq<Event>, i: nat) returns (k: nat)
    requires IsRun(c, states, events) && i < |states|
    ensures k == MovedBy(events[..i]) <= |c.headers| && states[i].dest == c.dest + c.headers[..k]
    ensures c.leaveOnServer || !c.deleteOriginal ==> states[i].source == c.source
    ensures !c.leaveOnServer && c.deleteOriginal ==>
              && multiset(states[i].source) == multiset(c.source) - multiset(c.headers[..k])
              && states[i].source == RemoveEach(c.source, c.headers[..k])
    ensures states[i].priv.status == Success ==> k == |c.headers|
  {
    k := EveryState(c, states, events, i);
    RemoveEachLeaves(c.source, c.headers[..k]);
  }

  /** A transfer that was started has exactly one call outstanding until it ends; it ends once, and the user is
      called back once then. One that was refused has ended at once and never calls back. */
  lemma EndsExactlyOnce(c: Config, states: seq<State>, events: seq<Event>, i: nat)
    requires IsRun(c, states, events) && i < |states|
    ensures var s := states[i];
            && s.helper.alive == (s.transferring != s.syncing)
            && s.finished == (if s.helper.alive then 0 else 1)
            && s.callbacks == (if s.helper.alive || !c.Starts() then 0 else 1)
  {
    var _ := EveryState(c, states, events, i);
  }

  // ----- cancelled transfers -----

  /** What the latest cancel or failure says about the status. */
  function Verdict(events: seq<Event>): (v: Option<Status>)
    ensures v.Some? ==> v.value == Canceled || v.value == Failed
  {
    if events == [] then None
    else
      match events[|events| - 1]
      case CancelOperation => Some(Canceled)
      case Transferred(moved, cancelled, err) =>
        if cancelled then Some(Canceled) else if err then Some(Failed) else Verdict(events[..|events| - 1])
      case Synced => Verdict(events[..|events| - 1])
  }

  predicate StatusTells(c: Config, s: State, events: seq<Event>) {
    var v := Verdict(events);
    s.priv.status ==
    if v.Some? then v.value
    else if !c.Starts() then Started(c).priv.status
    else if s.transferring then InProgress
    else Success
  }

  lemma StatusStep(c: Config, s: State, k: nat, events: seq<Event>, e: Event)
    requires Inv(c, s, k) && Enabled(s, e)
    requires StatusTells(c, s, events)
    ensures StatusTells(c, Step(c, s, e), events + [e])
  {
    var more := events + [e];
    assert more[..|more| - 1] == events && more[|more| - 1] == e;
  }

  lemma StartTells(c: Config)
    ensures StatusTells(c, Started(c), [])
  {
  }

  /** In every run the status is what the latest cancel, of the operation or of a call, or failure left; without any it
      is that of the refusal, or IN_PROGRESS while a call is outstanding and SUCCESS after the last one. */
  lemma StatusIsTheLatest(c: Config, states: seq<State>, events: seq<Event>, i: nat)
    requires IsRun(c, states, events) && i < |states|
    ensures StatusTells(c, states[i], events[..i])
  {
    StartTells(c);
    assert events[..0] == [];
    for j := 0 to i
      invariant StatusTells(c, states[j], events[..j])
    {
      var k := EveryState(c, states, events, j);
      StatusStep(c, states[j], k, events[..j], events[j]);
      assert events[..j + 1] == events[..j] + [events[j]];
    }
  }

  /** Since the state s0 in which the operation was cancelled, only the call outstanding then has moved anything, its
      first m messages, and nothing was asked for. */
  predicate Stopped(c: Config, s0: State, s: State, m: nat) {
    && m <= (if s0.transferring then |s0.helper.headers| else 0)
    && s.dest == s0.dest + s0.helper.headers[..m]
    && s.source == (if c.Deletes() then RemoveEach(s0.source, s0.helper.headers[..m]) else s0.source)
    && (s.transferring ==>
          s0.transferring && m == 0 && s.helper.headers == s0.helper.headers && s.priv.status == Canceled)
    && (s.priv.status == Canceled || s.priv.status == Failed)
  }

  lemma StaysStopped(c: Config, s0: State, s: State, e: Event, m: nat) returns (m': nat)
    requires Stopped(c, s0, s, m) && Enabled(s, e)
    ensures Stopped(c, s0, Step(c, s, e), m')
  {
    m' := if e.Transferred? then e.moved else m;
    assert s0.dest + s0.helper.headers[..0] == s0.dest;
  }

  /** Once the operation is cancelled, at most the outstanding call moves anything: a single message if they go one by
      one. No other call is made, and the transfer never reports SUCCESS. */
  lemma CancelStopsTransfer(c: Config, states: seq<State>, events: seq<Event>, i: nat, j: nat) returns (m: nat)
    requires IsRun(c, states, events) && i < j < |states| && events[i] == CancelOperation
    ensures Stopped(c, states[i], states[j], m)
    ensures c.Starts() && !c.sameAccount ==> m <= 1
    ensures states[j].priv.status != Success
  {
    OneByOne(c, states, events, i);
    StopsAtCancel(c, states[i]);
    m := 0;
    for n := i + 1 to j
      invariant Stopped(c, states[i], states[n], m)
    {
      m := StaysStopped(c, states[i], states[n], events[n], m);
    }
  }

  lemma StopsAtCancel(c: Config, s: State)
    ensures Stopped(c, s, Step(c, s, CancelOperation), 0)
  {
    assert s.dest + s.helper.headers[..0] == s.dest;
  }

  /** A call asks for all messages within an account, and for a single one between accounts. */
  predicate AsksForOne(c: Config, s: State) {
    c.Starts() ==>
      if c.sameAccount then s.helper.headers == c.headers && s.helper.moreMsgs.None?
      else |s.helper.headers| == 1 && s.helper.moreMsgs.Some?
  }

  lemma StepAsksForOne(c: Config, s: State, e: Event)
    requires AsksForOne(c, s) && Enabled(s, e)
    ensures AsksForOne(c, Step(c, s, e))
  {
  }

  lemma OneByOne(c: Config, states: seq<State>, events: seq<Event>, i: nat)
    requires IsRun(c, states, events) && i < |states|
    ensures AsksForOne(c, states[i])
  {
    for j := 0 to i
      invariant AsksForOne(c, states[j])
    {
      StepAsksForOne(c, states[j], events[j]);
    }
  }

  /** Transferring message by message does what transferring all at once does: two successful transfers of the
      same messages leave the same folders and report the same. */
  lemma OneByOneRefinesBulk(c: Config, states: seq<State>, events: seq<Event>, i: nat,
                            states': seq<State>, events': seq<Event>, j: nat)
    requires IsRun(c.(sameAccount := false), states, events) && i < |states|
    requires IsRun(c.(sameAccount := true), states', events') && j < |states'|
    requires states[i].priv.status == states'[j].priv.status == Success
    ensures states[i].source == states'[j].source && states[i].dest == states'[j].dest
    ensures states[i].priv.done == states'[j].priv.done == 1 && states[i].priv.total == states'[j].priv.total
  {
    var _ := EveryState(c.(sameAccount := false), states, events, i);
    var _ := EveryState(c.(sameAccount := true), states', events', j);
  }

  /** A call for each message at most, and the synchronization. */
  function Work(c: Config, s: State): nat {
    if s.syncing then 1
    else if !s.transferring then 0
    else if s.helper.moreMsgs.Some? && s.helper.moreMsgs.value < |c.headers| then
      |c.headers| - s.helper.moreMsgs.value + 1
    else 2
  }

  function CountWork(events: seq<Event>): nat {
    if events == [] then 0
    else CountWork(events[..|events| - 1]) + if events[|events| - 1].CancelOperation? then 0 else 1
  }

  lemma StepIsWork(c: Config, s: State, e: Event, k: nat)
    requires Inv(c, s, k) && Enabled(s, e)
    ensures Work(c, Step(c, s, e)) + (if e.CancelOperation? then 0 else 1) <= Work(c, s)
  {
  }

  /** However it goes, a transfer takes at most a call for each message, or a single one within an account, and one
      synchronization; and it has ended exactly when no callback is left. */
  lemma {:induction false} TransfersAreBounded(c: Config, states: seq<State>, events: seq<Event>, i: nat)
    requires IsRun(c, states, events) && i <= |events|
    ensures CountWork(events[..i]) + Work(c, states[i]) <= (if c.sameAccount then 1 else |c.headers|) + 1
    ensures Work(c, states[i]) == 0 <==> !states[i].helper.alive
  {
    var _ := EveryState(c, states, events, i);
    if i > 0 {
      TransfersAreBounded(c, states, events, i - 1);
      var k := EveryState(c, states, events, i - 1);
      StepIsWork(c, states[i - 1], events[i - 1], k);
      assert events[..i][..i - 1] == events[..i - 1];
    }
  }

  /** How any transfer has ended that was not cancelled as an operation: FAILED for a destination that must not be
      written, still IN_PROGRESS without an error for no header or one that does not know its folder, FAILED for the
      source as destination, and otherwise by the outcome of the calls. */
  lemma EndStatusExactly(c: Config, states: seq<State>, events: seq<Event>, i: nat)
    requires IsRun(c, states, events) && i < |states| && states[i].finished == 1 && !states[i].cancelAsked
    ensures var s := states[i];
            && (s.priv.status == InProgress <==> !c.nonWriteable && (c.headers == [] || !c.folderKnown))
            && (s.priv.status == InProgress ==> s.priv.error.None? && s.callbacks == 0)
            && (c.nonWriteable ==> s.priv.status == Failed && s.priv.error == Some(FolderRules))
            && (!c.nonWriteable && c.headers != [] && c.folderKnown && c.sameFolder ==>
                  s.priv.status == Failed && s.priv.error == Some(BadParameter))
            && (c.Starts() ==>
                  s.priv.status == if s.callCancelled then Canceled else if s.callFailed then Failed else Success)
  {
    var _ := EveryState(c, states, events, i);
  }

  // ----- the error and the progress -----

  predicate CallFails(e: Event) {
    e.Transferred? && !e.cancelled && e.err
  }

  predicate ErrorTells(c: Config, s: State, events: seq<Event>) {
    s.priv.error ==
    if c.nonWriteable then Some(FolderRules)
    else if c.headers == [] || !c.folderKnown then None
    else if c.sameFolder then Some(BadParameter)
    else if exists e :: e in events && CallFails(e) then Some(Reported)
    else None
  }

  lemma ErrorStep(c: Config, s: State, k: nat, events: seq<Event>, e: Event)
    requires Inv(c, s, k) && Enabled(s, e) && ErrorTells(c, s, events)
    ensures ErrorTells(c, Step(c, s, e), events + [e])
  {
    assert forall b :: b in events + [e] <==> b in events || b == e;
    assert (exists b :: b in events + [e] && CallFails(b))
      <==> (exists b :: b in events && CallFails(b)) || CallFails(e);
  }

  /** The error a transfer leaves: that of its refusal, or the one reported with a call that failed. */
  lemma ErrorExactly(c: Config, states: seq<State>, events: seq<Event>, i: nat)
    requires IsRun(c, states, events) && i < |states|
    ensures ErrorTells(c, states[i], events[..i])
  {
    for j := 0 to i
      invariant ErrorTells(c, states[j], events[..j])
    {
      var k := EveryState(c, states, events, j);
      ErrorStep(c, states[j], k, events[..j], events[j]);
      assert events[..j + 1] == events[..j] + [events[j]];
    }
  }

  /** The status was SUCCESS in some state up to the i-th. */
  predicate Succeeded(states: seq<State>, i: nat)
    requires i < |states|
  {
    exists j :: 0 <= j <= i && states[j].priv.status == Success
  }

  lemma OneMoreState(states: seq<State>, i: nat)
    requires i + 1 < |states|
    ensures Succeeded(states, i + 1) <==> Succeeded(states, i) || states[i + 1].priv.status == Success
  {
  }

  predicate DoneTells(c: Config, states: seq<State>, i: nat)
    requires i < |states|
  {
    var s := states[i];
    && s.priv.done == (if Succeeded(states, i) then 1 else 0)
    && (s.transferring ==> s.priv.done == 0)
  }

  lemma DoneStep(c: Config, s: State, e: Event, k: nat)
    requires Inv(c, s, k) && Enabled(s, e) && (s.transferring ==> s.priv.done == 0)
    ensures var s' := Step(c, s, e);
            && s'.priv.done == (if s.priv.done == 1 || s'.priv.status == Success then 1 else s.priv.done)
            && (s'.transferring ==> s'.priv.done == 0)
  {
  }

  /** The transfer counts as done, out of all its messages, once it has succeeded, even if it is cancelled after
      that. */
  lemma DoneExactly(c: Config, states: seq<State>, events: seq<Event>, i: nat)
    requires IsRun(c, states, events) && i < |states|
    ensures states[i].priv.done == (if Succeeded(states, i) then 1 else 0)
    ensures states[i].priv.total == |c.headers|
  {
    var _ := EveryState(c, states, events, i);
    for j := 0 to i
      invariant DoneTells(c, states, j)
    {
      var k := EveryState(c, states, events, j);
      DoneStep(c, states[j], events[j], k);
      OneMoreState(states, j);
    }
  }
}
