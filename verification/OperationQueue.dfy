/** The queue of mail operations: operations join at the tail and leave when they finish; when the last one
    leaves, an idle callback checks once more that the queue is empty and then emits queue-empty. */
module OperationQueue {
  import opened Sequences

  type Op = nat

  datatype Source = EmptyCheck | Other

  datatype State = State(
    // ModestMailOperationQueuePrivate
    opQueue: seq<Op>,
    queueEmptyHandler: nat,
    // the main loop's sources by id; ids are counted up from 1
    sources: map<nat, Source>,
    lastId: nat,
    log: Log)

  /** What is seen of the queue from outside. */
  datatype Log = Log(
    refs: multiset<Op>,       // references the queue holds
    emissions: nat,           // of queue-empty
    added: seq<Op>,
    removed: set<Op>,
    owed: bool,               // an operation was removed since the last emission
    drained: nat)             // removals that left the queue empty

  datatype Event = Add(op: Op) | Remove(op: Op) | Fire(id: nat) | AttachOther | DestroyOther(id: nat)

  const Created := State([], 0, map[], 0, Log(multiset{}, 0, [], {}, false, 0))

  /** Operations are added once and removed while queued, as they do when they finish. */
  predicate Enabled(s: State, e: Event) {
    match e
    case Add(op) => op !in s.log.added
    case Remove(op) => op in s.opQueue
    case Fire(id) => id in s.sources && s.sources[id] == EmptyCheck
    case AttachOther => true
    case DestroyOther(id) => id in s.sources && s.sources[id] == Other
  }

  function Step(s: State, e: Event): State {
    match e
    case Add(op) => Added(s, op)
    case Remove(op) => Removed(s, op)
    case Fire(id) => Checked(s.(sources := s.sources - {id}))
    case AttachOther => Attached(s, Other)
    case DestroyOther(id) => s.(sources := s.sources - {id})
  }

  function Attached(s: State, source: Source): State {
    s.(sources := s.sources[s.lastId + 1 := source], lastId := s.lastId + 1)
  }

  /** modest_mail_operation_queue_add. */
  function Added(s: State, op: Op): State {
    s.(opQueue := s.opQueue + [op], log := s.log.(refs := s.log.refs + multiset{op}, added := s.log.added + [op]))
  }

  /** modest_mail_operation_queue_remove. */
  function Removed(s: State, op: Op): State {
    var s' := s.(opQueue := RemoveFirst(s.opQueue, op), log := Dropped(s.log, op));
    if s'.opQueue == [] then CheckAgain(s') else s'
  }

  /** The last operation has left: the stored idle source is replaced by a new one. */
  function CheckAgain(s: State): State {
    var stale := if s.queueEmptyHandler != 0 then {s.queueEmptyHandler} else {};
    var s' := Attached(s.(sources := s.sources - stale), EmptyCheck);
    s'.(queueEmptyHandler := s'.lastId, log := s.log.(drained := s.log.drained + 1))
  }

  function Dropped(log: Log, op: Op): Log {
    log.(refs := log.refs - multiset{op}, removed := log.removed + {op}, owed := true)
  }

  /** notify_queue_empty; the source goes, but queue_empty_handler keeps its id. */
  function Checked(s: State): State {
    if s.opQueue == [] then s.(log := s.log.(emissions := s.log.emissions + 1, owed := false)) else s
  }

  class MailOperationQueue {
    var opQueue: seq<Op>
    var queueEmptyHandler: nat
    var sources: map<nat, Source>
    var lastId: nat
    ghost var log: Log

    ghost function View(): State
      reads this
    {
      State(opQueue, queueEmptyHandler, sources, lastId, log)
    }

    constructor ()
      ensures View() == Created
    {
      opQueue, queueEmptyHandler, sources, lastId := [], 0, map[], 0;
      log := Log(multiset{}, 0, [], {}, false, 0);
    }

    method GSourceRemove(id: nat)
      modifies this`sources
      ensures sources == old(sources) - {id}
    {
      sources := sources - {id};
    }

    method GIdleAdd() returns (id: nat)
      modifies this`sources, this`lastId
      ensures lastId == id == old(lastId) + 1 && sources == old(sources)[id := EmptyCheck]
    {
      lastId := lastId + 1;
      id := lastId;
      sources := sources[id := EmptyCheck];
    }

    /** g_queue_remove. */
    method GQueueRemove(mailOp: Op)
      modifies this`opQueue
      ensures opQueue == RemoveFirst(old(opQueue), mailOp)
    {
      var i := 0;
      while i < |opQueue| && opQueue[i] != mailOp
        invariant i <= |opQueue| && forall k :: 0 <= k < i ==> opQueue[k] != mailOp
      {
        i := i + 1;
      }
      RemoveFirstAt(opQueue, mailOp, i);
      if i < |opQueue| {
        opQueue := opQueue[..i] + opQueue[i + 1..];
      }
    }

    method Add(mailOp: Op)
      modifies this
      ensures View() == Added(old(View()), mailOp)
    {
      opQueue := opQueue + [mailOp];
      log := log.(refs := log.refs + multiset{mailOp}, added := log.added + [mailOp]);
    }

    method Remove(mailOp: Op)
      modifies this
      ensures View() == Removed(old(View()), mailOp)
    {
      GQueueRemove(mailOp);
      var numElements := |opQueue|;
      log := Dropped(log, mailOp);
      if numElements == 0 {
        ScheduleCheck();
      }
    }

    /** What a removal does when the queue is empty then. */
    method ScheduleCheck()
      modifies this
      ensures View() == CheckAgain(old(View()))
    {
      if queueEmptyHandler != 0 {
        GSourceRemove(queueEmptyHandler);
        queueEmptyHandler := 0;
      }
      queueEmptyHandler := GIdleAdd();
      log := log.(drained := log.drained + 1);
    }

    method NotifyQueueEmpty(id: nat)
      requires id in sources
      modifies this
      ensures View() == Checked(old(View()).(sources := old(sources) - {id}))
    {
      GSourceRemove(id);
      if |opQueue| == 0 {
        log := log.(emissions := log.emissions + 1, owed := false);
      }
    }

    method OnOperationFinished(mailOp: Op)
      modifies this
      ensures View() == Removed(old(View()), mailOp)
    {
      Remove(mailOp);
    }
  }

  // ----- what holds in every run -----

  ghost predicate IsRun(states: seq<State>, events: seq<Event>) {
    && |states| == |events| + 1
    && states[0] == Created
    && forall k {:trigger events[k]} :: 0 <= k < |events| ==>
         Enabled(states[k], events[k]) && states[k + 1] == Step(states[k], events[k])
  }

  /** What is left of the operations added, in the order they were added. */
  function Remaining(added: seq<Op>, removed: set<Op>): seq<Op> {
    if added == [] then []
    else (if added[0] in removed then [] else [added[0]]) + Remaining(added[1..], removed)
  }

  ghost predicate Distinct(ops: seq<Op>) {
    forall i, j :: 0 <= i < j < |ops| ==> ops[i] != ops[j]
  }

  lemma {:induction false} RemainingAppend(added: seq<Op>, removed: set<Op>, op: Op)
    requires op !in removed
    ensures Remaining(added + [op], removed) == Remaining(added, removed) + [op]
  {
    if added == [] {
      assert [op][1..] == [];
    } else {
      var first := if added[0] in removed then [] else [added[0]];
      RemainingAppend(added[1..], removed, op);
      assert (added + [op])[1..] == added[1..] + [op];
      assert first + (Remaining(added[1..], removed) + [op]) == first + Remaining(added[1..], removed) + [op];
    }
  }

  lemma {:induction false} RemainingUnaffected(added: seq<Op>, removed: set<Op>, op: Op)
    requires op !in added
    ensures Remaining(added, removed + {op}) == Remaining(added, removed)
  {
    if added != [] {
      RemainingUnaffected(added[1..], removed, op);
    }
  }

  lemma {:induction false} RemainingRemove(added: seq<Op>, removed: set<Op>, op: Op)
    requires Distinct(added) && op !in removed
    ensures RemoveFirst(Remaining(added, removed), op) == Remaining(added, removed + {op})
  {
    if added != [] {
      var rest := Remaining(added[1..], removed);
      if added[0] == op {
        RemainingUnaffected(added[1..], removed, op);
        assert ([op] + rest)[1..] == rest;
      } else {
        RemainingRemove(added[1..], removed, op);
        assert [] + rest == rest && ([added[0]] + rest)[1..] == rest;
      }
    }
  }

  lemma {:induction false} RemainingMembers(added: seq<Op>, removed: set<Op>, op: Op)
    ensures op in Remaining(added, removed) <==> op in added && op !in removed
  {
    if added != [] {
      RemainingMembers(added[1..], removed, op);
    }
  }

  ghost predicate InOrder(s: State) {
    && Distinct(s.log.added) && (forall op :: op in s.log.removed ==> op in s.log.added)
    && s.opQueue == Remaining(s.log.added, s.log.removed)
    && s.log.refs == multiset(s.opQueue)
  }

  ghost predicate ChecksInOrder(s: State) {
    && s.queueEmptyHandler <= s.lastId
    && (forall id :: id in s.sources ==>
          0 < id <= s.lastId && (s.sources[id] == EmptyCheck <==> id == s.queueEmptyHandler))
    && (s.queueEmptyHandler in s.sources ==> s.log.owed)
    && (s.opQueue == [] && s.log.owed ==> s.queueEmptyHandler in s.sources)
    && s.log.emissions + (if s.queueEmptyHandler in s.sources then 1 else 0) <= s.log.drained
  }

  lemma RemoveKeepsOrder(s: State, op: Op)
    requires InOrder(s) && op in s.opQueue
    ensures InOrder(Removed(s, op))
  {
    RemainingMembers(s.log.added, s.log.removed, op);
    RemainingRemove(s.log.added, s.log.removed, op);
    RemoveFirstTakesOne(s.opQueue, op);
  }

  lemma StepKeepsOrder(s: State, e: Event)
    requires InOrder(s) && Enabled(s, e)
    ensures InOrder(Step(s, e))
  {
    if e.Add? {
      RemainingAppend(s.log.added, s.log.removed, e.op);
    } else if e.Remove? {
      RemoveKeepsOrder(s, e.op);
    }
  }

  lemma StepKeepsChecks(s: State, e: Event)
    requires ChecksInOrder(s) && Enabled(s, e)
    ensures ChecksInOrder(Step(s, e))
  {
  }

  lemma {:induction false} EveryState(states: seq<State>, events: seq<Event>, k: nat)
    requires IsRun(states, events) && k < |states|
    ensures InOrder(states[k]) && ChecksInOrder(states[k])
  {
    if k > 0 {
      EveryState(states, events, k - 1);
      assert Enabled(states[k - 1], events[k - 1]) && states[k] == Step(states[k - 1], events[k - 1]);
      StepKeepsOrder(states[k - 1], events[k - 1]);
      StepKeepsChecks(states[k - 1], events[k - 1]);
    }
  }

  /** The queue holds the operations added and not removed, in the order they were added, and one reference
      to each. */
  lemma QueueIsFifo(states: seq<State>, events: seq<Event>, k: nat)
    requires IsRun(states, events) && k < |states|
    ensures var s := states[k]; s.opQueue == Remaining(s.log.added, s.log.removed) && s.log.refs == multiset(s.opQueue)
    ensures forall op :: op in states[k].opQueue <==> op in states[k].log.added && op !in states[k].log.removed
    ensures forall op :: states[k].log.refs[op] <= 1
  {
    EveryState(states, events, k);
    var s := states[k];
    forall op ensures op in s.opQueue <==> op in s.log.added && op !in s.log.removed {
      RemainingMembers(s.log.added, s.log.removed, op);
    }
    forall op ensures s.log.refs[op] <= 1 {
      RemainingOnce(s.log.added, s.log.removed, op);
    }
  }

  lemma {:induction false} RemainingOnce(added: seq<Op>, removed: set<Op>, op: Op)
    requires Distinct(added)
    ensures multiset(Remaining(added, removed))[op] <= 1
  {
    if added != [] {
      RemainingOnce(added[1..], removed, op);
      RemainingMembers(added[1..], removed, op);
    }
  }

  function Checks(s: State): set<nat> {
    set id | id in s.sources && s.sources[id] == EmptyCheck
  }

  /** There is never more than one check pending; and while the queue is empty there is exactly one if an
      operation was removed since the last emission, so that queue-empty will be emitted, and none if not. */
  lemma OneCheckPending(states: seq<State>, events: seq<Event>, k: nat)
    requires IsRun(states, events) && k < |states|
    ensures var s := states[k]; |Checks(s)| <= 1 && (s.opQueue == [] ==> |Checks(s)| == if s.log.owed then 1 else 0)
  {
    EveryState(states, events, k);
    OneCheck(states[k]);
  }

  lemma OneCheck(s: State)
    requires ChecksInOrder(s)
    ensures |Checks(s)| == if s.queueEmptyHandler in s.sources then 1 else 0
  {
    assert Checks(s) == if s.queueEmptyHandler in s.sources then {s.queueEmptyHandler} else {};
  }

  lemma EmissionStep(s: State, e: Event)
    requires ChecksInOrder(s) && Enabled(s, e)
    ensures var s' := Step(s, e);
            && s'.log.emissions == s.log.emissions + (if e.Fire? && s.opQueue == [] then 1 else 0)
            && (s'.log.emissions > s.log.emissions ==> s.log.owed && !s'.log.owed)
  {
  }

  /** queue-empty is emitted exactly when a check runs on an empty queue, and never more often than removals
      emptied the queue. */
  lemma EmissionsArePaidFor(states: seq<State>, events: seq<Event>, k: nat)
    requires IsRun(states, events) && k < |events|
    ensures var s, s' := states[k], states[k + 1];
            && s'.log.emissions == s.log.emissions + (if events[k].Fire? && s.opQueue == [] then 1 else 0)
            && s'.log.emissions + |Checks(s')| <= s'.log.drained
            && (s'.log.emissions > s.log.emissions ==> s.log.owed && !s'.log.owed)
  {
    EveryState(states, events, k);
    EveryState(states, events, k + 1);
    EmissionStep(states[k], events[k]);
    OneCheck(states[k + 1]);
  }

  /** The removals that emptied the queue. */
  function Drains(states: seq<State>, events: seq<Event>, k: nat): nat
    requires k <= |events| && |states| == |events| + 1
  {
    if k == 0 then 0
    else Drains(states, events, k - 1) + if events[k - 1].Remove? && states[k].opQueue == [] then 1 else 0
  }

  /** The sources that others attached to the main loop. */
  function Others(events: seq<Event>, k: nat): nat
    requires k <= |events|
  {
    if k == 0 then 0 else Others(events, k - 1) + if events[k - 1].AttachOther? then 1 else 0
  }

  lemma SourceStep(s: State, e: Event)
    requires Enabled(s, e)
    ensures var s', drains := Step(s, e), e.Remove? && Step(s, e).opQueue == [];
            && s'.log.drained == s.log.drained + (if drains then 1 else 0)
            && s'.lastId == s.lastId + (if drains || e.AttachOther? then 1 else 0)
  {
  }

  /** A check is scheduled by each removal that empties the queue, and by nothing else. */
  lemma ChecksAreScheduled(states: seq<State>, events: seq<Event>, k: nat)
    requires IsRun(states, events) && k < |states|
    ensures states[k].log.drained == Drains(states, events, k)
    ensures states[k].lastId == Drains(states, events, k) + Others(events, k)
  {
    for j := 0 to k
      invariant states[j].log.drained == Drains(states, events, j)
      invariant states[j].lastId == Drains(states, events, j) + Others(events, j)
    {
      assert Enabled(states[j], events[j]) && states[j + 1] == Step(states[j], events[j]);
      SourceStep(states[j], events[j]);
    }
  }

  lemma OtherSourceStays(s: State, e: Event, id: nat)
    requires ChecksInOrder(s) && Enabled(s, e)
    requires id in s.sources && s.sources[id] == Other && e != DestroyOther(id)
    ensures id in Step(s, e).sources && Step(s, e).sources[id] == Other
  {
  }

  /** notify_queue_empty leaves its id behind in queue_empty_handler, and the next removal destroys the source
      of that id. As ids are not used again, that source is never another one. */
  lemma OtherSourcesSurvive(states: seq<State>, events: seq<Event>, k: nat, id: nat)
    requires IsRun(states, events) && k < |events|
    requires id in states[k].sources && states[k].sources[id] == Other && events[k] != DestroyOther(id)
    ensures id in states[k + 1].sources && states[k + 1].sources[id] == Other
  {
    EveryState(states, events, k);
    OtherSourceStays(states[k], events[k], id);
  }
}
