/** Fetching the messages of a list of headers, one after the other. */
module MessageFetch {
  import opened Messages

  datatype Config = Config(headers: seq<Header>, lowMemory: bool)

  /** How the call for one message came back. */
  datatype Outcome = Outcome(cancelled: bool, err: bool, arrived: bool)

  /** What the user callback was given. */
  datatype Callback = Callback(header: Option<Header>, outcome: Outcome)

  datatype Priv = Priv(status: Status, error: Option<OperationError>, done: nat, total: nat)

  /** GetMsgInfo; more_msgs is a position in the list of headers. */
  datatype Info = Info(header: Option<Header>, moreMsgs: nat, alive: bool)

  datatype State = State(
    priv: Priv,
    info: Info,
    calls: seq<Header>,           // outstanding in the main loop
    // seen from outside
    callbacks: seq<Callback>,
    destroyed: nat,               // calls of the destroy notification
    started: nat,                 // emissions of operation-started
    finished: nat)                // emissions of operation-finished

  datatype Event = GotMsg(outcome: Outcome) | CancelOperation

  /** modest_mail_operation_get_msgs_full up to its return to the main loop. */
  function Started(c: Config): State {
    var s := State(Priv(InProgress, None, 0, |c.headers|), Info(None, 0, false), [], [], 0, 0, 0);
    if c.lowMemory then
      s.(priv := s.priv.(status := Failed, error := Some(LowMemory)),
         callbacks := [Callback(if c.headers == [] then None else Some(c.headers[0]),
                                     Outcome(false, true, false))],
         destroyed := 1, finished := 1)
    else if c.headers == [] then
      s.(started := 1)
    else
      s.(started := 1, info := Info(Some(c.headers[0]), 0, true), calls := [c.headers[0]])
  }

  predicate Enabled(s: State, e: Event) {
    e.GotMsg? ==> s.calls != []
  }

  function Step(c: Config, s: State, e: Event): State
    requires Enabled(s, e)
  {
    match e
    case GotMsg(outcome) => GotMessage(c, s.(calls := s.calls[1..]), outcome)
    case CancelOperation => s.(priv := s.priv.(status := Canceled))
  }

  /** get_msg_async_cb. */
  function GotMessage(c: Config, s: State, o: Outcome): State {
    var next := s.info.moreMsgs + 1;
    var finished := o.cancelled || next >= |c.headers|;
    var priv := s.priv.(done := s.priv.done + 1,
                        status := if o.cancelled then Canceled
                                  else if o.err then FinishedWithErrors
                                  else if finished && s.priv.status == InProgress then Success
                                  else s.priv.status,
                        error := if !o.cancelled && o.err then Some(Reported) else s.priv.error);
    var s' := s.(priv := priv, info := s.info.(moreMsgs := next),
                 callbacks := s.callbacks + [Callback(s.info.header, o)]);
    if finished then
      s'.(destroyed := s.destroyed + 1, finished := s.finished + 1, info := s'.info.(alive := false))
    else
      s'.(info := s'.info.(header := Some(c.headers[next])), calls := s.calls + [c.headers[next]])
  }

  ghost predicate IsRun(c: Config, states: seq<State>, events: seq<Event>) {
    && |states| == |events| + 1
    && states[0] == Started(c)
    && forall k {:trigger events[k]} :: 0 <= k < |events| ==>
         Enabled(states[k], events[k]) && states[k + 1] == Step(c, states[k], events[k])
  }

  datatype Seen = Seen(callbacks: seq<Callback>, destroyed: nat, started: nat, finished: nat)

  class GetMsgs {
    const config: Config
    var priv: Priv
    var info: Info
    var calls: seq<Header>
    ghost var seen: Seen

    ghost function View(): State
      reads this
    {
      State(priv, info, calls, seen.callbacks, seen.destroyed, seen.started, seen.finished)
    }

    constructor (c: Config)
      ensures config == c && View() == Started(c)
    {
      config := c;
      priv := Priv(InProgress, None, 0, |c.headers|);
      info, calls, seen := Info(None, 0, false), [], Seen([], 0, 0, 0);
      new;
      if config.lowMemory {
        priv := priv.(status := Failed, error := Some(LowMemory));
        var header := None;
        if |config.headers| > 0 {
          header := Some(config.headers[0]);
        }
        seen := seen.(callbacks := seen.callbacks + [Callback(header, Outcome(false, true, false))]);
        seen := seen.(destroyed := seen.destroyed + 1);
        seen := seen.(finished := seen.finished + 1);
        return;
      }
      seen := seen.(started := seen.started + 1);
      if |config.headers| > 0 {
        info := Info(Some(config.headers[0]), 0, true);
        calls := calls + [config.headers[0]];
      }
    }

    method GetMsgAsyncCb(o: Outcome)
      requires calls != []
      modifies this
      ensures View() == GotMessage(config, old(View()).(calls := old(calls)[1..]), o)
    {
      calls := calls[1..];
      priv := priv.(done := priv.done + 1);
      info := info.(moreMsgs := info.moreMsgs + 1);
      var done := info.moreMsgs >= |config.headers|;
      if o.cancelled {
        done := true;
        priv := priv.(status := Canceled);
      } else if o.err {
        priv := priv.(status := FinishedWithErrors);
        priv := priv.(error := Some(Reported));
      } else if done && priv.status == InProgress {
        priv := priv.(status := Success);
      }
      seen := seen.(callbacks := seen.callbacks + [Callback(info.header, o)]);
      if done {
        seen := seen.(destroyed := seen.destroyed + 1, finished := seen.finished + 1);
        info := info.(alive := false);
      } else {
        var header := config.headers[info.moreMsgs];
        info := info.(header := Some(header));
        calls := calls + [header];
      }
    }

    method Cancel()
      modifies this
      ensures View() == old(View()).(priv := old(priv).(status := Canceled))
    {
      priv := priv.(status := Canceled);
    }
  }

  // ----- what holds in every run -----

  /** How the messages came back, in the order they did. */
  function Outcomes(events: seq<Event>): seq<Outcome> {
    if events == [] then []
    else
      var e := events[|events| - 1];
      Outcomes(events[..|events| - 1]) + if e.GotMsg? then [e.outcome] else []
  }

  /** The status the events leave, the latest having the last word. */
  function Verdict(events: seq<Event>): (v: Option<Status>)
    ensures v.Some? ==> v.value == Canceled || v.value == FinishedWithErrors
  {
    if events == [] then None
    else
      match events[|events| - 1]
      case CancelOperation => Some(Canceled)
      case GotMsg(o) =>
        if o.cancelled then Some(Canceled)
        else if o.err then Some(FinishedWithErrors)
        else Verdict(events[..|events| - 1])
  }

  /** The error the calls that failed leave. */
  predicate ErrorTells(priv: Priv, outcomes: seq<Outcome>) {
    priv.error == if exists o :: o in outcomes && !o.cancelled && o.err then Some(Reported) else None
  }

  lemma ErrorStep(priv: Priv, priv': Priv, outcomes: seq<Outcome>, o: Outcome)
    requires ErrorTells(priv, outcomes)
    requires priv'.error == if !o.cancelled && o.err then Some(Reported) else priv.error
    ensures ErrorTells(priv', outcomes + [o])
  {
    assert forall p :: p in outcomes + [o] <==> p in outcomes || p == o;
  }

  lemma OneMoreOutcome(events: seq<Event>, e: Event)
    ensures Outcomes(events + [e]) == Outcomes(events) + if e.GotMsg? then [e.outcome] else []
  {
    assert (events + [e])[..|events|] == events;
  }

  lemma {:induction false} ErrorEverywhere(c: Config, states: seq<State>, events: seq<Event>, i: nat)
    requires !c.lowMemory && IsRun(c, states, events) && i < |states|
    ensures ErrorTells(states[i].priv, Outcomes(events[..i])) && states[i].priv.total == |c.headers|
  {
    if i > 0 {
      ErrorEverywhere(c, states, events, i - 1);
      assert events[..i] == events[..i - 1] + [events[i - 1]];
      OneMoreOutcome(events[..i - 1], events[i - 1]);
      if events[i - 1].GotMsg? {
        ErrorStep(states[i - 1].priv, states[i].priv, Outcomes(events[..i - 1]), events[i - 1].outcome);
      }
    }
  }

  predicate Stopped(outcomes: seq<Outcome>) {
    outcomes != [] && outcomes[|outcomes| - 1].cancelled
  }

  /** The first messages were reported to the user in order, each with its own header. */
  predicate Reports(c: Config, s: State, outcomes: seq<Outcome>) {
    && |s.callbacks| == |outcomes| == s.priv.done == s.info.moreMsgs <= |c.headers|
    && forall k :: 0 <= k < |outcomes| ==> s.callbacks[k] == Callback(Some(c.headers[k]), outcomes[k])
  }

  ghost predicate Inv(c: Config, s: State, events: seq<Event>)
    requires !c.lowMemory && c.headers != []
  {
    var outcomes := Outcomes(events);
    && Reports(c, s, outcomes)
    && (s.info.alive <==> !Stopped(outcomes) && |outcomes| < |c.headers|)
    && (forall k :: 0 <= k < |outcomes| - 1 ==> !outcomes[k].cancelled)
    && (s.info.alive ==> s.info.header == Some(c.headers[|outcomes|]) && s.calls == [c.headers[|outcomes|]])
    && (!s.info.alive ==> s.calls == [])
    && s.started == 1 && s.finished == s.destroyed == (if s.info.alive then 0 else 1)
    && s.priv.status == (if Verdict(events).Some? then Verdict(events).value
                         else if s.info.alive then InProgress else Success)
  }

  lemma StepKeepsInv(c: Config, s: State, before: seq<Event>, e: Event)
    requires !c.lowMemory && c.headers != [] && Inv(c, s, before) && Enabled(s, e)
    ensures Inv(c, Step(c, s, e), before + [e])
  {
    assert (before + [e])[..|before|] == before;
  }

  lemma {:induction false} EveryState(c: Config, states: seq<State>, events: seq<Event>, i: nat)
    requires !c.lowMemory && c.headers != [] && IsRun(c, states, events) && i < |states|
    ensures Inv(c, states[i], events[..i])
  {
    if i > 0 {
      EveryState(c, states, events, i - 1);
      StepKeepsInv(c, states[i - 1], events[..i - 1], events[i - 1]);
      assert events[..i] == events[..i - 1] + [events[i - 1]];
    }
  }

  /** Until the fetch ends exactly one call is outstanding, for the header whose turn it is; then there is
      none, the user data is destroyed and operation-finished is emitted, once. It ends with the first call
      that was cancelled, or else with the last header. */
  lemma OneCallUntilTheEnd(c: Config, states: seq<State>, events: seq<Event>, i: nat)
    requires !c.lowMemory && c.headers != [] && IsRun(c, states, events) && i < |states|
    ensures var s, outcomes := states[i], Outcomes(events[..i]);
            && |outcomes| <= |c.headers|
            && s.calls == (if s.info.alive then c.headers[|outcomes|..Min(|outcomes| + 1, |c.headers|)] else [])
            && (s.info.alive <==> (forall o :: o in outcomes ==> !o.cancelled) && |outcomes| < |c.headers|)
            && s.finished == s.destroyed == (if s.info.alive then 0 else 1)
  {
    EveryState(c, states, events, i);
    var outcomes := Outcomes(events[..i]);
    if Stopped(outcomes) {
      assert outcomes[|outcomes| - 1] in outcomes;
    }
  }

  /** The user is called back once for each message that came back, in the order of the list, with its header
      and how it came back. */
  lemma CallbacksInOrder(c: Config, states: seq<State>, events: seq<Event>, i: nat)
    requires !c.lowMemory && c.headers != [] && IsRun(c, states, events) && i < |states|
    ensures var s, outcomes := states[i], Outcomes(events[..i]);
            && |s.callbacks| == |outcomes| == s.priv.done <= |c.headers|
            && forall k :: 0 <= k < |outcomes| ==> s.callbacks[k] == Callback(Some(c.headers[k]), outcomes[k])
  {
    EveryState(c, states, events, i);
  }

  /** The status is always what the latest cancel or failure left, SUCCESS if the fetch ended without any. */
  lemma StatusIsTheLatest(c: Config, states: seq<State>, events: seq<Event>, i: nat)
    requires !c.lowMemory && c.headers != [] && IsRun(c, states, events) && i < |states|
    ensures var s, v := states[i], Verdict(events[..i]);
            s.priv.status == if v.Some? then v.value else if s.info.alive then InProgress else Success
  {
    EveryState(c, states, events, i);
  }

  lemma {:induction false} VerdictOfOutcomes(events: seq<Event>)
    requires CancelOperation !in events
    requires var os := Outcomes(events); forall k :: 0 <= k < |os| - 1 ==> !os[k].cancelled
    ensures var os := Outcomes(events);
            Verdict(events) == if exists o :: o in os && o.cancelled then Some(Canceled)
                               else if exists o :: o in os && o.err then Some(FinishedWithErrors) else None
  {
    if events != [] {
      var front, e := events[..|events| - 1], events[|events| - 1];
      assert e in events && events == front + [e];
      var os, os' := Outcomes(front), Outcomes(events);
      assert os' == os + [e.outcome];
      assert forall k :: 0 <= k < |os| ==> os[k] == os'[k];
      VerdictOfOutcomes(front);
      assert forall o :: o in os' <==> o in os || o == e.outcome;
      assert forall o :: o in os ==> !o.cancelled;
    }
  }

  /** If nobody cancels the operation itself, it ends as CANCELED exactly if a call was cancelled, else as
      FINISHED_WITH_ERRORS exactly if one failed, and else as SUCCESS with every message fetched. */
  lemma FinalStatus(c: Config, states: seq<State>, events: seq<Event>, i: nat)
    requires !c.lowMemory && c.headers != [] && IsRun(c, states, events) && i < |states|
    requires !states[i].info.alive && CancelOperation !in events[..i]
    ensures var s, os := states[i], Outcomes(events[..i]);
            && s.priv.status == (if exists o :: o in os && o.cancelled then Canceled
                                 else if exists o :: o in os && o.err then FinishedWithErrors else Success)
            && (s.priv.status != Canceled ==> |s.callbacks| == |c.headers|)
  {
    EveryState(c, states, events, i);
    VerdictOfOutcomes(events[..i]);
    var os := Outcomes(events[..i]);
    if Stopped(os) {
      assert os[|os| - 1] in os;
    }
  }

  /** The error a fetch leaves is the one reported with a message that failed and was not cancelled, if there was
      one. */
  lemma ErrorExactly(c: Config, states: seq<State>, events: seq<Event>, i: nat)
    requires !c.lowMemory && IsRun(c, states, events) && i < |states|
    ensures states[i].priv.total == |c.headers|
    ensures states[i].priv.error
         == if exists o :: o in Outcomes(events[..i]) && !o.cancelled && o.err then Some(Reported) else None
  {
    ErrorEverywhere(c, states, events, i);
  }

  /** Without enough memory the fetch fails at once: the user is called back with the first header and the
      error, and nothing happens after. */
  lemma LowMemoryFailsAtOnce(c: Config, states: seq<State>, events: seq<Event>, i: nat)
    requires c.lowMemory && IsRun(c, states, events) && i < |states| && CancelOperation !in events[..i]
    ensures var s := states[i];
            && s.priv.status == Failed && s.priv.error == Some(LowMemory)
            && s.started == 0 && s.finished == s.destroyed == 1
            && s.callbacks == [Callback(if c.headers == [] then None else Some(c.headers[0]),
                                     Outcome(false, true, false))]
  {
    NothingMore(c, states, events, i);
  }

  /** An empty list is started but never finished: no callback is outstanding, so whatever happens the operation
      stays in the queue, and the user is neither called back nor is the user data destroyed. */
  lemma EmptyFetchNeverEnds(c: Config, states: seq<State>, events: seq<Event>, i: nat)
    requires !c.lowMemory && c.headers == [] && IsRun(c, states, events) && i < |states|
    ensures var s := states[i];
            && s.started == 1 && s.finished == s.destroyed == 0 && s.callbacks == [] && s.calls == []
            && (CancelOperation !in events[..i] ==> s.priv.status == InProgress)
  {
    NothingMore(c, states, events, i);
  }

  /** Without an outstanding call, cancelling is all that can happen. */
  lemma {:induction false} NothingMore(c: Config, states: seq<State>, events: seq<Event>, i: nat)
    requires Started(c).calls == [] && IsRun(c, states, events) && i < |states|
    ensures states[i] == Started(c).(priv := states[i].priv)
    ensures CancelOperation !in events[..i] ==> states[i].priv == Started(c).priv
  {
    if i > 0 {
      NothingMore(c, states, events, i - 1);
      assert events[..i] == events[..i - 1] + [events[i - 1]];
    }
  }
}
