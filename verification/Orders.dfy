/** broker/order_state_machine.py: the transition table and the machine that owns every order's state. */
module OrderStates {
  import opened Options

  datatype OrderState =
    | PENDING | SUBMITTED | OPEN | PARTIAL | COMPLETE | CANCELLED | FAILED | EXPIRED | UNKNOWN_IN_FLIGHT

  predicate Terminal(s: OrderState) {
    s.COMPLETE? || s.CANCELLED? || s.FAILED? || s.EXPIRED?
  }

  /** ALLOWED_TRANSITIONS, row by row. */
  predicate Allows(s: OrderState, to: OrderState) {
    match s
    case PENDING => to.SUBMITTED? || to.FAILED? || to.UNKNOWN_IN_FLIGHT?
    case SUBMITTED => to.OPEN? || to.PARTIAL? || to.COMPLETE? || to.CANCELLED? || to.FAILED? || to.EXPIRED?
    case OPEN => to.PARTIAL? || to.COMPLETE? || to.CANCELLED? || to.EXPIRED? || to.FAILED?
    case PARTIAL => to.PARTIAL? || to.COMPLETE? || to.CANCELLED? || to.FAILED?
    case UNKNOWN_IN_FLIGHT => to.OPEN? || to.PARTIAL? || to.COMPLETE? || to.FAILED?
    case _ => false
  }

  type States = map<string, OrderState>

  datatype Result = Ok | Unregistered | AlreadyRegistered | InvalidTransition(from: OrderState)

  datatype Operation = Register(id: string) | Transition(id: string, to: OrderState)

  function Apply(states: States, op: Operation): (States, Result) {
    match op
    case Register(id) => if id in states then (states, AlreadyRegistered) else (states[id := PENDING], Ok)
    case Transition(id, to) =>
      if id !in states then (states, Unregistered)
      else if !Allows(states[id], to) then (states, InvalidTransition(states[id]))
      else (states[id := to], Ok)
  }

  class OrderStateMachine {
    var states: States

    constructor ()
      ensures states == map[]
    {
      states := map[];
    }

    /** A refused operation changes no order; an accepted one changes only its own. */
    method Do(op: Operation) returns (r: Result)
      modifies this
      ensures (states, r) == Apply(old(states), op)
      ensures forall id :: id in old(states) && (id != op.id || r != Ok) ==> id in states && states[id] == old(states)[id]
    {
      match op {
        case Register(id) =>
          if id in states { return AlreadyRegistered; }
          states := states[id := PENDING];
        case Transition(id, to) =>
          if id !in states { return Unregistered; }
          var from := states[id];
          if !Allows(from, to) { return InvalidTransition(from); }
          states := states[id := to];
      }
      return Ok;
    }
  }

  // --- trajectories ---

  function RunStates(states: States, ops: seq<Operation>): States
    decreases |ops|
  {
    if ops == [] then states else RunStates(Apply(states, ops[0]).0, ops[1..])
  }

  /** How often the state of one order really changes during a run. */
  function Changes(states: States, ops: seq<Operation>, id: string): nat
    decreases |ops|
  {
    if ops == [] then 0
    else
      var next := Apply(states, ops[0]).0;
      (if id in states && next[id] != states[id] then 1 else 0) + Changes(next, ops[1..], id)
  }

  /** Longest way from PENDING. */
  function Rank(s: OrderState): nat {
    match s
    case PENDING => 0
    case SUBMITTED => 1
    case UNKNOWN_IN_FLIGHT => 1
    case OPEN => 2
    case PARTIAL => 3
    case _ => 4
  }

  /**
   * The table, read as a direction: from PENDING to the placement's three answers; after that
   * always onward, to any state of a higher rank or again to PARTIAL, except that an order in
   * flight is neither cancelled nor expired, and a partly filled one does not expire.
   */
  lemma TableGoesOnward(s: OrderState, to: OrderState)
    ensures Allows(s, to) <==>
      if s == PENDING then to in {SUBMITTED, FAILED, UNKNOWN_IN_FLIGHT}
      else
        && s !in {COMPLETE, CANCELLED, FAILED, EXPIRED} && to !in {PENDING, SUBMITTED, UNKNOWN_IN_FLIGHT}
        && (Rank(s) < Rank(to) || (s == PARTIAL && to == PARTIAL))
        && !(s == UNKNOWN_IN_FLIGHT && to in {CANCELLED, EXPIRED}) && !(s == PARTIAL && to == EXPIRED)
  {
  }

  lemma {:induction false} ChangesClimb(states: States, ops: seq<Operation>, id: string)
    requires id in states
    ensures id in RunStates(states, ops)
    ensures Changes(states, ops, id) + Rank(states[id]) <= Rank(RunStates(states, ops)[id])
    ensures Terminal(states[id]) ==> RunStates(states, ops)[id] == states[id]
    decreases |ops|
  {
    if ops != [] {
      ChangesClimb(Apply(states, ops[0]).0, ops[1..], id);
    }
  }

  /** From its registration on, under any operations by any threads, an order changes state at most four times. */
  lemma AtMostFourChanges(states: States, ops: seq<Operation>, id: string)
    requires id !in states
    ensures Changes(Apply(states, Register(id)).0, ops, id) <= 4
  {
    ChangesClimb(Apply(states, Register(id)).0, ops, id);
  }

  /** A terminal state absorbs: nothing that any thread does later moves the order again. */
  lemma TerminalAbsorbs(states: States, ops: seq<Operation>, id: string)
    requires id in states && Terminal(states[id])
    ensures id in RunStates(states, ops) && RunStates(states, ops)[id] == states[id] && Changes(states, ops, id) == 0
  {
    ChangesClimb(states, ops, id);
  }
}

/**
 * broker/order_monitor.py and the paper fill thread of broker/zerodha_adapter.py, for one
 * order: the poll handlers, cut where another thread may step in, racing with the synthetic
 * fill and with the shutdown's cancel.
 */
module OrderMonitors {
  import opened Options
  import opened OrderStates

  /** SL, TGT and EOD orders are exits; an empty leg is neither. */
  datatype Leg = Entry | Unset | Exit

  /** The two events that report a fill to the order placer. */
  datatype Terminated = OrderFilled | OrderPartiallyTerminated

  /** Where the poll thread is inside a handler. */
  datatype Pc =
    | Idle
    | AfterOpen
    | AfterPartial(first: bool)
    | Filling
    | Terminating(to: OrderState)
    | Terminated(to: OrderState)
    | Untracking

  /** The paper thread: waiting for its price, between transition and publish, or gone. */
  datatype Synth = Absent | Waiting | Won | Gone

  datatype Order = Order(
    osm: OrderState, watched: bool, leg: Leg, filled: nat, partialSeen: bool,
    pc: Pc, synth: Synth, events: seq<Terminated>)

  datatype Reply = Unavailable | StillOpen | Partial(qty: nat) | Complete | Cancelled | Rejected | Lost

  /** The status an order had in the store; TRIGGER_PENDING is none of the machine's states. */
  datatype Status = Stored(state: OrderState) | TriggerPending

  datatype Event =
    | Poll(reply: Reply)
    | OpenGoesOn | OpenCancelled | OpenOrphaned
    | PartialGoesOn | PartialCancelled | PartialOrphaned
    | PublishFill | PublishPartial | TerminalTransition | Untrack
    | SynthTransition | SynthPublish | SynthGivesUp
    | ShutdownCancel

  /** Tracked at SUBMITTED, as the placement path does. */
  function Tracked(leg: Leg, paper: bool): Order {
    Order(SUBMITTED, true, leg, 0, false, Idle, if paper then Waiting else Absent, [])
  }

  /** What rehydrate_from_store makes of an order that the last process left in this status. */
  function Rehydrated(status: Status, leg: Leg): Order {
    var registered := Apply(map[], Register("")).0;
    var states := if status.Stored? && status.state in {SUBMITTED, OPEN, PARTIAL}
                  then Apply(registered, Transition("", status.state)).0 else registered;
    Tracked(leg, false).(osm := states[""])
  }

  /** _safe_transition steps an open order from PENDING through SUBMITTED. */
  predicate CanMove(from: OrderState, to: OrderState) {
    Allows(from, to) || (from == PENDING && to == OPEN)
  }

  function Moved(from: OrderState, to: OrderState): OrderState {
    if CanMove(from, to) then to else from
  }

  function To(o: Order, s: OrderState): Order {
    o.(osm := Moved(o.osm, s))
  }

  /** _safe_transition re-raises: the order is in a live state that has no such exit, and is not there already. */
  predicate Raises(o: Order, s: OrderState) {
    !CanMove(o.osm, s) && !Terminal(o.osm) && s != o.osm
  }

  /** A termination is told as a partial fill when something was filled. */
  function Told(filled: nat): seq<Terminated> {
    if filled > 0 then [OrderPartiallyTerminated] else []
  }

  function HandlePoll(o: Order, reply: Reply): Order {
    match reply
    case Unavailable => o
    case StillOpen => if Raises(o, OPEN) then o else To(o, OPEN).(pc := AfterOpen)
    case Partial(qty) =>
      var seen := o.(filled := if qty > o.filled then qty else o.filled, partialSeen := true);
      if Raises(o, PARTIAL) then seen else To(seen, PARTIAL).(pc := AfterPartial(!o.partialSeen))
    case Complete => if Allows(o.osm, COMPLETE) then o.(osm := COMPLETE, pc := Filling) else o
    case Cancelled => o.(pc := Terminating(CANCELLED))
    case Rejected => o.(pc := Terminating(FAILED))
    case Lost => o.(pc := Untracking)
  }

  function Next(o: Order, e: Event): Order {
    match e
    case Poll(reply) => if o.pc == Idle && o.watched then HandlePoll(o, reply) else o
    case OpenGoesOn => if o.pc == AfterOpen then o.(pc := Idle) else o
    case OpenCancelled => if o.pc == AfterOpen && o.leg != Exit then To(o, CANCELLED).(pc := Untracking) else o
    case OpenOrphaned => if o.pc == AfterOpen && o.leg != Exit then To(o, FAILED).(pc := Untracking) else o
    case PartialGoesOn => if o.pc.AfterPartial? && (o.leg != Entry || !o.pc.first) then o.(pc := Idle) else o
    case PartialCancelled => if o.pc.AfterPartial? && o.leg != Exit then o.(pc := Terminating(CANCELLED)) else o
    case PartialOrphaned => if o.pc.AfterPartial? && o.leg != Exit then o.(pc := Untracking) else o
    case PublishFill => if o.pc == Filling then o.(pc := Untracking, events := o.events + [OrderFilled]) else o
    case PublishPartial =>
      if o.pc.Terminating?
      then o.(pc := Terminated(o.pc.to), events := o.events + Told(o.filled))
      else o
    case TerminalTransition =>
      if !o.pc.Terminated? then o
      else if Raises(o, o.pc.to) then o.(pc := Idle)
      else To(o, o.pc.to).(pc := Untracking)
    case Untrack => if o.pc == Untracking then o.(watched := false, pc := Idle) else o
    case SynthTransition =>
      if o.synth != Waiting then o
      else if Allows(o.osm, COMPLETE) then o.(osm := COMPLETE, synth := Won) else o.(synth := Gone)
    case SynthPublish => if o.synth == Won then o.(synth := Gone, events := o.events + [OrderFilled]) else o
    case SynthGivesUp => if o.synth == Waiting then o.(synth := Gone) else o
    case ShutdownCancel => if o.leg == Exit || Raises(o, CANCELLED) then o else To(o, CANCELLED).(watched := false)
  }

  function Run(o: Order, events: seq<Event>): Order
    decreases |events|
  {
    if events == [] then o else Run(Next(o, events[0]), events[1..])
  }

  // --- live: no synthetic fill ---

  /**
   * From PENDING a partial fill is recorded before its transition raises. From every other
   * state what is filled has also moved the order, and a termination cannot raise.
   */
  predicate LiveInv(o: Order) {
    && o.synth == Absent && o.osm != PENDING
    && (o.osm == UNKNOWN_IN_FLIGHT ==> o.filled == 0) && (o.pc == Filling ==> o.osm == COMPLETE)
    && |o.events| <= 1
    && (o.pc.Terminating? || o.pc.Terminated? ==> o.pc.to in {CANCELLED, FAILED})
    && (o.events != [] ==> o.osm != UNKNOWN_IN_FLIGHT && (o.pc.Terminated? || o.pc == Untracking || (o.pc == Idle && !o.watched)))
  }

  lemma LiveNext(o: Order, e: Event)
    requires LiveInv(o)
    ensures LiveInv(Next(o, e))
  {
  }

  lemma {:induction false} LiveRun(o: Order, events: seq<Event>)
    requires LiveInv(o)
    ensures LiveInv(Run(o, events))
    decreases |events|
  {
    if events != [] {
      LiveNext(o, events[0]);
      LiveRun(Next(o, events[0]), events[1..]);
    }
  }

  /** A live order found in any state of the machine. */
  function Live(s: OrderState, leg: Leg): Order {
    Tracked(leg, false).(osm := s)
  }

  predicate Once(s: OrderState, leg: Leg, events: seq<Event>) {
    |Run(Live(s, leg), events).events| <= 1
  }

  lemma LiveOnce(s: OrderState, leg: Leg, events: seq<Event>)
    requires s != PENDING
    ensures Once(s, leg, events)
  {
    LiveRun(Live(s, leg), events);
  }

  const ENDING := [Poll(Cancelled), PublishPartial, TerminalTransition]

  lemma {:induction false} RunFirst(o: Order, e: Event, rest: seq<Event>)
    ensures Run(o, [e] + rest) == Run(Next(o, e), rest)
  {
    assert ([e] + rest)[1..] == rest;
  }

  lemma {:induction false} RunThree(o: Order, e1: Event, e2: Event, e3: Event)
    ensures Run(o, [e1, e2, e3]) == Next(Next(Next(o, e1), e2), e3)
    ensures Run(o, [e1, e2]) == Next(Next(o, e1), e2)
    ensures Run(o, [e1]) == Next(o, e1)
  {
    assert [e1, e2, e3] == [e1] + ([e2] + ([e3] + []));
    assert [e1, e2] == [e1] + ([e2] + []);
    assert [e1] == [e1] + [];
    var o1 := Next(o, e1);
    var o2 := Next(o1, e2);
    RunFirst(o, e1, [e2] + ([e3] + []));
    RunFirst(o1, e2, [e3] + []);
    RunFirst(o2, e3, []);
    RunFirst(o, e1, [e2] + []);
    RunFirst(o1, e2, []);
    RunFirst(o, e1, []);
  }

  lemma {:induction false} RunConcat(o: Order, a: seq<Event>, b: seq<Event>)
    ensures Run(o, a + b) == Run(Run(o, a), b)
    decreases |a|
  {
    if a == [] {
      assert a + b == b;
    } else {
      assert (a + b)[1..] == a[1..] + b;
      RunConcat(Next(o, a[0]), a[1..], b);
    }
  }

  lemma Publishes(o: Order, to: OrderState)
    requires o.pc == Terminating(to)
    ensures Next(o, PublishPartial) == o.(pc := Terminated(to), events := o.events + Told(o.filled))
  {
  }

  lemma Transitions(o: Order, to: OrderState)
    requires o.pc == Terminated(to)
    ensures Next(o, TerminalTransition) == if Raises(o, to) then o.(pc := Idle) else To(o, to).(pc := Untracking)
  {
  }

  lemma PollCancelled(o: Order)
    requires o.pc == Idle && o.watched
    ensures Next(o, Poll(Cancelled)) == o.(pc := Terminating(CANCELLED))
  {
  }

  /** A cancelled order that is stuck at PENDING with something filled tells it, raises, and stays watched. */
  lemma ToldAgain(o: Order)
    requires o.osm == PENDING && o.pc == Idle && o.watched && o.filled > 0
    ensures Run(o, ENDING) == o.(events := o.events + [OrderPartiallyTerminated])
  {
    RunThree(o, Poll(Cancelled), PublishPartial, TerminalTransition);
    PollCancelled(o);
    Publishes(o.(pc := Terminating(CANCELLED)), CANCELLED);
    Transitions(o.(pc := Terminated(CANCELLED), events := o.events + [OrderPartiallyTerminated]), CANCELLED);
  }

  const TWICE := [Poll(Partial(5))] + (ENDING + ENDING)

  lemma PendingTellsTwice(leg: Leg)
    ensures Run(Live(PENDING, leg), TWICE).events == [OrderPartiallyTerminated, OrderPartiallyTerminated]
  {
    var o0 := Live(PENDING, leg);
    var o1 := Next(o0, Poll(Partial(5)));
    RunThree(o0, Poll(Partial(5)), Untrack, Untrack);
    RunConcat(o0, [Poll(Partial(5))], ENDING + ENDING);
    RunConcat(o1, ENDING, ENDING);
    ToldAgain(o1);
    ToldAgain(Run(o1, ENDING));
  }

  /**
   * Is at most one fill event of a live order guaranteed, whatever the replies, timeouts,
   * cancels and shutdowns? Exactly when the machine does not hold it at PENDING.
   */
  lemma FillEventOnceIff(s: OrderState, leg: Leg)
    ensures (forall events: seq<Event> :: Once(s, leg, events)) <==> s != PENDING
  {
    if s == PENDING {
      PendingTellsTwice(leg);
      assert !Once(s, leg, TWICE);
    } else {
      forall events: seq<Event> ensures Once(s, leg, events) {
        LiveOnce(s, leg, events);
      }
    }
  }

  // --- what a reply leads to ---

  /** At work at the broker, as far as the machine knows. */
  predicate Working(s: OrderState) {
    s in {SUBMITTED, OPEN, PARTIAL, UNKNOWN_IN_FLIGHT}
  }

  /** A COMPLETE reply to an order at work completes it and tells its fill, once. */
  lemma CompleteIsTold(o: Order)
    requires o.watched && o.pc == Idle && Working(o.osm)
    ensures Run(o, [Poll(Complete), PublishFill, Untrack])
         == o.(osm := COMPLETE, watched := false, events := o.events + [OrderFilled])
  {
    RunThree(o, Poll(Complete), PublishFill, Untrack);
  }

  /** A cancelled or rejected order ends in that state, and what was filled of it is told first. */
  lemma EndIsReached(o: Order, rejected: bool)
    requires o.watched && o.pc == Idle && o.osm in {SUBMITTED, OPEN, PARTIAL}
    ensures var end := Run(o, [Poll(if rejected then Rejected else Cancelled), PublishPartial, TerminalTransition]);
      && end == o.(osm := if rejected then FAILED else CANCELLED, pc := Untracking, events := end.events)
      && end.events == if o.filled == 0 then o.events else o.events + [OrderPartiallyTerminated]
    ensures var end := Run(o, [Poll(if rejected then Rejected else Cancelled), PublishPartial, TerminalTransition]);
      !Next(end, Untrack).watched && Next(end, Untrack).osm == end.osm
  {
    RunThree(o, Poll(if rejected then Rejected else Cancelled), PublishPartial, TerminalTransition);
    var to := if rejected then FAILED else CANCELLED;
    Publishes(o.(pc := Terminating(to)), to);
    assert Told(o.filled) == [] ==> o.events + Told(o.filled) == o.events;
    Transitions(o.(pc := Terminated(to), events := o.events + Told(o.filled)), to);
  }

  /** A graceful shutdown cancels what is no exit; an unreadable reply changes nothing, and a lost order is let go. */
  lemma OtherStepsLead(o: Order)
    ensures o.leg == Exit ==> Next(o, ShutdownCancel) == o
    ensures o.leg != Exit && o.osm in {SUBMITTED, OPEN, PARTIAL} ==>
      Next(o, ShutdownCancel) == o.(osm := CANCELLED, watched := false)
    ensures o.watched && o.pc == Idle ==> Next(o, Poll(Unavailable)) == o
    ensures o.watched && o.pc == Idle ==> Run(o, [Poll(Lost), Untrack]) == o.(watched := false)
  {
    RunThree(o, Poll(Lost), Untrack, Untrack);
  }

  /** The paper thread fills an order at work: it completes it and tells the fill, and does neither for one that has ended. */
  lemma PaperThreadFills(o: Order)
    requires o.synth == Waiting
    ensures Working(o.osm) ==>
      Run(o, [SynthTransition, SynthPublish]) == o.(osm := COMPLETE, synth := Gone, events := o.events + [OrderFilled])
    ensures Terminal(o.osm) ==> Run(o, [SynthTransition, SynthPublish]) == o.(synth := Gone)
  {
    RunThree(o, SynthTransition, SynthPublish, SynthPublish);
  }

  // --- rehydrated orders ---

  /** Only SUBMITTED is reached again: PENDING has no step to OPEN or PARTIAL. */
  lemma RehydratedState(status: Status, leg: Leg)
    ensures Rehydrated(status, leg) == Live(if status == Stored(SUBMITTED) then SUBMITTED else PENDING, leg)
  {
  }

  /** The reply neither moves an order off PENDING nor takes it off the watch list. */
  predicate KeepsPending(e: Event) {
    e.Poll? ==> e.reply.Unavailable? || e.reply.Partial? || e.reply.Complete? || e.reply.Cancelled?
  }

  predicate Stuck(o: Order) {
    && o.osm == PENDING && o.watched && o.synth == Absent && OrderFilled !in o.events
    && (o.pc == Idle || o.pc == Terminating(CANCELLED) || o.pc == Terminated(CANCELLED))
  }

  lemma StuckNext(o: Order, e: Event)
    requires Stuck(o) && KeepsPending(e)
    ensures Stuck(Next(o, e))
  {
  }

  lemma {:induction false} StuckRun(o: Order, events: seq<Event>)
    requires Stuck(o) && forall e :: e in events ==> KeepsPending(e)
    ensures Stuck(Run(o, events))
    decreases |events|
  {
    if events != [] {
      StuckNext(o, events[0]);
      StuckRun(Next(o, events[0]), events[1..]);
    }
  }

  const FILL := [Poll(Complete), PublishFill, Untrack]

  /**
   * The fill of an order that completed while the process was down is told on the first poll
   * exactly when the store had it at SUBMITTED.
   */
  lemma RehydratedFillIff(status: Status, leg: Leg)
    ensures Run(Rehydrated(status, leg), FILL).events == [OrderFilled] <==> status == Stored(SUBMITTED)
    ensures status != Stored(SUBMITTED) ==> Run(Rehydrated(status, leg), FILL) == Rehydrated(status, leg)
  {
    RehydratedState(status, leg);
    RunThree(Rehydrated(status, leg), Poll(Complete), PublishFill, Untrack);
  }

  /** From any other status it is never told, however often it is polled, unless the broker first calls the order open. */
  lemma RehydratedFillLost(status: Status, leg: Leg, events: seq<Event>)
    requires status != Stored(SUBMITTED) && forall e :: e in events ==> KeepsPending(e)
    ensures OrderFilled !in Run(Rehydrated(status, leg), events).events && Run(Rehydrated(status, leg), events).watched
  {
    RehydratedState(status, leg);
    StuckRun(Rehydrated(status, leg), events);
  }

  // --- paper: a synthetic fill, and an adapter that answers from its own record ---

  /** The three statuses _paper_fills ever holds. */
  datatype FillRecord = SUBMITTED_FILL | COMPLETE_FILL | CANCELLED_FILL

  /** What the monitor makes of the status that get_order_history reads from the record. */
  function PaperReply(record: FillRecord): Reply {
    match record
    case SUBMITTED_FILL => StillOpen
    case COMPLETE_FILL => Complete
    case CANCELLED_FILL => Cancelled
  }

  /** A step of some thread, a poll of the record, the fill thread's write to it, or a cancel_order. */
  datatype PaperStep = Step(e: Event) | Asked | Recorded | CancelRecorded

  /** Recorded may come at any time once the fill thread has won; a poll gets the record's own answer. */
  function PaperNext(o: Order, record: FillRecord, step: PaperStep): (Order, FillRecord) {
    match step
    case Step(e) => (if e.Poll? then o else Next(o, e), record)
    case Asked => (Next(o, Poll(PaperReply(record))), record)
    case Recorded => (o, if o.synth == Won then COMPLETE_FILL else record)
    case CancelRecorded => (o, CANCELLED_FILL)
  }

  function PaperRun(o: Order, record: FillRecord, steps: seq<PaperStep>): (Order, FillRecord)
    decreases |steps|
  {
    if steps == [] then (o, record)
    else
      var (next, now) := PaperNext(o, record, steps[0]);
      PaperRun(next, now, steps[1..])
  }

  /** Every fill event, published or about to be, stands for the one transition into COMPLETE. */
  function Fills(o: Order): nat {
    |o.events| + (if o.pc == Filling then 1 else 0) + (if o.synth == Won then 1 else 0)
  }

  predicate PaperInv(o: Order) {
    && o.filled == 0 && !o.pc.AfterPartial?
    && Fills(o) <= (if o.osm == COMPLETE then 1 else 0)
  }

  lemma PaperPoll(o: Order, reply: Reply)
    requires PaperInv(o) && !reply.Partial? && o.pc == Idle
    ensures PaperInv(HandlePoll(o, reply))
  {
  }

  lemma PaperKeeps(o: Order, e: Event)
    requires PaperInv(o) && !(e.Poll? && e.reply.Partial?)
    ensures PaperInv(Next(o, e))
  {
    if e.Poll? && o.pc == Idle { PaperPoll(o, e.reply); }
  }

  lemma {:induction false} PaperRunKeeps(o: Order, record: FillRecord, steps: seq<PaperStep>)
    requires PaperInv(o)
    ensures PaperInv(PaperRun(o, record, steps).0)
    decreases |steps|
  {
    if steps != [] {
      match steps[0] {
        case Step(e) => if !e.Poll? { PaperKeeps(o, e); }
        case Asked => PaperKeeps(o, Poll(PaperReply(record)));
        case _ =>
      }
      var (next, now) := PaperNext(o, record, steps[0]);
      PaperRunKeeps(next, now, steps[1..]);
    }
  }

  /** On paper the fill thread races with the monitor, and at most one of them tells the fill. */
  lemma PaperFillEventOnce(leg: Leg, steps: seq<PaperStep>)
    ensures |PaperRun(Tracked(leg, true), SUBMITTED_FILL, steps).0.events| <= 1
  {
    PaperRunKeeps(Tracked(leg, true), SUBMITTED_FILL, steps);
  }
}
