/**
 * The monitor of broker/order_monitor.py as it runs when no other thread steps in: its watch
 * map, its handlers and its poll cycle, tied to the interleaving model of one order.
 */
module PollCycles {
  import opened OrderStates
  import opened OrderMonitors

  datatype Watch = Watch(leg: Leg, filled: nat, partialSeen: bool)

  /** What clock, market and broker decide during one poll: timeouts, price drift, and whether a cancel is accepted. */
  datatype Luck = Luck(timedOut: bool, cancelled: bool, drifted: bool, driftCancelled: bool)

  const TO_THE_END := [PublishPartial, TerminalTransition, Untrack]

  /** The steps one poll of an order takes, in order. */
  function Schedule(o: Order, reply: Reply, luck: Luck): seq<Event> {
    match reply
    case Unavailable => [Poll(reply)]
    case StillOpen =>
      if Raises(o, OPEN) then [Poll(reply)]
      else if o.leg != Exit && luck.timedOut then [Poll(reply), if luck.cancelled then OpenCancelled else OpenOrphaned, Untrack]
      else if o.leg == Entry && luck.drifted && luck.driftCancelled then [Poll(reply), OpenCancelled, Untrack]
      else [Poll(reply), OpenGoesOn]
    case Partial(_) =>
      if Raises(o, PARTIAL) then [Poll(reply)]
      else if (o.leg == Entry && !o.partialSeen) || (o.leg != Exit && luck.timedOut)
      then [Poll(reply)] + if luck.cancelled then [PartialCancelled] + TO_THE_END else [PartialOrphaned, Untrack]
      else [Poll(reply), PartialGoesOn]
    case Complete => [Poll(reply), PublishFill, Untrack]
    case Cancelled => [Poll(reply), PublishPartial, TerminalTransition, Untrack]
    case Rejected => [Poll(reply), PublishPartial, TerminalTransition, Untrack]
    case Lost => [Poll(reply), Untrack]
  }

  /** Where one poll leaves an order. */
  function Outcome(o: Order, reply: Reply, luck: Luck): Order {
    match reply
    case Unavailable => o
    case StillOpen =>
      if Raises(o, OPEN) then o
      else if o.leg != Exit && luck.timedOut then Left(To(To(o, OPEN), if luck.cancelled then CANCELLED else FAILED))
      else if o.leg == Entry && luck.drifted && luck.driftCancelled then Left(To(To(o, OPEN), CANCELLED))
      else To(o, OPEN)
    case Partial(qty) =>
      var seen := To(Seen(o, qty), PARTIAL);
      if Raises(o, PARTIAL) then seen
      else if (o.leg == Entry && !o.partialSeen) || (o.leg != Exit && luck.timedOut)
      then (if luck.cancelled then Ended(seen, CANCELLED) else Left(seen))
      else seen
    case Complete => if Allows(o.osm, COMPLETE) then Left(o.(osm := COMPLETE, events := o.events + [OrderFilled])) else o
    case Cancelled => Ended(o, CANCELLED)
    case Rejected => Ended(o, FAILED)
    case Lost => Left(o)
  }

  function Seen(o: Order, qty: nat): Order {
    o.(filled := if qty > o.filled then qty else o.filled, partialSeen := true)
  }

  function Left(o: Order): Order {
    o.(watched := false)
  }

  /** _handle_terminal: publish first, then transition, which may raise. */
  function Ended(o: Order, to: OrderState): Order {
    var told := o.(events := o.events + Told(o.filled));
    if Raises(o, to) then told else Left(To(told, to))
  }

  lemma Untracks(o: Order)
    ensures Next(o, Untrack) == if o.pc == Untracking then Left(o).(pc := Idle) else o
  {
  }

  lemma OpenPolled(o: Order, luck: Luck)
    requires o.pc == Idle && o.watched
    ensures Run(o, Schedule(o, StillOpen, luck)) == Outcome(o, StillOpen, luck)
  {
    var poll := Poll(StillOpen);
    if Raises(o, OPEN) {
      RunThree(o, poll, Untrack, Untrack);
    } else {
      var o1 := To(o, OPEN).(pc := AfterOpen);
      assert Next(o, poll) == o1;
      if o.leg != Exit && luck.timedOut {
        var cancel := if luck.cancelled then OpenCancelled else OpenOrphaned;
        RunThree(o, poll, cancel, Untrack);
        Untracks(Next(o1, cancel));
      } else if o.leg == Entry && luck.drifted && luck.driftCancelled {
        RunThree(o, poll, OpenCancelled, Untrack);
        Untracks(Next(o1, OpenCancelled));
      } else {
        RunThree(o, poll, OpenGoesOn, Untrack);
      }
    }
  }

  lemma EndIsEnded(o: Order, to: OrderState)
    requires o.pc == Terminating(to) && o.watched
    ensures Run(o, TO_THE_END) == Ended(o, to).(pc := Idle)
  {
    RunThree(o, PublishPartial, TerminalTransition, Untrack);
    Publishes(o, to);
    Transitions(Next(o, PublishPartial), to);
    Untracks(Next(Next(o, PublishPartial), TerminalTransition));
  }

  lemma PartialCancels(o: Order)
    requires o.pc.AfterPartial? && o.watched && o.leg != Exit
    ensures Run(o, [PartialCancelled] + TO_THE_END) == Ended(o, CANCELLED).(pc := Idle)
  {
    RunFirst(o, PartialCancelled, TO_THE_END);
    EndIsEnded(o.(pc := Terminating(CANCELLED)), CANCELLED);
  }

  lemma PartialOrphans(o: Order)
    requires o.pc.AfterPartial? && o.watched && o.leg != Exit
    ensures Run(o, [PartialOrphaned, Untrack]) == Left(o).(pc := Idle)
  {
    RunThree(o, PartialOrphaned, Untrack, Untrack);
    Untracks(o.(pc := Untracking));
  }

  lemma PartialPolled(o: Order, qty: nat, luck: Luck)
    requires o.pc == Idle && o.watched
    ensures Run(o, Schedule(o, Partial(qty), luck)) == Outcome(o, Partial(qty), luck)
  {
    var poll := Poll(Partial(qty));
    if Raises(o, PARTIAL) {
      RunThree(o, poll, Untrack, Untrack);
    } else {
      var o1 := To(Seen(o, qty), PARTIAL).(pc := AfterPartial(!o.partialSeen));
      assert Next(o, poll) == o1;
      if (o.leg == Entry && !o.partialSeen) || (o.leg != Exit && luck.timedOut) {
        if luck.cancelled { PartialCancels(o1); } else { PartialOrphans(o1); }
        RunFirst(o, poll, if luck.cancelled then [PartialCancelled] + TO_THE_END else [PartialOrphaned, Untrack]);
      } else {
        RunThree(o, poll, PartialGoesOn, Untrack);
      }
    }
  }

  lemma EndPolled(o: Order, reply: Reply, luck: Luck)
    requires o.pc == Idle && o.watched && (reply.Complete? || reply.Lost? || reply.Unavailable?)
    ensures Run(o, Schedule(o, reply, luck)) == Outcome(o, reply, luck)
  {
    RunThree(o, Poll(reply), PublishFill, Untrack);
    RunThree(o, Poll(reply), Untrack, Untrack);
  }

  lemma TerminalPolled(o: Order, reply: Reply, luck: Luck)
    requires o.pc == Idle && o.watched && (reply.Cancelled? || reply.Rejected?)
    ensures Run(o, Schedule(o, reply, luck)) == Outcome(o, reply, luck)
  {
    assert Schedule(o, reply, luck) == [Poll(reply)] + TO_THE_END;
    RunFirst(o, Poll(reply), TO_THE_END);
    EndIsEnded(Next(o, Poll(reply)), if reply.Cancelled? then CANCELLED else FAILED);
  }

  /** One poll without interference is one uninterrupted stretch of the interleaving model, and leaves the poll thread idle. */
  lemma PollIsARun(o: Order, reply: Reply, luck: Luck)
    requires o.pc == Idle && o.watched
    ensures Run(o, Schedule(o, reply, luck)) == Outcome(o, reply, luck)
    ensures Run(o, Schedule(o, reply, luck)).pc == Idle
  {
    match reply
    case StillOpen => OpenPolled(o, luck);
    case Partial(qty) => PartialPolled(o, qty, luck);
    case Cancelled => TerminalPolled(o, reply, luck);
    case Rejected => TerminalPolled(o, reply, luck);
    case _ => EndPolled(o, reply, luck);
  }

  lemma Prepends(before: seq<Terminated>, more: seq<Terminated>)
    ensures before + ([] + more) == before + more
    ensures before + [] == before
  {
  }

  lemma EndedAddsEvents(o: Order, before: seq<Terminated>, to: OrderState)
    requires o.events == []
    ensures Ended(o.(events := before), to) == Ended(o, to).(events := before + Ended(o, to).events)
  {
    Prepends(before, Told(o.filled));
  }

  /** What was published earlier makes no difference to a poll. */
  lemma OutcomeAddsEvents(o: Order, before: seq<Terminated>, reply: Reply, luck: Luck)
    requires o.events == []
    ensures Outcome(o.(events := before), reply, luck)
         == Outcome(o, reply, luck).(events := before + Outcome(o, reply, luck).events)
  {
    Prepends(before, [OrderFilled]);
    match reply
    case Cancelled => EndedAddsEvents(o, before, CANCELLED);
    case Rejected => EndedAddsEvents(o, before, FAILED);
    case Partial(qty) => EndedAddsEvents(To(Seen(o, qty), PARTIAL), before, CANCELLED);
    case _ =>
  }

  function Tag(id: string, events: seq<Terminated>): seq<(string, Terminated)> {
    seq(|events|, i requires 0 <= i < |events| => (id, events[i]))
  }

  function EventsOf(published: seq<(string, Terminated)>, id: string): seq<Terminated> {
    if published == [] then []
    else EventsOf(published[..|published| - 1], id)
         + if published[|published| - 1].0 == id then [published[|published| - 1].1] else []
  }

  lemma {:induction false} EventsOfTagged(published: seq<(string, Terminated)>, id: string, events: seq<Terminated>, other: string)
    ensures EventsOf(published + Tag(id, events), other) == EventsOf(published, other) + if id == other then events else []
  {
    if events == [] {
      assert published + Tag(id, events) == published;
    } else {
      var n := |events| - 1;
      assert (published + Tag(id, events))[..|published| + n] == published + Tag(id, events[..n]);
      assert events == events[..n] + [events[n]];
      EventsOfTagged(published, id, events[..n], other);
    }
  }

  /** Where an open reply takes a state: the transition, then the timeout's cancel, then the price check's. */
  function OpenMoves(from: OrderState, leg: Leg, luck: Luck): OrderState {
    var s1 := Moved(from, OPEN);
    var s2 := if leg != Exit && luck.timedOut then Moved(s1, if luck.cancelled then CANCELLED else FAILED) else s1;
    if leg == Entry && luck.drifted && luck.driftCancelled then Moved(s2, CANCELLED) else s2
  }

  predicate OpenLeaves(leg: Leg, luck: Luck) {
    (leg != Exit && luck.timedOut) || (leg == Entry && luck.drifted && luck.driftCancelled)
  }

  lemma OpenOutcome(o: Order, luck: Luck)
    requires o.watched
    ensures Outcome(o, StillOpen, luck)
            == if Raises(o, OPEN) then o
               else o.(osm := OpenMoves(o.osm, o.leg, luck), watched := !OpenLeaves(o.leg, luck))
  {
  }

  lemma WritesBack(watched: map<string, Watch>, id: string)
    requires id in watched
    ensures watched == watched[id := Watch(watched[id].leg, watched[id].filled, watched[id].partialSeen)]
  {
  }

  lemma TagsNothing(published: seq<(string, Terminated)>, id: string)
    ensures published == published + Tag(id, [])
  {
  }

  /** What the interleaving model sees of one watched order at the start of a poll. */
  function ViewOf(states: States, watched: map<string, Watch>, id: string): Order
    requires id in states && id in watched
  {
    Order(states[id], true, watched[id].leg, watched[id].filled, watched[id].partialSeen, Idle, Absent, [])
  }

  /** An order polled to `o`, with what had been published for it before. */
  ghost predicate PolledTo(desk: Desk, id: string, o: Order, before: seq<Terminated>) {
    && id in desk.states && desk.states[id] == o.osm
    && (id in desk.watched <==> o.watched)
    && (id in desk.watched ==> desk.watched[id] == Watch(o.leg, o.filled, o.partialSeen))
    && EventsOf(desk.published, id) == before + o.events
  }

  /** All that a poll cycle works on. */
  datatype Desk = Desk(states: States, watched: map<string, Watch>, published: seq<(string, Terminated)>)

  ghost predicate OnlyChanged(before: Desk, after: Desk, id: string) {
    && after.states.Keys == before.states.Keys
    && after.states - {id} == before.states - {id} && after.watched - {id} == before.watched - {id}
    && forall other :: other != id ==> EventsOf(after.published, other) == EventsOf(before.published, other)
  }

  ghost predicate Untouched(before: Desk, after: Desk, id: string) {
    && (id in after.states <==> id in before.states) && (id in after.states ==> after.states[id] == before.states[id])
    && (id in after.watched <==> id in before.watched) && (id in after.watched ==> after.watched[id] == before.watched[id])
    && EventsOf(after.published, id) == EventsOf(before.published, id)
  }

  /** One order has become `o`: what a poll leaves on the desk. */
  lemma OnePolled(before: Desk, after: Desk, id: string, o: Order)
    requires id in before.states && id in before.watched
    requires after.states == before.states[id := o.osm]
    requires after.watched == if o.watched then before.watched[id := Watch(o.leg, o.filled, o.partialSeen)] else before.watched - {id}
    requires after.published == before.published + Tag(id, o.events)
    ensures PolledTo(after, id, o, EventsOf(before.published, id)) && OnlyChanged(before, after, id)
  {
    forall other ensures EventsOf(after.published, other) == EventsOf(before.published, other) + if other == id then o.events else [] {
      EventsOfTagged(before.published, id, o.events, other);
    }
  }

  /** Midway through a cycle: some orders polled to their targets, all others as they were. */
  ghost predicate Midway(before: Desk, now: Desk, targets: map<string, Order>, todo: set<string>) {
    forall id ::
      if id in targets && id !in todo then PolledTo(now, id, targets[id], EventsOf(before.published, id))
      else Untouched(before, now, id)
  }

  lemma MidwayStep(before: Desk, now: Desk, next: Desk, targets: map<string, Order>, todo: set<string>, id: string)
    requires Midway(before, now, targets, todo) && id in todo && id in targets
    requires PolledTo(next, id, targets[id], EventsOf(now.published, id)) && OnlyChanged(now, next, id)
    ensures Midway(before, next, targets, todo - {id})
  {
    assert Untouched(before, now, id);
    forall other | other != id
      ensures Untouched(now, next, other)
    {
      assert other in next.states <==> other in (next.states - {id});
      assert other in next.watched <==> other in (next.watched - {id});
      assert other in now.watched <==> other in (now.watched - {id});
      if other in now.states { assert (next.states - {id})[other] == (now.states - {id})[other]; }
      if other in now.watched { assert (next.watched - {id})[other] == (now.watched - {id})[other]; }
    }
    forall other
      ensures if other in targets && other !in todo - {id}
              then PolledTo(next, other, targets[other], EventsOf(before.published, other))
              else Untouched(before, next, other)
    {
      if other != id {
        assert Untouched(now, next, other);
        if other in targets && other !in todo {
          assert PolledTo(now, other, targets[other], EventsOf(before.published, other));
        } else {
          assert Untouched(before, now, other);
        }
      }
    }
  }

  ghost predicate InForce(desk: Desk) {
    forall id :: id in desk.watched ==> id in desk.states
  }

  ghost function Targets(before: Desk, replies: string -> Reply, luck: string -> Luck): map<string, Order>
    requires InForce(before)
  {
    map id | id in before.watched :: Outcome(ViewOf(before.states, before.watched, id), replies(id), luck(id))
  }

  lemma MidwayView(before: Desk, now: Desk, targets: map<string, Order>, todo: set<string>, id: string)
    requires Midway(before, now, targets, todo) && id in todo && InForce(before) && id in before.watched
    ensures id in now.watched && id in now.states
    ensures ViewOf(now.states, now.watched, id) == ViewOf(before.states, before.watched, id)
  {
    assert Untouched(before, now, id);
  }

  lemma CycleDone(before: Desk, now: Desk, targets: map<string, Order>)
    requires Midway(before, now, targets, {}) && InForce(before) && targets.Keys == before.watched.Keys
    ensures InForce(now)
    ensures forall id :: id in targets ==> PolledTo(now, id, targets[id], EventsOf(before.published, id))
    ensures forall id :: id !in targets ==> Untouched(before, now, id)
  {
    forall id | id in now.watched ensures id in now.states {
      assert id in targets || Untouched(before, now, id);
      assert PolledTo(now, id, targets[id], EventsOf(before.published, id));
    }
  }

  /** What PollCycle does to the desk. */
  ghost predicate Cycled(before: Desk, after: Desk, replies: string -> Reply, luck: string -> Luck) {
    && InForce(before)
    && (forall id :: id in before.watched ==>
          PolledTo(after, id, Targets(before, replies, luck)[id], EventsOf(before.published, id)))
    && (forall id :: id !in before.watched ==> Untouched(before, after, id))
  }

  class OrderMonitor {
    const osm: OrderStateMachine
    var watched: map<string, Watch>
    var published: seq<(string, Terminated)>

    constructor (osm: OrderStateMachine)
      ensures this.osm == osm && watched == map[] && published == []
    {
      this.osm, watched, published := osm, map[], [];
    }

    ghost predicate Valid()
      reads this, osm
    {
      InForce(All())
    }

    function View(id: string): Order
      requires id in osm.states && id in watched
      reads this, osm
    {
      ViewOf(osm.states, watched, id)
    }

    ghost function All(): Desk
      reads this, osm
    {
      Desk(osm.states, watched, published)
    }

    /** One order has become `o`, what it published is added, and nothing else has changed. */
    twostate predicate Becomes(id: string, o: Order)
      reads this, osm
    {
      && osm.states == old(osm.states)[id := o.osm]
      && watched == (if o.watched then old(watched)[id := Watch(o.leg, o.filled, o.partialSeen)] else old(watched) - {id})
      && published == old(published) + Tag(id, o.events)
    }

    /** _safe_transition: what it swallows, and what it raises. */
    method SafeTransition(id: string, to: OrderState) returns (moved: bool, raised: bool)
      modifies osm
      ensures id in old(osm.states) ==>
        && osm.states == old(osm.states)[id := Moved(old(osm.states)[id], to)]
        && moved == CanMove(old(osm.states)[id], to)
        && raised == (!moved && !Terminal(old(osm.states)[id]) && old(osm.states)[id] != to)
      ensures id !in old(osm.states) ==> osm.states == old(osm.states) && !moved && !raised
    {
      var r := osm.Do(Transition(id, to));
      if r == Ok { return true, false; }
      if r == Unregistered { return false, false; }
      var from := r.from;
      if Terminal(from) { return false, false; }
      if from == PENDING && to == OPEN {
        r := osm.Do(Transition(id, SUBMITTED));
        r := osm.Do(Transition(id, OPEN));
        return true, false;
      }
      return false, from != to;
    }

    /** Transition and untrack, whatever the transition says. */
    method Leave(id: string, to: OrderState)
      requires id in osm.states
      modifies `watched, osm
      ensures osm.states == old(osm.states)[id := Moved(old(osm.states)[id], to)] && watched == old(watched) - {id}
    {
      var _, _ := SafeTransition(id, to);
      watched := watched - {id};
    }

    /** _check_fill_timeout: exits are exempt; a refused cancel makes an orphan. */
    method CheckFillTimeout(id: string, leg: Leg, luck: Luck)
      requires id in osm.states
      modifies `watched, osm
      ensures var out, to := leg != Exit && luck.timedOut, if luck.cancelled then CANCELLED else FAILED;
        && osm.states == old(osm.states)[id := if out then Moved(old(osm.states)[id], to) else old(osm.states)[id]]
        && watched == if out then old(watched) - {id} else old(watched)
    {
      if leg != Exit && luck.timedOut { Leave(id, if luck.cancelled then CANCELLED else FAILED); }
    }

    /** _check_price_movement_cancel: entries only; a refused cancel leaves the order watched. */
    method CheckPriceMovement(id: string, leg: Leg, luck: Luck)
      requires id in osm.states
      modifies `watched, osm
      ensures var out := leg == Entry && luck.drifted && luck.driftCancelled;
        && osm.states == old(osm.states)[id := if out then Moved(old(osm.states)[id], CANCELLED) else old(osm.states)[id]]
        && watched == if out then old(watched) - {id} else old(watched)
    {
      if leg == Entry && luck.drifted && luck.driftCancelled { Leave(id, CANCELLED); }
    }

    method HandleOpen(id: string, luck: Luck)
      requires id in osm.states && id in watched
      modifies `watched, osm
      ensures Becomes(id, Outcome(old(View(id)), StillOpen, luck))
    {
      OpenOutcome(View(id), luck);
      WritesBack(watched, id);
      TagsNothing(published, id);
      DoOpen(id, luck);
    }

    method DoOpen(id: string, luck: Luck)
      requires id in osm.states && id in watched
      modifies `watched, osm
      ensures var from, leg := old(osm.states)[id], old(watched)[id].leg;
        if Moved(from, OPEN) == from && !Terminal(from) && from != OPEN
        then osm.states == old(osm.states) && watched == old(watched)
        else && osm.states == old(osm.states)[id := OpenMoves(from, leg, luck)]
             && watched == if OpenLeaves(leg, luck) then old(watched) - {id} else old(watched)
    {
      var leg := watched[id].leg;
      var moved, raised := SafeTransition(id, OPEN);
      if raised { return; }
      CheckFillTimeout(id, leg, luck);
      CheckPriceMovement(id, leg, luck);
    }

    /** Partial quantities are told before the transition, which may raise and leave the order watched. */
    method HandleTerminal(id: string, to: OrderState)
      requires id in osm.states && id in watched
      modifies this, osm
      ensures Becomes(id, Ended(old(View(id)), to))
    {
      ghost var o := View(id);
      Tell(id);
      assert Ended(o, to).events == Told(o.filled);
      Finish(id, to);
    }

    method Tell(id: string)
      requires id in watched
      modifies `published
      ensures published == old(published) + Tag(id, Told(watched[id].filled))
    {
      if watched[id].filled > 0 {
        published := published + [(id, OrderPartiallyTerminated)];
      }
    }

    method Finish(id: string, to: OrderState)
      requires id in osm.states && id in watched
      modifies `watched, osm
      ensures var raised := Raises(old(View(id)), to);
        && osm.states == old(osm.states)[id := To(old(View(id)), to).osm]
        && watched == if raised then old(watched) else old(watched) - {id}
    {
      var moved, raised := SafeTransition(id, to);
      if !raised { watched := watched - {id}; }
    }

    method HandlePartial(id: string, qty: nat, luck: Luck)
      requires id in osm.states && id in watched
      modifies this, osm
      ensures Becomes(id, Outcome(old(View(id)), Partial(qty), luck))
    {
      ghost var o := View(id);
      var leg, first := watched[id].leg, !watched[id].partialSeen;
      var raised := SeePartial(id, qty);
      if raised { return; }
      assert View(id) == To(Seen(o, qty), PARTIAL);
      TagsNothing(published, id);
      if (leg == Entry && first) || (leg != Exit && luck.timedOut) {
        CancelPartial(id, luck);
      }
    }

    method SeePartial(id: string, qty: nat) returns (raised: bool)
      requires id in osm.states && id in watched
      modifies `watched, osm
      ensures raised == Raises(old(View(id)), PARTIAL)
      ensures Becomes(id, To(Seen(old(View(id)), qty), PARTIAL))
    {
      var w := watched[id];
      watched := watched[id := Watch(w.leg, if qty > w.filled then qty else w.filled, true)];
      var moved;
      moved, raised := SafeTransition(id, PARTIAL);
    }

    method CancelPartial(id: string, luck: Luck)
      requires id in osm.states && id in watched
      modifies this, osm
      ensures Becomes(id, if luck.cancelled then Ended(old(View(id)), CANCELLED) else Left(old(View(id))))
    {
      if luck.cancelled { HandleTerminal(id, CANCELLED); } else { watched := watched - {id}; }
    }

    method HandleComplete(id: string, luck: Luck)
      requires id in osm.states && id in watched
      modifies this, osm
      ensures Becomes(id, Outcome(old(View(id)), Complete, luck))
    {
      ghost var o := View(id);
      var moved, raised := SafeTransition(id, COMPLETE);
      if !moved { return; }
      published := published + [(id, OrderFilled)];
      assert published == old(published) + Tag(id, Outcome(o, Complete, luck).events);
      watched := watched - {id};
    }

    /** One poll of one order, its broker reply in hand. */
    method ProcessOrder(id: string, reply: Reply, luck: Luck)
      requires id in osm.states && id in watched
      modifies this, osm
      ensures Becomes(id, Outcome(old(View(id)), reply, luck))
    {
      match reply {
        case Unavailable =>
        case StillOpen => HandleOpen(id, luck);
        case Partial(qty) => HandlePartial(id, qty, luck);
        case Complete => HandleComplete(id, luck);
        case Cancelled => HandleTerminal(id, CANCELLED);
        case Rejected => HandleTerminal(id, FAILED);
        case Lost => watched := watched - {id};
      }
    }

    method PollOne(id: string, reply: Reply, luck: Luck)
      requires id in osm.states && id in watched
      modifies this, osm
      ensures PolledTo(All(), id, Outcome(old(View(id)), reply, luck), old(EventsOf(published, id)))
      ensures OnlyChanged(old(All()), All(), id)
    {
      ghost var o, before := Outcome(View(id), reply, luck), All();
      ProcessOrder(id, reply, luck);
      OnePolled(before, All(), id, o);
    }

    /**
     * _poll_cycle: every order watched at the start is polled exactly once, to its own
     * outcome; no order's reply touches another, in whatever order they are taken.
     */
    method PollCycle(replies: string -> Reply, luck: string -> Luck)
      requires Valid()
      modifies this, osm
      ensures Valid()
      ensures Cycled(old(All()), All(), replies, luck)
    {
      ghost var before := All();
      ghost var targets := Targets(before, replies, luck);
      var todo := watched.Keys;
      while todo != {}
        invariant todo <= before.watched.Keys && Midway(before, All(), targets, todo)
        decreases |todo|
      {
        var id :| id in todo;
        MidwayView(before, All(), targets, todo, id);
        ghost var now := All();
        PollOne(id, replies(id), luck(id));
        assert PolledTo(All(), id, targets[id], EventsOf(now.published, id));
        MidwayStep(before, now, All(), targets, todo, id);
        todo := todo - {id};
      }
      CycleDone(before, All(), targets);
    }
  }

  /** Polls of one order, one after the other: once it is no longer watched, they do nothing. */
  function Polls(o: Order, replies: seq<(Reply, Luck)>): Order
    decreases |replies|
  {
    if replies == [] then o
    else Polls(if o.watched then Outcome(o, replies[0].0, replies[0].1) else o, replies[1..])
  }

  lemma {:induction false} PollsAreARun(o: Order, replies: seq<(Reply, Luck)>) returns (events: seq<Event>)
    requires o.pc == Idle
    ensures Polls(o, replies) == Run(o, events)
    decreases |replies|
  {
    if replies == [] {
      events := [];
    } else if o.watched {
      PollIsARun(o, replies[0].0, replies[0].1);
      var now := Schedule(o, replies[0].0, replies[0].1);
      var rest := PollsAreARun(Run(o, now), replies[1..]);
      events := now + rest;
      RunConcat(o, now, rest);
    } else {
      events := PollsAreARun(o, replies[1..]);
    }
  }

  /** The broker and the clock during one cycle. */
  datatype Round = Round(replies: string -> Reply, luck: string -> Luck)

  /** One desk after the other, each the last one cycled. */
  ghost predicate Cycles(desks: seq<Desk>, rounds: seq<Round>) {
    && |desks| == |rounds| + 1
    && forall i :: 0 <= i < |rounds| ==> Cycled(desks[i], desks[i + 1], rounds[i].replies, rounds[i].luck)
  }

  function RepliesTo(rounds: seq<Round>, id: string): seq<(Reply, Luck)> {
    seq(|rounds|, i requires 0 <= i < |rounds| => (rounds[i].replies(id), rounds[i].luck(id)))
  }

  function PollIfWatched(o: Order, reply: Reply, luck: Luck): Order {
    if o.watched then Outcome(o, reply, luck) else o
  }

  lemma {:induction false} PollsLast(o: Order, replies: seq<(Reply, Luck)>, reply: Reply, luck: Luck)
    ensures Polls(o, replies + [(reply, luck)]) == PollIfWatched(Polls(o, replies), reply, luck)
    decreases |replies|
  {
    if replies == [] {
      assert replies + [(reply, luck)] == [(reply, luck)];
    } else {
      assert (replies + [(reply, luck)])[1..] == replies[1..] + [(reply, luck)];
      PollsLast(PollIfWatched(o, replies[0].0, replies[0].1), replies[1..], reply, luck);
    }
  }

  lemma PolledOnTop(after: Desk, id: string, view: Order, events: seq<Terminated>, start: seq<Terminated>, reply: Reply, luck: Luck)
    requires view.events == [] && PolledTo(after, id, Outcome(view, reply, luck), start + events)
    ensures PolledTo(after, id, Outcome(view.(events := events), reply, luck), start)
  {
    OutcomeAddsEvents(view, events, reply, luck);
    assert start + (events + Outcome(view, reply, luck).events) == (start + events) + Outcome(view, reply, luck).events;
  }

  /** One cycle polls an order once more, whatever it does to the others. */
  lemma OneMorePoll(before: Desk, after: Desk, round: Round, id: string, o: Order, start: seq<Terminated>)
    requires Cycled(before, after, round.replies, round.luck) && PolledTo(before, id, o, start)
    requires o.pc == Idle && o.synth == Absent
    ensures PolledTo(after, id, PollIfWatched(o, round.replies(id), round.luck(id)), start)
  {
    if o.watched {
      var view := ViewOf(before.states, before.watched, id);
      assert view.(events := o.events) == o;
      assert PolledTo(after, id, Targets(before, round.replies, round.luck)[id], start + o.events);
      PolledOnTop(after, id, view, o.events, start, round.replies(id), round.luck(id));
    } else {
      assert Untouched(before, after, id);
    }
  }

  lemma StaysIdle(o: Order, reply: Reply, luck: Luck)
    requires o.pc == Idle && o.synth == Absent
    ensures PollIfWatched(o, reply, luck).pc == Idle && PollIfWatched(o, reply, luck).synth == Absent
  {
  }

  /** Over any cycles of the whole desk, each order is polled as if it were alone. */
  lemma {:induction false} CyclesArePolls(desks: seq<Desk>, rounds: seq<Round>, id: string)
    requires Cycles(desks, rounds) && id in desks[0].watched && id in desks[0].states
    ensures var o := Polls(ViewOf(desks[0].states, desks[0].watched, id), RepliesTo(rounds, id));
      o.pc == Idle && o.synth == Absent && PolledTo(desks[|rounds|], id, o, EventsOf(desks[0].published, id))
    decreases |rounds|
  {
    var first, start := ViewOf(desks[0].states, desks[0].watched, id), EventsOf(desks[0].published, id);
    if rounds == [] {
      assert start + [] == start;
    } else {
      var n := |rounds| - 1;
      FirstCycles(desks, rounds, n);
      CyclesArePolls(desks[..n + 1], rounds[..n], id);
      LastReply(rounds, id, first);
      LastCycle(desks, rounds, id, Polls(first, RepliesTo(rounds[..n], id)), start);
    }
  }

  lemma LastReply(rounds: seq<Round>, id: string, first: Order)
    requires rounds != []
    ensures var n := |rounds| - 1;
      Polls(first, RepliesTo(rounds, id))
      == PollIfWatched(Polls(first, RepliesTo(rounds[..n], id)), rounds[n].replies(id), rounds[n].luck(id))
  {
    var n := |rounds| - 1;
    assert RepliesTo(rounds, id) == RepliesTo(rounds[..n], id) + [(rounds[n].replies(id), rounds[n].luck(id))];
    PollsLast(first, RepliesTo(rounds[..n], id), rounds[n].replies(id), rounds[n].luck(id));
  }

  lemma LastCycle(desks: seq<Desk>, rounds: seq<Round>, id: string, o: Order, start: seq<Terminated>)
    requires Cycles(desks, rounds) && rounds != [] && PolledTo(desks[|rounds| - 1], id, o, start)
    requires o.pc == Idle && o.synth == Absent
    ensures var n := |rounds| - 1; var next := PollIfWatched(o, rounds[n].replies(id), rounds[n].luck(id));
      next.pc == Idle && next.synth == Absent && PolledTo(desks[n + 1], id, next, start)
  {
    var n := |rounds| - 1;
    assert Cycled(desks[n], desks[n + 1], rounds[n].replies, rounds[n].luck);
    OneMorePoll(desks[n], desks[n + 1], rounds[n], id, o, start);
    StaysIdle(o, rounds[n].replies(id), rounds[n].luck(id));
  }

  /**
   * Any number of cycles over any watch list, whatever the broker replies and the clock
   * allows: each order that is newly watched beyond PENDING has at most one fill event published.
   */
  lemma CyclesPublishOnce(desks: seq<Desk>, rounds: seq<Round>, id: string)
    requires Cycles(desks, rounds) && id in desks[0].watched && id in desks[0].states
    requires desks[0].states[id] != PENDING && !desks[0].watched[id].partialSeen && desks[0].watched[id].filled == 0
    ensures |EventsOf(desks[|rounds|].published, id)| <= |EventsOf(desks[0].published, id)| + 1
  {
    CyclesArePolls(desks, rounds, id);
    var o := ViewOf(desks[0].states, desks[0].watched, id);
    assert o == Live(o.osm, o.leg);
    var events := PollsAreARun(o, RepliesTo(rounds, id));
    LiveOnce(o.osm, o.leg, events);
  }

  /**
   * Where an open reply leads. An order still held at PENDING, SUBMITTED or in flight is open
   * now; an entry or unnamed leg past its time is cancelled, or given up when the cancel fails;
   * an entry whose price ran away is cancelled when the broker lets it; exits stay.
   */
  lemma OpenLeads(o: Order, luck: Luck)
    requires o.osm in {PENDING, SUBMITTED, OPEN, UNKNOWN_IN_FLIGHT}
    ensures var next := Outcome(o, StillOpen, luck);
      && next.events == o.events && next.filled == o.filled
      && (o.leg == Exit ==> next.osm == OPEN && next.watched == o.watched)
      && (o.leg != Exit && luck.timedOut ==> next.osm == (if luck.cancelled then CANCELLED else FAILED) && !next.watched)
      && (o.leg == Entry && !luck.timedOut && luck.drifted && luck.driftCancelled ==> next.osm == CANCELLED && !next.watched)
      && (!(o.leg != Exit && luck.timedOut) && !(o.leg == Entry && luck.drifted && luck.driftCancelled) ==>
            next.osm == OPEN && next.watched == o.watched)
  {
  }

  /**
   * Where a partial reply leads. The largest quantity seen is kept; an entry is cancelled at its
   * first partial fill, other legs but exits after their time; a refused cancel gives the order up.
   */
  lemma PartialLeads(o: Order, qty: nat, luck: Luck)
    requires o.osm in {SUBMITTED, OPEN, PARTIAL, UNKNOWN_IN_FLIGHT}
    ensures var next := Outcome(o, Partial(qty), luck);
            var cut := (o.leg == Entry && !o.partialSeen) || (o.leg != Exit && luck.timedOut);
      && next.filled == (if qty > o.filled then qty else o.filled) && next.partialSeen
      && (!cut ==> next.osm == PARTIAL && next.watched == o.watched && next.events == o.events)
      && (cut && !luck.cancelled ==> next.osm == PARTIAL && !next.watched && next.events == o.events)
      && (cut && luck.cancelled ==> next.osm == CANCELLED && !next.watched)
      && (cut && luck.cancelled ==> next.events == o.events + if next.filled > 0 then [OrderPartiallyTerminated] else [])
  {
  }

  // --- every fill is told ---

  lemma UntouchedTwice(a: Desk, b: Desk, c: Desk, id: string)
    requires Untouched(a, b, id) && Untouched(b, c, id)
    ensures Untouched(a, c, id)
  {
  }

  lemma OneLeavesAlone(desks: seq<Desk>, rounds: seq<Round>, i: nat, id: string)
    requires Cycles(desks, rounds) && i < |rounds| && id !in desks[i].watched
    ensures Untouched(desks[i], desks[i + 1], id)
  {
    assert Cycled(desks[i], desks[i + 1], rounds[i].replies, rounds[i].luck);
  }

  /** One cycle, for one order that it polls. */
  lemma OnePolls(desks: seq<Desk>, rounds: seq<Round>, i: nat, id: string)
    requires Cycles(desks, rounds) && i < |rounds| && id in desks[i].watched && id in desks[i].states
    ensures PolledTo(desks[i + 1], id,
                     Outcome(ViewOf(desks[i].states, desks[i].watched, id), rounds[i].replies(id), rounds[i].luck(id)),
                     EventsOf(desks[i].published, id))
  {
    assert Cycled(desks[i], desks[i + 1], rounds[i].replies, rounds[i].luck);
    assert Targets(desks[i], rounds[i].replies, rounds[i].luck)[id]
        == Outcome(ViewOf(desks[i].states, desks[i].watched, id), rounds[i].replies(id), rounds[i].luck(id));
  }

  lemma CompleteEnds(o: Order, luck: Luck)
    requires Working(o.osm) && o.events == []
    ensures Outcome(o, Complete, luck) == o.(osm := COMPLETE, watched := false, events := [OrderFilled])
  {
  }

  lemma TerminalEnds(o: Order, reply: Reply, luck: Luck)
    requires o.osm in {SUBMITTED, OPEN, PARTIAL} && o.events == [] && reply in {Cancelled, Rejected}
    ensures Outcome(o, reply, luck)
         == o.(osm := if reply == Cancelled then CANCELLED else FAILED, watched := false,
               events := if o.filled == 0 then [] else [OrderPartiallyTerminated])
  {
    Prepends([], Told(o.filled));
  }

  /** No cycle touches an order that is not watched. */
  ghost predicate LeftAlone(desks: seq<Desk>, id: string) {
    forall i :: 0 <= i < |desks| - 1 && id !in desks[i].watched ==> Untouched(desks[i], desks[i + 1], id)
  }

  lemma CyclesLeaveAlone(desks: seq<Desk>, rounds: seq<Round>, id: string)
    requires Cycles(desks, rounds)
    ensures LeftAlone(desks, id)
  {
    forall i | 0 <= i < |desks| - 1 && id !in desks[i].watched ensures Untouched(desks[i], desks[i + 1], id) {
      OneLeavesAlone(desks, rounds, i, id);
    }
  }

  /** A closed order stays as it is, whatever is polled beside it. */
  lemma {:induction false} ClosedStays(desks: seq<Desk>, id: string, i: nat, j: nat)
    requires LeftAlone(desks, id) && i <= j < |desks| && id !in desks[i].watched
    ensures Untouched(desks[i], desks[j], id)
    decreases j - i
  {
    if i < j {
      ClosedStays(desks, id, i, j - 1);
      UntouchedTwice(desks[i], desks[j - 1], desks[j], id);
    }
  }

  /** What the desk shows of an order that has ended. */
  ghost predicate EndedAs(desk: Desk, id: string, s: OrderState, told: seq<Terminated>) {
    && id in desk.states && desk.states[id] == s && id !in desk.watched && EventsOf(desk.published, id) == told
  }

  lemma EndedStays(desks: seq<Desk>, rounds: seq<Round>, id: string, i: nat, s: OrderState, told: seq<Terminated>)
    requires Cycles(desks, rounds) && i <= |rounds| && EndedAs(desks[i], id, s, told)
    ensures forall j :: i <= j <= |rounds| ==> EndedAs(desks[j], id, s, told)
  {
    CyclesLeaveAlone(desks, rounds, id);
    forall j | i <= j <= |rounds| ensures EndedAs(desks[j], id, s, told) {
      ClosedStays(desks, id, i, j);
    }
  }

  /** A COMPLETE reply to an order at work tells its fill in that very cycle, and nothing undoes it later. */
  lemma CompleteReachesDesk(desks: seq<Desk>, rounds: seq<Round>, id: string, i: nat)
    requires Cycles(desks, rounds) && i < |rounds| && id in desks[i].watched && id in desks[i].states
    requires desks[i].states[id] in {SUBMITTED, OPEN, PARTIAL, UNKNOWN_IN_FLIGHT} && rounds[i].replies(id) == Complete
    ensures forall j :: i < j <= |rounds| ==>
      EndedAs(desks[j], id, COMPLETE, EventsOf(desks[i].published, id) + [OrderFilled])
  {
    OnePolls(desks, rounds, i, id);
    CompleteEnds(ViewOf(desks[i].states, desks[i].watched, id), rounds[i].luck(id));
    EndedStays(desks, rounds, id, i + 1, COMPLETE, EventsOf(desks[i].published, id) + [OrderFilled]);
  }

  /** A cancelled or rejected order ends as such in that cycle, what was filled of it told once. */
  lemma EndReachesDesk(desks: seq<Desk>, rounds: seq<Round>, id: string, i: nat)
    requires Cycles(desks, rounds) && i < |rounds| && id in desks[i].watched && id in desks[i].states
    requires desks[i].states[id] in {SUBMITTED, OPEN, PARTIAL} && rounds[i].replies(id) in {Cancelled, Rejected}
    ensures var told := EventsOf(desks[i].published, id)
                        + if desks[i].watched[id].filled == 0 then [] else [OrderPartiallyTerminated];
      forall j :: i < j <= |rounds| ==>
        EndedAs(desks[j], id, if rounds[i].replies(id) == Cancelled then CANCELLED else FAILED, told)
  {
    OnePolls(desks, rounds, i, id);
    TerminalEnds(ViewOf(desks[i].states, desks[i].watched, id), rounds[i].replies(id), rounds[i].luck(id));
    var told := if desks[i].watched[id].filled == 0 then [] else [OrderPartiallyTerminated];
    EndedStays(desks, rounds, id, i + 1, if rounds[i].replies(id) == Cancelled then CANCELLED else FAILED,
               EventsOf(desks[i].published, id) + told);
  }

  /** The broker still works on the order, and neither a timeout nor a price check takes it off the list. */
  predicate KeepsWorking(leg: Leg, reply: Reply, luck: Luck) {
    || reply.Unavailable?
    || (reply.StillOpen? && (leg == Exit || !luck.timedOut) && !(leg == Entry && luck.drifted && luck.driftCancelled))
    || (reply.Partial? && (leg == Exit || (leg == Unset && !luck.timedOut)))
  }

  lemma StillWorking(o: Order, reply: Reply, luck: Luck)
    requires Working(o.osm) && o.watched && KeepsWorking(o.leg, reply, luck)
    ensures var next := PollIfWatched(o, reply, luck);
      Working(next.osm) && next.watched && next.leg == o.leg && next.events == o.events
  {
  }

  lemma {:induction false} WorkingThrough(o: Order, replies: seq<(Reply, Luck)>)
    requires Working(o.osm) && o.watched && forall i :: 0 <= i < |replies| ==> KeepsWorking(o.leg, replies[i].0, replies[i].1)
    ensures var next := Polls(o, replies); Working(next.osm) && next.watched && next.events == o.events
    decreases |replies|
  {
    if replies != [] {
      StillWorking(o, replies[0].0, replies[0].1);
      var next := PollIfWatched(o, replies[0].0, replies[0].1);
      forall i | 0 <= i < |replies[1..]| ensures KeepsWorking(next.leg, replies[1..][i].0, replies[1..][i].1) {
        assert replies[1..][i] == replies[i + 1];
      }
      WorkingThrough(next, replies[1..]);
    }
  }

  lemma FirstCycles(desks: seq<Desk>, rounds: seq<Round>, n: nat)
    requires Cycles(desks, rounds) && n <= |rounds|
    ensures Cycles(desks[..n + 1], rounds[..n])
  {
    forall i | 0 <= i < n
      ensures Cycled(desks[..n + 1][i], desks[..n + 1][i + 1], rounds[..n][i].replies, rounds[..n][i].luck)
    {
      assert Cycled(desks[i], desks[i + 1], rounds[i].replies, rounds[i].luck);
    }
  }

  /**
   * From placement to fill: an order watched at SUBMITTED that the broker works on for any
   * number of cycles and then completes has its fill told exactly once, in the cycle that
   * first hears of it, whatever else is on the desk.
   */
  lemma FillIsTold(desks: seq<Desk>, rounds: seq<Round>, id: string, n: nat)
    requires Cycles(desks, rounds) && n < |rounds| && id in desks[0].watched && id in desks[0].states
    requires desks[0].states[id] in {SUBMITTED, OPEN, PARTIAL, UNKNOWN_IN_FLIGHT}
    requires forall i :: 0 <= i < n ==> KeepsWorking(desks[0].watched[id].leg, rounds[i].replies(id), rounds[i].luck(id))
    requires rounds[n].replies(id) == Complete
    ensures forall j :: 0 <= j <= n ==> EventsOf(desks[j].published, id) == EventsOf(desks[0].published, id)
    ensures forall j :: n < j <= |rounds| ==>
      EndedAs(desks[j], id, COMPLETE, EventsOf(desks[0].published, id) + [OrderFilled])
  {
    forall j | 0 <= j <= n
      ensures EventsOf(desks[j].published, id) == EventsOf(desks[0].published, id)
      ensures id in desks[j].watched && id in desks[j].states && Working(desks[j].states[id])
    {
      WorkedOn(desks, rounds, id, j);
    }
    CompleteReachesDesk(desks, rounds, id, n);
  }

  lemma WorkedOn(desks: seq<Desk>, rounds: seq<Round>, id: string, n: nat)
    requires Cycles(desks, rounds) && n <= |rounds| && id in desks[0].watched && id in desks[0].states
    requires Working(desks[0].states[id])
    requires forall i :: 0 <= i < n ==> KeepsWorking(desks[0].watched[id].leg, rounds[i].replies(id), rounds[i].luck(id))
    ensures EventsOf(desks[n].published, id) == EventsOf(desks[0].published, id)
    ensures id in desks[n].watched && id in desks[n].states && Working(desks[n].states[id])
  {
    FirstCycles(desks, rounds, n);
    CyclesArePolls(desks[..n + 1], rounds[..n], id);
    var first := ViewOf(desks[0].states, desks[0].watched, id);
    WorkingThrough(first, RepliesTo(rounds[..n], id));
    var o := Polls(first, RepliesTo(rounds[..n], id));
    assert PolledTo(desks[n], id, o, EventsOf(desks[0].published, id));
    assert EventsOf(desks[0].published, id) + [] == EventsOf(desks[0].published, id);
  }
}
