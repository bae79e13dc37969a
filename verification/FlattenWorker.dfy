/**
 * The asynchronous flatten of the kill switch: dispatch, worker, inline fallback and drain.
 * Every section under _flatten_lock is one step; all interleavings of any number of
 * dispatchers, workers and drains are considered.
 */
module FlattenWorkers {
  import opened Options

  datatype FlattenState = IDLE | RUNNING | DRAINING | COMPLETE

  /** A flatten is named by the dispatch that won it; so is its thread. */
  type Id = int

  /** The winning dispatcher: created the thread, saw start() raise, or runs the flatten inline. */
  datatype Dispatcher = Starting | StartFailed | Inline | Returned

  /** Body covers the flatten up to the `finally` that writes COMPLETE, crash or not. */
  datatype Thread = NotStarted | Body | Exited | Dead

  datatype Drain = Joining(thread: Id) | Joined(thread: Id) | Finished(result: bool) | JoinRaised

  datatype World = World(
    state: FlattenState, handle: Option<Id>, latest: Option<Id>,
    dispatchers: map<Id, Dispatcher>, threads: map<Id, Thread>, drains: map<Id, Drain>)

  const START := World(IDLE, None, None, map[], map[], map[])

  datatype Event =
    | Dispatch(d: Id)
    | StartOk(d: Id)
    | StartRaises(d: Id)
    | FallBack(d: Id)
    | InlineEnds(d: Id)
    | BodyEnds(t: Id)
    | ThreadDies(t: Id)
    | BeginDrain(r: Id)
    | JoinEnds(r: Id)
    | JoinTimesOut(r: Id)
    | EndDrain(r: Id)

  /** is_flatten_in_progress. */
  predicate InProgress(w: World) {
    w.state == RUNNING || w.state == DRAINING
  }

  predicate At<T(==)>(m: map<Id, T>, k: Id, v: T) {
    k in m && m[k] == v
  }

  /** _dispatch_flatten_worker: True iff this call started the worker. */
  predicate Wins(w: World, d: Id) {
    d !in w.dispatchers && d !in w.threads && !InProgress(w)
  }

  function Next(w: World, e: Event): World {
    match e
    case Dispatch(d) =>
      if d in w.dispatchers || d in w.threads then w
      else if InProgress(w) then w.(dispatchers := w.dispatchers[d := Returned])
      else w.(state := RUNNING, handle := Some(d), latest := Some(d), dispatchers := w.dispatchers[d := Starting],
              threads := w.threads[d := NotStarted])
    case StartOk(d) =>
      if At(w.dispatchers, d, Starting) && At(w.threads, d, NotStarted)
      then w.(dispatchers := w.dispatchers[d := Returned], threads := w.threads[d := Body]) else w
    case StartRaises(d) =>
      if At(w.dispatchers, d, Starting) then w.(dispatchers := w.dispatchers[d := StartFailed]) else w
    case FallBack(d) =>
      if At(w.dispatchers, d, StartFailed) then w.(handle := None, dispatchers := w.dispatchers[d := Inline]) else w
    case InlineEnds(d) =>
      if At(w.dispatchers, d, Inline) then w.(state := COMPLETE, dispatchers := w.dispatchers[d := Returned]) else w
    case BodyEnds(t) =>
      if At(w.threads, t, Body) then w.(state := COMPLETE, threads := w.threads[t := Exited]) else w
    case ThreadDies(t) =>
      if At(w.threads, t, Exited) then w.(threads := w.threads[t := Dead]) else w
    case BeginDrain(r) =>
      if r in w.drains then w
      else if !InProgress(w) then w.(drains := w.drains[r := Finished(true)])
      else if w.handle.None? then w.(drains := w.drains[r := Finished(false)])
      else w.(state := DRAINING, drains := w.drains[r := Joining(w.handle.value)])
    case JoinEnds(r) =>
      if r !in w.drains || !w.drains[r].Joining? then w
      else if At(w.threads, w.drains[r].thread, NotStarted) then w.(drains := w.drains[r := JoinRaised])
      else if At(w.threads, w.drains[r].thread, Dead) then w.(drains := w.drains[r := Joined(w.drains[r].thread)])
      else w
    case JoinTimesOut(r) =>
      if r in w.drains && w.drains[r].Joining? && w.drains[r].thread in w.threads
         && w.threads[w.drains[r].thread] in {Body, Exited}
      then w.(drains := w.drains[r := Finished(false)]) else w
    case EndDrain(r) =>
      if r in w.drains && w.drains[r].Joined? then w.(state := COMPLETE, drains := w.drains[r := Finished(true)]) else w
  }

  function Run(w: World, events: seq<Event>): World
    decreases |events|
  {
    if events == [] then w else Run(Next(w, events[0]), events[1..])
  }

  /** From winning the dispatch to the write of COMPLETE. */
  predicate Unfinished(w: World, id: Id) {
    WithDispatcher(w, id) || At(w.threads, id, Body)
  }

  predicate WithDispatcher(w: World, id: Id) {
    At(w.dispatchers, id, Starting) || At(w.dispatchers, id, StartFailed) || At(w.dispatchers, id, Inline)
  }

  /** A drain between its first and its last section. */
  predicate Pending(d: Drain) {
    d.Joining? || d.Joined?
  }

  /** A pending drain whose thread did start: nothing but the thread's end keeps it from its closing write. */
  predicate Armed(w: World, d: Drain) {
    d.Joined? || (d.Joining? && d.thread in w.threads && w.threads[d.thread] != NotStarted)
  }

  ghost predicate DrainArmed(w: World) {
    exists r :: r in w.drains && Armed(w, w.drains[r])
  }

  /** Single flight, and an honest flag. */
  ghost predicate SingleFlight(w: World) {
    && (forall i, j :: Unfinished(w, i) && Unfinished(w, j) ==> i == j)
    && (InProgress(w) <==> exists i :: Unfinished(w, i))
  }

  /** What the proof carries: only the latest winner can be unfinished, and a pending drain waits for it, or for a thread that never starts. */
  ghost predicate Inv(w: World) {
    && (forall i :: Unfinished(w, i) ==> w.latest == Some(i))
    && (InProgress(w) <==> w.latest.Some? && Unfinished(w, w.latest.value))
    && (w.latest.Some? ==> w.latest.value in w.threads && w.latest.value in w.dispatchers)
    && (forall i :: WithDispatcher(w, i) ==> At(w.threads, i, NotStarted))
    && (w.handle.Some? ==> w.handle == w.latest)
    && (forall r :: r in w.drains && Pending(w.drains[r]) ==> Awaits(w, w.drains[r].thread))
    && (forall r :: r in w.drains && w.drains[r].Joined? ==> At(w.threads, w.drains[r].thread, Dead))
  }

  /** The thread of the latest winner, or one that will never start. */
  predicate Awaits(w: World, t: Id) {
    w.latest == Some(t) || (At(w.threads, t, NotStarted) && !At(w.dispatchers, t, Starting))
  }

  lemma InvIsSingleFlight(w: World)
    requires Inv(w)
    ensures SingleFlight(w)
  {
    if w.latest.Some? && Unfinished(w, w.latest.value) {
      assert exists i :: Unfinished(w, i);
    }
  }

  /** No dispatch wins while a drain is armed. */
  ghost predicate Guarded(w: World, e: Event) {
    e.Dispatch? && Wins(w, e.d) ==> !DrainArmed(w)
  }

  lemma DispatchInv(w: World, d: Id)
    requires Inv(w) && Guarded(w, Dispatch(d))
    ensures Inv(Next(w, Dispatch(d)))
  {
    var w' := Next(w, Dispatch(d));
    if Wins(w, d) {
      assert Unfinished(w', d);
      forall i | i != d ensures !Unfinished(w', i) && !WithDispatcher(w', i) {
        assert !Unfinished(w, i);
      }
      assert At(w'.threads, d, NotStarted);
      forall r | r in w.drains ensures !Armed(w, w.drains[r]) {
      }
    } else {
      forall i ensures (Unfinished(w', i) <==> Unfinished(w, i)) && (WithDispatcher(w', i) <==> WithDispatcher(w, i)) {
      }
    }
  }

  /** The sections of the flatten itself. */
  lemma FlattenInv(w: World, e: Event)
    requires Inv(w)
    requires e.StartOk? || e.StartRaises? || e.FallBack? || e.InlineEnds? || e.BodyEnds? || e.ThreadDies?
    ensures Inv(Next(w, e))
  {
    var w' := Next(w, e);
    if w' != w {
      var id := if e.BodyEnds? || e.ThreadDies? then e.t else e.d;
      forall i | i != id
        ensures (Unfinished(w', i) <==> Unfinished(w, i)) && (WithDispatcher(w', i) <==> WithDispatcher(w, i))
        ensures At(w'.threads, i, NotStarted) <==> At(w.threads, i, NotStarted) {
      }
      assert WithDispatcher(w', id) ==> WithDispatcher(w, id) && At(w'.threads, id, NotStarted);
      if !e.ThreadDies? { assert Unfinished(w, id); }
      assert Unfinished(w', id) <==> Unfinished(w, id) && !e.InlineEnds? && !e.BodyEnds?;
    }
  }

  lemma DrainInv(w: World, e: Event)
    requires Inv(w) && (e.BeginDrain? || e.JoinEnds? || e.JoinTimesOut? || e.EndDrain?)
    ensures Inv(Next(w, e))
  {
    var w' := Next(w, e);
    forall i ensures Unfinished(w', i) <==> Unfinished(w, i) {
    }
  }

  lemma NextInv(w: World, e: Event)
    requires Inv(w) && Guarded(w, e)
    ensures Inv(Next(w, e))
  {
    match e
    case Dispatch(d) => DispatchInv(w, d);
    case BeginDrain(_) => DrainInv(w, e);
    case JoinEnds(_) => DrainInv(w, e);
    case JoinTimesOut(_) => DrainInv(w, e);
    case EndDrain(_) => DrainInv(w, e);
    case _ => FlattenInv(w, e);
  }

  ghost predicate AllGuarded(w: World, events: seq<Event>)
    decreases |events|
  {
    events == [] || (Guarded(w, events[0]) && AllGuarded(Next(w, events[0]), events[1..]))
  }

  /**
   * While no dispatch wins during an armed drain, every interleaving keeps at most one
   * flatten unfinished, and is_flatten_in_progress is true exactly from dispatch to completion.
   */
  lemma {:induction false} AlwaysSingleFlight(w: World, events: seq<Event>)
    requires Inv(w) && AllGuarded(w, events)
    ensures Inv(Run(w, events)) && SingleFlight(Run(w, events))
    decreases |events|
  {
    if events == [] {
      InvIsSingleFlight(w);
    } else {
      NextInv(w, events[0]);
      AlwaysSingleFlight(Next(w, events[0]), events[1..]);
    }
  }

  /** From wherever a flatten is, its own next steps write COMPLETE: the flag never stays up behind a dead worker. */
  function Completion(w: World, id: Id): seq<Event> {
    if At(w.dispatchers, id, Starting) then [StartRaises(id), FallBack(id), InlineEnds(id)]
    else if At(w.dispatchers, id, StartFailed) then [FallBack(id), InlineEnds(id)]
    else if At(w.dispatchers, id, Inline) then [InlineEnds(id)]
    else if At(w.threads, id, Body) then [BodyEnds(id)]
    else []
  }

  lemma FlattenCompletes(w: World, id: Id)
    requires Inv(w) && Unfinished(w, id)
    ensures var w' := Run(w, Completion(w, id)); w'.state == COMPLETE && !Unfinished(w', id) && Inv(w')
  {
    var events := Completion(w, id);
    var w1 := Next(w, events[0]);
    NextInv(w, events[0]);
    if |events| > 1 {
      assert events[1..][0] == events[1];
      var w2 := Next(w1, events[1]);
      NextInv(w1, events[1]);
      assert Run(w, events) == Run(w1, events[1..]) == Run(w2, events[1..][1..]);
      if |events| > 2 {
        assert events[1..][1..][0] == events[2];
        NextInv(w2, events[2]);
        assert Run(w2, events[1..][1..]) == Run(Next(w2, events[2]), events[1..][1..][1..]);
      }
    }
  }

  /** What an armed drain still does on its own. */
  function DrainRest(w: World, r: Id): seq<Event>
    requires r in w.drains && Pending(w.drains[r])
  {
    if w.drains[r].Joined? then [EndDrain(r)]
    else if At(w.threads, w.drains[r].thread, Dead) then [JoinEnds(r), EndDrain(r)]
    else [ThreadDies(w.drains[r].thread), JoinEnds(r), EndDrain(r)]
  }

  lemma {:induction false} NoDispatchIsGuarded(w: World, events: seq<Event>)
    requires forall i :: 0 <= i < |events| ==> !events[i].Dispatch?
    ensures AllGuarded(w, events)
    decreases |events|
  {
    if events != [] {
      NoDispatchIsGuarded(Next(w, events[0]), events[1..]);
    }
  }

  /**
   * What a drain answers: true only when nothing is left running, and false only when a flatten
   * is, or when the join gave up on a thread in its last moment, its COMPLETE written.
   */
  lemma DrainAnswers(w: World, e: Event, r: Id, answer: bool)
    requires Inv(w) && (r in w.drains ==> !w.drains[r].Finished?)
    requires At(Next(w, e).drains, r, Finished(answer))
    ensures answer ==> forall i :: !Unfinished(Next(w, e), i)
    ensures !answer ==>
      || (exists i :: Unfinished(Next(w, e), i))
      || (e == JoinTimesOut(r) && r in w.drains && w.drains[r].Joining? && At(w.threads, w.drains[r].thread, Exited))
  {
    var w' := Next(w, e);
    forall i ensures Unfinished(w', i) <==> Unfinished(w, i) {
    }
    if !answer && e.BeginDrain? {
      assert Unfinished(w', w.latest.value);
    } else if !answer && !At(w.threads, w.drains[r].thread, Exited) {
      assert Unfinished(w', w.drains[r].thread);
    }
  }

  /**
   * A dispatch that wins while a drain is armed is lost: the drain's closing write puts the
   * flag down over the running flatten.
   */
  lemma ArmedDrainLies(w: World, r: Id, d: Id)
    requires Inv(w) && r in w.drains && Armed(w, w.drains[r]) && Wins(w, d)
    ensures var w1 := Next(w, Dispatch(d));
            && AllGuarded(w1, DrainRest(w, r))
            && var w2 := Run(w1, DrainRest(w, r)); Unfinished(w2, d) && !InProgress(w2) && !SingleFlight(w2)
  {
    var w1 := Next(w, Dispatch(d));
    var events := DrainRest(w, r);
    NoDispatchIsGuarded(w1, events);
    assert !Unfinished(w, w.drains[r].thread);
    var w2 := Next(w1, events[0]);
    if |events| > 1 {
      assert events[1..][0] == events[1];
      var w3 := Next(w2, events[1]);
      assert Run(w1, events) == Run(w2, events[1..]) == Run(w3, events[1..][1..]);
      if |events| > 2 {
        assert events[1..][1..][0] == events[2];
        assert Run(w3, events[1..][1..]) == Run(Next(w3, events[2]), events[1..][1..][1..]);
      }
    }
    assert Unfinished(Run(w1, events), d);
  }

  /** Exactly when is it safe to let a dispatch win? When no drain is armed. */
  lemma DispatchSafeIff(w: World, d: Id)
    requires Inv(w) && Wins(w, d)
    ensures (forall events :: AllGuarded(Next(w, Dispatch(d)), events) ==> SingleFlight(Run(Next(w, Dispatch(d)), events)))
            <==> !DrainArmed(w)
  {
    var w1 := Next(w, Dispatch(d));
    if DrainArmed(w) {
      var r :| r in w.drains && Armed(w, w.drains[r]);
      ArmedDrainLies(w, r, d);
    } else {
      NextInv(w, Dispatch(d));
      forall events | AllGuarded(w1, events) ensures SingleFlight(Run(w1, events)) {
        AlwaysSingleFlight(w1, events);
      }
    }
  }

  /** And once the flag is down, the next dispatch starts a second flatten beside the first. */
  lemma TwoFlattens(w: World, first: Id, second: Id)
    requires Unfinished(w, first) && !InProgress(w) && Wins(w, second)
    ensures Unfinished(Next(w, Dispatch(second)), first) && Unfinished(Next(w, Dispatch(second)), second)
  {
  }

  /** One worker and one drain, up to the point where the drain has joined the worker. */
  function JoinedTrace(): World {
    var w1 := Next(Next(START, Dispatch(1)), StartOk(1));
    var w2 := Next(Next(w1, BeginDrain(9)), BodyEnds(1));
    Next(Next(w2, ThreadDies(1)), JoinEnds(9))
  }

  lemma JoinedTraceShows()
    ensures At(JoinedTrace().drains, 9, Joined(1)) && Wins(JoinedTrace(), 2)
  {
  }

  /** The guard cannot be dropped: the state it excludes is reached by a worker that finishes before the closing write. */
  lemma StaleDrainReachable()
    ensures Reachable(JoinedTrace()) && Inv(JoinedTrace())
    ensures At(JoinedTrace().drains, 9, Joined(1)) && Wins(JoinedTrace(), 2)
  {
    JoinedTraceShows();
    assert Run(START, []) == START;
    assert Reachable(START);
    var w := Reach(START, Dispatch(1));
    w := Reach(w, StartOk(1));
    w := Reach(w, BeginDrain(9));
    w := Reach(w, BodyEnds(1));
    w := Reach(w, ThreadDies(1));
    w := Reach(w, JoinEnds(9));
    assert w == JoinedTrace();
  }

  ghost predicate Reachable(w: World) {
    exists events :: AllGuarded(START, events) && Run(START, events) == w
  }

  lemma {:induction false} RunSnoc(w: World, events: seq<Event>, e: Event)
    requires AllGuarded(w, events) && Guarded(Run(w, events), e)
    ensures AllGuarded(w, events + [e]) && Run(w, events + [e]) == Next(Run(w, events), e)
    decreases |events|
  {
    if events == [] {
      assert (events + [e])[1..] == [];
    } else {
      assert (events + [e])[1..] == events[1..] + [e];
      RunSnoc(Next(w, events[0]), events[1..], e);
    }
  }

  lemma Reach(w: World, e: Event) returns (w': World)
    requires Reachable(w) && Guarded(w, e)
    ensures w' == Next(w, e) && Reachable(w') && Inv(w')
  {
    w' := Next(w, e);
    var events :| AllGuarded(START, events) && Run(START, events) == w;
    RunSnoc(START, events, e);
    AlwaysSingleFlight(START, events + [e]);
  }
}
