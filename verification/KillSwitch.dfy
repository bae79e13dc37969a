/**
 * capital/kill_switch.py: the kill state. Every change is written to the store before memory
 * changes and before an event goes out.
 */
module KillSwitches {
  import opened Options

  datatype KillState = INACTIVE | SOFT_KILL | HARD_KILL

  /** The state with its reason, time (in seconds) and author, as held in memory and as stored in the single row. */
  datatype Kill = Kill(state: KillState, reason: string, at: Option<int>, who: string)

  datatype KillEvent = KillEvent(kind: KillState, reason: string, previous: KillState, who: string)

  const NOTHING := Kill(INACTIVE, "", None, "")

  const SECONDS_PER_DAY := 86400

  function Day(at: int): int {
    at / SECONDS_PER_DAY
  }

  const SCHEDULED := {"circuit_breaker_force_close_15:15", "EOD_SQUAREOFF"}

  datatype Failure = NoException | Timeout | RateLimit | Auth | OtherFailure

  /** FIX-191: only connectivity failures count towards the auto-trip. */
  predicate Counts(f: Failure) {
    f.NoException? || f.Timeout? || f.RateLimit?
  }

  /** What a call asks for, and on what grounds it is a no-op. */
  datatype Request =
    | SoftKill(reason: string, who: string)
    | HardKill(reason: string, who: string)
    | Resume(reason: string, who: string)
    | ClearStale(today: int)
    | ClearScheduled(openPositions: nat)

  /** The state a request moves to, from `k`; None when it is ignored or refused. */
  function Target(k: Kill, q: Request, ts: int): Option<Kill> {
    match q
    case SoftKill(reason, who) => if k.state == INACTIVE then Some(Kill(SOFT_KILL, reason, Some(ts), who)) else None
    case HardKill(reason, who) => if k.state != HARD_KILL then Some(Kill(HARD_KILL, reason, Some(ts), who)) else None
    case Resume(reason, who) =>
      if who != "" && k.state != INACTIVE then Some(Kill(INACTIVE, reason, Some(ts), who)) else None
    case ClearStale(today) =>
      if k.state != INACTIVE && k.at.Some? && Day(k.at.value) < today
      then Some(Kill(INACTIVE, "auto_clear_stale", Some(ts), "main.auto_clear_stale")) else None
    case ClearScheduled(openPositions) =>
      if k.state == SOFT_KILL && k.reason in SCHEDULED && openPositions == 0
      then Some(Kill(INACTIVE, "auto_clear_scheduled", Some(ts), "auto_clear_scheduled")) else None
  }

  /** The clears are audited, not published. */
  function EventOf(k: Kill, q: Request): seq<KillEvent> {
    match q
    case SoftKill(reason, who) => [KillEvent(SOFT_KILL, reason, k.state, who)]
    case HardKill(reason, who) => [KillEvent(HARD_KILL, reason, k.state, who)]
    case Resume(reason, who) => [KillEvent(INACTIVE, reason, k.state, who)]
    case _ => []
  }

  datatype Outcome = Done | Ignored | WriteError

  class KillSwitch {
    var current: Kill
    var apiFailureCount: nat
    const threshold: nat
    const autoTrip: bool

    /** The kill_switch_state row, and the bus. */
    var row: Option<Kill>
    var published: seq<KillEvent>

    /** Construction loads an active state from a readable row; anything else starts INACTIVE. */
    constructor (row: Option<Kill>, readable: bool, threshold: nat, autoTrip: bool)
      ensures current == Loaded(row, readable) && apiFailureCount == 0 && this.row == row && published == []
      ensures this.threshold == threshold && this.autoTrip == autoTrip
    {
      this.threshold, this.autoTrip := threshold, autoTrip;
      current := if readable && row.Some? && row.value.state != INACTIVE then row.value else NOTHING;
      apiFailureCount := 0;
      this.row := row;
      published := [];
    }

    method Persist(k: Kill, writeOk: bool)
      modifies `row
      ensures row == if writeOk then Some(k) else old(row)
    {
      if writeOk { row := Some(k); }
    }

    /** A failed write changes neither state, nor row, nor events; a done request changed all three together. */
    method Apply(q: Request, ts: int, writeOk: bool) returns (o: Outcome)
      modifies `current, `row, `published
      ensures o == if Target(old(current), q, ts).None? then Ignored else if writeOk then Done else WriteError
      ensures o != Done ==> current == old(current) && row == old(row) && published == old(published)
      ensures o == Done ==>
                && Some(current) == Target(old(current), q, ts) == row
                && published == old(published) + EventOf(old(current), q)
    {
      var target := Target(current, q, ts);
      if target.None? { return Ignored; }
      var previous := current;
      Persist(target.value, writeOk);
      if !writeOk { return WriteError; }
      current := target.value;
      published := published + EventOf(previous, q);
      return Done;
    }

    /** The count decides; the trip itself is a soft kill. */
    method RecordApiFailure(f: Failure, ts: int, writeOk: bool) returns (tripped: bool)
      modifies this
      ensures apiFailureCount == if Counts(f) then old(apiFailureCount) + 1 else old(apiFailureCount)
      ensures tripped <==> Counts(f) && autoTrip && apiFailureCount >= threshold && old(current).state == INACTIVE && writeOk
      ensures tripped ==> current.state == SOFT_KILL && row == Some(current) && |published| == |old(published)| + 1
      ensures !tripped ==> current == old(current) && row == old(row) && published == old(published)
    {
      if !Counts(f) { return false; }
      apiFailureCount := apiFailureCount + 1;
      if !autoTrip || apiFailureCount < threshold || current.state != INACTIVE { return false; }
      var o := Apply(SoftKill("Auto-trip: consecutive API failures", "auto_trip"), ts, writeOk);
      return o == Done;
    }

    method RecordSuccess()
      modifies `apiFailureCount
      ensures apiFailureCount == 0
    {
      apiFailureCount := 0;
    }

    /** The last-mile order gate. */
    predicate IsActive(forExit: bool)
      reads this
    {
      current.state == HARD_KILL || (!forExit && current.state == SOFT_KILL)
    }
  }

  // --- runs with failing writes, crashes and restarts ---

  function Loaded(row: Option<Kill>, readable: bool): Kill {
    if readable && row.Some? && row.value.state != INACTIVE then row.value else NOTHING
  }

  /** How far a request gets: the process may die before or after the write, or before the event. */
  datatype Fate = Completes | WriteFails | DiesBeforeWrite | DiesAfterWrite | DiesBeforeEvent

  datatype Step = Request(q: Request, ts: int, fate: Fate) | Restart(readable: bool)

  /** `memory` is None while the process is down. */
  datatype System = System(memory: Option<Kill>, row: Option<Kill>, events: seq<KillEvent>)

  function Next(y: System, step: Step): System {
    match step
    case Restart(readable) => y.(memory := Some(Loaded(y.row, readable)))
    case Request(q, ts, fate) =>
      if y.memory.None? then y
      else
        var k := y.memory.value;
        var target := Target(k, q, ts);
        if target.None? then (if fate in {Completes, WriteFails} then y else y.(memory := None))
        else
          match fate
          case Completes => System(target, target, y.events + EventOf(k, q))
          case WriteFails => y
          case DiesBeforeWrite => y.(memory := None)
          case DiesAfterWrite => y.(memory := None, row := target)
          case DiesBeforeEvent => y.(memory := None, row := target)
  }

  function Run(y: System, steps: seq<Step>): System
    decreases |steps|
  {
    if steps == [] then y else Run(Next(y, steps[0]), steps[1..])
  }

  function StateOf(k: Option<Kill>): KillState {
    if k.Some? then k.value.state else INACTIVE
  }

  /** The state in force: what memory says, or what a restart would load. */
  function InForce(y: System): KillState {
    if y.memory.Some? then y.memory.value.state else StateOf(y.row)
  }

  /** Memory is what a restart would load, but for the bookkeeping of an inactive state. */
  predicate Agrees(y: System) {
    y.memory.Some? ==> StateOf(y.row) == y.memory.value.state && (y.memory.value.state != INACTIVE ==> y.row == y.memory)
  }

  predicate Readable(steps: seq<Step>) {
    forall i :: 0 <= i < |steps| && steps[i].Restart? ==> steps[i].readable
  }

  /** The only steps that may end a hard kill. */
  predicate Weakens(y: System, step: Step) {
    match step
    case Restart(readable) => !readable
    case Request(q, _, _) =>
      match q
      case Resume(_, _) => true
      case ClearStale(today) =>
        y.memory.Some? && y.memory.value.at.Some? && Day(y.memory.value.at.value) < today
      case _ => false
  }

  lemma NextAgrees(y: System, step: Step)
    requires Agrees(y) && (step.Restart? ==> step.readable)
    ensures Agrees(Next(y, step))
  {
  }

  /** Memory and store agree after every run, whatever writes failed and wherever the process died. */
  lemma {:induction false} RunAgrees(y: System, steps: seq<Step>)
    requires Agrees(y) && Readable(steps)
    ensures Agrees(Run(y, steps))
    decreases |steps|
  {
    if steps != [] {
      assert Readable(steps[..1]) && Readable(steps[1..]);
      NextAgrees(y, steps[0]);
      RunAgrees(Next(y, steps[0]), steps[1..]);
    }
  }

  /** A restart puts back the state that was in force, kill for kill; the events are not repeated. */
  lemma RestartResumes(y: System, steps: seq<Step>)
    requires Agrees(y) && Readable(steps)
    ensures var before, after := Run(y, steps), Next(Run(y, steps), Restart(true));
            && InForce(after) == InForce(before)
            && (before.memory.Some? && InForce(before) != INACTIVE ==> after.memory == before.memory)
            && after.events == before.events && after.row == before.row
  {
    RunAgrees(y, steps);
  }

  /** Without a readable row a restart forgets the kill: exactly when one was in force. */
  lemma UnreadableRestartForgets(y: System)
    ensures InForce(Next(y, Restart(false))) == INACTIVE
    ensures InForce(Next(y, Restart(false))) == InForce(y) <==> InForce(y) == INACTIVE
  {
  }

  /** The steps during which the hard kill must be watched: none of them weakens it. */
  ghost predicate NeverWeakened(y: System, steps: seq<Step>)
    decreases |steps|
  {
    steps == [] || (!Weakens(y, steps[0]) && NeverWeakened(Next(y, steps[0]), steps[1..]))
  }

  lemma HardKillStep(y: System, step: Step)
    requires Agrees(y) && InForce(y) == HARD_KILL && !Weakens(y, step)
    ensures InForce(Next(y, step)) == HARD_KILL && Agrees(Next(y, step))
  {
  }

  /** A hard kill survives every run of failing writes, crashes and restarts that has no resume and no stale clear. */
  lemma {:induction false} HardKillStays(y: System, steps: seq<Step>)
    requires Agrees(y) && InForce(y) == HARD_KILL && NeverWeakened(y, steps)
    ensures InForce(Run(y, steps)) == HARD_KILL
    decreases |steps|
  {
    if steps != [] {
      HardKillStep(y, steps[0]);
      HardKillStays(Next(y, steps[0]), steps[1..]);
    }
  }

  /** Conversely, a running hard kill ends at a step exactly when that step weakens it and its write goes through. */
  lemma HardKillEnds(y: System, step: Step)
    requires Agrees(y) && y.memory.Some? && InForce(y) == HARD_KILL
    ensures InForce(Next(y, step)) != HARD_KILL
            <==> && Weakens(y, step)
                 && (step.Request? ==> step.fate !in {WriteFails, DiesBeforeWrite})
                 && (step.Request? && step.q.Resume? ==> step.q.who != "")
  {
  }

  /** Events never run ahead of the store: the last published change was stored, and nothing is published for a failed write. */
  lemma FailedWriteIsSilent(y: System, q: Request, ts: int)
    ensures Next(y, Request(q, ts, WriteFails)) == y
    ensures Next(y, Request(q, ts, DiesBeforeWrite)).events == y.events && Next(y, Request(q, ts, DiesBeforeWrite)).row == y.row
  {
  }

  /** Only failures to reach the broker count towards the trip. */
  lemma CountedFailures(f: Failure)
    ensures Counts(f) <==> f in {NoException, Timeout, RateLimit}
  {
  }

  /**
   * What a request that goes through does to the kill in force: a hard kill wins over anything,
   * a soft one over nothing in force; a resume ends either when somebody signs for it; a new
   * day ends what an earlier day left; and a flat book ends a soft kill of the daily routine.
   */
  lemma RequestDecides(y: System, q: Request, ts: int)
    requires y.memory.Some?
    ensures var k, after := y.memory.value, InForce(Next(y, Step.Request(q, ts, Completes)));
      match q
      case HardKill(_, _) => after == HARD_KILL
      case SoftKill(_, _) => after == if k.state == INACTIVE then SOFT_KILL else k.state
      case Resume(_, who) => after == if who == "" then k.state else INACTIVE
      case ClearStale(today) =>
        after == if k.at.Some? && k.at.value < today * 86400 then INACTIVE else k.state
      case ClearScheduled(openPositions) =>
        after == if && k.state == SOFT_KILL && openPositions == 0
                    && (k.reason == "circuit_breaker_force_close_15:15" || k.reason == "EOD_SQUAREOFF")
                 then INACTIVE else k.state
  {
  }

  /** Whose kill it is, why and since when: a change replaces all of it, anything else none. */
  lemma RequestSigns(y: System, q: Request, ts: int)
    requires y.memory.Some?
    ensures var k, y' := y.memory.value, Next(y, Step.Request(q, ts, Completes));
      && (q.HardKill? && k.state != HARD_KILL ==> y'.memory == Some(Kill(HARD_KILL, q.reason, Some(ts), q.who)))
      && (q.SoftKill? && k.state == INACTIVE ==> y'.memory == Some(Kill(SOFT_KILL, q.reason, Some(ts), q.who)))
      && (q.Resume? && k.state != INACTIVE && q.who != "" ==> y'.memory == Some(Kill(INACTIVE, q.reason, Some(ts), q.who)))
      && (InForce(y') == k.state ==> y'.memory == y.memory && y'.row == y.row)
      && (InForce(y') != k.state ==> y'.memory == y'.row && y'.memory.value.at == Some(ts))
  {
  }

  /** A change is published once, with the state it came from; the two clears are not, nor is a request that changes nothing. */
  lemma ChangeIsTold(y: System, q: Request, ts: int)
    requires y.memory.Some?
    ensures var k, y' := y.memory.value, Next(y, Step.Request(q, ts, Completes));
      y'.events == y.events +
        match q
        case HardKill(reason, who) => if k.state == HARD_KILL then [] else [KillEvent(HARD_KILL, reason, k.state, who)]
        case SoftKill(reason, who) => if k.state == INACTIVE then [KillEvent(SOFT_KILL, reason, INACTIVE, who)] else []
        case Resume(reason, who) => if who == "" || k.state == INACTIVE then [] else [KillEvent(INACTIVE, reason, k.state, who)]
        case _ => []
  {
    assert y.events + [] == y.events;
  }

  /** While a hard kill is in force no order passes, while a soft one is only exits do. */
  lemma GateIff(k: KillSwitch, forExit: bool)
    ensures k.IsActive(forExit) <==> k.current.state == HARD_KILL || (k.current.state == SOFT_KILL && !forExit)
    ensures k.current.state == INACTIVE ==> !k.IsActive(forExit)
  {
  }
}
