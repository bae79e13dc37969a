/**
 * commit_adopted_entry: committing a recovered fill exactly once. Each lock section is one
 * atomic step; any number of callers, and any other traffic on the book, run between them.
 */
module Adopted {
  import opened Options
  import opened Ledger
  import opened Book
  import opened Runs
  import opened Replay
  import opened Figures

  /** _resolve_reservation_id: an empty id or signal counts as absent. */
  function ResolveRecovery(log: Log, t: Trade): Option<Rid> {
    if t.rid.Some? && t.rid.value != "" then t.rid
    else if t.signal.Some? && t.signal.value != "" then RidForSignal(log, t.signal.value)
    else None
  }

  /** _restore_reserve_from_ledger: no ledger row is written; a live reservation is left alone. */
  function Restore(s: State, t: Trade): (r: (State, Option<Rid>))
    ensures r.0.log == s.log && r.0.total == s.total && r.0.claims == s.claims && r.0.initialized == s.initialized
    ensures r.1.Some? ==> r.1.value in r.0.live && r.1 == ResolveRecovery(s.log, t)
    ensures r.1.None? ==> r.0 == s
    ensures r.0.live.Keys == s.live.Keys + (if r.1.Some? then {r.1.value} else {})
  {
    var rid := ResolveRecovery(s.log, t);
    if rid.None? || rid.value == "" then (s, None)
    else if rid.value in s.live then (s, rid)
    else
      var row := ReserveRow(s.log, rid.value);
      if row.None? then (s, None)
      else
        var b := RowBucket(row.value);
        var res := Reservation(t.symbol, t.qtyPlanned, t.entryTarget, if b == Intraday then INTRADAY else DELIVERY,
                               row.value.amount, b, row.value.signal, row.value.ts, 0.0, None);
        (ApplyReserve(s, rid.value, res), rid)
  }

  datatype Guarded = NotReady | AlreadyCommitted | NoReservation | InFlight | Granted(rid: Rid)

  /** The first lock section: durable guard, restore, and test-and-set of the claim. */
  function AdoptGuard(s: State, t: Trade): (State, Guarded) {
    if !s.initialized then (s, NotReady)
    else
      var rid := ResolveRecovery(s.log, t);
      if rid.Some? && rid.value != "" && CommitCount(s.log, rid.value) > 0 then (s, AlreadyCommitted)
      else
        var (restored, found) := Restore(s, t);
        if found.None? then (restored, NoReservation)
        else if found.value in restored.claims then (restored, InFlight)
        else (restored.(claims := restored.claims + {found.value}), Granted(found.value))
  }

  function Discard(s: State, rid: Rid): State {
    s.(claims := s.claims - {rid})
  }

  // --- interleavings ---

  /** Where a caller is: before the guard, between guard and commit, between commit and discard, or back. */
  datatype Pc = Calling | Claimed(rid: Rid) | Finishing(rid: Rid, outcome: Outcome) | Returned

  type Caller = nat

  datatype World = World(s: State, callers: map<Caller, Pc>)

  datatype Event =
    | Guard(caller: Caller, trade: Trade)
    | CommitSection(caller: Caller, price: real, qty: int, leverage: Leverage, ts: int, writeOk: bool)
    | DiscardSection(caller: Caller)
    | RestoreSection(trade: Trade)
    | Other(call: Call)
    | Reboot(s: State)

  function Pcs(w: World, c: Caller): Pc {
    if c in w.callers then w.callers[c] else Calling
  }

  function Next(split: Split, trades: Trades, w: World, e: Event): World {
    match e
    case Guard(c, t) =>
      if Pcs(w, c) != Calling then w
      else
        var (s, g) := AdoptGuard(w.s, t);
        World(s, w.callers[c := if g.Granted? then Claimed(g.rid) else Returned])
    case CommitSection(c, price, qty, leverage, ts, writeOk) =>
      if !Pcs(w, c).Claimed? then w
      else
        var rid := Pcs(w, c).rid;
        var (s, o) := CommitToUsed(leverage, w.s, rid, price, qty, ts, writeOk);
        World(s, w.callers[c := Finishing(rid, o)])
    case DiscardSection(c) =>
      if !Pcs(w, c).Finishing? then w else World(Discard(w.s, Pcs(w, c).rid), w.callers[c := Returned])
    case RestoreSection(t) => World(Restore(w.s, t).0, w.callers)
    case Other(call) => World(Step(split, trades, w.s, call).0, w.callers)
    case Reboot(s) => World(s, map c | c in w.callers :: Returned)
  }

  /** What restore_adopted_reservation does not check: that the reservation it would restore has no COMMIT row. */
  predicate RestoresUncommitted(s: State, t: Trade) {
    var rid := ResolveRecovery(s.log, t);
    rid.Some? ==> rid.value in s.live || CommitCount(s.log, rid.value) == 0
  }

  /**
   * The rest of the system: fresh reserve ids, and nobody else commits or releases a
   * reservation while it is claimed. A restart keeps the ledger and drops the claims; neither
   * it nor restore_adopted_reservation brings a committed reservation back to life.
   */
  ghost predicate Legal(w: World, e: Event) {
    match e
    case Other(call) =>
      && Fresh(w.s, call)
      && (call.op.Commit? || call.op.Release? ==> call.op.rid !in w.s.claims)
    case RestoreSection(t) => RestoresUncommitted(w.s, t)
    case Reboot(s) =>
      && s.log == w.s.log && s.claims == {} && (forall rid :: rid in s.live ==> CommitCount(s.log, rid) == 0)
    case _ => true
  }

  ghost predicate AllLegal(split: Split, trades: Trades, w: World, events: seq<Event>)
    decreases |events|
  {
    events == [] || (Legal(w, events[0]) && AllLegal(split, trades, Next(split, trades, w, events[0]), events[1..]))
  }

  function After(split: Split, trades: Trades, w: World, events: seq<Event>): World
    decreases |events|
  {
    if events == [] then w else After(split, trades, Next(split, trades, w, events[0]), events[1..])
  }

  predicate Holds(pc: Pc, rid: Rid) {
    (pc.Claimed? || pc.Finishing?) && pc.rid == rid
  }

  ghost predicate Uncommitted(s: State) {
    forall rid :: rid in s.live ==> CommitCount(s.log, rid) == 0
  }

  ghost predicate AtMostOnce(s: State) {
    forall rid :: CommitCount(s.log, rid) <= 1
  }

  /** A claim has one holder; until it commits, the reservation is there and has no COMMIT row. */
  ghost predicate Exclusive(w: World) {
    && (forall c :: c in w.callers ==> var pc := w.callers[c];
          && (pc.Claimed? ==> pc.rid in w.s.claims && pc.rid in w.s.live && w.s.initialized)
          && (pc.Finishing? ==> pc.rid in w.s.claims && pc.outcome != Raised(UnknownReservation)))
    && (forall c, d, rid :: c in w.callers && d in w.callers && Holds(w.callers[c], rid) && Holds(w.callers[d], rid)
          ==> c == d)
  }

  ghost predicate Safe(w: World) {
    Uncommitted(w.s) && AtMostOnce(w.s) && Exclusive(w)
  }

  lemma CountSnoc(log: Log, row: Row)
    ensures forall rid :: CommitCount(log + [row], rid) == CommitCount(log, rid) + if IsCommitOf(row, rid) then 1 else 0
  {
    Snoc(log, row);
  }

  /** Any book step keeps COMMIT rows unique, because a commit needs the reservation live and ends its life. */
  lemma BookStepCounts(entryType: EntryType, ts: int, s: State, s': State)
    requires WroteAhead(entryType, ts, s, s') && Uncommitted(s) && AtMostOnce(s)
    requires s' != s && entryType == RESERVE ==> !Mentions(s.log, Last(s'.log).rid.value)
    ensures Uncommitted(s') && AtMostOnce(s')
  {
    if s' != s {
      var row := Last(s'.log);
      CountSnoc(s.log, row);
      if entryType == RESERVE { Unmentioned(s.log, row.rid.value); }
    }
  }

  lemma GuardSafe(w: World, c: Caller, t: Trade, split: Split, trades: Trades)
    requires Safe(w)
    ensures Safe(Next(split, trades, w, Guard(c, t)))
  {
    var w' := Next(split, trades, w, Guard(c, t));
    if w' != w {
      assert forall rid :: rid in w'.s.live && rid !in w.s.live ==> CommitCount(w.s.log, rid) == 0;
    }
  }

  lemma RestoreSafe(w: World, t: Trade)
    requires Safe(w) && RestoresUncommitted(w.s, t)
    ensures Safe(World(Restore(w.s, t).0, w.callers))
  {
  }

  lemma OnlyHolder(w: World, c: Caller, rid: Rid)
    requires Exclusive(w) && c in w.callers && Holds(w.callers[c], rid)
    ensures forall d :: d in w.callers && d != c ==> !Holds(w.callers[d], rid)
  {
  }

  /** A caller's commit, as far as the book is concerned. */
  lemma CommitBook(leverage: Leverage, s: State, rid: Rid, price: real, qty: int, ts: int, writeOk: bool)
    requires Uncommitted(s) && AtMostOnce(s) && s.initialized && rid in s.live
    ensures var (s', o) := CommitToUsed(leverage, s, rid, price, qty, ts, writeOk);
            && Uncommitted(s') && AtMostOnce(s') && o != Raised(UnknownReservation)
            && s'.initialized && s'.claims == s.claims && s.live.Keys - {rid} <= s'.live.Keys
  {
    CommitToUsedWritesAhead(leverage, s, rid, price, qty, ts, writeOk);
    BookStepCounts(COMMIT, ts, s, CommitToUsed(leverage, s, rid, price, qty, ts, writeOk).0);
  }

  lemma CommitSafe(w: World, e: Event, split: Split, trades: Trades)
    requires Safe(w) && e.CommitSection?
    ensures Safe(Next(split, trades, w, e))
  {
    var pc := Pcs(w, e.caller);
    if pc.Claimed? {
      OnlyHolder(w, e.caller, pc.rid);
      CommitBook(e.leverage, w.s, pc.rid, e.price, e.qty, e.ts, e.writeOk);
    }
  }

  lemma OtherSafe(w: World, call: Call, split: Split, trades: Trades)
    requires Safe(w) && Legal(w, Other(call))
    ensures Safe(Next(split, trades, w, Other(call)))
  {
    var s' := Step(split, trades, w.s, call).0;
    StepWritesAhead(split, trades, w.s, call);
    BookStepCounts(EntryOf(call.op), call.ts, w.s, s');
    OtherKeepsClaimed(w.s, call, split, trades);
  }

  lemma OtherKeepsClaimed(s: State, call: Call, split: Split, trades: Trades)
    requires Fresh(s, call) && (call.op.Commit? || call.op.Release? ==> call.op.rid !in s.claims)
    ensures var s' := Step(split, trades, s, call).0;
            s'.claims == s.claims && s.live.Keys * s.claims <= s'.live.Keys && (s.initialized ==> s'.initialized)
  {
  }

  lemma NextSafe(split: Split, trades: Trades, w: World, e: Event)
    requires Safe(w) && Legal(w, e)
    ensures Safe(Next(split, trades, w, e))
  {
    match e
    case Guard(c, t) => GuardSafe(w, c, t, split, trades);
    case CommitSection(_, _, _, _, _, _) => CommitSafe(w, e, split, trades);
    case DiscardSection(c) =>
      if Pcs(w, c).Finishing? { OnlyHolder(w, c, Pcs(w, c).rid); }
    case RestoreSection(t) => RestoreSafe(w, t);
    case Other(call) => OtherSafe(w, call, split, trades);
    case Reboot(_) =>
  }

  /**
   * Over every interleaving: no reservation gets a second COMMIT row, no caller's commit ever
   * meets a missing reservation, and a claim has a single holder.
   */
  lemma {:induction false} ExactlyOnce(split: Split, trades: Trades, w: World, events: seq<Event>)
    requires Safe(w) && AllLegal(split, trades, w, events)
    ensures Safe(After(split, trades, w, events))
    decreases |events|
  {
    if events != [] {
      NextSafe(split, trades, w, events[0]);
      ExactlyOnce(split, trades, Next(split, trades, w, events[0]), events[1..]);
    }
  }

  /** What the COMMIT rows put to use in a bucket. */
  ghost function CommittedIn(log: Log, b: Bucket): real {
    if log == [] then 0.0
    else CommittedIn(Front(log), b) + (if Last(log).entryType == COMMIT && Last(log).scope == One(b) then Last(log).amount else 0.0)
  }

  predicate CallersAlone(events: seq<Event>) {
    forall i :: 0 <= i < |events| ==> !events[i].Other? && !events[i].Reboot?
  }

  lemma CommitMoves(leverage: Leverage, s: State, rid: Rid, price: real, qty: int, ts: int, writeOk: bool, b: Bucket)
    ensures var s' := CommitToUsed(leverage, s, rid, price, qty, ts, writeOk).0;
            s'.Of(b).used - s.Of(b).used == CommittedIn(s'.log, b) - CommittedIn(s.log, b)
  {
    CommitToUsedWritesAhead(leverage, s, rid, price, qty, ts, writeOk);
    var s' := CommitToUsed(leverage, s, rid, price, qty, ts, writeOk).0;
    if s' != s { Snoc(s.log, Last(s'.log)); }
  }

  lemma CallerMoves(split: Split, trades: Trades, w: World, e: Event, b: Bucket)
    requires !e.Other? && !e.Reboot?
    ensures var w' := Next(split, trades, w, e);
            w'.s.Of(b).used - w.s.Of(b).used == CommittedIn(w'.s.log, b) - CommittedIn(w.s.log, b)
  {
    if e.CommitSection? && Pcs(w, e.caller).Claimed? {
      CommitMoves(e.leverage, w.s, Pcs(w, e.caller).rid, e.price, e.qty, e.ts, e.writeOk, b);
    }
  }

  /**
   * And as long as only such callers run, margin moves to used exactly as the COMMIT rows say:
   * with at most one row a reservation, once.
   */
  lemma {:induction false} MarginMovesOnce(split: Split, trades: Trades, w: World, events: seq<Event>, b: Bucket)
    requires Safe(w) && AllLegal(split, trades, w, events) && CallersAlone(events)
    ensures var w' := After(split, trades, w, events);
            && AtMostOnce(w'.s)
            && w'.s.Of(b).used - w.s.Of(b).used == CommittedIn(w'.s.log, b) - CommittedIn(w.s.log, b)
    decreases |events|
  {
    if events != [] {
      NextSafe(split, trades, w, events[0]);
      CallerMoves(split, trades, w, events[0], b);
      MarginMovesOnce(split, trades, Next(split, trades, w, events[0]), events[1..], b);
    }
  }

  // --- at least once ---

  /** The id a recovered trade goes by: its own column, or else the latest RESERVE row of its signal. */
  ghost predicate Names(log: Log, t: Trade, rid: Rid) {
    && rid != ""
    && if t.rid.Some? && t.rid != Some("") then t.rid == Some(rid)
       else t.signal.Some? && t.signal != Some("") && exists k ::
         && 0 <= k < |log| && ReservesSignal(log[k], t.signal.value) && log[k].rid == Some(rid)
         && forall i :: k < i < |log| ==> !ReservesSignal(log[i], t.signal.value)
  }

  /** Nothing stands in the way of adopting: no COMMIT row, no claim, and the reservation in memory or in the ledger. */
  ghost predicate Adoptable(s: State, rid: Rid) {
    && s.initialized && rid !in s.claims
    && (forall k :: 0 <= k < |s.log| ==> !(s.log[k].entryType == COMMIT && s.log[k].rid == Some(rid)))
    && (rid in s.live || exists k :: 0 <= k < |s.log| && s.log[k].entryType == RESERVE && s.log[k].rid == Some(rid))
  }

  lemma {:induction false} CommitsCounted(log: Log, rid: Rid)
    ensures CommitCount(log, rid) == 0 <==> forall k :: 0 <= k < |log| ==> !(log[k].entryType == COMMIT && log[k].rid == Some(rid))
  {
    if log != [] {
      CommitsCounted(Front(log), rid);
      assert forall k :: 0 <= k < |Front(log)| ==> Front(log)[k] == log[k];
      assert IsCommitOf(log[|log| - 1], rid) <==> IsCommitOf(Last(log), rid);
    }
  }

  lemma {:induction false} ReservesFound(log: Log, rid: Rid)
    ensures ReserveRow(log, rid).Some? <==> exists k :: 0 <= k < |log| && log[k].entryType == RESERVE && log[k].rid == Some(rid)
  {
    if log != [] {
      ReservesFound(Front(log), rid);
      assert forall k :: 0 <= k < |Front(log)| ==> Front(log)[k] == log[k];
      assert log[|log| - 1] == Last(log);
    }
  }

  lemma LatestNames(log: Log, signal: string) returns (k: int)
    ensures -1 <= k < |log|
    ensures k >= 0 ==> ReservesSignal(log[k], signal) && forall i :: k < i < |log| ==> !ReservesSignal(log[i], signal)
    ensures k < 0 ==> forall i :: 0 <= i < |log| ==> !ReservesSignal(log[i], signal)
  {
    k := |log| - 1;
    while k >= 0 && !ReservesSignal(log[k], signal)
      invariant -1 <= k < |log| && forall i :: k < i < |log| ==> !ReservesSignal(log[i], signal)
    {
      k := k - 1;
    }
  }

  lemma ResolvesWhatItNames(log: Log, t: Trade, rid: Rid)
    ensures ResolveRecovery(log, t) == Some(rid) && rid != "" <==> Names(log, t, rid)
  {
    if !(t.rid.Some? && t.rid != Some("")) && t.signal.Some? && t.signal != Some("") {
      var k := LatestNames(log, t.signal.value);
      if k >= 0 {
        RidForSignalIsLatest(log, t.signal.value, k);
      } else {
        NoRidForSignal(log, t.signal.value);
      }
    }
  }

  /** The guard lets a caller through exactly when the entry is adoptable. */
  lemma GuardGrantsIff(s: State, t: Trade, rid: Rid)
    ensures AdoptGuard(s, t).1 == Granted(rid) <==> Names(s.log, t, rid) && Adoptable(s, rid)
    ensures AdoptGuard(s, t).1 == Granted(rid) ==> var s' := AdoptGuard(s, t).0;
      s'.initialized && rid in s'.live && s'.claims == s.claims + {rid} && s'.log == s.log
  {
    ResolvesWhatItNames(s.log, t, rid);
    CommitsCounted(s.log, rid);
    ReservesFound(s.log, rid);
  }

  /** What a restored reservation is made of: margin, bucket, signal and time of its RESERVE row, the rest of the trade. */
  lemma RestoredFrom(s: State, t: Trade, rid: Rid)
    requires Names(s.log, t, rid) && rid !in s.live && ReserveRow(s.log, rid).Some?
    ensures var (s', found), row := Restore(s, t), ReserveRow(s.log, rid).value;
      && found == Some(rid) && s'.live.Keys == s.live.Keys + {rid}
      && var res := s'.live[rid];
         && res.margin == row.amount && res.signal == row.signal && res.ts == row.ts
         && res.symbol == t.symbol && res.qty == t.qtyPlanned && res.price == t.entryTarget
         && res.slmBuffer == 0.0 && res.strategy == None
         && (res.bucket, res.intent) == (if row.scope == One(Intraday) then (Intraday, INTRADAY) else (Positional, DELIVERY))
  {
    ResolvesWhatItNames(s.log, t, rid);
  }

  /** Guard, commit and discard without anybody in between. */
  function AdoptAlone(leverage: Leverage, s: State, t: Trade, price: real, qty: int, ts: int, writeOk: bool): (State, Option<Outcome>) {
    var (claimed, g) := AdoptGuard(s, t);
    if !g.Granted? then (claimed, None)
    else
      var (committed, o) := CommitToUsed(leverage, claimed, g.rid, price, qty, ts, writeOk);
      (Discard(committed, g.rid), Some(o))
  }

  /** What a reservation holds, or what its RESERVE row says it would hold again. */
  function Recovered(s: State, rid: Rid): (Bucket, Intent)
    requires rid in s.live || ReserveRow(s.log, rid).Some?
  {
    if rid in s.live then (s.live[rid].bucket, s.live[rid].intent)
    else
      var b := RowBucket(ReserveRow(s.log, rid).value);
      (b, if b == Intraday then INTRADAY else DELIVERY)
  }

  lemma GuardRecovers(s: State, t: Trade, rid: Rid)
    requires AdoptGuard(s, t).1 == Granted(rid)
    ensures rid in s.live || ReserveRow(s.log, rid).Some?
    ensures var s', r := AdoptGuard(s, t).0, Recovered(s, rid);
      && rid in s'.live && (s'.live[rid].bucket, s'.live[rid].intent) == r && s'.total == s.total
      && s'.live - {rid} == s.live - {rid}
      && s'.intraday.used == s.intraday.used && s'.positional.used == s.positional.used
  {
    assert ResolveRecovery(s.log, t) == Some(rid);
    var s' := AdoptGuard(s, t).0;
    assert s'.live - {rid} == s.live - {rid};
  }

  /**
   * An adoptable entry is committed: a lone call whose write goes through adds exactly one
   * COMMIT row, ends the reservation, and puts price times quantity over the leverage to use.
   */
  lemma AdoptsExactlyOnce(leverage: Leverage, s: State, t: Trade, rid: Rid, price: real, qty: int, ts: int) returns (used: real)
    requires Names(s.log, t, rid) && Adoptable(s, rid)
    ensures rid in s.live || ReserveRow(s.log, rid).Some?
    ensures Recovered(s, rid).1 in leverage ==> used * leverage[Recovered(s, rid).1] == qty as real * price
    ensures var (s', o) := AdoptAlone(leverage, s, t, price, qty, ts, true);
      && o == Some(Ok(used))
      && |s'.log| == |s.log| + 1 && s'.log[..|s.log|] == s.log
      && s'.log[|s.log|].entryType == COMMIT && s'.log[|s.log|].rid == Some(rid) && s'.log[|s.log|].amount == used
      && CommitCount(s'.log, rid) == 1
      && rid !in s'.live && s'.live == s.live - {rid} && s'.claims == s.claims && s'.total == s.total
      && s'.intraday.used == s.intraday.used + (if Recovered(s, rid).0 == Intraday then used else 0.0)
      && s'.positional.used == s.positional.used + (if Recovered(s, rid).0 == Positional then used else 0.0)
  {
    GuardGrantsIff(s, t, rid);
    GuardRecovers(s, t, rid);
    CommitsCounted(s.log, rid);
    var claimed := AdoptGuard(s, t).0;
    var intent := claimed.live[rid].intent;
    used := RequiredMargin(qty, price, intent, leverage);
    if intent in leverage { Divided(qty as real * price, leverage[intent]); }
    CommitCounts(leverage, claimed, rid, price, qty, ts);
  }

  lemma AdoptedIff(leverage: Leverage, s: State, t: Trade, price: real, qty: int, ts: int)
    ensures forall rid :: Names(s.log, t, rid) && Adoptable(s, rid) ==>
      var (s', o) := AdoptAlone(leverage, s, t, price, qty, ts, true);
      AdoptGuard(s, t).1 == Granted(rid) && o.Some? && CommitCount(s'.log, rid) == 1 && rid !in s'.live && rid !in s'.claims
    ensures (forall rid :: !(Names(s.log, t, rid) && Adoptable(s, rid))) ==> !AdoptGuard(s, t).1.Granted?
  {
    forall rid | Names(s.log, t, rid) && Adoptable(s, rid)
      ensures var (s', o) := AdoptAlone(leverage, s, t, price, qty, ts, true);
        AdoptGuard(s, t).1 == Granted(rid) && o.Some? && CommitCount(s'.log, rid) == 1 && rid !in s'.live && rid !in s'.claims
    {
      GuardGrantsIff(s, t, rid);
      var used := AdoptsExactlyOnce(leverage, s, t, rid, price, qty, ts);
    }
    if AdoptGuard(s, t).1.Granted? { GuardGrantsIff(s, t, AdoptGuard(s, t).1.rid); }
  }

  lemma {:induction false} CountGrows(log: Log, more: Log, rid: Rid)
    requires log <= more
    ensures CommitCount(log, rid) <= CommitCount(more, rid)
    decreases |more|
  {
    if log == more {
    } else {
      assert log <= Front(more);
      CountGrows(log, Front(more), rid);
    }
  }

  lemma NextExtends(split: Split, trades: Trades, w: World, e: Event)
    requires Legal(w, e)
    ensures w.s.log <= Next(split, trades, w, e).s.log
  {
    if e.Other? { StepWritesAhead(split, trades, w.s, e.call); }
  }

  lemma {:induction false} RowsStay(split: Split, trades: Trades, w: World, events: seq<Event>, rid: Rid)
    requires AllLegal(split, trades, w, events)
    ensures CommitCount(w.s.log, rid) <= CommitCount(After(split, trades, w, events).s.log, rid)
    decreases |events|
  {
    if events != [] {
      var next := Next(split, trades, w, events[0]);
      NextExtends(split, trades, w, events[0]);
      CountGrows(w.s.log, next.s.log, rid);
      RowsStay(split, trades, next, events[1..], rid);
    }
  }

  /** Neither a restart nor this caller's own commit. */
  predicate Leaves(e: Event, c: Caller) {
    !e.Reboot? && (e.CommitSection? ==> e.caller != c)
  }

  lemma {:induction false} ClaimHeld(split: Split, trades: Trades, w: World, c: Caller, rid: Rid, events: seq<Event>)
    requires Pcs(w, c) == Claimed(rid) && forall i :: 0 <= i < |events| ==> Leaves(events[i], c)
    ensures Pcs(After(split, trades, w, events), c) == Claimed(rid)
    decreases |events|
  {
    if events != [] {
      assert Leaves(events[0], c);
      assert Pcs(Next(split, trades, w, events[0]), c) == Claimed(rid);
      forall i | 0 <= i < |events[1..]| ensures Leaves(events[1..][i], c) { assert events[1..][i] == events[i + 1]; }
      ClaimHeld(split, trades, Next(split, trades, w, events[0]), c, rid, events[1..]);
    }
  }

  /** A caller that holds the claim commits, whatever anybody else has done meanwhile. */
  lemma ClaimedCommits(split: Split, trades: Trades, w: World, e: Event)
    requires Safe(w) && e.CommitSection? && Pcs(w, e.caller).Claimed? && e.writeOk
    ensures CommitCount(Next(split, trades, w, e).s.log, Pcs(w, e.caller).rid) == 1
  {
    var rid := Pcs(w, e.caller).rid;
    assert rid in w.s.live;
    CommitCounts(e.leverage, w.s, rid, e.price, e.qty, e.ts);
  }

  /**
   * An adoptable entry whose caller gets as far as its commit has exactly one COMMIT row from
   * then on: others may run between guard and commit, and anything legal may follow, restarts
   * included.
   */
  lemma GrantedThenCommitted(split: Split, trades: Trades, w: World, c: Caller, t: Trade, rid: Rid, between: seq<Event>,
                             commit: Event, later: seq<Event>)
    requires Safe(w) && Pcs(w, c) == Calling && Names(w.s.log, t, rid) && Adoptable(w.s, rid)
    requires commit.CommitSection? && commit.caller == c && commit.writeOk
    requires forall i :: 0 <= i < |between| ==> Leaves(between[i], c)
    requires var claimed := Next(split, trades, w, Guard(c, t));
             var before := After(split, trades, claimed, between);
             && AllLegal(split, trades, claimed, between)
             && AllLegal(split, trades, Next(split, trades, before, commit), later)
    ensures var claimed := Next(split, trades, w, Guard(c, t));
            var committed := Next(split, trades, After(split, trades, claimed, between), commit);
            CommitCount(After(split, trades, committed, later).s.log, rid) == 1
  {
    GuardGrantsIff(w.s, t, rid);
    var claimed := Next(split, trades, w, Guard(c, t));
    NextSafe(split, trades, w, Guard(c, t));
    assert Pcs(claimed, c) == Claimed(rid);
    ClaimHeld(split, trades, claimed, c, rid, between);
    ExactlyOnce(split, trades, claimed, between);
    var before := After(split, trades, claimed, between);
    ClaimedCommits(split, trades, before, commit);
    NextSafe(split, trades, before, commit);
    var committed := Next(split, trades, before, commit);
    RowsStay(split, trades, committed, later, rid);
    ExactlyOnce(split, trades, committed, later);
  }

  // --- releasing and restoring recovered reservations ---

  /** release_adopted_reservation, when the crash lost the reservation: restore it, then release it. */
  function ReleaseAdopted(s: State, t: Trade, ts: int, writeOk: bool): (State, Outcome) {
    if !s.initialized then (s, Raised(NotInitialized))
    else
      var rid := ResolveRecovery(s.log, t);
      if rid.None? || rid.value == "" then (s, Refused(0.0))
      else if rid.value in s.live then Book.Release(s, rid.value, ts, writeOk)
      else
        var (restored, found) := Restore(s, t);
        if found.None? then (restored, Refused(0.0)) else Book.Release(restored, rid.value, ts, writeOk)
  }

  /** The memory does not change at all, and the chain gets the RELEASE row that balances its RESERVE. */
  lemma ReleaseAdoptedNetsOut(s: State, t: Trade, ts: int)
    requires s.initialized && ResolveRecovery(s.log, t).Some? && ResolveRecovery(s.log, t).value !in s.live
    requires ResolveRecovery(s.log, t).value != "" && ReserveRow(s.log, ResolveRecovery(s.log, t).value).Some?
    ensures var (s', o) := ReleaseAdopted(s, t, ts, true);
            var rid := ResolveRecovery(s.log, t).value;
            && o.Ok? && s' == s.(log := s'.log)
            && MarginOf(s'.log, rid) == MarginOf(s.log, rid) - ReserveRow(s.log, rid).value.amount
  {
    var rid := ResolveRecovery(s.log, t).value;
    var (restored, _) := Restore(s, t);
    assert restored.live - {rid} == s.live;
    Snoc(s.log, Last(ReleaseAdopted(s, t, ts, true).0.log));
  }

  /**
   * The restore consults the RESERVE row only. On a book that agrees with its ledger, the
   * restored reservation agrees too exactly when its rows sum to what RESERVE took: not after
   * a release, a top-up or a buffer release that a crash followed.
   */
  lemma RestoreAgreesIff(s: State, t: Trade)
    requires MarginsAgree(s)
    ensures var (s', found) := Restore(s, t);
            MarginsAgree(s')
            <==> s' == s || (found.Some? && ReserveRow(s.log, found.value).Some?
                             && ReserveRow(s.log, found.value).value.amount == MarginOf(s.log, found.value))
  {
    var (s', found) := Restore(s, t);
    if s' != s {
      assert found.value in s'.live && forall rid :: rid in s.live ==> s'.live[rid] == s.live[rid];
    }
  }

  /** After a release, then, exactly when the margin was zero. */
  lemma RestoreAfterRelease(s: State, t: Trade, rid: Rid, ts: int)
    requires s.initialized && t.rid == Some(rid) && rid != "" && rid in s.live && MarginsAgree(s)
    requires ReserveRow(s.log, rid).Some?
    ensures var released := Book.Release(s, rid, ts, true).0;
            var (s', found) := Restore(released, t);
            && found == Some(rid)
            && (s'.live[rid].margin == MarginOf(s'.log, rid) <==> ReserveRow(s.log, rid).value.amount == 0.0)
  {
    Snoc(s.log, Last(Book.Release(s, rid, ts, true).0.log));
  }

  /** Nor does restore look for a COMMIT row: it keeps committed reservations dead exactly when there is none. */
  lemma RestoreSafeIff(s: State, t: Trade)
    requires Uncommitted(s)
    ensures var s' := Restore(s, t).0; Uncommitted(s') <==> s' == s || RestoresUncommitted(s, t)
  {
    var (s', found) := Restore(s, t);
    if s' != s { assert found.value in s'.live; }
  }

  lemma CommitCounts(leverage: Leverage, s: State, rid: Rid, price: real, qty: int, ts: int)
    requires s.initialized && rid in s.live
    ensures var (s', o) := CommitToUsed(leverage, s, rid, price, qty, ts, true);
            && o.Ok? && s'.initialized && s'.live == s.live - {rid}
            && CommitCount(s'.log, rid) == CommitCount(s.log, rid) + 1
            && MarginOf(s'.log, rid) == MarginOf(s.log, rid) && ReserveRow(s'.log, rid) == ReserveRow(s.log, rid)
  {
    Snoc(s.log, Last(CommitToUsed(leverage, s, rid, price, qty, ts, true).0.log));
  }

  lemma RestoreBrings(s: State, t: Trade, rid: Rid)
    requires t.rid == Some(rid) && rid != "" && rid !in s.live && ReserveRow(s.log, rid).Some?
    ensures var (s', row) := (Restore(s, t).0, ReserveRow(s.log, rid).value);
            && rid in s'.live && s'.log == s.log && s'.initialized == s.initialized
            && s'.Of(RowBucket(row)) == s.Of(RowBucket(row)).Move(-row.amount, row.amount, 0.0)
  {
  }

  /**
   * After a commit the ledger cannot tell: margin_delta sums still agree, while the margin
   * counts as used and as reserved, and a second commit goes through.
   */
  lemma RestoreAfterCommit(s: State, t: Trade, rid: Rid, leverage: Leverage, price: real, qty: int, ts: int)
    requires s.initialized && t.rid == Some(rid) && rid != "" && rid in s.live && ReserveRow(s.log, rid).Some?
    ensures var committed := CommitToUsed(leverage, s, rid, price, qty, ts, true).0;
            var restored := Restore(committed, t).0;
            var row := ReserveRow(s.log, rid).value;
            && rid in restored.live && MarginOf(restored.log, rid) == MarginOf(s.log, rid)
            && restored.Of(RowBucket(row)) == committed.Of(RowBucket(row)).Move(-row.amount, row.amount, 0.0)
            && var (again, o) := CommitToUsed(leverage, restored, rid, price, qty, ts, true);
               o.Ok? && CommitCount(again.log, rid) == CommitCount(s.log, rid) + 2
  {
    CommitCounts(leverage, s, rid, price, qty, ts);
    var committed := CommitToUsed(leverage, s, rid, price, qty, ts, true).0;
    RestoreBrings(committed, t, rid);
    CommitCounts(leverage, Restore(committed, t).0, rid, price, qty, ts);
  }
}
