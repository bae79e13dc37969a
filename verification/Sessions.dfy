/**
 * Sessions one after the other: a restart hands the book on in order, so what a session keeps
 * is kept over any number of calls and restarts.
 */
module Sessions {
  import opened Options
  import opened Ledger
  import opened Book
  import opened Runs
  import opened Replay
  import opened Positions
  import opened Restart
  import Sums

  /** What a restart brings into the next session. */
  ghost function BaseAfter(s: State, trades: Trades, base: Base, rids: set<Rid>): Base {
    Base(Backing(s.log, base, Intraday) * rids, Backing(s.log, base, Positional) * rids,
         Sums.Over(Backing(s.log, base, Intraday) * rids, LeftBy(s.log, trades)),
         Sums.Over(Backing(s.log, base, Positional) * rids, LeftBy(s.log, trades)))
  }

  lemma BackingAfter(s: State, trades: Trades, base: Base, rids: set<Rid>, b: State, b': Bucket)
    requires Opened(b, s.log)
    ensures Backing(b.log, BaseAfter(s, trades, base, rids), b') == Backing(s.log, base, b') * rids
  {
    OpenedReads(b, s.log, trades, 0);
  }

  /** The rebuilt reserved balance is the sum of the rebuilt reservations. */
  lemma RebuiltReserved(log: Log, rids: set<Rid>, r: State, b: Bucket)
    requires RebuiltLive(log, map[], r.live, rids) && r.Of(b).reserved == Sums.Over(rids, ReservedMoved(log, b))
    ensures ReservedAgrees(r, b)
  {
    var moved := ReservedMoved(log, b);
    assert LiveRids(r, b) <= rids;
    forall rid | rid in rids && rid !in LiveRids(r, b) ensures moved(rid) == 0.0 {
      if rid in r.live { assert AsReserved(r.live[rid], PhaseOf(log, rid)); }
    }
    Sums.Drop(rids, LiveRids(r, b), moved);
    forall rid | rid in LiveRids(r, b) ensures moved(rid) == MarginIn(r, rid) {
      assert AsReserved(r.live[rid], PhaseOf(log, rid));
    }
    Sums.Same(LiveRids(r, b), moved, rid => MarginIn(r, rid));
  }

  lemma ChainsRebuilt(s: State, r: State, rids: set<Rid>)
    requires ChainsFit(s) && RebuiltLive(s.log, map[], r.live, rids)
    requires forall rid :: Chain(r.log, rid) == Chain(s.log, rid)
    ensures ChainsFit(r)
  {
    forall rid ensures ChainFits(r, rid) {
      assert ChainFits(s, rid) && PhaseOf(r.log, rid) == PhaseOf(s.log, rid);
      if rid in r.live { assert AsReserved(r.live[rid], PhaseOf(s.log, rid)); }
    }
  }

  lemma BucketFits(s: State, trades: Trades, base: Base, rids: set<Rid>, b: State, r: State, k: Bucket)
    requires Sound(s, trades, base) && InSession(s, base, rids) && Opened(b, s.log) && r.log == b.log
    requires r.Of(k).used == Sums.Over(rids, UsedMoved(s.log, k))
    ensures var after := BaseAfter(s, trades, base, rids); CommittedFit(r, trades, after, k) && ProRata(r, trades, after, k)
  {
    OpenedReads(b, s.log, trades, 0);
    BackingAfter(s, trades, base, rids, b, k);
    UsedReplayed(s, trades, base, rids, k);
    assert CommittedFit(s, trades, base, k);
    Sums.Same(Backing(s.log, base, k) * rids, Held(r.log, trades), Held(s.log, trades));
  }

  lemma LiveRebuilt(s: State, trades: Trades, base: Base, rids: set<Rid>, b: State, r: State)
    requires Sound(s, trades, base) && InSession(s, base, rids) && Opened(b, s.log) && r.log == b.log
    requires RebuiltLive(s.log, map[], r.live, rids)
    ensures LiveUncommitted(r, trades)
  {
    OpenedReads(b, s.log, trades, 0);
    OpenIsLive(s, trades, base, rids);
  }

  /** A restart hands the session on in order. */
  lemma RestartKeepsSound(s: State, trades: Trades, base: Base, b: State, open: seq<Trade>, floor: int)
    requires Sound(s, trades, base) && Opened(b, s.log) && Covered(s, trades, base, open)
    ensures var r := Rehydrate(b, open, floor);
            r.Some? && r.value.log == b.log && Sound(r.value, trades, BaseAfter(s, trades, base, Rids(s.log, open)))
  {
    OpenedRehydrates(b, s.log, open, floor);
    var r, rids := Rehydrate(b, open, floor).value, Rids(s.log, open);
    OpenedReads(b, s.log, trades, floor);
    RebuiltReserved(s.log, rids, r, Intraday);
    RebuiltReserved(s.log, rids, r, Positional);
    ChainsRebuilt(s, r, rids);
    BucketFits(s, trades, base, rids, b, r, Intraday);
    BucketFits(s, trades, base, rids, b, r, Positional);
    LiveRebuilt(s, trades, base, rids, b, r);
  }

  // --- any number of sessions ---

  /** A call, or a crash followed by initialize and rehydrate; every call brings the leverage map of its process. */
  datatype Event = Live(call: Call) | Restart(balance: real, ts: int, floor: int, open: seq<Trade>)

  function NextState(split: Split, trades: Trades, s: State, e: Event): State {
    match e
    case Live(c) => Step(split, trades, s, c).0
    case Restart(balance, ts, floor, open) =>
      var r := Rehydrate(BootWith(split, s.log, balance, ts), open, floor);
      if r.Some? then r.value else s
  }

  ghost function NextBase(s: State, trades: Trades, base: Base, e: Event): Base {
    match e
    case Live(_) => base
    case Restart(_, _, _, open) => BaseAfter(s, trades, base, Rids(s.log, open))
  }

  ghost predicate Proper(s: State, trades: Trades, base: Base, e: Event) {
    match e
    case Live(c) => Fresh(s, c) && Attributed(s, trades, base, c)
    case Restart(_, _, _, open) => Covered(s, trades, base, open)
  }

  ghost predicate AllProper(split: Split, trades: Trades, s: State, base: Base, events: seq<Event>)
    decreases |events|
  {
    events == []
    || (Proper(s, trades, base, events[0])
        && AllProper(split, trades, NextState(split, trades, s, events[0]), NextBase(s, trades, base, events[0]), events[1..]))
  }

  function After(split: Split, trades: Trades, s: State, events: seq<Event>): State
    decreases |events|
  {
    if events == [] then s else After(split, trades, NextState(split, trades, s, events[0]), events[1..])
  }

  ghost function AfterBase(split: Split, trades: Trades, s: State, base: Base, events: seq<Event>): Base
    decreases |events|
  {
    if events == [] then base
    else AfterBase(split, trades, NextState(split, trades, s, events[0]), NextBase(s, trades, base, events[0]), events[1..])
  }

  lemma EventKeepsSound(split: Split, trades: Trades, s: State, base: Base, e: Event)
    requires split.Valid() && Sound(s, trades, base) && Proper(s, trades, base, e)
    ensures Sound(NextState(split, trades, s, e), trades, NextBase(s, trades, base, e))
  {
    match e
    case Live(c) => StepKeepsSound(split, trades, base, s, c);
    case Restart(balance, ts, floor, open) =>
      BootOpens(split, s.log, balance, ts);
      RestartKeepsSound(s, trades, base, BootWith(split, s.log, balance, ts), open, floor);
  }

  /**
   * Over any number of sessions, each call under the leverage map of its process: used margin
   * is the committed margin still open, pro rata, plus exactly what restarts put to use again
   * for quantity that had already left.
   */
  lemma {:induction false} SessionsKeepPositions(split: Split, trades: Trades, s: State, base: Base, events: seq<Event>)
    requires split.Valid() && Sound(s, trades, base) && AllProper(split, trades, s, base, events)
    ensures Sound(After(split, trades, s, events), trades, AfterBase(split, trades, s, base, events))
    decreases |events|
  {
    if events != [] {
      EventKeepsSound(split, trades, s, base, events[0]);
      SessionsKeepPositions(split, trades, NextState(split, trades, s, events[0]), NextBase(s, trades, base, events[0]), events[1..]);
    }
  }

  /**
   * A position opened before a restart: whatever leverage maps the process that opened it and
   * the processes that close it run under, exits that add up to its quantity free exactly
   * its committed margin.
   */
  lemma ExitsAfterRestart(s: State, trades: Trades, base: Base, b: State, open: seq<Trade>, floor: int, it: Rid, k: Bucket,
                          exits: seq<Exit>)
    requires Sound(s, trades, base) && Opened(b, s.log) && Covered(s, trades, base, open)
    requires it in Backing(s.log, base, k) && it in Rids(s.log, open) && TotalQty(exits) == CommitQty(s.log, it)
    ensures var r := Rehydrate(b, open, floor);
            r.Some? && TotalFreed(r.value.log, it, exits) == CommitMargin(s.log, it)
  {
    var after := BaseAfter(s, trades, base, Rids(s.log, open));
    RestartKeepsSound(s, trades, base, b, open, floor);
    OpenedReads(b, s.log, trades, floor);
    assert PositionOf(b.log, trades, it) == PositionOf(s.log, trades, it);
    FullExitFreesAll(Rehydrate(b, open, floor).value, trades, after, it, k, exits);
  }

  lemma NothingLeft(log: Log, trades: Trades, rid: Rid)
    requires Exited(log, trades, rid) == 0
    ensures LeftBy(log, trades)(rid) == 0.0
  {
  }

  /** A restart puts nothing to use for left quantity when no open trade is partly exited. */
  lemma WholeLeavesNothing(s: State, trades: Trades, base: Base, rids: set<Rid>, k: Bucket)
    requires forall rid :: rid in rids ==> Exited(s.log, trades, rid) == 0
    ensures BaseAfter(s, trades, base, rids).Over(k) == 0.0
  {
    var mine := Backing(s.log, base, k) * rids;
    forall rid | rid in mine ensures LeftBy(s.log, trades)(rid) == 0.0 {
      NothingLeft(s.log, trades, rid);
    }
    Sums.Zeros(mine, LeftBy(s.log, trades));
  }

  // --- the agreement with the ledger, across a restart ---

  /** What a restart leaves between book and ledger. */
  ghost function OffsetAfter(r: State, log: Log, rids: set<Rid>, floor: int): Offset {
    Offset(UnbackedTotal(log, rids), r.positional.carry + Carryover(log, floor),
           map rid | rid in r.live :: PhaseSkipped(PhaseOf(log, rid)))
  }

  function PhaseSkipped(p: Phase): real {
    if p.Open? then p.skipped else 0.0
  }

  /** Rehydrate establishes the agreement up to that offset, for any ledger in order and any list of trades. */
  lemma RehydrateAgrees(b: State, log: Log, open: seq<Trade>, floor: int)
    requires Opened(b, log) && AllReplayable(log, open)
    ensures var r := Rehydrate(b, open, floor); r.Some? && AgreesFrom(r.value, OffsetAfter(r.value, log, Rids(log, open), floor))
  {
    OpenedRehydrates(b, log, open, floor);
    OpenedGap(b, log);
    GapReplayed(b, log, open, floor);
    var r, rids := Rehydrate(b, open, floor).value, Rids(log, open);
    RebuiltReserved(log, rids, r, Intraday);
    RebuiltReserved(log, rids, r, Positional);
    forall rid | rid in r.live
      ensures r.live[rid].margin == MarginOf(r.log, rid) - LostOf(OffsetAfter(r, log, rids, floor), rid)
    {
      assert AsReserved(r.live[rid], PhaseOf(log, rid));
      MarginInPhase(log, rid);
    }
  }

  // --- when a restart refines the day ---

  /** RESERVE, then nothing or COMMIT, and no quantity has left. */
  ghost predicate PlainAndWhole(s: State, trades: Trades, rids: set<Rid>) {
    forall rid :: rid in rids ==> PlainPhase(PhaseOf(s.log, rid)) && Exited(s.log, trades, rid) == 0
  }

  predicate PlainPhase(p: Phase) {
    (p.Open? || p.Committed?) && p.plain
  }

  lemma PlainIsBacked(chain: Log)
    requires PlainPhase(ChainPhase(chain))
    ensures Unbacked(ChainPhase(chain)) == 0.0
  {
  }

  lemma PlainUnbacked(s: State, trades: Trades, rids: set<Rid>, mine: set<Rid>)
    requires PlainAndWhole(s, trades, rids) && mine <= rids
    ensures Sums.Over(mine, UnbackedBy(s.log)) == 0.0
  {
    forall rid | rid in mine ensures UnbackedBy(s.log)(rid) == 0.0 {
      PlainIsBacked(Chain(s.log, rid));
    }
    Sums.Drop(mine, {}, UnbackedBy(s.log));
  }

  lemma PlainBeyond(s: State, trades: Trades, rids: set<Rid>, mine: set<Rid>)
    requires PlainAndWhole(s, trades, rids) && ChainsFit(s) && mine <= s.live.Keys * rids
    ensures Sums.Over(mine, BeyondReserve(s)) == 0.0
  {
    forall rid | rid in mine ensures BeyondReserve(s)(rid) == 0.0 {
      assert ChainFits(s, rid);
    }
    Sums.Drop(mine, {}, BeyondReserve(s));
  }

  lemma PlainDiffers(s: State, trades: Trades, base: Base, rids: set<Rid>, opening: real, floor: int, b: Bucket)
    requires PlainAndWhole(s, trades, rids) && ChainsFit(s)
    ensures var d := DifferenceOf(s, trades, base, rids, opening, floor, b);
            d.beyond == 0.0 && d.left == 0.0 && d.unbacked == 0.0
  {
    PlainBeyond(s, trades, rids, LiveRids(s, b) * rids);
    WholeLeavesNothing(s, trades, base, rids, b);
    PlainUnbacked(s, trades, rids, Backing(s.log, base, b) * rids);
  }

  /** The lost bucket again: only idle margin is back in available, and the new carry stands where the old one stood. */
  predicate Refines(p: Part, r: Part, idle: real) {
    r.used == p.used && r.reserved == p.reserved - idle && r.avail == p.avail + idle + r.carry - p.carry
  }

  lemma NoDifference(p: Part, r: Part, d: Difference)
    requires Rebased(p, r, d) && d.beyond == 0.0 && d.left == 0.0 && d.unbacked == 0.0 && d.over == 0.0
    requires d.reseeded == -p.carry
    ensures Refines(p, r, d.idle)
  {
  }

  /** The opening balances of `b` with the carry of `s` on top are the account of `s`. */
  predicate OpenedAlike(s: State, b: State, floor: int) {
    && AccountOf(s, floor).intraday == b.intraday.avail + s.intraday.carry
    && AccountOf(s, floor).positional == b.positional.avail + s.positional.carry
    && AccountOf(s, floor).total == b.total + s.Carry()
  }

  ghost predicate RefinesLive(s: State, r: State, rids: set<Rid>) {
    && Refines(s.intraday, r.intraday, Sums.Over(LiveRids(s, Intraday) - rids, rid => MarginIn(s, rid)))
    && Refines(s.positional, r.positional, Sums.Over(LiveRids(s, Positional) - rids, rid => MarginIn(s, rid)))
    && r.total == s.total + r.Carry() - s.Carry()
    && r.live.Keys == s.live.Keys * rids
  }

  lemma WholeDayRefines(s: State, trades: Trades, base: Base, b: State, open: seq<Trade>, floor: int)
    requires Sound(s, trades, base) && Opened(b, s.log) && Covered(s, trades, base, open)
    requires PlainAndWhole(s, trades, Rids(s.log, open)) && OpenedAlike(s, b, floor)
    requires base.overIntraday == 0.0 && base.overPositional == 0.0
    ensures var r := Rehydrate(b, open, floor); r.Some? && RefinesLive(s, r.value, Rids(s.log, open))
  {
    var rids := Rids(s.log, open);
    RestartExact(s, trades, base, b, open, floor);
    RestartAccount(s, trades, base, b, open, floor);
    var r := Rehydrate(b, open, floor).value;
    PlainDiffers(s, trades, base, rids, b.intraday.avail, floor, Intraday);
    PlainDiffers(s, trades, base, rids, b.positional.avail, floor, Positional);
    NoDifference(s.intraday, r.intraday, DifferenceOf(s, trades, base, rids, b.intraday.avail, floor, Intraday));
    NoDifference(s.positional, r.positional, DifferenceOf(s, trades, base, rids, b.positional.avail, floor, Positional));
  }

  lemma FinishedAlike(r: Part, opening: real, m: Part, pnl: real)
    requires Finished(r, opening, m, pnl) && m.Sum() == 0.0
    ensures r.Sum() - pnl == opening + r.carry
  {
  }

  lemma PlainMovesNothing(s: State, trades: Trades, base: Base, rids: set<Rid>, b: Bucket)
    requires Sound(s, trades, base) && InSession(s, base, rids) && PlainAndWhole(s, trades, rids)
    ensures AllMoved(s.log, rids, b).Sum() == 0.0
  {
    AvailReplayed(s, trades, base, rids, b);
    PlainUnbacked(s, trades, rids, Backing(s.log, base, b) * rids);
  }

  /** The account of a rebuilt book, bucket by bucket. */
  lemma RebuiltBucketAlike(b: State, r: State, log: Log, rids: set<Rid>, floor: int, k: Bucket)
    requires Finished(r.Of(k), b.Of(k).avail, AllMoved(log, rids, k), CarryoverOf(log, floor, k))
    requires AllMoved(log, rids, k).Sum() == 0.0 && CarryoverOf(r.log, floor, k) == CarryoverOf(log, floor, k)
    ensures AccountOf(r, floor).Of(k) == b.Of(k).avail + r.Of(k).carry
  {
    FinishedAlike(r.Of(k), b.Of(k).avail, AllMoved(log, rids, k), CarryoverOf(log, floor, k));
  }

  lemma TotalAlike(total: real, opening: real, i: Part, p: Part, pnl: real)
    requires total == opening + p.carry + pnl && i.carry == 0.0
    ensures total - pnl == opening + (i.carry + p.carry)
  {
  }

  lemma MorningBucket(s: State, trades: Trades, base: Base, b: State, open: seq<Trade>, floor: int, k: Bucket)
    requires Sound(s, trades, base) && Opened(b, s.log) && Covered(s, trades, base, open)
    requires PlainAndWhole(s, trades, Rids(s.log, open))
    ensures var r := Rehydrate(b, open, floor); r.Some? && AccountOf(r.value, floor).Of(k) == b.Of(k).avail + r.value.Of(k).carry
  {
    OpenedRehydrates(b, s.log, open, floor);
    OpenedReads(b, s.log, trades, floor);
    PlainMovesNothing(s, trades, base, Rids(s.log, open), k);
    RebuiltBucketAlike(b, Rehydrate(b, open, floor).value, s.log, Rids(s.log, open), floor, k);
  }

  lemma MorningTotal(b: State, log: Log, open: seq<Trade>, floor: int)
    requires Opened(b, log) && AllReplayable(log, open)
    ensures var r := Rehydrate(b, open, floor); r.Some? && AccountOf(r.value, floor).total == b.total + r.value.Carry()
  {
    OpenedRehydrates(b, log, open, floor);
    OpenedReads(b, log, map[], floor);
    var r := Rehydrate(b, open, floor).value;
    TotalAlike(r.total, b.total, r.intraday, r.positional, Carryover(log, floor));
  }

  /** A book rebuilt from plain and whole trades is sound, starts its day alike, and has nothing in use for left quantity. */
  lemma MorningIsReady(s: State, trades: Trades, base: Base, b: State, open: seq<Trade>, floor: int)
    requires Sound(s, trades, base) && Opened(b, s.log) && Covered(s, trades, base, open)
    requires PlainAndWhole(s, trades, Rids(s.log, open))
    ensures var r, after := Rehydrate(b, open, floor), BaseAfter(s, trades, base, Rids(s.log, open));
            && r.Some? && Sound(r.value, trades, after) && OpenedAlike(r.value, b, floor)
            && after.overIntraday == 0.0 && after.overPositional == 0.0
  {
    var rids := Rids(s.log, open);
    RestartKeepsSound(s, trades, base, b, open, floor);
    MorningBucket(s, trades, base, b, open, floor, Intraday);
    MorningBucket(s, trades, base, b, open, floor, Positional);
    MorningTotal(b, s.log, open, floor);
    WholeLeavesNothing(s, trades, base, rids, Intraday);
    WholeLeavesNothing(s, trades, base, rids, Positional);
  }

  /** A day from a ready morning, and the boot that interrupts it. */
  ghost predicate Day(split: Split, trades: Trades, morning: State, base: Base, opening: State, calls: seq<Call>, floor: int,
                      b: State, open: seq<Trade>)
  {
    && AllAttributed(split, trades, base, morning, calls) && Unsynced(calls, floor)
    && var s := Run(split, trades, morning, calls);
       && Opened(b, s.log) && b.intraday == opening.intraday && b.positional == opening.positional
       && Covered(s, trades, base, open) && PlainAndWhole(s, trades, Rids(s.log, open))
  }

  lemma DayThenRestart(split: Split, trades: Trades, morning: State, base: Base, opening: State, calls: seq<Call>, floor: int,
                       b: State, open: seq<Trade>)
    requires Sound(morning, trades, base) && OpenedAlike(morning, opening, floor)
    requires opening.total == opening.intraday.avail + opening.positional.avail
    requires base.overIntraday == 0.0 && base.overPositional == 0.0
    requires Day(split, trades, morning, base, opening, calls, floor, b, open)
    ensures var s := Run(split, trades, morning, calls);
            var r := Rehydrate(b, open, floor);
            r.Some? && RefinesLive(s, r.value, Rids(s.log, open))
  {
    RunKeepsSound(split, trades, base, morning, calls);
    DayKept(split, trades, base, morning, floor, calls);
    WholeDayRefines(Run(split, trades, morning, calls), trades, base, b, open, floor);
  }

  /**
   * A restart refines the day it interrupts: from any sound book, boot and rehydrate (so the
   * day may begin with carried positions), run any calls but syncs, then boot with the same
   * balances and rehydrate again.
   */
  lemma RestartRefines(split: Split, s0: State, trades: Trades, base: Base, b0: State, open0: seq<Trade>, floor: int,
                       calls: seq<Call>, b1: State, open1: seq<Trade>)
    requires Sound(s0, trades, base) && Opened(b0, s0.log) && Covered(s0, trades, base, open0)
    requires PlainAndWhole(s0, trades, Rids(s0.log, open0)) && Rehydrate(b0, open0, floor).Some?
    requires Day(split, trades, Rehydrate(b0, open0, floor).value, BaseAfter(s0, trades, base, Rids(s0.log, open0)), b0, calls,
                 floor, b1, open1)
    ensures var s := Run(split, trades, Rehydrate(b0, open0, floor).value, calls);
            var r := Rehydrate(b1, open1, floor);
            r.Some? && RefinesLive(s, r.value, Rids(s.log, open1))
  {
    MorningIsReady(s0, trades, base, b0, open0, floor);
    DayThenRestart(split, trades, Rehydrate(b0, open0, floor).value, BaseAfter(s0, trades, base, Rids(s0.log, open0)), b0,
                   calls, floor, b1, open1);
  }

  // --- a second restart ---

  ghost predicate SameProgress(a: Progress, a': Progress) {
    a.KeyError? == a'.KeyError? && (a.Progress? ==>
      SameBook(a.s, a'.s) && a'.sawReserve == a.sawReserve && a'.applied == a.applied && a'.anomalies == a.anomalies)
  }

  lemma RowSame(a: Progress, a': Progress, row: Row, t: Trade, rid: Rid, intent: Intent)
    requires SameProgress(a, a')
    ensures SameProgress(ReplayRow(a, row, t, rid, intent), ReplayRow(a', row, t, rid, intent))
  {
  }

  lemma {:induction false} ChainSame(a: Progress, a': Progress, chain: Log, t: Trade, rid: Rid, intent: Intent)
    requires SameProgress(a, a')
    ensures SameProgress(ReplayChain(a, chain, t, rid, intent), ReplayChain(a', chain, t, rid, intent))
  {
    if chain != [] {
      ChainSame(a, a', Front(chain), t, rid, intent);
      RowSame(ReplayChain(a, Front(chain), t, rid, intent), ReplayChain(a', Front(chain), t, rid, intent), Last(chain), t, rid, intent);
    }
  }

  lemma {:induction false} ChainKeepsLog(a: Progress, chain: Log, t: Trade, rid: Rid, intent: Intent)
    requires a.Progress?
    ensures var r := ReplayChain(a, chain, t, rid, intent); r.Progress? ==> r.s.log == a.s.log
  {
    if chain != [] {
      ChainKeepsLog(a, Front(chain), t, rid, intent);
    }
  }

  ghost predicate ReadsAlike(log: Log, log': Log) {
    (forall rid :: Chain(log', rid) == Chain(log, rid)) && forall t :: Resolve(log', t) == Resolve(log, t)
  }

  ghost predicate SameReplayed(r: Replayed, r': Replayed, log: Log, log': Log) {
    r.Failed? == r'.Failed?
    && (r.Replayed? ==> SameBook(r.s, r'.s) && r.s.log == log && r'.s.log == log' && r'.count == r.count && r'.anomalies == r.anomalies)
  }

  lemma TradeSame(r: Replayed, r': Replayed, log: Log, log': Log, t: Trade)
    requires SameReplayed(r, r', log, log') && ReadsAlike(log, log')
    ensures SameReplayed(ReplayTrade(r, t), ReplayTrade(r', t), log, log')
  {
    if r.Replayed? && t.signal.Some? && Resolve(log, t).Some? {
      var rid := Resolve(log, t).value;
      var chain := Chain(log, rid);
      if chain != [] && ReplayIntent(t, chain).Some? {
        var a, a', intent := Progress(r.s, false, false, r.anomalies), Progress(r'.s, false, false, r'.anomalies), ReplayIntent(t, chain).value;
        ChainSame(a, a', chain, t, rid, intent);
        ChainKeepsLog(a, chain, t, rid, intent);
        ChainKeepsLog(a', chain, t, rid, intent);
      }
    }
  }

  lemma {:induction false} TradesSame(s: State, s': State, open: seq<Trade>)
    requires SameBook(s, s') && ReadsAlike(s.log, s'.log)
    ensures SameReplayed(ReplayTrades(s, open), ReplayTrades(s', open), s.log, s'.log)
  {
    if open != [] {
      TradesSame(s, s', open[..|open| - 1]);
      TradeSame(ReplayTrades(s, open[..|open| - 1]), ReplayTrades(s', open[..|open| - 1]), s.log, s'.log, open[|open| - 1]);
    }
  }

  /**
   * Crashing again at once does no harm: a second boot with the same balance and the same open
   * trades rebuilds the same book, or fails as the first did, whatever is in the ledger.
   */
  lemma SecondRestartIsTheSame(split: Split, log: Log, balance: real, ts: int, ts': int, open: seq<Trade>, floor: int)
    requires split.Valid()
    ensures var b := BootWith(split, log, balance, ts);
            var first, second := Rehydrate(b, open, floor), Rehydrate(BootWith(split, b.log, balance, ts'), open, floor);
            first.Some? == second.Some? && (first.Some? ==> SameBook(first.value, second.value))
  {
    var b := BootWith(split, log, balance, ts);
    var b' := BootWith(split, b.log, balance, ts');
    BootOpens(split, b.log, balance, ts');
    OpenedReads(b', b.log, map[], floor);
    TradesSame(b, b', open);
  }
}
