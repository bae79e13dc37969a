/**
 * Restart against the live run: what initialize followed by rehydrate rebuilds, compared
 * with the memory that was lost, and what every run of calls and restarts keeps.
 */
module Restart {
  import opened Options
  import opened Ledger
  import opened CapitalInvariant
  import opened Book
  import opened Runs
  import opened Replay
  import opened Positions
  import Sums

  // --- the session ---

  /** A live book whose reservations, chains and positions are in order. */
  ghost predicate Sound(s: State, trades: Trades, base: Base) {
    && s.initialized && ReservedAgrees(s, Intraday) && ReservedAgrees(s, Positional)
    && ChainsFit(s) && PositionsFit(s, trades, base)
  }

  lemma StepKeepsSound(split: Split, trades: Trades, base: Base, s: State, c: Call)
    requires Sound(s, trades, base) && Fresh(s, c) && Attributed(s, trades, base, c)
    ensures Sound(Step(split, trades, s, c).0, trades, base)
  {
    StepReserved(split, trades, s, c);
    StepKeepsChains(split, trades, s, c);
    StepKeepsPositions(split, trades, base, s, c);
    StepStaysInitialized(split, trades, s, c);
  }

  lemma StepStaysInitialized(split: Split, trades: Trades, s: State, c: Call)
    requires s.initialized && Fresh(s, c)
    ensures Step(split, trades, s, c).0.initialized
  {
    StepWritesAhead(split, trades, s, c);
  }

  lemma {:induction false} RunKeepsSound(split: Split, trades: Trades, base: Base, s: State, calls: seq<Call>)
    requires Sound(s, trades, base) && AllAttributed(split, trades, base, s, calls)
    ensures Sound(Run(split, trades, s, calls), trades, base)
    decreases |calls|
  {
    if calls != [] {
      StepKeepsSound(split, trades, base, s, calls[0]);
      RunKeepsSound(split, trades, base, Step(split, trades, s, calls[0]).0, calls[1..]);
    }
  }

  // --- the account ---

  /** What the buckets and the total amount to apart from the day's realized profit. */
  datatype Account = Account(intraday: real, positional: real, total: real) {
    function Of(b: Bucket): real {
      if b == Intraday then intraday else positional
    }
  }

  function AccountOf(s: State, floor: int): Account {
    Account(s.intraday.Sum() - CarryoverOf(s.log, floor, Intraday), s.positional.Sum() - CarryoverOf(s.log, floor, Positional),
            s.total - Carryover(s.log, floor))
  }

  lemma RowKeepsBucket(s: State, s': State, row: Row, floor: int, b: Bucket)
    requires s'.log == s.log + [row] && row.ts >= floor && (row.entryType == RELEASE_USED ==> row.scope.One?)
    requires SumsFollow(row, s, s', b)
    ensures s'.Of(b).Sum() - CarryoverOf(s'.log, floor, b) == s.Of(b).Sum() - CarryoverOf(s.log, floor, b)
    ensures s'.Of(b).carry == s.Of(b).carry
  {
    Snoc(s.log, row);
  }

  lemma RowKeepsTotal(s: State, s': State, row: Row, floor: int)
    requires Describes(row, s, s') && row.ts >= floor && row.entryType !in {INIT, SYNC}
    ensures s'.total - Carryover(s'.log, floor) == s.total - Carryover(s.log, floor)
  {
    Snoc(s.log, row);
  }

  /** No call but a sync changes the account: every other change is realized profit, or moves inside a bucket. */
  lemma StepKeepsAccount(split: Split, trades: Trades, s: State, floor: int, c: Call)
    requires s.initialized && Fresh(s, c) && !c.op.Sync? && c.ts >= floor
    ensures var s' := Step(split, trades, s, c).0;
            && AccountOf(s', floor) == AccountOf(s, floor)
            && s'.intraday.carry == s.intraday.carry && s'.positional.carry == s.positional.carry
  {
    var s' := Step(split, trades, s, c).0;
    StepWritesAhead(split, trades, s, c);
    if s' != s {
      var row := Last(s'.log);
      RowKeepsBucket(s, s', row, floor, Intraday);
      RowKeepsBucket(s, s', row, floor, Positional);
      RowKeepsTotal(s, s', row, floor);
    }
  }

  /** Calls of one day between two syncs. */
  predicate Unsynced(calls: seq<Call>, floor: int) {
    forall i :: 0 <= i < |calls| ==> !calls[i].op.Sync? && calls[i].ts >= floor
  }

  lemma {:induction false} DayKept(split: Split, trades: Trades, base: Base, s: State, floor: int, calls: seq<Call>)
    requires s.initialized && AllAttributed(split, trades, base, s, calls) && Unsynced(calls, floor)
    ensures var s' := Run(split, trades, s, calls);
            && AccountOf(s', floor) == AccountOf(s, floor)
            && s'.intraday.carry == s.intraday.carry && s'.positional.carry == s.positional.carry
    decreases |calls|
  {
    if calls != [] {
      StepKeepsAccount(split, trades, s, floor, calls[0]);
      StepStaysInitialized(split, trades, s, calls[0]);
      DayKept(split, trades, base, Step(split, trades, s, calls[0]).0, floor, calls[1..]);
    }
  }

  // --- booting ---

  /** A process on ledger `log`, just initialized. */
  function BootWith(split: Split, log: Log, balance: real, ts: int): State {
    Book.Initialize(split, FRESH.(log := log), balance, ts, true).0
  }

  /** A state in which only the opening balances are set, one INIT row after `log`. */
  ghost predicate Opened(b: State, log: Log) {
    && b.initialized && b.live == map[]
    && b.intraday == Part(b.intraday.avail, 0.0, 0.0, 0.0) && b.positional == Part(b.positional.avail, 0.0, 0.0, 0.0)
    && b.total == b.intraday.avail + b.positional.avail
    && b.log != [] && Front(b.log) == log
    && var row := Last(b.log); row.entryType == INIT && row.rid == None && row.trade == None && row.amount == b.total
  }

  lemma BootOpens(split: Split, log: Log, balance: real, ts: int)
    requires split.Valid()
    ensures Opened(BootWith(split, log, balance, ts), log)
  {
    Snoc(log, Last(BootWith(split, log, balance, ts).log));
    assert balance * split.intraday + balance * split.positional == balance * (split.intraday + split.positional);
  }

  /** The INIT row changes nothing that replay reads. */
  lemma OpenedReads(b: State, log: Log, trades: Trades, floor: int)
    requires Opened(b, log)
    ensures forall rid :: Chain(b.log, rid) == Chain(log, rid)
    ensures forall t :: Resolve(b.log, t) == Resolve(log, t)
    ensures forall k :: CarryoverOf(b.log, floor, k) == CarryoverOf(log, floor, k)
    ensures Carryover(b.log, floor) == Carryover(log, floor)
    ensures forall rid :: PositionOf(b.log, trades, rid) == PositionOf(log, trades, rid)
    ensures forall k :: CommittedRids(b.log, k) == {}
  {
    assert b.log == log + [Last(b.log)];
    forall rid ensures Chain(b.log, rid) == Chain(log, rid) && PositionOf(b.log, trades, rid) == PositionOf(log, trades, rid) {
      assert Chain(log, rid) + [] == Chain(log, rid);
      PositionSnoc(log, Last(b.log), trades, rid);
    }
  }

  lemma OpenedReplayable(b: State, log: Log, open: seq<Trade>)
    requires Opened(b, log) && AllReplayable(log, open)
    ensures AllReplayable(b.log, open) && Rids(b.log, open) == Rids(log, open)
  {
    OpenedReads(b, log, map[], 0);
  }

  /** The first session of all: no positions, no reservations. */
  lemma BootIsSound(split: Split, trades: Trades, log: Log, balance: real, ts: int)
    requires split.Valid() && forall rid :: !PhaseOf(log, rid).Broken?
    ensures Sound(BootWith(split, log, balance, ts), trades, NOTHING)
  {
    var b := BootWith(split, log, balance, ts);
    BootOpens(split, log, balance, ts);
    OpenedReads(b, log, trades, 0);
    assert LiveRids(b, Intraday) == {} == LiveRids(b, Positional);
    assert Backing(b.log, NOTHING, Intraday) == {} == Backing(b.log, NOTHING, Positional);
    forall rid ensures ChainFits(b, rid) {
      assert PhaseOf(b.log, rid) == PhaseOf(log, rid);
    }
  }

  // --- what the replayed chains amount to, against a sound book ---

  /**
   * The open trades stand for positions and in-flight entries of the session, and every
   * position without an open trade has left completely.
   */
  ghost predicate Covered(s: State, trades: Trades, base: Base, open: seq<Trade>) {
    && AllReplayable(s.log, open)
    && InSession(s, base, Rids(s.log, open))
    && FullyExited(s, trades, base, Rids(s.log, open), Intraday) && FullyExited(s, trades, base, Rids(s.log, open), Positional)
  }

  ghost predicate InSession(s: State, base: Base, rids: set<Rid>) {
    forall rid :: rid in rids ==>
      rid in s.live || rid in Backing(s.log, base, Intraday) || rid in Backing(s.log, base, Positional)
  }

  ghost predicate FullyExited(s: State, trades: Trades, base: Base, rids: set<Rid>, b: Bucket) {
    forall rid :: rid in Backing(s.log, base, b) && rid !in rids ==> Exited(s.log, trades, rid) == CommitQty(s.log, rid)
  }

  /** What a reservation holds in memory beyond its RESERVE row. */
  ghost function BeyondReserve(s: State): Rid -> real {
    rid => MarginIn(s, rid) - (if PhaseOf(s.log, rid).Open? then PhaseOf(s.log, rid).first else 0.0)
  }

  /** Where memory agrees with the ledger, that is the rows which replay skips. */
  lemma BeyondIsSkipped(s: State, rid: Rid)
    requires MarginsAgree(s) && ChainsFit(s) && rid in s.live
    ensures BeyondReserve(s)(rid) == SkippedDelta(Chain(s.log, rid))
  {
    assert ChainFits(s, rid);
    MarginInPhase(s.log, rid);
    SkippedInPhase(Chain(s.log, rid));
  }

  lemma CommitRow(leverage: Leverage, s: State, rid: Rid, price: real, qty: int, ts: int) returns (row: Row)
    requires s.initialized && rid in s.live
    ensures Book.CommitToUsed(leverage, s, rid, price, qty, ts, true).0.log == s.log + [row]
    ensures row.entryType == COMMIT && row.rid == Some(rid)
    ensures row.after - row.before == s.live[rid].margin - row.amount
  {
    row := Last(Book.CommitToUsed(leverage, s, rid, price, qty, ts, true).0.log);
  }

  lemma SquareCommit(p: Phase, row: Row)
    requires p.Open? && row.entryType == COMMIT && !NextPhase(p, row).Broken?
    requires row.after - row.before == p.first + p.skipped - row.amount
    ensures NextPhase(p, row).Committed? && Square(NextPhase(p, row))
  {
  }

  /** And a commit there is square: it deals out what its chain holds. */
  lemma CommitIsSquare(leverage: Leverage, s: State, rid: Rid, price: real, qty: int, ts: int)
    requires s.initialized && MarginsAgree(s) && ChainsFit(s) && rid in s.live
    ensures var s' := Book.CommitToUsed(leverage, s, rid, price, qty, ts, true).0;
            PhaseOf(s'.log, rid).Committed? && Square(PhaseOf(s'.log, rid))
  {
    assert ChainFits(s, rid);
    MarginInPhase(s.log, rid);
    var row := CommitRow(leverage, s, rid, price, qty, ts);
    ChainSnoc(s.log, row, rid);
    SquareCommit(PhaseOf(s.log, rid), row);
  }

  ghost function LeftBy(log: Log, trades: Trades): Rid -> real {
    rid => SliceOf(PositionOf(log, trades, rid), Exited(log, trades, rid))
  }

  /** How a rebuilt bucket differs from the lost one. */
  datatype Difference = Difference(
    idle: real,        // margin reserved for entries that no open trade stands for
    beyond: real,      // margin of replayed entries beyond their RESERVE rows
    left: real,        // margin already released by partial exits of positions still open
    over: real,        // the same, put to use by the restart before
    unbacked: real,    // what replayed commits dealt out beyond their RESERVE rows
    reseeded: real)    // the new opening balance against the account of the lost session

  ghost function DifferenceOf(s: State, trades: Trades, base: Base, rids: set<Rid>, opening: real, floor: int, b: Bucket): Difference {
    Difference(
      Sums.Over(LiveRids(s, b) - rids, rid => MarginIn(s, rid)),
      Sums.Over(LiveRids(s, b) * rids, BeyondReserve(s)),
      Sums.Over(Backing(s.log, base, b) * rids, LeftBy(s.log, trades)),
      base.Over(b),
      Sums.Over(Backing(s.log, base, b) * rids, UnbackedBy(s.log)),
      opening - AccountOf(s, floor).Of(b))
  }

  lemma PhaseInSession(s: State, trades: Trades, base: Base, rid: Rid, b: Bucket)
    requires ChainsFit(s) && PositionsFit(s, trades, base)
    requires rid in s.live || rid in Backing(s.log, base, Intraday) || rid in Backing(s.log, base, Positional)
    ensures PhaseOf(s.log, rid).Open? <==> rid in s.live
    ensures PhaseOf(s.log, rid).Committed? && PhaseOf(s.log, rid).bucket == b <==> rid in Backing(s.log, base, b)
    ensures rid in s.live ==> PhaseOf(s.log, rid).bucket == s.live[rid].bucket
  {
    assert ChainFits(s, rid);
    if rid in Backing(s.log, base, Intraday) { CommittedOnce(s, trades, base, rid, Intraday); }
    if rid in Backing(s.log, base, Positional) { CommittedOnce(s, trades, base, rid, Positional); }
    if rid in s.live { NewToBacking(s, trades, base, rid); }
  }

  lemma OpenIsLive(s: State, trades: Trades, base: Base, rids: set<Rid>)
    requires ChainsFit(s) && PositionsFit(s, trades, base) && InSession(s, base, rids)
    ensures OpenOf(s.log, rids) == s.live.Keys * rids
    ensures forall b :: CommittedOf(s.log, rids, b) == Backing(s.log, base, b) * rids
  {
    forall rid ensures rid in OpenOf(s.log, rids) <==> rid in s.live.Keys * rids {
      if rid in rids { PhaseInSession(s, trades, base, rid, Intraday); }
    }
    forall b ensures CommittedOf(s.log, rids, b) == Backing(s.log, base, b) * rids {
      forall rid ensures rid in CommittedOf(s.log, rids, b) <==> rid in Backing(s.log, base, b) * rids {
        if rid in rids { PhaseInSession(s, trades, base, rid, b); }
      }
    }
  }

  lemma ReservedRestored(s: State, trades: Trades, base: Base, rids: set<Rid>, b: Bucket)
    requires Sound(s, trades, base) && InSession(s, base, rids)
    ensures Sums.Over(rids, ReservedMoved(s.log, b))
            == s.Of(b).reserved - Sums.Over(LiveRids(s, b) - rids, rid => MarginIn(s, rid))
               - Sums.Over(LiveRids(s, b) * rids, BeyondReserve(s))
  {
    var mine, moved, margin := LiveRids(s, b) * rids, ReservedMoved(s.log, b), (rid: Rid) => MarginIn(s, rid);
    forall rid | rid in rids ensures rid in mine || moved(rid) == 0.0 {
      PhaseInSession(s, trades, base, rid, b);
    }
    Sums.Drop(rids, mine, moved);
    Sums.Divide(LiveRids(s, b), rids, margin);
    forall rid | rid in mine ensures margin(rid) - moved(rid) == BeyondReserve(s)(rid) {
      PhaseInSession(s, trades, base, rid, b);
    }
    Sums.Subtract(mine, margin, moved, BeyondReserve(s));
  }

  lemma LeftPart(p: Position)
    requires p.qty != 0
    ensures p.margin - HeldBy(p) == SliceOf(p, p.exited)
  {
    SliceOfAll(p);
    SliceSplits(p, p.qty, p.exited);
  }

  lemma NothingHeld(p: Position)
    requires p.qty != 0 && p.exited == p.qty
    ensures HeldBy(p) == 0.0
  {
    SliceOfAll(p);
  }

  lemma UsedTerm(s: State, trades: Trades, base: Base, rid: Rid, b: Bucket)
    requires ChainsFit(s) && PositionsFit(s, trades, base) && rid in Backing(s.log, base, b)
    ensures UsedMoved(s.log, b)(rid) - Held(s.log, trades)(rid) == LeftBy(s.log, trades)(rid)
  {
    CommittedOnce(s, trades, base, rid, b);
    LeftPart(PositionOf(s.log, trades, rid));
  }

  lemma UsedOfMine(s: State, trades: Trades, base: Base, rids: set<Rid>, b: Bucket)
    requires ChainsFit(s) && PositionsFit(s, trades, base) && InSession(s, base, rids)
    ensures Sums.Over(rids, UsedMoved(s.log, b)) == Sums.Over(Backing(s.log, base, b) * rids, UsedMoved(s.log, b))
  {
    forall rid | rid in rids ensures rid in Backing(s.log, base, b) * rids || UsedMoved(s.log, b)(rid) == 0.0 {
      PhaseInSession(s, trades, base, rid, b);
    }
    Sums.Drop(rids, Backing(s.log, base, b) * rids, UsedMoved(s.log, b));
  }

  /** What replay puts to use, against what is still held: the difference has left already. */
  lemma UsedReplayed(s: State, trades: Trades, base: Base, rids: set<Rid>, b: Bucket)
    requires ChainsFit(s) && PositionsFit(s, trades, base) && InSession(s, base, rids)
    ensures var mine := Backing(s.log, base, b) * rids;
            Sums.Over(rids, UsedMoved(s.log, b)) - Sums.Over(mine, Held(s.log, trades)) == Sums.Over(mine, LeftBy(s.log, trades))
  {
    UsedOfMine(s, trades, base, rids, b);
    var mine := Backing(s.log, base, b) * rids;
    forall rid | rid in mine ensures UsedMoved(s.log, b)(rid) - Held(s.log, trades)(rid) == LeftBy(s.log, trades)(rid) {
      UsedTerm(s, trades, base, rid, b);
    }
    Sums.Subtract(mine, UsedMoved(s.log, b), Held(s.log, trades), LeftBy(s.log, trades));
  }

  /** What is held, is held by positions that still have an open trade. */
  lemma HeldIsCovered(s: State, trades: Trades, base: Base, rids: set<Rid>, b: Bucket)
    requires ChainsFit(s) && PositionsFit(s, trades, base) && FullyExited(s, trades, base, rids, b)
    ensures s.Of(b).used - base.Over(b) == Sums.Over(Backing(s.log, base, b) * rids, Held(s.log, trades))
  {
    var all, held := Backing(s.log, base, b), Held(s.log, trades);
    forall rid | rid in all - all * rids ensures held(rid) == 0.0 {
      CommittedOnce(s, trades, base, rid, b);
      NothingHeld(PositionOf(s.log, trades, rid));
    }
    Sums.Drop(all, all * rids, held);
  }

  lemma AvailReplayed(s: State, trades: Trades, base: Base, rids: set<Rid>, b: Bucket)
    requires ChainsFit(s) && PositionsFit(s, trades, base) && InSession(s, base, rids)
    ensures AllMoved(s.log, rids, b).Sum() == Sums.Over(Backing(s.log, base, b) * rids, UnbackedBy(s.log))
  {
    MovedSum(s.log, rids, b);
    OpenIsLive(s, trades, base, rids);
  }

  // --- rehydrating a fresh boot ---

  lemma SameMoved(log: Log, log': Log, rids: set<Rid>, b: Bucket)
    requires forall rid :: Chain(log', rid) == Chain(log, rid)
    ensures AllMoved(log', rids, b) == AllMoved(log, rids, b)
  {
    Sums.Same(rids, AvailMoved(log', b), AvailMoved(log, b));
    Sums.Same(rids, ReservedMoved(log', b), ReservedMoved(log, b));
    Sums.Same(rids, UsedMoved(log', b), UsedMoved(log, b));
  }

  /** Replaying the open trades on a fresh boot, as sums over their reservations. */
  lemma OpenedReplays(b: State, log: Log, open: seq<Trade>)
    requires Opened(b, log) && AllReplayable(log, open)
    ensures var r, rids := ReplayTrades(b, open), Rids(log, open);
            && r.Replayed? && r.count == |rids| && r.s.total == b.total && r.s.log == b.log && r.s.initialized
            && MovedBy(b, r.s, Intraday, AllMoved(log, rids, Intraday))
            && MovedBy(b, r.s, Positional, AllMoved(log, rids, Positional))
            && RebuiltLive(log, map[], r.s.live, rids)
  {
    OpenedReplayable(b, log, open);
    OpenedReads(b, log, map[], 0);
    TradesReplayed(b, open);
    SameMoved(log, b.log, Rids(log, open), Intraday);
    SameMoved(log, b.log, Rids(log, open), Positional);
    assert OpenOf(b.log, Rids(log, open)) == OpenOf(log, Rids(log, open));
  }

  /** A bucket of the state that rehydrate ends in, after a boot with `opening` in it and a replay that moved `m`. */
  ghost predicate Finished(r: Part, opening: real, m: Part, pnl: real) {
    r.reserved == m.reserved && r.used == m.used && r.avail == opening + m.avail + pnl + r.carry
  }

  lemma FinishPart(b: Part, s1: Part, r: Part, m: Part, pnl: real)
    requires b == Part(b.avail, 0.0, 0.0, 0.0) && s1 == b.Move(m.avail, m.reserved, m.used)
    requires r.reserved == s1.reserved && r.used == s1.used && r.avail == s1.avail + r.carry + pnl
    ensures Finished(r, b.avail, m, pnl)
  {
  }

  /** What rehydrate ends in, as the replayed chains dictate. */
  ghost predicate Rehydrated(b: State, r: State, log: Log, rids: set<Rid>, floor: int) {
    && Finished(r.intraday, b.intraday.avail, AllMoved(log, rids, Intraday), CarryoverOf(log, floor, Intraday))
    && Finished(r.positional, b.positional.avail, AllMoved(log, rids, Positional), CarryoverOf(log, floor, Positional))
    && r.intraday.carry == 0.0 && r.positional.carry == r.positional.reserved + r.positional.used
    && r.total == b.total + r.positional.carry + Carryover(log, floor)
    && RebuiltLive(log, map[], r.live, rids) && r.log == b.log && r.initialized
  }

  /** Rehydrating a fresh boot never fails, whatever trades it passes over. */
  lemma OpenedRehydrates(b: State, log: Log, open: seq<Trade>, floor: int)
    requires Opened(b, log) && AllReplayable(log, open)
    ensures var r := Rehydrate(b, open, floor); r.Some? && Rehydrated(b, r.value, log, Rids(log, open), floor)
  {
    OpenedReplays(b, log, open);
    OpenedReads(b, log, map[], floor);
    var s1, rids := ReplayTrades(b, open).s, Rids(log, open);
    var r := Rehydrate(b, open, floor).value;
    CarryoverSplits(log, floor);
    FinishPart(b.intraday, s1.intraday, r.intraday, AllMoved(log, rids, Intraday), CarryoverOf(log, floor, Intraday));
    FinishPart(b.positional, s1.positional, r.positional, AllMoved(log, rids, Positional), CarryoverOf(log, floor, Positional));
  }

  // --- restart, exactly ---

  /** The rebuilt bucket against the lost one. */
  predicate Rebased(p: Part, r: Part, d: Difference) {
    && r.reserved == p.reserved - d.idle - d.beyond
    && r.used == p.used - d.over + d.left
    && r.avail == p.avail + d.idle + d.beyond + d.over - d.left + d.unbacked + d.reseeded + r.carry
  }

  lemma RebasedParts(p: Part, r: Part, m: Part, opening: real, pnl: real, d: Difference)
    requires Finished(r, opening, m, pnl) && d.reseeded == opening - (p.Sum() - pnl)
    requires m.reserved == p.reserved - d.idle - d.beyond && m.used == p.used - d.over + d.left && m.Sum() == d.unbacked
    ensures Rebased(p, r, d)
  {
  }

  lemma MovedIs(s: State, trades: Trades, base: Base, rids: set<Rid>, opening: real, floor: int, b: Bucket)
    requires Sound(s, trades, base) && InSession(s, base, rids) && FullyExited(s, trades, base, rids, b)
    ensures var m, d, p := AllMoved(s.log, rids, b), DifferenceOf(s, trades, base, rids, opening, floor, b), s.Of(b);
            m.reserved == p.reserved - d.idle - d.beyond && m.used == p.used - d.over + d.left && m.Sum() == d.unbacked
  {
    ReservedRestored(s, trades, base, rids, b);
    UsedReplayed(s, trades, base, rids, b);
    HeldIsCovered(s, trades, base, rids, b);
    AvailReplayed(s, trades, base, rids, b);
  }

  lemma BucketRebased(s: State, trades: Trades, base: Base, rids: set<Rid>, opening: real, floor: int, b: Bucket, r: Part)
    requires Sound(s, trades, base) && InSession(s, base, rids) && FullyExited(s, trades, base, rids, b)
    requires Finished(r, opening, AllMoved(s.log, rids, b), CarryoverOf(s.log, floor, b))
    ensures Rebased(s.Of(b), r, DifferenceOf(s, trades, base, rids, opening, floor, b))
  {
    MovedIs(s, trades, base, rids, opening, floor, b);
    RebasedParts(s.Of(b), r, AllMoved(s.log, rids, b), opening, CarryoverOf(s.log, floor, b),
                 DifferenceOf(s, trades, base, rids, opening, floor, b));
  }

  /**
   * Restart against the lost session, exactly, for any session: carried positions, syncs and
   * passed-over trades included. Rebuilding never fails, and a bucket differs from the lost one
   * by the six terms of its Difference and by the carry, which lifts available alone.
   */
  lemma RestartExact(s: State, trades: Trades, base: Base, b: State, open: seq<Trade>, floor: int)
    requires Sound(s, trades, base) && Opened(b, s.log) && Covered(s, trades, base, open)
    ensures var r, rids := Rehydrate(b, open, floor), Rids(s.log, open);
            && r.Some?
            && Rebased(s.intraday, r.value.intraday, DifferenceOf(s, trades, base, rids, b.intraday.avail, floor, Intraday))
            && Rebased(s.positional, r.value.positional, DifferenceOf(s, trades, base, rids, b.positional.avail, floor, Positional))
  {
    OpenedRehydrates(b, s.log, open, floor);
    var r, rids := Rehydrate(b, open, floor).value, Rids(s.log, open);
    BucketRebased(s, trades, base, rids, b.intraday.avail, floor, Intraday, r.intraday);
    BucketRebased(s, trades, base, rids, b.positional.avail, floor, Positional, r.positional);
  }

  /** The rest of it: carry, total, the gap, and the reservations that are back. */
  lemma RestartAccount(s: State, trades: Trades, base: Base, b: State, open: seq<Trade>, floor: int)
    requires Sound(s, trades, base) && Opened(b, s.log) && Covered(s, trades, base, open)
    ensures var r, rids := Rehydrate(b, open, floor), Rids(s.log, open);
            && r.Some? && r.value.intraday.carry == 0.0
            && r.value.positional.carry == r.value.positional.reserved + r.value.positional.used
            && r.value.total == s.total + r.value.positional.carry + (b.total - AccountOf(s, floor).total)
            && r.value.live.Keys == s.live.Keys * rids
  {
    OpenedRehydrates(b, s.log, open, floor);
    OpenIsLive(s, trades, base, Rids(s.log, open));
  }

  lemma RestartGap(s: State, trades: Trades, base: Base, b: State, open: seq<Trade>, floor: int)
    requires Sound(s, trades, base) && Opened(b, s.log) && Covered(s, trades, base, open)
    ensures var r, rids := Rehydrate(b, open, floor), Rids(s.log, open);
            r.Some? && r.value.Gap() == UnbackedTotal(s.log, rids)
  {
    OpenedGap(b, s.log);
    GapReplayed(b, s.log, open, floor);
  }

  lemma GapReplayed(b: State, log: Log, open: seq<Trade>, floor: int)
    requires Opened(b, log) && AllReplayable(log, open)
    ensures var r := Rehydrate(b, open, floor); r.Some? && r.value.Gap() == b.Gap() + UnbackedTotal(log, Rids(log, open))
  {
    OpenedReplayable(b, log, open);
    OpenedReads(b, log, map[], floor);
    ReplayGap(b, open, floor);
    SameUnbacked(log, b.log, Rids(log, open));
  }

  lemma OpenedGap(b: State, log: Log)
    requires Opened(b, log)
    ensures b.Gap() == 0.0
  {
    BalancedParts(b.intraday, b.positional, b.total);
  }

  lemma BalancedParts(i: Part, p: Part, total: real)
    requires i == Part(i.avail, 0.0, 0.0, 0.0) && p == Part(p.avail, 0.0, 0.0, 0.0) && total == i.avail + p.avail
    ensures i.Sum() + p.Sum() - total == 0.0
  {
  }

  lemma SameUnbacked(log: Log, log': Log, rids: set<Rid>)
    requires forall rid :: Chain(log', rid) == Chain(log, rid)
    ensures UnbackedTotal(log', rids) == UnbackedTotal(log, rids)
  {
    assert CommittedOf(log', rids, Intraday) == CommittedOf(log, rids, Intraday);
    assert CommittedOf(log', rids, Positional) == CommittedOf(log, rids, Positional);
    Sums.Same(CommittedOf(log, rids, Intraday), UnbackedBy(log'), UnbackedBy(log));
    Sums.Same(CommittedOf(log, rids, Positional), UnbackedBy(log'), UnbackedBy(log));
  }
}
