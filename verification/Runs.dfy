/**
 * Runs of the capital mutators, and what every run keeps: the book in memory agrees with
 * the ledger.
 */
module Runs {
  import opened Options
  import opened Ledger
  import opened CapitalInvariant
  import opened Book
  import Sums

  datatype Op =
    | Initialize(balance: real)
    | Reserve(rid: Rid, symbol: string, qty: int, price: real, intent: Intent, signal: Option<string>,
              strategy: Option<string>)
    | Release(rid: Rid)
    | ReleaseSlmBuffer(rid: Rid)
    | TopUp(rid: Rid, extra: real)
    | Commit(rid: Rid, price: real, qty: int)
    | ReleaseUsed(trade: Option<TradeId>, exit: real, qty: int, intent: Intent, entry: real, direction: Direction,
                  costs: real)
    | Sync(balance: real)
    | ResetPnl

  /** One call: the leverage map in force, the clock, and whether the ledger write succeeds. */
  datatype Call = Call(op: Op, leverage: Leverage, ts: int, writeOk: bool)

  /** trades.reservation_id, fixed when the trade row is created. */
  type Trades = map<TradeId, Rid>

  function RidOf(trades: Trades, trade: Option<TradeId>): Option<Rid> {
    if trade.Some? && trade.value in trades then Some(trades[trade.value]) else None
  }

  /** The entry_type each mutator writes. */
  function EntryOf(op: Op): EntryType {
    match op
    case Initialize(_) => INIT
    case Reserve(_, _, _, _, _, _, _) => RESERVE
    case Release(_) => RELEASE
    case ReleaseSlmBuffer(_) => RELEASE
    case TopUp(_, _) => TOP_UP
    case Commit(_, _, _) => COMMIT
    case ReleaseUsed(_, _, _, _, _, _, _) => RELEASE_USED
    case Sync(_) => SYNC
    case ResetPnl => RESET_PNL
  }

  function Step(split: Split, trades: Trades, s: State, c: Call): (State, Outcome) {
    match c.op
    case Initialize(balance) => Book.Initialize(split, s, balance, c.ts, c.writeOk)
    case Reserve(rid, symbol, qty, price, intent, signal, strategy) =>
      Book.Reserve(split, c.leverage, s, rid, symbol, qty, price, intent, signal, strategy, c.ts, c.writeOk)
    case Release(rid) => Book.Release(s, rid, c.ts, c.writeOk)
    case ReleaseSlmBuffer(rid) => Book.ReleaseSlmBuffer(s, rid, c.ts, c.writeOk)
    case TopUp(rid, extra) => Book.TopUp(s, rid, extra, c.ts, c.writeOk)
    case Commit(rid, price, qty) => Book.CommitToUsed(c.leverage, s, rid, price, qty, c.ts, c.writeOk)
    case ReleaseUsed(trade, exit, qty, intent, entry, direction, costs) =>
      Book.ReleaseUsed(c.leverage, s, trade, RidOf(trades, trade), exit, qty, intent, entry, direction, costs,
                       c.ts, c.writeOk)
    case Sync(balance) => Book.SyncFromBroker(split, s, balance, c.ts, c.writeOk)
    case ResetPnl => Book.ResetDailyPnl(s, c.ts, c.writeOk)
  }

  lemma StepWritesAhead(split: Split, trades: Trades, s: State, c: Call)
    requires Fresh(s, c)
    ensures WroteAhead(EntryOf(c.op), c.ts, s, Step(split, trades, s, c).0)
    ensures var s' := Step(split, trades, s, c).0; s' != s && c.op.Reserve? ==> Last(s'.log).rid == Some(c.op.rid)
  {
    match c.op
    case Initialize(balance) => InitializeWritesAhead(split, s, balance, c.ts, c.writeOk);
    case Reserve(rid, symbol, qty, price, intent, signal, strategy) =>
      ReserveWritesAhead(split, c.leverage, s, rid, symbol, qty, price, intent, signal, strategy, c.ts, c.writeOk);
    case Release(rid) => ReleaseWritesAhead(s, rid, c.ts, c.writeOk);
    case ReleaseSlmBuffer(rid) => ReleaseSlmBufferWritesAhead(s, rid, c.ts, c.writeOk);
    case TopUp(rid, extra) => TopUpWritesAhead(s, rid, extra, c.ts, c.writeOk);
    case Commit(rid, price, qty) => CommitToUsedWritesAhead(c.leverage, s, rid, price, qty, c.ts, c.writeOk);
    case ReleaseUsed(trade, exit, qty, intent, entry, direction, costs) =>
      ReleaseUsedWritesAhead(c.leverage, s, trade, RidOf(trades, trade), exit, qty, intent, entry, direction, costs,
                             c.ts, c.writeOk);
    case Sync(balance) => SyncFromBrokerWritesAhead(split, s, balance, c.ts, c.writeOk);
    case ResetPnl => ResetDailyPnlWritesAhead(s, c.ts, c.writeOk);
  }

  /** uuid4 gives every reserve an id that no row carries yet. */
  ghost predicate Fresh(s: State, c: Call) {
    c.op.Reserve? ==> c.op.rid !in s.live && !Mentions(s.log, c.op.rid)
  }

  ghost predicate FreshIds(split: Split, trades: Trades, s: State, calls: seq<Call>)
    decreases |calls|
  {
    calls == [] || (Fresh(s, calls[0]) && FreshIds(split, trades, Step(split, trades, s, calls[0]).0, calls[1..]))
  }

  function Run(split: Split, trades: Trades, s: State, calls: seq<Call>): State
    decreases |calls|
  {
    if calls == [] then s else Run(split, trades, Step(split, trades, s, calls[0]).0, calls[1..])
  }

  // --- the agreement between memory and ledger ---

  ghost function LiveRids(s: State, b: Bucket): set<Rid> {
    set rid | rid in s.live && s.live[rid].bucket == b
  }

  ghost function LiveMargins(s: State, b: Bucket): real {
    Sums.Over(LiveRids(s, b), rid => MarginIn(s, rid))
  }

  ghost predicate ReservedAgrees(s: State, b: Bucket) {
    s.Of(b).reserved == LiveMargins(s, b)
  }

  ghost predicate MarginsAgree(s: State) {
    forall rid :: rid in s.live ==> s.live[rid].margin == MarginOf(s.log, rid)
  }

  ghost predicate LatestAgrees(s: State, b: Bucket) {
    var latest := LatestBalance(s.log, b);
    latest.Some? ==> latest.value == s.Of(b).avail
  }

  ghost predicate Agrees(s: State) {
    && s.Gap() == 0.0
    && s.total == (if s.initialized then TotalOf(s.log) else 0.0)
    && ReservedAgrees(s, Intraday) && ReservedAgrees(s, Positional)
    && MarginsAgree(s)
    && (s.initialized ==> LatestAgrees(s, Intraday) && LatestAgrees(s, Positional))
  }

  /**
   * What a warm restart leaves between book and ledger: a gap, a total that the ledger's INIT
   * does not know, and margin that replay did not give back to live reservations.
   */
  datatype Offset = Offset(gap: real, total: real, lost: map<Rid, real>)

  const NO_OFFSET := Offset(0.0, 0.0, map[])

  function LostOf(o: Offset, rid: Rid): real {
    if rid in o.lost then o.lost[rid] else 0.0
  }

  ghost predicate MarginsFrom(s: State, o: Offset) {
    forall rid :: rid in s.live ==> s.live[rid].margin == MarginOf(s.log, rid) - LostOf(o, rid)
  }

  /** The agreement up to an offset. */
  ghost predicate AgreesFrom(s: State, o: Offset) {
    && s.Gap() == o.gap
    && s.total - o.total == (if s.initialized then TotalOf(s.log) else 0.0)
    && ReservedAgrees(s, Intraday) && ReservedAgrees(s, Positional)
    && MarginsFrom(s, o)
    && (s.initialized ==> LatestAgrees(s, Intraday) && LatestAgrees(s, Positional))
  }

  lemma AgreesWithoutOffset(s: State)
    ensures Agrees(s) <==> AgreesFrom(s, NO_OFFSET)
  {
    if MarginsAgree(s) {
      forall rid | rid in s.live ensures s.live[rid].margin == MarginOf(s.log, rid) - LostOf(NO_OFFSET, rid) {
      }
    }
    if MarginsFrom(s, NO_OFFSET) {
      forall rid | rid in s.live ensures s.live[rid].margin == MarginOf(s.log, rid) {
        assert LostOf(NO_OFFSET, rid) == 0.0;
      }
    }
  }

  /** An initialize starts over, a sync closes the gap, and a new reservation has lost nothing; nothing else touches the offset. */
  function NextOffset(o: Offset, s: State, s': State, op: Op): Offset {
    if s' == s then o
    else match op
      case Initialize(_) => NO_OFFSET
      case Sync(_) => o.(gap := 0.0)
      case Reserve(rid, _, _, _, _, _, _) => o.(lost := o.lost - {rid})
      case _ => o
  }

  /** A new process on an old ledger: nothing in memory yet. */
  ghost predicate Boot(s: State) {
    s == FRESH.(log := s.log)
  }

  lemma BootAgrees(s: State)
    requires Boot(s)
    ensures Agrees(s)
  {
    assert LiveRids(s, Intraday) == {} == LiveRids(s, Positional);
  }

  /** Appending a row that does not mention a reservation leaves its margin sum alone. */
  lemma AppendRow(s: State, row: Row)
    ensures TotalOf(s.log + [row]) == (match row.entryType
                                       case INIT => row.amount
                                       case RELEASE_USED => TotalOf(s.log) + row.pnlDelta
                                       case SYNC => TotalOf(s.log) + row.amount
                                       case _ => TotalOf(s.log))
    ensures forall rid :: MarginOf(s.log + [row], rid)
                          == MarginOf(s.log, rid) + (if row.rid == Some(rid) then row.marginDelta else 0.0)
    ensures forall b :: LatestBalance(s.log + [row], b)
                        == if row.entryType in {INIT, SYNC} then None
                           else if row.scope == One(b) then Some(row.after) else LatestBalance(s.log, b)
  {
    Snoc(s.log, row);
  }

  /** What changing one live reservation does to the live margins. */
  lemma SetLive(s: State, s': State, rid: Rid, res: Reservation)
    requires s'.live == s.live[rid := res]
    requires rid in s.live ==> s.live[rid].bucket == res.bucket
    ensures LiveMargins(s', res.bucket) == LiveMargins(s, res.bucket) - MarginIn(s, rid) + res.margin
    ensures forall b :: b != res.bucket ==> LiveMargins(s', b) == LiveMargins(s, b)
  {
    var was, now := (r: Rid) => MarginIn(s, r), (r: Rid) => MarginIn(s', r);
    forall b ensures b != res.bucket ==> LiveMargins(s', b) == LiveMargins(s, b) {
      if b != res.bucket {
        assert LiveRids(s', b) == LiveRids(s, b);
        Sums.Same(LiveRids(s, b), was, now);
      }
    }
    if rid in s.live {
      assert LiveRids(s', res.bucket) == LiveRids(s, res.bucket);
      Sums.Change(LiveRids(s, res.bucket), was, now, rid);
    } else {
      assert LiveRids(s', res.bucket) == LiveRids(s, res.bucket) + {rid};
      Sums.Insert(LiveRids(s, res.bucket), was, now, rid);
    }
  }

  lemma DropLive(s: State, s': State, rid: Rid)
    requires rid in s.live && s'.live == s.live - {rid}
    ensures LiveMargins(s', s.live[rid].bucket) == LiveMargins(s, s.live[rid].bucket) - MarginIn(s, rid)
    ensures forall b :: b != s.live[rid].bucket ==> LiveMargins(s', b) == LiveMargins(s, b)
  {
    var was, now := (r: Rid) => MarginIn(s, r), (r: Rid) => MarginIn(s', r);
    var mine := s.live[rid].bucket;
    forall b ensures b != mine ==> LiveMargins(s', b) == LiveMargins(s, b) {
      if b != mine {
        assert LiveRids(s', b) == LiveRids(s, b);
        Sums.Same(LiveRids(s, b), was, now);
      }
    }
    Sums.Pick(LiveRids(s, mine), was, rid);
    assert LiveRids(s', mine) == LiveRids(s, mine) - {rid};
    Sums.Same(LiveRids(s', mine), was, now);
  }

  lemma SameLive(s: State, s': State)
    requires s'.live == s.live
    ensures forall b :: LiveMargins(s', b) == LiveMargins(s, b)
  {
    forall b ensures LiveMargins(s', b) == LiveMargins(s, b) {
      assert LiveRids(s', b) == LiveRids(s, b);
      Sums.Same(LiveRids(s, b), (r: Rid) => MarginIn(s, r), (r: Rid) => MarginIn(s', r));
    }
  }

  /** The two bases are the whole account. */
  lemma BasesSumToTotal(split: Split, s: State)
    requires split.Valid()
    ensures BucketBase(split, s, Intraday) + BucketBase(split, s, Positional) == s.total
  {
    var cash := s.total - s.Carry();
    assert cash * split.intraday + cash * split.positional == cash * (split.intraday + split.positional);
  }

  /** Before initialize nothing can have been put in memory. */
  ghost predicate Empty(s: State) {
    !s.initialized ==> s.live == map[] && s.total == 0.0
  }

  lemma InitBalances(split: Split, s: State, balance: real, ts: int, writeOk: bool)
    requires split.Valid() && s.Gap() == 0.0
    ensures Book.Initialize(split, s, balance, ts, writeOk).0.Gap() == 0.0
  {
    assert balance * split.intraday + balance * split.positional == balance * (split.intraday + split.positional);
  }

  /** A sync closes any gap: it recomputes the available balances from the bases. */
  lemma SyncBalances(split: Split, s: State, balance: real, ts: int)
    requires split.Valid() && s.initialized
    ensures Book.SyncFromBroker(split, s, balance, ts, true).0.Gap() == 0.0
  {
    BasesSumToTotal(split, s.(total := balance + s.Carry()));
  }

  lemma ReservedFollows(s: State, s': State, row: Row)
    requires Describes(row, s, s') && Empty(s)
    requires ReservedAgrees(s, Intraday) && ReservedAgrees(s, Positional)
    ensures ReservedAgrees(s', Intraday) && ReservedAgrees(s', Positional)
  {
    if row.rid.None? {
      SameLive(s, s');
      if row.entryType == INIT { assert LiveRids(s', Intraday) == {} == LiveRids(s', Positional); }
    } else if row.rid.value in s'.live {
      SetLive(s, s', row.rid.value, s'.live[row.rid.value]);
    } else {
      DropLive(s, s', row.rid.value);
    }
  }

  lemma DescribedMargins(s: State, s': State, row: Row, o: Offset, o': Offset)
    requires Describes(row, s, s') && MarginsFrom(s, o)
    requires row.entryType == INIT ==> s'.live == map[]
    requires row.entryType == RESERVE ==> !Mentions(s.log, row.rid.value) && row.rid.value !in s.live
    requires row.entryType != INIT ==>
      o'.lost == if row.entryType == RESERVE then o.lost - {row.rid.value} else o.lost
    ensures MarginsFrom(s', o')
  {
    AppendRow(s, row);
    if row.entryType == RESERVE { Unmentioned(s.log, row.rid.value); }
    forall rid | rid in s'.live ensures s'.live[rid].margin == MarginOf(s'.log, rid) - LostOf(o', rid) {
      if row.rid != Some(rid) { assert rid in s.live && s'.live[rid] == s.live[rid]; }
    }
  }

  lemma DescribedTotal(s: State, s': State, row: Row, total: real)
    requires Describes(row, s, s')
    requires s.total - total == (if s.initialized then TotalOf(s.log) else 0.0)
    requires s.initialized ==> LatestAgrees(s, Intraday) && LatestAgrees(s, Positional)
    ensures s'.total - (if row.entryType == INIT then 0.0 else total) == (if s'.initialized then TotalOf(s'.log) else 0.0)
    ensures s'.initialized ==> LatestAgrees(s', Intraday) && LatestAgrees(s', Positional)
  {
    AppendRow(s, row);
  }

  lemma StepGap(split: Split, trades: Trades, s: State, c: Call)
    requires split.Valid() && Fresh(s, c) && (!s.initialized ==> s.Gap() == 0.0)
    ensures var s' := Step(split, trades, s, c).0;
            s'.Gap() == if s' != s && (c.op.Sync? || c.op.Initialize?) then 0.0 else s.Gap()
  {
    var s' := Step(split, trades, s, c).0;
    StepWritesAhead(split, trades, s, c);
    if s' != s {
      if c.op.Initialize? { InitBalances(split, s, c.op.balance, c.ts, c.writeOk); }
      if c.op.Sync? { SyncBalances(split, s, c.op.balance, c.ts); }
    }
  }

  lemma StepMargins(split: Split, trades: Trades, s: State, c: Call, o: Offset)
    requires MarginsFrom(s, o) && Fresh(s, c) && Empty(s)
    ensures var s' := Step(split, trades, s, c).0; MarginsFrom(s', NextOffset(o, s, s', c.op))
  {
    var s' := Step(split, trades, s, c).0;
    StepWritesAhead(split, trades, s, c);
    if s' != s { DescribedMargins(s, s', Last(s'.log), o, NextOffset(o, s, s', c.op)); }
  }

  lemma StepTotal(split: Split, trades: Trades, s: State, c: Call, o: Offset)
    requires s.total - o.total == (if s.initialized then TotalOf(s.log) else 0.0) && Fresh(s, c)
    requires s.initialized ==> LatestAgrees(s, Intraday) && LatestAgrees(s, Positional)
    ensures var s' := Step(split, trades, s, c).0;
            && s'.total - NextOffset(o, s, s', c.op).total == (if s'.initialized then TotalOf(s'.log) else 0.0)
            && (s'.initialized ==> LatestAgrees(s', Intraday) && LatestAgrees(s', Positional))
  {
    var s' := Step(split, trades, s, c).0;
    StepWritesAhead(split, trades, s, c);
    if s' != s { DescribedTotal(s, s', Last(s'.log), o.total); }
  }

  lemma StepReserved(split: Split, trades: Trades, s: State, c: Call)
    requires Fresh(s, c) && Empty(s) && ReservedAgrees(s, Intraday) && ReservedAgrees(s, Positional)
    ensures var s' := Step(split, trades, s, c).0;
            ReservedAgrees(s', Intraday) && ReservedAgrees(s', Positional) && Empty(s')
  {
    var s' := Step(split, trades, s, c).0;
    StepWritesAhead(split, trades, s, c);
    if s' != s { ReservedFollows(s, s', Last(s'.log)); }
  }

  /** Each call keeps the agreement, up to the offset of the session. */
  lemma StepAgreesFrom(split: Split, trades: Trades, s: State, c: Call, o: Offset)
    requires split.Valid() && AgreesFrom(s, o) && Fresh(s, c) && Empty(s) && (!s.initialized ==> o == NO_OFFSET)
    ensures var s' := Step(split, trades, s, c).0; AgreesFrom(s', NextOffset(o, s, s', c.op)) && Empty(s')
  {
    StepGap(split, trades, s, c);
    StepReserved(split, trades, s, c);
    StepMargins(split, trades, s, c, o);
    StepTotal(split, trades, s, c, o);
  }

  lemma StepAgrees(split: Split, trades: Trades, s: State, c: Call)
    requires split.Valid() && Agrees(s) && Fresh(s, c) && Empty(s)
    ensures Agrees(Step(split, trades, s, c).0) && Empty(Step(split, trades, s, c).0)
  {
    AgreesWithoutOffset(s);
    StepAgreesFrom(split, trades, s, c, NO_OFFSET);
    AgreesWithoutOffset(Step(split, trades, s, c).0);
  }

  function RunOffset(split: Split, trades: Trades, s: State, calls: seq<Call>, o: Offset): Offset
    decreases |calls|
  {
    if calls == [] then o
    else
      var s' := Step(split, trades, s, calls[0]).0;
      RunOffset(split, trades, s', calls[1..], NextOffset(o, s, s', calls[0].op))
  }

  /** From any offset a restart leaves, the agreement up to it holds over every run. */
  lemma {:induction false} RunAgreesFrom(split: Split, trades: Trades, s: State, calls: seq<Call>, o: Offset)
    requires split.Valid() && AgreesFrom(s, o) && FreshIds(split, trades, s, calls)
    requires Empty(s) && (!s.initialized ==> o == NO_OFFSET)
    ensures AgreesFrom(Run(split, trades, s, calls), RunOffset(split, trades, s, calls, o))
    decreases |calls|
  {
    if calls != [] {
      StepAgreesFrom(split, trades, s, calls[0], o);
      var s' := Step(split, trades, s, calls[0]).0;
      StepWritesAhead(split, trades, s, calls[0]);
      RunAgreesFrom(split, trades, s', calls[1..], NextOffset(o, s, s', calls[0].op));
    }
  }

  /** The book agrees with the ledger after every run of the mutators, failed writes and raised checks included. */
  lemma {:induction false} RunAgrees(split: Split, trades: Trades, s: State, calls: seq<Call>)
    requires split.Valid() && Agrees(s) && FreshIds(split, trades, s, calls)
    requires Empty(s)
    ensures Agrees(Run(split, trades, s, calls))
    decreases |calls|
  {
    if calls != [] {
      StepAgrees(split, trades, s, calls[0]);
      RunAgrees(split, trades, Step(split, trades, s, calls[0]).0, calls[1..]);
    }
  }
}
