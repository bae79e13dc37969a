/**
 * capital/fund_manager.py as a value: the capital state, and one function per mutator
 * that gives the state after it and what the caller sees. The class FundManager is
 * proved against these functions.
 */
module Book {
  import opened Options
  import opened Ledger
  import opened CapitalInvariant

  datatype Intent = INTRADAY | COVER_ORDER | BRACKET_ORDER | DELIVERY | Unknown(name: string)

  datatype Reservation = Reservation(
    symbol: string, qty: int, price: real, intent: Intent, margin: real, bucket: Bucket,
    signal: Option<string>, ts: int, slmBuffer: real, strategy: Option<string>)

  /** Leverage per intent. The constructor insists on all four intents; zero would divide by zero. */
  type Leverage = m: map<Intent, real> |
    && {INTRADAY, COVER_ORDER, BRACKET_ORDER, DELIVERY} <= m.Keys
    && forall i :: i in m ==> m[i] != 0.0
    witness map[INTRADAY := 5.0, COVER_ORDER := 6.0, DELIVERY := 1.0, BRACKET_ORDER := 5.0]

  datatype Split = Split(intraday: real, positional: real, slmBuffer: real) {
    /** FM12: the two shares make up the whole. */
    predicate Valid() {
      intraday + positional == 1.0
    }
  }

  datatype Part = Part(avail: real, reserved: real, used: real, carry: real) {
    function Sum(): real {
      avail + reserved + used
    }

    function Move(toAvail: real, toReserved: real, toUsed: real): Part {
      Part(avail + toAvail, reserved + toReserved, used + toUsed, carry)
    }
  }

  datatype Drift = Drift(source: DriftSource, expected: real, actual: real, delta: real)
  datatype DriftSource = TotalDrift | BucketOverflow

  datatype State = State(
    initialized: bool, total: real, intraday: Part, positional: Part,
    live: map<Rid, Reservation>, claims: set<Rid>, log: Log)
  {
    function Of(b: Bucket): Part {
      if b == Intraday then intraday else positional
    }

    function With(b: Bucket, p: Part): State {
      if b == Intraday then this.(intraday := p) else this.(positional := p)
    }

    function Carry(): real {
      intraday.carry + positional.carry
    }

    /** The gap that the global check looks at. */
    function Gap(): real {
      intraday.Sum() + positional.Sum() - total
    }
  }

  datatype Error =
    | NotInitialized | UnknownIntent | UnknownReservation | BadAmount | WriteFailed
    | Violated(violation: Violation)

  /**
   * What a mutator gives back: a result with a figure, a refusal, or an exception. The
   * functions below give it before the closing invariant check, which Settle adds.
   */
  datatype Outcome = Ok(figure: real) | Refused(figure: real) | Raised(error: Error)

  const TOLERANCE := 1.0

  const FRESH := State(false, 0.0, Part(0.0, 0.0, 0.0, 0.0), Part(0.0, 0.0, 0.0, 0.0), map[], {}, [])

  function BucketFor(intent: Intent): Option<Bucket> {
    match intent
    case DELIVERY => Some(Positional)
    case Unknown(_) => None
    case _ => Some(Intraday)
  }

  function RequiredMargin(qty: int, price: real, intent: Intent, leverage: Leverage): real {
    (qty as real * price) / (if intent in leverage then leverage[intent] else 1.0)
  }

  /** FIX-090: the share of the margin held back for the stop order's own margin. */
  function SlmBuffer(split: Split, base: real): real {
    base * split.slmBuffer
  }

  function GrossMargin(split: Split, base: real): real {
    base + SlmBuffer(split, base)
  }

  function BucketBase(split: Split, s: State, b: Bucket): real {
    var cash := s.total - s.Carry();
    if b == Intraday then cash * split.intraday + s.intraday.carry
    else cash * split.positional + s.positional.carry
  }

  predicate BelowTolerance(p: Part) {
    p.avail < -TOLERANCE || p.used < -TOLERANCE || p.reserved < -TOLERANCE
  }

  /** _check_invariant: per-bucket sign guards, then the global equation. */
  function CheckInvariant(split: Split, s: State): Option<Violation> {
    var i, p := s.intraday, s.positional;
    var perIntraday := if BelowTolerance(i)
      then AssertCapitalInvariant(i.avail, i.reserved, i.used, BucketBase(split, s, Intraday), 0.0, TOLERANCE)
      else None;
    if perIntraday.Some? then perIntraday
    else
      var perPositional := if BelowTolerance(p)
        then AssertCapitalInvariant(p.avail, p.reserved, p.used, BucketBase(split, s, Positional), 0.0, TOLERANCE)
        else None;
      if perPositional.Some? then perPositional
      else AssertCapitalInvariant(i.avail + p.avail, i.reserved + p.reserved, i.used + p.used, s.total, 0.0, TOLERANCE)
  }

  /** The check runs after the mutation: when it raises, the mutation and its ledger row stand. */
  function Settle(split: Split, s: State, o: Outcome): Outcome {
    if o.Ok? && CheckInvariant(split, s).Some? then Raised(Violated(CheckInvariant(split, s).value)) else o
  }

  /** States that differ in their ledgers only. */
  predicate SameBook(s: State, s': State) {
    s' == s.(log := s'.log)
  }

  function Append(s: State, row: Row): State {
    s.(log := s.log + [row])
  }

  // The three pure mutations shared by the mutators and by replay.

  function ApplyReserve(s: State, rid: Rid, res: Reservation): State {
    var p := s.Of(res.bucket);
    s.With(res.bucket, p.Move(-res.margin, res.margin, 0.0)).(live := s.live[rid := res])
  }

  function ApplyRelease(s: State, rid: Rid): State
    requires rid in s.live
  {
    var res := s.live[rid];
    var p := s.Of(res.bucket);
    s.With(res.bucket, p.Move(res.margin, -res.margin, 0.0)).(live := s.live - {rid})
  }

  function ApplyCommit(s: State, rid: Rid, actual: real, excess: real): State
    requires rid in s.live
  {
    var res := s.live[rid];
    var p := s.Of(res.bucket);
    s.With(res.bucket, p.Move(excess, -res.margin, actual)).(live := s.live - {rid})
  }

  function Initialize(split: Split, s: State, balance: real, ts: int, writeOk: bool): (State, Outcome)
  {
    if s.initialized then (s, Refused(0.0))
    else if !writeOk then (s, Raised(WriteFailed))
    else
      var row := Row(INIT, ts, balance, Both, 0.0, balance, None, None, None, 0, 0.0, 0.0);
      (Append(s, row).(
         initialized := true, total := balance,
         intraday := Part(balance * split.intraday, 0.0, 0.0, 0.0),
         positional := Part(balance * split.positional, 0.0, 0.0, 0.0)), Ok(balance))
  }

  /** `rid` is fresh: uuid4. */
  function Reserve(split: Split, leverage: Leverage, s: State, rid: Rid, symbol: string, qty: int, price: real,
                   intent: Intent, signal: Option<string>, strategy: Option<string>, ts: int, writeOk: bool): (State, Outcome)
  {
    if !s.initialized then (s, Raised(NotInitialized))
    else if BucketFor(intent).None? then (s, Raised(UnknownIntent))
    else
      var b := BucketFor(intent).value;
      var base := RequiredMargin(qty, price, intent, leverage);
      var margin := GrossMargin(split, base);
      var before := s.Of(b).avail;
      if margin > before then (s, Refused(margin))
      else if !writeOk then (s, Raised(WriteFailed))
      else
        var row := Row(RESERVE, ts, margin, One(b), before, before - margin, signal, Some(rid), None, qty, margin, 0.0);
        var res := Reservation(symbol, qty, price, intent, margin, b, signal, ts, SlmBuffer(split, base), strategy);
        var s' := ApplyReserve(Append(s, row), rid, res);
        (s', Ok(margin))
  }

  function Release(s: State, rid: Rid, ts: int, writeOk: bool): (State, Outcome)
  {
    if !s.initialized then (s, Raised(NotInitialized))
    else if rid !in s.live then (s, Refused(0.0))
    else if !writeOk then (s, Raised(WriteFailed))
    else
      var res := s.live[rid];
      var before := s.Of(res.bucket).avail;
      var row := Row(RELEASE, ts, -res.margin, One(res.bucket), before, before + res.margin, res.signal, Some(rid),
                     None, 0, -res.margin, 0.0);
      var s' := ApplyRelease(Append(s, row), rid);
      (s', Ok(res.margin))
  }

  /** The rebuilt reservation loses its strategy tag. */
  function ReleaseSlmBuffer(s: State, rid: Rid, ts: int, writeOk: bool): (State, Outcome)
  {
    if !s.initialized then (s, Raised(NotInitialized))
    else if rid !in s.live then (s, Refused(0.0))
    else if s.live[rid].slmBuffer <= 0.0 then (s, Refused(0.0))
    else if !writeOk then (s, Raised(WriteFailed))
    else
      var res := s.live[rid];
      var freed := res.slmBuffer;
      var before := s.Of(res.bucket).avail;
      var row := Row(RELEASE, ts, freed, One(res.bucket), before, before + freed, None, Some(rid), None, 0, -freed, 0.0);
      var left := res.(margin := res.margin - freed, slmBuffer := 0.0, strategy := None);
      var s' := Append(s, row).With(res.bucket, s.Of(res.bucket).Move(freed, -freed, 0.0)).(live := s.live[rid := left]);
      (s', Ok(freed))
  }

  /** Here too the strategy tag is lost. */
  function TopUp(s: State, rid: Rid, extra: real, ts: int, writeOk: bool): (State, Outcome)
  {
    if extra <= 0.0 then (s, Raised(BadAmount))
    else if !s.initialized then (s, Raised(NotInitialized))
    else if rid !in s.live then (s, Raised(UnknownReservation))
    else
      var res := s.live[rid];
      var before := s.Of(res.bucket).avail;
      if extra > before then (s, Refused(extra))
      else if !writeOk then (s, Raised(WriteFailed))
      else
        var row := Row(TOP_UP, ts, extra, One(res.bucket), before, before - extra, res.signal, Some(rid), None, 0,
                       extra, 0.0);
        var more := res.(margin := res.margin + extra, strategy := None);
        var s' := Append(s, row).With(res.bucket, s.Of(res.bucket).Move(-extra, extra, 0.0)).(live := s.live[rid := more]);
        (s', Ok(more.margin))
  }

  function CommitToUsed(leverage: Leverage, s: State, rid: Rid, price: real, qty: int, ts: int,
                        writeOk: bool): (State, Outcome)
  {
    if !s.initialized then (s, Raised(NotInitialized))
    else if rid !in s.live then (s, Raised(UnknownReservation))
    else if !writeOk then (s, Raised(WriteFailed))
    else
      var res := s.live[rid];
      var actual := RequiredMargin(qty, price, res.intent, leverage);
      var excess := res.margin - actual;
      var before := s.Of(res.bucket).avail;
      var row := Row(COMMIT, ts, actual, One(res.bucket), before, before + excess, res.signal, Some(rid), None, qty,
                     0.0, 0.0);
      var s' := ApplyCommit(Append(s, row), rid, actual, excess);
      (s', Ok(actual))
  }

  datatype Direction = LONG | SHORT

  /** _committed_release_margin: the persisted commit margin, pro rata; else the recompute. */
  function ReleaseMargin(leverage: Leverage, log: Log, rid: Option<Rid>, qty: int, entry: real, intent: Intent): real {
    match EntryCommitMargin(log, rid)
    case Some(c) => c.0 * qty as real / c.1 as real
    case None => RequiredMargin(qty, entry, intent, leverage)
  }

  function NetPnl(direction: Direction, entry: real, exit: real, qty: int, costs: real): real {
    (if direction == LONG then (exit - entry) * qty as real else (entry - exit) * qty as real) - costs
  }

  function Freed(s: State, b: Bucket, margin: real, pnl: real, trade: Option<TradeId>, qty: int, ts: int): State {
    var before := s.Of(b).avail;
    var row := Row(RELEASE_USED, ts, -margin, One(b), before, before + margin + pnl, None, None, trade, qty, -margin, pnl);
    Append(s, row).With(b, s.Of(b).Move(margin + pnl, 0.0, -margin)).(total := s.total + pnl)
  }

  /** `rid` is the reservation of the trade row, when the caller passed a trade id that has one. */
  function ReleaseUsed(leverage: Leverage, s: State, trade: Option<TradeId>, rid: Option<Rid>,
                       exit: real, qty: int, intent: Intent, entry: real, direction: Direction, costs: real,
                       ts: int, writeOk: bool): (State, Outcome)
  {
    if !s.initialized then (s, Raised(NotInitialized))
    else if BucketFor(intent).None? then (s, Raised(UnknownIntent))
    else if !writeOk then (s, Raised(WriteFailed))
    else
      var b := BucketFor(intent).value;
      var margin := ReleaseMargin(leverage, s.log, rid, qty, entry, intent);
      var pnl := NetPnl(direction, entry, exit, qty, costs);
      (Freed(s, b, margin, pnl, trade, qty, ts), Ok(margin))
  }

  function SyncFromBroker(split: Split, s: State, balance: real, ts: int, writeOk: bool): (State, Outcome)
  {
    if !s.initialized then (s, Raised(NotInitialized))
    else if !writeOk then (s, Raised(WriteFailed))
    else
      var newTotal := balance + s.Carry();
      var row := Row(SYNC, ts, newTotal - s.total, Both, s.total, newTotal, None, None, None, 0, 0.0, 0.0);
      var s1 := Append(s, row).(total := newTotal);
      var i, p := s.intraday, s.positional;
      var s' := s1.(
        intraday := i.(avail := BucketBase(split, s1, Intraday) - i.reserved - i.used),
        positional := p.(avail := BucketBase(split, s1, Positional) - p.reserved - p.used));
      (s', Ok(newTotal))
  }

  /** The CapitalDriftDetected events that a sync publishes, given the states around it. */
  function SyncEvents(before: State, after: State): seq<Drift> {
    var delta := after.total - before.total;
    var low := if after.intraday.avail < after.positional.avail then after.intraday.avail else after.positional.avail;
    (if Abs(delta) > 1.0 then [Drift(TotalDrift, before.total, after.total, delta)] else [])
    + (if low < -TOLERANCE then [Drift(BucketOverflow, 0.0, low, Abs(low))] else [])
  }

  /** reset_daily_pnl asks neither for initialization nor for the invariant. */
  function ResetDailyPnl(s: State, ts: int, writeOk: bool): (State, Outcome)
  {
    if !writeOk then (s, Raised(WriteFailed))
    else
      var realized := DailyPnl(s.log, Day(ts));
      (Append(s, Row(RESET_PNL, ts, 0.0, Both, realized, 0.0, None, None, None, 0, 0.0, -realized)), Ok(realized))
  }

  // --- every mutator writes ahead ---

  /** The row says exactly how memory changed: totals, available balances, and margins of the live reservations. */
  ghost predicate Describes(row: Row, s: State, s': State) {
    && s'.log == s.log + [row]
    && s'.initialized == (s.initialized || row.entryType == INIT)
    && (row.entryType !in {INIT, RESET_PNL} ==> s.initialized)
    && (row.entryType == INIT ==> !s.initialized)
    && (row.entryType == RESERVE ==> row.rid.Some? && s'.live.Keys == s.live.Keys + {row.rid.value})
    && s'.total == (match row.entryType
                    case INIT => row.amount
                    case RELEASE_USED => s.total + row.pnlDelta
                    case SYNC => s.total + row.amount
                    case _ => s.total)
    && (row.entryType !in {INIT, SYNC} ==>
          && s'.intraday.avail == (if row.scope == One(Intraday) then row.after else s.intraday.avail)
          && s'.positional.avail == (if row.scope == One(Positional) then row.after else s.positional.avail))
    && (row.entryType == RELEASE_USED ==> row.scope.One?)
    && (row.entryType !in {INIT, SYNC} ==> SumsFollow(row, s, s', Intraday) && SumsFollow(row, s, s', Positional))
    && (forall b :: s'.Of(b).used ==
          if row.entryType == INIT then 0.0
          else if row.entryType == COMMIT && row.scope == One(b) then s.Of(b).used + row.amount
          else if row.entryType == RELEASE_USED && row.scope == One(b) then s.Of(b).used + row.marginDelta
          else s.Of(b).used)
    && ReservationsFollow(row, s, s')
  }

  /** A bucket's three balances only ever move against each other, but for realized profit and loss. */
  ghost predicate SumsFollow(row: Row, s: State, s': State, b: Bucket) {
    && s'.Of(b).carry == s.Of(b).carry
    && s'.Of(b).Sum() - s.Of(b).Sum()
       == if row.entryType == RELEASE_USED && row.scope == One(b) then row.pnlDelta else 0.0
  }

  function MarginIn(s: State, rid: Rid): real {
    if rid in s.live then s.live[rid].margin else 0.0
  }

  /** Only the reservation that the row names changes, by the row's margin_delta while it lives on. */
  ghost predicate ReservationsFollow(row: Row, s: State, s': State) {
    match row.rid
    case None =>
      && s'.live == s.live
      && (row.entryType != INIT ==> forall b :: s'.Of(b).reserved == s.Of(b).reserved)
      && (row.entryType == INIT ==> forall b :: s'.Of(b).reserved == 0.0)
    case Some(rid) =>
      && row.scope.One?
      && (if rid in s.live then s.live[rid].bucket == row.scope.bucket else row.entryType == RESERVE)
      && (if rid in s'.live
          then && s'.live == s.live[rid := s'.live[rid]]
               && s'.live[rid].bucket == row.scope.bucket
               && s'.live[rid].margin == MarginIn(s, rid) + row.marginDelta
          else rid in s.live && s'.live == s.live - {rid})
      && (match row.entryType
          case RESERVE => row.marginDelta == row.amount && rid in s'.live
          case COMMIT =>
            && row.marginDelta == 0.0 && rid !in s'.live
            && row.after - row.before == MarginIn(s, rid) - row.amount
          case TOP_UP => rid in s'.live
          case RELEASE => true
          case _ => false)
      && forall b :: s'.Of(b).reserved - s.Of(b).reserved
                     == if row.scope == One(b) then MarginIn(s', rid) - MarginIn(s, rid) else 0.0
  }

  /** BL-5: a call that changed anything wrote one row first, and that row describes the change. */
  ghost predicate WroteAhead(entryType: EntryType, ts: int, s: State, s': State) {
    s' == s
    || (s'.log != [] && Describes(Last(s'.log), s, s') && Last(s'.log).entryType == entryType && Last(s'.log).ts == ts)
  }

  lemma InitializeWritesAhead(split: Split, s: State, balance: real, ts: int, writeOk: bool)
    ensures WroteAhead(INIT, ts, s, Initialize(split, s, balance, ts, writeOk).0)
  {
  }

  lemma ReserveWritesAhead(split: Split, leverage: Leverage, s: State, rid: Rid, symbol: string, qty: int, price: real,
                   intent: Intent, signal: Option<string>, strategy: Option<string>, ts: int, writeOk: bool)
    requires rid !in s.live
    ensures WroteAhead(RESERVE, ts, s, Reserve(split, leverage, s, rid, symbol, qty, price, intent, signal, strategy, ts, writeOk).0)
  {
  }

  lemma ReleaseWritesAhead(s: State, rid: Rid, ts: int, writeOk: bool)
    ensures WroteAhead(RELEASE, ts, s, Release(s, rid, ts, writeOk).0)
  {
  }

  lemma ReleaseSlmBufferWritesAhead(s: State, rid: Rid, ts: int, writeOk: bool)
    ensures WroteAhead(RELEASE, ts, s, ReleaseSlmBuffer(s, rid, ts, writeOk).0)
  {
  }

  lemma TopUpWritesAhead(s: State, rid: Rid, extra: real, ts: int, writeOk: bool)
    ensures WroteAhead(TOP_UP, ts, s, TopUp(s, rid, extra, ts, writeOk).0)
  {
  }

  lemma CommitToUsedWritesAhead(leverage: Leverage, s: State, rid: Rid, price: real, qty: int, ts: int,
                        writeOk: bool)
    ensures WroteAhead(COMMIT, ts, s, CommitToUsed(leverage, s, rid, price, qty, ts, writeOk).0)
  {
  }

  lemma ReleaseUsedWritesAhead(leverage: Leverage, s: State, trade: Option<TradeId>, rid: Option<Rid>,
                       exit: real, qty: int, intent: Intent, entry: real, direction: Direction, costs: real,
                       ts: int, writeOk: bool)
    ensures WroteAhead(RELEASE_USED, ts, s, ReleaseUsed(leverage, s, trade, rid, exit, qty, intent, entry, direction, costs, ts, writeOk).0)
  {
  }

  lemma SyncFromBrokerWritesAhead(split: Split, s: State, balance: real, ts: int, writeOk: bool)
    ensures WroteAhead(SYNC, ts, s, SyncFromBroker(split, s, balance, ts, writeOk).0)
  {
  }

  lemma ResetDailyPnlWritesAhead(s: State, ts: int, writeOk: bool)
    ensures WroteAhead(RESET_PNL, ts, s, ResetDailyPnl(s, ts, writeOk).0)
  {
  }
}
