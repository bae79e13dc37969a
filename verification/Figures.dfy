/**
 * What the figures of the capital book come to, in prices, quantities, shares and rows: for a
 * reader who does not take the names of Book and Ledger for granted.
 */
module Figures {
  import opened Options
  import opened Ledger
  import opened CapitalInvariant
  import opened Book
  import Sums

  /** Delivery is traded in the positional bucket, the three intraday products in the other. */
  predicate Serves(intent: Intent, b: Bucket) {
    if b == Positional then intent == DELIVERY else intent in {INTRADAY, COVER_ORDER, BRACKET_ORDER}
  }

  function Quotient(x: real, y: real): real
    requires y != 0.0
  {
    x / y
  }

  lemma Divided(x: real, y: real)
    requires y != 0.0
    ensures Quotient(x, y) * y == x
  {
  }

  lemma Buffered(base: real, buffer: real, leverage: real, price: real)
    requires base * leverage == price
    ensures (base + base * buffer) * leverage == price * (1.0 + buffer)
    ensures (base * buffer) * leverage == price * buffer
  {
  }

  lemma RequiredInPrices(qty: int, price: real, intent: Intent, leverage: Leverage)
    ensures intent in leverage ==> RequiredMargin(qty, price, intent, leverage) * leverage[intent] == qty as real * price
    ensures intent !in leverage ==> RequiredMargin(qty, price, intent, leverage) == qty as real * price
  {
    if intent in leverage { Divided(qty as real * price, leverage[intent]); }
  }

  /**
   * Reserving sets aside price times quantity, with the buffer on top and divided by the
   * leverage of the intent, in the bucket of the intent; it is refused exactly when that
   * bucket has less.
   */
  lemma ReserveInPrices(split: Split, leverage: Leverage, s: State, rid: Rid, symbol: string, qty: int, price: real,
                        intent: Intent, signal: Option<string>, strategy: Option<string>, ts: int, b: Bucket)
    returns (margin: real, buffer: real)
    requires s.initialized && Serves(intent, b)
    ensures margin * leverage[intent] == qty as real * price * (1.0 + split.slmBuffer)
    ensures buffer * leverage[intent] == qty as real * price * split.slmBuffer
    ensures var (s', o) := Book.Reserve(split, leverage, s, rid, symbol, qty, price, intent, signal, strategy, ts, true);
      if margin > s.Of(b).avail then o == Refused(margin) && s' == s
      else
        && o == Ok(margin) && s'.total == s.total
        && s'.live == s.live[rid := Reservation(symbol, qty, price, intent, margin, b, signal, ts, buffer, strategy)]
        && s'.log == s.log + [Row(RESERVE, ts, margin, One(b), s.Of(b).avail, s.Of(b).avail - margin, signal, Some(rid), None,
                                  qty, margin, 0.0)]
        && s'.intraday == (if b == Intraday then s.intraday.Move(-margin, margin, 0.0) else s.intraday)
        && s'.positional == (if b == Positional then s.positional.Move(-margin, margin, 0.0) else s.positional)
  {
    RequiredInPrices(qty, price, intent, leverage);
    var base := RequiredMargin(qty, price, intent, leverage);
    Buffered(base, split.slmBuffer, leverage[intent], qty as real * price);
    margin, buffer := GrossMargin(split, base), SlmBuffer(split, base);
  }

  /** A commit puts price times quantity, divided by the leverage of the reservation's intent, to use. */
  lemma CommitInPrices(leverage: Leverage, s: State, rid: Rid, price: real, qty: int, ts: int) returns (used: real)
    requires s.initialized && rid in s.live && s.live[rid].intent in {INTRADAY, COVER_ORDER, BRACKET_ORDER, DELIVERY}
    ensures used * leverage[s.live[rid].intent] == qty as real * price
    ensures var (s', o), res := Book.CommitToUsed(leverage, s, rid, price, qty, ts, true), s.live[rid];
      && o == Ok(used) && s'.total == s.total && s'.live == s.live - {rid}
      && s'.log == s.log + [Row(COMMIT, ts, used, One(res.bucket), s.Of(res.bucket).avail,
                                s.Of(res.bucket).avail + (res.margin - used), res.signal, Some(rid), None, qty, 0.0, 0.0)]
      && s'.intraday == (if res.bucket == Intraday then s.intraday.Move(res.margin - used, -res.margin, used) else s.intraday)
      && s'.positional == (if res.bucket == Positional then s.positional.Move(res.margin - used, -res.margin, used) else s.positional)
  {
    RequiredInPrices(qty, price, s.live[rid].intent, leverage);
    used := RequiredMargin(qty, price, s.live[rid].intent, leverage);
  }

  /** What a round trip earns: the sale less the purchase less the costs. */
  function Earned(direction: Direction, entry: real, exit: real, qty: int, costs: real): real {
    match direction
    case LONG => exit * qty as real - entry * qty as real - costs
    case SHORT => entry * qty as real - exit * qty as real - costs
  }

  lemma PnlInPrices(direction: Direction, entry: real, exit: real, qty: int, costs: real)
    ensures NetPnl(direction, entry, exit, qty, costs) == Earned(direction, entry, exit, qty, costs)
  {
  }

  /** An exit books exactly what the round trip earned, in the total and in the bucket of the intent. */
  lemma ExitInPrices(leverage: Leverage, s: State, trade: Option<TradeId>, rid: Option<Rid>, exit: real, qty: int,
                     intent: Intent, entry: real, direction: Direction, costs: real, ts: int, b: Bucket)
    requires s.initialized && Serves(intent, b)
    ensures var (s', o) := Book.ReleaseUsed(leverage, s, trade, rid, exit, qty, intent, entry, direction, costs, ts, true);
      && o.Ok? && s'.live == s.live
      && s'.log == s.log + [Row(RELEASE_USED, ts, -o.figure, One(b), s.Of(b).avail, s'.Of(b).avail, None, None, trade, qty,
                                -o.figure, Earned(direction, entry, exit, qty, costs))]
      && s'.total == s.total + Earned(direction, entry, exit, qty, costs)
      && s'.Of(b).Sum() == s.Of(b).Sum() + Earned(direction, entry, exit, qty, costs)
      && s'.Of(b).reserved == s.Of(b).reserved && s'.Of(b).used == s.Of(b).used - o.figure
      && (if b == Intraday then s'.positional == s.positional else s'.intraday == s.intraday)
  {
    PnlInPrices(direction, entry, exit, qty, costs);
  }

  /** A trade whose reservation has no COMMIT row frees the margin recomputed at its entry price. */
  lemma UncommittedExit(leverage: Leverage, log: Log, rid: Option<Rid>, qty: int, entry: real, intent: Intent)
    requires rid.None? || CommitCount(log, rid.value) == 0
    requires intent in {INTRADAY, COVER_ORDER, BRACKET_ORDER, DELIVERY}
    ensures ReleaseMargin(leverage, log, rid, qty, entry, intent) * leverage[intent] == qty as real * entry
  {
    RequiredInPrices(qty, entry, intent, leverage);
  }

  lemma EarnedFollowsPrice(direction: Direction, entry: real, low: real, high: real, qty: int, costs: real)
    requires qty > 0 && low < high
    ensures direction == LONG ==> Earned(direction, entry, low, qty, costs) < Earned(direction, entry, high, qty, costs)
    ensures direction == SHORT ==> Earned(direction, entry, high, qty, costs) < Earned(direction, entry, low, qty, costs)
  {
    Scaled(low, high, qty as real);
  }

  lemma Scaled(x: real, y: real, qty: real)
    requires x < y && qty > 0.0
    ensures x * qty < y * qty
  {
  }

  /** A dearer exit is worth more to a long and less to a short. */
  lemma ProfitFollowsPrice(leverage: Leverage, s: State, trade: Option<TradeId>, rid: Option<Rid>, low: real, high: real,
                           qty: int, intent: Intent, entry: real, direction: Direction, costs: real, ts: int, b: Bucket)
    requires s.initialized && Serves(intent, b) && qty > 0 && low < high
    ensures var cheap := Book.ReleaseUsed(leverage, s, trade, rid, low, qty, intent, entry, direction, costs, ts, true).0;
            var dear := Book.ReleaseUsed(leverage, s, trade, rid, high, qty, intent, entry, direction, costs, ts, true).0;
            if direction == LONG then cheap.total < dear.total else dear.total < cheap.total
  {
    ExitInPrices(leverage, s, trade, rid, low, qty, intent, entry, direction, costs, ts, b);
    ExitInPrices(leverage, s, trade, rid, high, qty, intent, entry, direction, costs, ts, b);
    EarnedFollowsPrice(direction, entry, low, high, qty, costs);
  }

  /** A release gives the whole margin back, a buffer release the buffer; refused, they change nothing. */
  lemma ReleasesInFull(s: State, rid: Rid, ts: int)
    requires s.initialized
    ensures var (s', o) := Book.Release(s, rid, ts, true);
      if rid !in s.live then (s', o) == (s, Refused(0.0))
      else
        var res := s.live[rid];
        && o == Ok(res.margin) && s'.total == s.total && s'.live == s.live - {rid}
        && s'.Of(res.bucket) == s.Of(res.bucket).Move(res.margin, -res.margin, 0.0)
        && s'.log == s.log + [Row(RELEASE, ts, -res.margin, One(res.bucket), s.Of(res.bucket).avail, s'.Of(res.bucket).avail,
                                  res.signal, Some(rid), None, 0, -res.margin, 0.0)]
    ensures var (s', o) := Book.ReleaseSlmBuffer(s, rid, ts, true);
      if rid !in s.live || s.live[rid].slmBuffer <= 0.0 then (s', o) == (s, Refused(0.0))
      else
        var res := s.live[rid];
        && o == Ok(res.slmBuffer) && s'.total == s.total && s'.live.Keys == s.live.Keys
        && s'.live[rid] == res.(margin := res.margin - res.slmBuffer, slmBuffer := 0.0, strategy := None)
        && s'.Of(res.bucket) == s.Of(res.bucket).Move(res.slmBuffer, -res.slmBuffer, 0.0)
        && s'.log == s.log + [Row(RELEASE, ts, res.slmBuffer, One(res.bucket), s.Of(res.bucket).avail, s'.Of(res.bucket).avail,
                                  None, Some(rid), None, 0, -res.slmBuffer, 0.0)]
  {
  }

  /** A top-up is refused exactly when the bucket has less. */
  lemma TopUpInFigures(s: State, rid: Rid, extra: real, ts: int)
    requires s.initialized && extra > 0.0 && rid in s.live
    ensures var (s', o), res := Book.TopUp(s, rid, extra, ts, true), s.live[rid];
      if s.Of(res.bucket).avail < extra then (s', o) == (s, Refused(extra))
      else
        && o == Ok(res.margin + extra) && s'.total == s.total && s'.live.Keys == s.live.Keys
        && s'.live[rid] == res.(margin := res.margin + extra, strategy := None)
        && s'.Of(res.bucket) == s.Of(res.bucket).Move(-extra, extra, 0.0)
        && s'.log == s.log + [Row(TOP_UP, ts, extra, One(res.bucket), s.Of(res.bucket).avail, s'.Of(res.bucket).avail,
                                  res.signal, Some(rid), None, 0, extra, 0.0)]
  {
  }

  /** Which calls are turned away, with nothing changed. */
  lemma TurnedAway(split: Split, leverage: Leverage, s: State, rid: Rid, extra: real, price: real, qty: int, ts: int,
                   symbol: string, name: string)
    ensures !s.initialized ==>
      && Book.Release(s, rid, ts, true) == (s, Raised(NotInitialized))
      && Book.CommitToUsed(leverage, s, rid, price, qty, ts, true) == (s, Raised(NotInitialized))
      && Book.Reserve(split, leverage, s, rid, symbol, qty, price, INTRADAY, None, None, ts, true) == (s, Raised(NotInitialized))
    ensures s.initialized ==>
      && Book.Initialize(split, s, price, ts, true) == (s, Refused(0.0))
      && Book.Reserve(split, leverage, s, rid, symbol, qty, price, Unknown(name), None, None, ts, true) == (s, Raised(UnknownIntent))
      && (rid !in s.live ==> Book.CommitToUsed(leverage, s, rid, price, qty, ts, true) == (s, Raised(UnknownReservation)))
    ensures extra <= 0.0 ==> Book.TopUp(s, rid, extra, ts, true) == (s, Raised(BadAmount))
  {
  }

  /** An initialized book splits the balance by the two shares. */
  lemma InitializeInShares(split: Split, s: State, balance: real, ts: int)
    requires !s.initialized
    ensures var s' := Book.Initialize(split, s, balance, ts, true).0;
      && s'.initialized && s'.total == balance && s'.live == s.live
      && s'.log == s.log + [Row(INIT, ts, balance, Both, 0.0, balance, None, None, None, 0, 0.0, 0.0)]
      && s'.intraday == Part(balance * split.intraday, 0.0, 0.0, 0.0)
      && s'.positional == Part(balance * split.positional, 0.0, 0.0, 0.0)
  {
  }

  /** After a sync each bucket holds its share of the broker's cash and its own carry, reserved and used untouched. */
  lemma SyncInShares(split: Split, s: State, balance: real, ts: int)
    requires s.initialized
    ensures var s' := Book.SyncFromBroker(split, s, balance, ts, true).0;
      && s'.total == balance + s.intraday.carry + s.positional.carry
      && s'.intraday.Sum() == balance * split.intraday + s.intraday.carry
      && s'.positional.Sum() == balance * split.positional + s.positional.carry
      && s'.intraday == s.intraday.(avail := s'.intraday.avail) && s'.positional == s.positional.(avail := s'.positional.avail)
      && s'.live == s.live
      && s'.log == s.log + [Row(SYNC, ts, s'.total - s.total, Both, s.total, s'.total, None, None, None, 0, 0.0, 0.0)]
  {
    assert s.(total := balance + s.Carry()).total - s.Carry() == balance;
  }

  /**
   * A sync tells of a changed total exactly beyond one rupee, with the totals before and
   * after, and of an overdrawn bucket exactly when one is more than a rupee below zero, with
   * the lower of the two.
   */
  lemma SyncTells(split: Split, s: State, balance: real, ts: int, d: Drift)
    requires s.initialized
    ensures var s' := Book.SyncFromBroker(split, s, balance, ts, true).0;
      d in SyncEvents(s, s') <==>
        || (d == Drift(TotalDrift, s.total, s'.total, s'.total - s.total)
            && (s'.total > s.total + 1.0 || s'.total < s.total - 1.0))
        || (d.source == BucketOverflow && d.expected == 0.0 && d.delta == -d.actual && d.actual < -1.0
            && d.actual <= s'.intraday.avail && d.actual <= s'.positional.avail
            && d.actual in {s'.intraday.avail, s'.positional.avail})
  {
  }

  // --- what the queries over the ledger select ---

  /** The exits of one bucket since a time; a row of no bucket counts as positional. */
  ghost function ExitsSince(log: Log, floor: int, b: Bucket): set<int> {
    set i | 0 <= i < |log| && log[i].entryType == RELEASE_USED && log[i].ts >= floor
                 && (log[i].scope == One(Intraday) <==> b == Intraday)
  }

  ghost function PnlAt(log: Log): int -> real {
    (i: int) => if 0 <= i < |log| then log[i].pnlDelta else 0.0
  }

  lemma LastIndex(log: Log, keys: set<int>)
    requires log != [] && forall i :: i in keys ==> 0 <= i < |log| - 1
    ensures Sums.Over(keys, PnlAt(log)) == Sums.Over(keys, PnlAt(Front(log)))
    ensures Sums.Over(keys + {|log| - 1}, PnlAt(log)) == Sums.Over(keys, PnlAt(Front(log))) + Last(log).pnlDelta
  {
    forall i | i in keys ensures PnlAt(Front(log))(i) == PnlAt(log)(i) {
      assert Front(log)[i] == log[i];
    }
    Sums.Same(keys, PnlAt(log), PnlAt(Front(log)));
    Sums.Insert(keys, PnlAt(Front(log)), PnlAt(log), |log| - 1);
  }

  /** The carryover of a bucket sums the exits since the floor, and no row before it. */
  lemma {:induction false} CarryoverIsSum(log: Log, floor: int, b: Bucket)
    ensures CarryoverOf(log, floor, b) == Sums.Over(ExitsSince(log, floor, b), PnlAt(log))
  {
    if log != [] {
      CarryoverIsSum(Front(log), floor, b);
      var chosen := Last(log).entryType == RELEASE_USED && Last(log).ts >= floor && (Last(log).scope == One(Intraday) <==> b == Intraday);
      assert ExitsSince(log, floor, b) == if chosen then ExitsSince(Front(log), floor, b) + {|log| - 1} else ExitsSince(Front(log), floor, b);
      LastIndex(log, ExitsSince(Front(log), floor, b));
    }
  }

  ghost function RowsOfDay(log: Log, day: int): set<int> {
    set i | 0 <= i < |log| && day * 86400 <= log[i].ts < (day + 1) * 86400
  }

  /** The day's realized profit sums the rows of that day. */
  lemma {:induction false} DailyPnlIsSum(log: Log, day: int)
    ensures DailyPnl(log, day) == Sums.Over(RowsOfDay(log, day), PnlAt(log))
  {
    if log != [] {
      DailyPnlIsSum(Front(log), day);
      var chosen := day * 86400 <= Last(log).ts < (day + 1) * 86400;
      assert chosen <==> Day(Last(log).ts) == day;
      assert RowsOfDay(log, day) == if chosen then RowsOfDay(Front(log), day) + {|log| - 1} else RowsOfDay(Front(log), day);
      LastIndex(log, RowsOfDay(Front(log), day));
    }
  }

  /** The daily reset reports the day's realized profit and writes its negative, once. */
  lemma ResetInRows(s: State, ts: int)
    ensures var (s', o) := Book.ResetDailyPnl(s, ts, true);
            var realized := Sums.Over(RowsOfDay(s.log, ts / 86400), PnlAt(s.log));
      && o == Ok(realized) && |s'.log| == |s.log| + 1 && s'.log[..|s.log|] == s.log
      && s'.log[|s.log|].entryType == RESET_PNL && s'.log[|s.log|].pnlDelta == -realized
      && s' == s.(log := s'.log)
  {
    DailyPnlIsSum(s.log, ts / 86400);
  }

  ghost predicate ReservesSignal(row: Row, signal: string) {
    row.entryType == RESERVE && row.signal == Some(signal) && row.rid.Some?
  }

  /** The id of a signal is that of its latest RESERVE row. */
  lemma {:induction false} RidForSignalIsLatest(log: Log, signal: string, k: nat)
    requires k < |log| && ReservesSignal(log[k], signal) && forall i :: k < i < |log| ==> !ReservesSignal(log[i], signal)
    ensures RidForSignal(log, signal) == log[k].rid
  {
    if k < |log| - 1 {
      assert !ReservesSignal(log[|log| - 1], signal);
      forall i | k < i < |Front(log)| ensures !ReservesSignal(Front(log)[i], signal) { assert Front(log)[i] == log[i]; }
      RidForSignalIsLatest(Front(log), signal, k);
    }
  }

  lemma {:induction false} NoRidForSignal(log: Log, signal: string)
    requires forall i :: 0 <= i < |log| ==> !ReservesSignal(log[i], signal)
    ensures RidForSignal(log, signal) == None
  {
    if log != [] {
      assert !ReservesSignal(log[|log| - 1], signal);
      forall i | 0 <= i < |Front(log)| ensures !ReservesSignal(Front(log)[i], signal) { assert Front(log)[i] == log[i]; }
      NoRidForSignal(Front(log), signal);
    }
  }

  /** The RESERVE row of a reservation is its earliest. */
  lemma {:induction false} ReserveRowIsEarliest(log: Log, rid: Rid, k: nat)
    requires k < |log| && log[k].entryType == RESERVE && log[k].rid == Some(rid)
    requires forall i :: 0 <= i < k ==> !(log[i].entryType == RESERVE && log[i].rid == Some(rid))
    ensures ReserveRow(log, rid) == Some(log[k])
  {
    if k < |log| - 1 {
      ReserveRowIsEarliest(Front(log), rid, k);
    } else {
      NoReserveRow(Front(log), rid);
    }
  }

  lemma {:induction false} NoReserveRow(log: Log, rid: Rid)
    requires forall i :: 0 <= i < |log| ==> !(log[i].entryType == RESERVE && log[i].rid == Some(rid))
    ensures ReserveRow(log, rid) == None
  {
    if log != [] {
      assert !(log[|log| - 1].entryType == RESERVE && log[|log| - 1].rid == Some(rid));
      NoReserveRow(Front(log), rid);
    }
  }
}
