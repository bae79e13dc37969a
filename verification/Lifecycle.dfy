/**
 * What the mutators do together: the life of one reservation from reserve to the last exit,
 * and the runs on which no balance goes negative and the closing check stays quiet.
 */
module Lifecycle {
  import opened Options
  import opened Ledger
  import opened CapitalInvariant
  import opened Book
  import opened Runs
  import opened Positions
  import opened Replay
  import opened Restart
  import opened Figures
  import Sums

  /** A reserve request, with the leverage map it meets. */
  datatype Request = Request(
    rid: Rid, symbol: string, qty: int, price: real, intent: Intent, signal: Option<string>, strategy: Option<string>,
    leverage: Leverage)

  function Reserved(split: Split, s: State, q: Request, ts: int): (State, Outcome) {
    Book.Reserve(split, q.leverage, s, q.rid, q.symbol, q.qty, q.price, q.intent, q.signal, q.strategy, ts, true)
  }

  /** Memory without the ledger. */
  function Memory(s: State): State {
    s.(log := [])
  }

  /** Release undoes reserve: every balance, the reservation map, and the ledger's margin of the reservation. */
  lemma ReleaseUndoesReserve(split: Split, s: State, q: Request, ts1: int, ts2: int)
    requires q.rid !in s.live && Reserved(split, s, q, ts1).1.Ok?
    ensures var (s1, o1) := Reserved(split, s, q, ts1);
            var (s2, o2) := Book.Release(s1, q.rid, ts2, true);
            && o2 == o1 && Memory(s2) == Memory(s)
            && MarginOf(s2.log, q.rid) == MarginOf(s.log, q.rid)
  {
    var s1 := Reserved(split, s, q, ts1).0;
    assert s1.live - {q.rid} == s.live;
    Snoc(s.log, Last(s1.log));
    Snoc(s1.log, Last(Book.Release(s1, q.rid, ts2, true).0.log));
  }

  /**
   * The stop buffer is only ever lent: reserve, give the buffer back, and fill at the
   * reserved price and quantity, and exactly the required margin has moved from available to
   * used, whatever the buffer was.
   */
  lemma BufferIsLent(split: Split, s: State, q: Request, ts1: int, ts2: int, ts3: int)
    requires q.rid !in s.live && Reserved(split, s, q, ts1).1.Ok?
    ensures var s1 := Reserved(split, s, q, ts1).0;
            var s2 := Book.ReleaseSlmBuffer(s1, q.rid, ts2, true).0;
            var (s3, o) := Book.CommitToUsed(q.leverage, s2, q.rid, q.price, q.qty, ts3, true);
            var (b, base) := (BucketFor(q.intent).value, RequiredMargin(q.qty, q.price, q.intent, q.leverage));
            && o == Ok(base)
            && Memory(s3) == Memory(s.With(b, s.Of(b).Move(-base, 0.0, base)))
  {
    var s1 := Reserved(split, s, q, ts1).0;
    var s2 := Book.ReleaseSlmBuffer(s1, q.rid, ts2, true).0;
    assert s2.live - {q.rid} == s.live;
  }

  /** And it is given back once: the second release is refused and changes nothing. */
  lemma BufferReleasedOnce(s: State, rid: Rid, ts1: int, ts2: int)
    requires Book.ReleaseSlmBuffer(s, rid, ts1, true).1.Ok?
    ensures var s1 := Book.ReleaseSlmBuffer(s, rid, ts1, true).0;
            Book.ReleaseSlmBuffer(s1, rid, ts2, true) == (s1, Refused(0.0))
  {
  }

  /** The only commit of a reservation is what release_used later finds. */
  lemma CommitIsFound(log: Log, row: Row, rid: Rid)
    requires CommitCount(log, rid) == 0 && IsCommitOf(row, rid) && row.qty > 0
    ensures EntryCommitMargin(log + [row], Some(rid)) == Some((row.amount, row.qty))
  {
    Snoc(log, row);
    NoCommits(log, rid);
  }

  datatype Closing = Closing(trade: TradeId, price: real, intent: Intent, entry: real, direction: Direction, costs: real, leverage: Leverage)

  function CloseOut(s: State, q: Request, qty: int, x: Closing, ts: int): (State, Outcome) {
    Book.ReleaseUsed(x.leverage, s, Some(x.trade), Some(q.rid), x.price, qty, x.intent, x.entry, x.direction, x.costs, ts, true)
  }

  function Pnl(x: Closing, qty: int): real {
    Earned(x.direction, x.entry, x.price, qty, x.costs)
  }

  lemma ReservedRow(split: Split, s: State, q: Request, ts: int) returns (row: Row)
    requires Reserved(split, s, q, ts).1.Ok?
    ensures Reserved(split, s, q, ts).0.log == s.log + [row] && row.entryType == RESERVE
  {
    row := Last(Reserved(split, s, q, ts).0.log);
  }

  lemma NoNewCommit(log: Log, row: Row, rid: Rid)
    requires CommitCount(log, rid) == 0 && row.entryType == RESERVE
    ensures CommitCount(log + [row], rid) == 0
  {
    Snoc(log, row);
  }

  lemma ReservedUncommitted(split: Split, s: State, q: Request, ts: int)
    requires !Mentions(s.log, q.rid) && Reserved(split, s, q, ts).1.Ok?
    ensures CommitCount(Reserved(split, s, q, ts).0.log, q.rid) == 0
  {
    Unmentioned(s.log, q.rid);
    var row := ReservedRow(split, s, q, ts);
    NoNewCommit(s.log, row, q.rid);
  }

  lemma Whole(margin: real, qty: int)
    requires qty > 0
    ensures margin * qty as real / qty as real == margin
  {
  }

  lemma FreesWhole(leverage: Leverage, log: Log, rid: Rid, qty: int, margin: real, entry: real, intent: Intent)
    requires EntryCommitMargin(log, Some(rid)) == Some((margin, qty)) && qty > 0
    ensures ReleaseMargin(leverage, log, Some(rid), qty, entry, intent) == margin
  {
    Whole(margin, qty);
  }

  /**
   * A whole life: reserve, fill at any price and quantity, exit in full at any price, each
   * under its own leverage map. Nothing is left of the reservation, and the bucket's
   * available and the total have gained exactly the net profit.
   */
  lemma WholeLife(split: Split, s: State, q: Request, price: real, qty: int, leverage: Leverage, x: Closing,
                  ts1: int, ts2: int, ts3: int)
    requires q.rid !in s.live && !Mentions(s.log, q.rid) && Reserved(split, s, q, ts1).1.Ok?
    requires qty > 0 && BucketFor(x.intent) == BucketFor(q.intent)
    ensures var s1 := Reserved(split, s, q, ts1).0;
            var s2 := Book.CommitToUsed(leverage, s1, q.rid, price, qty, ts2, true).0;
            var (s3, o) := CloseOut(s2, q, qty, x, ts3);
            var b := BucketFor(q.intent).value;
            && o.Ok?
            && Memory(s3) == Memory(s.With(b, s.Of(b).Move(Pnl(x, qty), 0.0, 0.0)).(total := s.total + Pnl(x, qty)))
  {
    var s1 := Reserved(split, s, q, ts1).0;
    var s2 := Book.CommitToUsed(leverage, s1, q.rid, price, qty, ts2, true).0;
    assert s2.live == s1.live - {q.rid} == s.live;
    ReservedUncommitted(split, s, q, ts1);
    var row := Last(s2.log);
    CommitIsFound(s1.log, row, q.rid);
    FreesWhole(x.leverage, s2.log, q.rid, qty, row.amount, x.entry, x.intent);
    PnlInPrices(x.direction, x.entry, x.price, qty, x.costs);
  }

  // ----- runs on which nothing goes negative ----------------------------------------------

  /** A sound book without a gap that owes nothing: what is used follows from its positions. */
  ghost predicate Solvent(s: State, trades: Trades, base: Base) {
    && Sound(s, trades, base) && s.Gap() == 0.0
    && s.intraday.avail >= 0.0 && s.positional.avail >= 0.0 && base.overIntraday >= 0.0 && base.overPositional >= 0.0
    && WithinFills(s, trades, base, Intraday) && WithinFills(s, trades, base, Positional)
    && Margined(s)
  }

  predicate Margined(s: State) {
    forall rid :: rid in s.live ==> 0.0 <= s.live[rid].slmBuffer <= s.live[rid].margin
  }

  /**
   * What the caller can see a bucket stand: orders of non-negative size and price; a fill within
   * the margin held and what is available; an exit of no more than is left, with a loss within
   * the committed margin it frees and what is available; a sync that covers what is taken.
   */
  ghost predicate Affordable(split: Split, trades: Trades, s: State, c: Call) {
    match c.op
    case Reserve(_, _, qty, price, intent, _, _) =>
      qty >= 0 && price >= 0.0 && (intent in c.leverage ==> c.leverage[intent] > 0.0)
    case Commit(rid, price, qty) =>
      rid in s.live ==>
        var res := s.live[rid];
        0.0 <= RequiredMargin(qty, price, res.intent, c.leverage) <= res.margin + s.Of(res.bucket).avail
    case ReleaseUsed(trade, exit, qty, intent, entry, direction, costs) =>
      BucketFor(intent).Some? && RidOf(trades, trade).Some? ==>
        var it := RidOf(trades, trade).value;
        && qty <= CommitQty(s.log, it) - Exited(s.log, trades, it)
        && -Earned(direction, entry, exit, qty, costs)
           <= SliceOf(PositionOf(s.log, trades, it), qty) + s.Of(BucketFor(intent).value).avail
    case Sync(balance) => Shortfall(split, s, balance, Intraday) <= 0.0 && Shortfall(split, s, balance, Positional) <= 0.0
    case _ => true
  }

  /** What is taken from a bucket beyond the base that a sync to `balance` would give it. */
  function Shortfall(split: Split, s: State, balance: real, b: Bucket): real {
    s.Of(b).reserved + s.Of(b).used - BucketBase(split, s.(total := balance + s.Carry()), b)
  }

  lemma RequiredNonNegative(qty: int, price: real, intent: Intent, leverage: Leverage)
    requires qty >= 0 && price >= 0.0 && (intent in leverage ==> leverage[intent] > 0.0)
    ensures RequiredMargin(qty, price, intent, leverage) >= 0.0
  {
    assert qty as real * price >= 0.0;
  }

  /** The stop buffer pays for slippage: a fill at most that much above the reserved price is affordable. */
  lemma BufferPaysForSlippage(split: Split, s: State, trades: Trades, q: Request, price: real, ts: int, ts': int)
    requires Reserved(split, s, q, ts).1.Ok? && q.qty >= 0 && 0.0 <= price <= q.price * (1.0 + split.slmBuffer)
    requires q.intent in q.leverage ==> q.leverage[q.intent] > 0.0
    requires Reserved(split, s, q, ts).0.Of(BucketFor(q.intent).value).avail >= 0.0
    ensures Affordable(split, trades, Reserved(split, s, q, ts).0, Call(Op.Commit(q.rid, price, q.qty), q.leverage, ts', true))
  {
    RequiredNonNegative(q.qty, price, q.intent, q.leverage);
    ReservedHolds(split, s, q, ts);
    SlipsWithin(split, q.qty, price, q.price, q.intent, q.leverage);
  }

  lemma ReservedHolds(split: Split, s: State, q: Request, ts: int)
    requires Reserved(split, s, q, ts).1.Ok?
    ensures var (s', b) := (Reserved(split, s, q, ts).0, BucketFor(q.intent));
            b.Some? && q.rid in s'.live && s'.live[q.rid].intent == q.intent && s'.live[q.rid].bucket == b.value
            && s'.live[q.rid].margin == GrossMargin(split, RequiredMargin(q.qty, q.price, q.intent, q.leverage))
  {
  }

  lemma SlipsWithin(split: Split, qty: int, price: real, reserved: real, intent: Intent, leverage: Leverage)
    requires qty >= 0 && price <= reserved * (1.0 + split.slmBuffer) && (intent in leverage ==> leverage[intent] > 0.0)
    ensures RequiredMargin(qty, price, intent, leverage) <= GrossMargin(split, RequiredMargin(qty, reserved, intent, leverage))
  {
    Slips(qty as real, price, reserved, split.slmBuffer, if intent in leverage then leverage[intent] else 1.0);
  }

  lemma Slips(qty: real, price: real, reserved: real, buffer: real, leverage: real)
    requires qty >= 0.0 && leverage > 0.0 && price <= reserved * (1.0 + buffer)
    ensures qty * price / leverage <= qty * reserved / leverage + qty * reserved / leverage * buffer
  {
    Scales(qty, price, reserved * (1.0 + buffer));
    Spreads(qty, reserved, buffer);
    Divides(qty * price, qty * reserved, qty * reserved * buffer, leverage);
    Commutes(qty * reserved, buffer, leverage);
  }

  lemma Scales(qty: real, price: real, limit: real)
    requires qty >= 0.0 && price <= limit
    ensures qty * price <= qty * limit
  {
    assert qty * (limit - price) >= 0.0;
  }

  lemma Spreads(qty: real, price: real, buffer: real)
    ensures qty * (price * (1.0 + buffer)) == qty * price + qty * price * buffer
  {
  }

  lemma Divides(x: real, y: real, z: real, leverage: real)
    requires x <= y + z && leverage > 0.0
    ensures x / leverage <= y / leverage + z / leverage
  {
    assert (y + z - x) / leverage >= 0.0;
  }

  lemma Commutes(y: real, buffer: real, leverage: real)
    requires leverage > 0.0
    ensures y * buffer / leverage == y / leverage * buffer
  {
  }

  lemma ReservedNonNegative(s: State, b: Bucket)
    requires ReservedAgrees(s, b) && Margined(s)
    ensures s.Of(b).reserved >= 0.0
  {
    Sums.NonNegative(LiveRids(s, b), rid => MarginIn(s, rid));
  }

  lemma OpenedIsSolvent(b: State, log: Log, trades: Trades)
    requires Sound(b, trades, NOTHING) && Opened(b, log) && b.intraday.avail >= 0.0 && b.positional.avail >= 0.0
    ensures Solvent(b, trades, NOTHING)
  {
    assert Backing(b.log, NOTHING, Intraday) == {} == Backing(b.log, NOTHING, Positional);
    assert b.Gap() == 0.0;
  }

  lemma BootShares(split: Split, log: Log, balance: real, ts: int)
    requires split.intraday >= 0.0 && split.positional >= 0.0 && balance >= 0.0
    ensures var b := BootWith(split, log, balance, ts); b.intraday.avail >= 0.0 && b.positional.avail >= 0.0
  {
    SharesAreNonNegative(balance, split.intraday);
    SharesAreNonNegative(balance, split.positional);
  }

  lemma SharesAreNonNegative(balance: real, share: real)
    requires balance >= 0.0 && share >= 0.0
    ensures balance * share >= 0.0
  {
  }

  /** A session booted with a non-negative balance starts solvent. */
  lemma BootIsSolvent(split: Split, trades: Trades, log: Log, balance: real, ts: int)
    requires split.Valid() && split.intraday >= 0.0 && split.positional >= 0.0 && balance >= 0.0
    requires forall rid :: !PhaseOf(log, rid).Broken?
    ensures Solvent(BootWith(split, log, balance, ts), trades, NOTHING)
  {
    BootIsSound(split, trades, log, balance, ts);
    BootOpens(split, log, balance, ts);
    BootShares(split, log, balance, ts);
    OpenedIsSolvent(BootWith(split, log, balance, ts), log, trades);
  }

  lemma SolventIsNonNegative(s: State, trades: Trades, base: Base)
    requires Solvent(s, trades, base)
    ensures NonNegative(s)
  {
    ReservedNonNegative(s, Intraday);
    ReservedNonNegative(s, Positional);
    UsedNonNegative(s, trades, base, Intraday);
    UsedNonNegative(s, trades, base, Positional);
  }

  /** A solvent book passes the closing check. */
  lemma SolventIsQuiet(split: Split, s: State, trades: Trades, base: Base)
    requires Solvent(s, trades, base)
    ensures CheckInvariant(split, s).None?
  {
    SolventIsNonNegative(s, trades, base);
    BalancedRaisesOnlyNegative(split, s);
  }

  // What an affordable call leaves, one figure at a time.

  predicate Funded(s: State) {
    s.intraday.avail >= 0.0 && s.positional.avail >= 0.0
  }

  lemma ReserveFunds(split: Split, leverage: Leverage, s: State, rid: Rid, symbol: string, qty: int, price: real,
                     intent: Intent, signal: Option<string>, strategy: Option<string>, ts: int, writeOk: bool)
    requires split.slmBuffer >= 0.0 && Funded(s) && Margined(s)
    requires qty >= 0 && price >= 0.0 && (intent in leverage ==> leverage[intent] > 0.0)
    ensures var s' := Book.Reserve(split, leverage, s, rid, symbol, qty, price, intent, signal, strategy, ts, writeOk).0;
            Funded(s') && Margined(s')
  {
    RequiredNonNegative(qty, price, intent, leverage);
    var base := RequiredMargin(qty, price, intent, leverage);
    assert SlmBuffer(split, base) >= 0.0;
  }

  lemma SyncFunds(split: Split, s: State, balance: real, ts: int, writeOk: bool)
    requires s.initialized && Funded(s) && Shortfall(split, s, balance, Intraday) <= 0.0 && Shortfall(split, s, balance, Positional) <= 0.0
    ensures Funded(Book.SyncFromBroker(split, s, balance, ts, writeOk).0)
  {
    SyncLeaves(split, s, balance, ts);
  }

  lemma SameBase(split: Split, s: State, s': State, b: Bucket)
    requires s'.total == s.total && s'.intraday.carry == s.intraday.carry && s'.positional.carry == s.positional.carry
    ensures BucketBase(split, s', b) == BucketBase(split, s, b)
  {
    assert s'.total - s'.Carry() == s.total - s.Carry();
  }

  /** What a sync leaves available is the shortfall, negated. */
  lemma SyncLeaves(split: Split, s: State, balance: real, ts: int)
    requires s.initialized
    ensures var s' := Book.SyncFromBroker(split, s, balance, ts, true).0;
            && s'.intraday == s.intraday.(avail := -Shortfall(split, s, balance, Intraday))
            && s'.positional == s.positional.(avail := -Shortfall(split, s, balance, Positional))
            && s'.live == s.live && s'.total == balance + s.Carry()
  {
    var s' := Book.SyncFromBroker(split, s, balance, ts, true).0;
    var s1 := s.(total := balance + s.Carry());
    SameBase(split, s1, s1.(log := s'.log), Intraday);
    SameBase(split, s1, s1.(log := s'.log), Positional);
    Negated(s.intraday, BucketBase(split, s1, Intraday));
    Negated(s.positional, BucketBase(split, s1, Positional));
  }

  lemma Negated(p: Part, base: real)
    ensures p.(avail := base - p.reserved - p.used) == p.(avail := -(p.reserved + p.used - base))
  {
  }

  lemma CommitFunds(leverage: Leverage, s: State, rid: Rid, price: real, qty: int, ts: int, writeOk: bool)
    requires Funded(s) && Margined(s) && rid in s.live
    requires RequiredMargin(qty, price, s.live[rid].intent, leverage) <= s.live[rid].margin + s.Of(s.live[rid].bucket).avail
    ensures var s' := Book.CommitToUsed(leverage, s, rid, price, qty, ts, writeOk).0; Funded(s') && Margined(s')
  {
  }

  lemma ReleaseFunds(s: State, rid: Rid, ts: int, writeOk: bool)
    requires Funded(s) && Margined(s)
    ensures var s' := Book.Release(s, rid, ts, writeOk).0; Funded(s') && Margined(s')
  {
    var s' := Book.Release(s, rid, ts, writeOk).0;
    assert forall r :: r in s'.live ==> r in s.live && s'.live[r] == s.live[r];
  }

  lemma BufferFunds(s: State, rid: Rid, ts: int, writeOk: bool)
    requires Funded(s) && Margined(s)
    ensures var s' := Book.ReleaseSlmBuffer(s, rid, ts, writeOk).0; Funded(s') && Margined(s')
  {
    var s' := Book.ReleaseSlmBuffer(s, rid, ts, writeOk).0;
    assert forall r :: r in s'.live && r != rid ==> r in s.live && s'.live[r] == s.live[r];
  }

  lemma TopUpFunds(s: State, rid: Rid, extra: real, ts: int, writeOk: bool)
    requires Funded(s) && Margined(s)
    ensures var s' := Book.TopUp(s, rid, extra, ts, writeOk).0; Funded(s') && Margined(s')
  {
  }

  /** The margin an attributed exit frees: the slice of what was committed. */
  lemma FreedIsSlice(s: State, trades: Trades, base: Base, c: Call)
    requires Sound(s, trades, base) && c.op.ReleaseUsed? && Attributed(s, trades, base, c) && BucketFor(c.op.intent).Some?
    ensures var it := RidOf(trades, c.op.trade);
            && it.Some? && it.value in Backing(s.log, base, BucketFor(c.op.intent).value)
            && ReleaseMargin(c.leverage, s.log, it, c.op.qty, c.op.entry, c.op.intent)
               == SliceOf(PositionOf(s.log, trades, it.value), c.op.qty)
  {
    var it, b := RidOf(trades, c.op.trade).value, BucketFor(c.op.intent).value;
    CommittedOnce(s, trades, base, it, b);
    ExitSlice(s, c.leverage, trades, it, b, c.op.qty, c.op.entry, c.op.intent);
  }

  lemma ExitFunds(split: Split, trades: Trades, base: Base, s: State, c: Call)
    requires Sound(s, trades, base) && Funded(s) && Margined(s) && c.op.ReleaseUsed?
    requires Attributed(s, trades, base, c) && Affordable(split, trades, s, c)
    ensures var s' := Step(split, trades, s, c).0; Funded(s') && Margined(s')
  {
    PnlInPrices(c.op.direction, c.op.entry, c.op.exit, c.op.qty, c.op.costs);
    if BucketFor(c.op.intent).Some? { FreedIsSlice(s, trades, base, c); }
  }

  lemma StepFunds(split: Split, trades: Trades, base: Base, s: State, c: Call)
    requires split.slmBuffer >= 0.0 && Sound(s, trades, base) && Funded(s) && Margined(s)
    requires Attributed(s, trades, base, c) && Affordable(split, trades, s, c)
    ensures var s' := Step(split, trades, s, c).0; Funded(s') && Margined(s')
  {
    match c.op
    case Reserve(rid, symbol, qty, price, intent, signal, strategy) =>
      ReserveFunds(split, c.leverage, s, rid, symbol, qty, price, intent, signal, strategy, c.ts, c.writeOk);
    case Release(rid) => ReleaseFunds(s, rid, c.ts, c.writeOk);
    case ReleaseSlmBuffer(rid) => BufferFunds(s, rid, c.ts, c.writeOk);
    case TopUp(rid, extra) => TopUpFunds(s, rid, extra, c.ts, c.writeOk);
    case Commit(rid, price, qty) => if rid in s.live { CommitFunds(c.leverage, s, rid, price, qty, c.ts, c.writeOk); }
    case ReleaseUsed(_, _, _, _, _, _, _) => ExitFunds(split, trades, base, s, c);
    case Sync(balance) => SyncFunds(split, s, balance, c.ts, c.writeOk);
    case _ =>
  }

  /** A commit opens a new position of non-negative margin, and an exit leaves within its position. */
  ghost predicate InFill(log: Log, trades: Trades, row: Row) {
    && row.entryType != INIT
    && (row.entryType == COMMIT ==>
          row.rid.Some? && row.amount >= 0.0 && row.qty > 0
          && var p := PositionOf(log, trades, row.rid.value); p.margin == 0.0 && p.qty == 0 && p.exited == 0)
    && (row.entryType == RELEASE_USED && RidOf(trades, row.trade).Some? ==>
          var it := RidOf(trades, row.trade).value; row.qty <= CommitQty(log, it) - Exited(log, trades, it))
  }

  /** Such a row keeps every position within its fill. */
  lemma RowWithinFills(s: State, s': State, trades: Trades, base: Base, row: Row, b: Bucket)
    requires s'.log == s.log + [row] && WithinFills(s, trades, base, b) && InFill(s.log, trades, row)
    ensures WithinFills(s', trades, base, b)
  {
    BackingSnoc(s.log, row, base, b);
    forall rid | rid in Backing(s'.log, base, b)
      ensures CommitMargin(s'.log, rid) >= 0.0 && Exited(s'.log, trades, rid) <= CommitQty(s'.log, rid)
    {
      PositionSnoc(s.log, row, trades, rid);
      assert PositionOf(s'.log, trades, rid).margin == CommitMargin(s'.log, rid);
    }
  }

  ghost predicate WroteInFill(s: State, s': State, trades: Trades) {
    s' == s || (s'.log != [] && s'.log == s.log + [Last(s'.log)] && InFill(s.log, trades, Last(s'.log)))
  }

  lemma OpensInFill(s: State, trades: Trades, row: Row, rid: Rid)
    requires rid in s.live && LiveUncommitted(s, trades) && IsCommitOf(row, rid) && row.amount >= 0.0 && row.qty > 0
    ensures InFill(s.log, trades, row)
  {
    assert PositionOf(s.log, trades, rid).commits == 0;
    NoCommits(s.log, rid);
  }

  lemma CommitInFill(trades: Trades, leverage: Leverage, s: State, rid: Rid, price: real, qty: int, ts: int, writeOk: bool)
    requires s.initialized && LiveUncommitted(s, trades) && qty > 0
    requires rid in s.live ==> RequiredMargin(qty, price, s.live[rid].intent, leverage) >= 0.0
    ensures WroteInFill(s, Book.CommitToUsed(leverage, s, rid, price, qty, ts, writeOk).0, trades)
  {
    if rid in s.live && writeOk {
      var s' := Book.CommitToUsed(leverage, s, rid, price, qty, ts, true).0;
      var row := s'.log[|s.log|];
      assert s'.log == s.log + [row];
      Snoc(s.log, row);
      OpensInFill(s, trades, row, rid);
    }
  }

  /** The row of an affordable call is such a row. */
  lemma StepInFill(split: Split, trades: Trades, base: Base, s: State, c: Call)
    requires s.initialized && PositionsFit(s, trades, base)
    requires Fresh(s, c) && Attributed(s, trades, base, c) && Affordable(split, trades, s, c)
    ensures WroteInFill(s, Step(split, trades, s, c).0, trades)
  {
    if c.op.Commit? {
      CommitInFill(trades, c.leverage, s, c.op.rid, c.op.price, c.op.qty, c.ts, c.writeOk);
    } else {
      StepWritesAhead(split, trades, s, c);
    }
  }

  lemma StepWithinFills(split: Split, trades: Trades, base: Base, s: State, c: Call)
    requires Solvent(s, trades, base) && Fresh(s, c) && Attributed(s, trades, base, c) && Affordable(split, trades, s, c)
    ensures var s' := Step(split, trades, s, c).0;
            WithinFills(s', trades, base, Intraday) && WithinFills(s', trades, base, Positional)
  {
    var s' := Step(split, trades, s, c).0;
    StepInFill(split, trades, base, s, c);
    if s' != s {
      RowWithinFills(s, s', trades, base, Last(s'.log), Intraday);
      RowWithinFills(s, s', trades, base, Last(s'.log), Positional);
    }
  }

  /** One affordable call keeps the book solvent, and its closing check stays quiet. */
  lemma StepStaysSolvent(split: Split, trades: Trades, base: Base, s: State, c: Call)
    requires split.Valid() && split.slmBuffer >= 0.0
    requires Solvent(s, trades, base) && Fresh(s, c) && Attributed(s, trades, base, c) && Affordable(split, trades, s, c)
    ensures var (s', o) := Step(split, trades, s, c); Solvent(s', trades, base) && Settle(split, s', o) == o
  {
    StepKeepsSound(split, trades, base, s, c);
    StepGap(split, trades, s, c);
    StepFunds(split, trades, base, s, c);
    StepWithinFills(split, trades, base, s, c);
    SolventIsQuiet(split, Step(split, trades, s, c).0, trades, base);
  }

  ghost predicate AllAffordable(split: Split, trades: Trades, base: Base, s: State, calls: seq<Call>)
    decreases |calls|
  {
    calls == []
    || (&& Fresh(s, calls[0]) && Attributed(s, trades, base, calls[0]) && Affordable(split, trades, s, calls[0])
        && AllAffordable(split, trades, base, Step(split, trades, s, calls[0]).0, calls[1..]))
  }

  /** No call of the run raises a violation. */
  ghost predicate Quiet(split: Split, trades: Trades, s: State, calls: seq<Call>)
    decreases |calls|
  {
    calls == []
    || (&& Settle(split, Step(split, trades, s, calls[0]).0, Step(split, trades, s, calls[0]).1)
           == Step(split, trades, s, calls[0]).1
        && Quiet(split, trades, Step(split, trades, s, calls[0]).0, calls[1..]))
  }

  /**
   * Over every affordable run of a session, failed writes included, no balance ever goes
   * negative and the invariant check never raises, so it never trips the kill switch.
   */
  lemma {:induction false} RunStaysSolvent(split: Split, trades: Trades, base: Base, s: State, calls: seq<Call>)
    requires split.Valid() && split.slmBuffer >= 0.0
    requires Solvent(s, trades, base) && AllAffordable(split, trades, base, s, calls)
    ensures Solvent(Run(split, trades, s, calls), trades, base) && NonNegative(Run(split, trades, s, calls))
    ensures Quiet(split, trades, s, calls)
    decreases |calls|
  {
    if calls == [] {
      SolventIsNonNegative(s, trades, base);
    } else {
      StepStaysSolvent(split, trades, base, s, calls[0]);
      RunStaysSolvent(split, trades, base, Step(split, trades, s, calls[0]).0, calls[1..]);
    }
  }

  // ----- and exactly when a call raises -----------------------------------------------------

  /** A book without a gap on which only available balances can be negative raises exactly for those. */
  lemma RaisesForAvailable(split: Split, s: State)
    requires s.Gap() == 0.0
    requires s.intraday.reserved >= 0.0 && s.intraday.used >= 0.0 && s.positional.reserved >= 0.0 && s.positional.used >= 0.0
    ensures CheckInvariant(split, s).Some?
            <==> s.intraday.avail < -TOLERANCE || s.positional.avail < -TOLERANCE
                 || s.intraday.avail + s.positional.avail < -TOLERANCE
  {
    BalancedRaisesOnlyNegative(split, s);
  }

  /** With the other bucket untouched, exactly for its own available balance. */
  lemma RaisesForBucket(split: Split, s: State, b: Bucket)
    requires s.Gap() == 0.0 && (forall k :: k != b ==> s.Of(k).avail >= 0.0)
    requires s.intraday.reserved >= 0.0 && s.intraday.used >= 0.0 && s.positional.reserved >= 0.0 && s.positional.used >= 0.0
    ensures CheckInvariant(split, s).Some? <==> s.Of(b).avail < -TOLERANCE
  {
    RaisesForAvailable(split, s);
    assert s.Of(if b == Intraday then Positional else Intraday).avail >= 0.0;
  }

  lemma ReservedLeft(s: State, s': State, trades: Trades, base: Base)
    requires Solvent(s, trades, base) && ReservedAgrees(s', Intraday) && ReservedAgrees(s', Positional)
    requires forall rid :: rid in s'.live ==> rid in s.live && s'.live[rid] == s.live[rid]
    ensures s'.intraday.reserved >= 0.0 && s'.positional.reserved >= 0.0
  {
    ReservedNonNegative(s', Intraday);
    ReservedNonNegative(s', Positional);
  }

  /** A commit raises exactly when its margin outruns what is held and available by more than the tolerance. */
  lemma CommitRaisesIff(split: Split, s: State, trades: Trades, base: Base, leverage: Leverage, rid: Rid, price: real, qty: int, ts: int)
    requires split.Valid() && Solvent(s, trades, base) && rid in s.live
    requires RequiredMargin(qty, price, s.live[rid].intent, leverage) >= 0.0
    ensures var res := s.live[rid];
            var (s', o) := Book.CommitToUsed(leverage, s, rid, price, qty, ts, true);
            Settle(split, s', o).Raised?
            <==> RequiredMargin(qty, price, res.intent, leverage) > res.margin + s.Of(res.bucket).avail + TOLERANCE
  {
    var s', actual := CommitLeaves(split, trades, leverage, s, rid, price, qty, ts);
    OverdrawnRaises(split, s, s', trades, base, s.live[rid].bucket, s.live[rid].margin, actual);
  }

  ghost predicate Balanced(s: State) {
    s.Gap() == 0.0 && ReservedAgrees(s, Intraday) && ReservedAgrees(s, Positional)
  }

  /** A reservation of margin `held` has left a bucket, with `actual` put to use. */
  predicate Drawn(s: State, s': State, b: Bucket, held: real, actual: real) {
    && (forall rid :: rid in s'.live ==> rid in s.live && s'.live[rid] == s.live[rid])
    && s'.Of(b).avail == s.Of(b).avail + (held - actual) && s'.Of(b).used == s.Of(b).used + actual
    && (b == Intraday ==> s'.positional == s.positional) && (b == Positional ==> s'.intraday == s.intraday)
  }

  lemma OverdrawnRaises(split: Split, s: State, s': State, trades: Trades, base: Base, b: Bucket, held: real, actual: real)
    requires Solvent(s, trades, base) && Balanced(s') && Drawn(s, s', b, held, actual) && actual >= 0.0
    ensures CheckInvariant(split, s').Some? <==> actual > held + s.Of(b).avail + TOLERANCE
  {
    CommitSigns(s, s', trades, base, b);
    RaisesForBucket(split, s', b);
  }

  lemma CommitSigns(s: State, s': State, trades: Trades, base: Base, b: Bucket)
    requires Solvent(s, trades, base) && ReservedAgrees(s', Intraday) && ReservedAgrees(s', Positional)
    requires forall rid :: rid in s'.live ==> rid in s.live && s'.live[rid] == s.live[rid]
    requires s'.Of(b).used >= s.Of(b).used && forall k :: k != b ==> s'.Of(k) == s.Of(k)
    ensures s'.intraday.reserved >= 0.0 && s'.intraday.used >= 0.0 && s'.positional.reserved >= 0.0 && s'.positional.used >= 0.0
    ensures forall k :: k != b ==> s'.Of(k).avail >= 0.0
  {
    ReservedLeft(s, s', trades, base);
    SolventIsNonNegative(s, trades, base);
    var other := if b == Intraday then Positional else Intraday;
    assert s'.Of(other) == s.Of(other);
  }

  lemma CommitLeaves(split: Split, trades: Trades, leverage: Leverage, s: State, rid: Rid, price: real, qty: int, ts: int)
    returns (s': State, actual: real)
    requires split.Valid() && s.initialized && Balanced(s) && rid in s.live
    ensures Book.CommitToUsed(leverage, s, rid, price, qty, ts, true) == (s', Ok(actual))
    ensures actual == RequiredMargin(qty, price, s.live[rid].intent, leverage)
    ensures Drawn(s, s', s.live[rid].bucket, s.live[rid].margin, actual) && Balanced(s')
  {
    var c := Call(Op.Commit(rid, price, qty), leverage, ts, true);
    StepReserved(split, trades, s, c);
    StepGap(split, trades, s, c);
    s' := Book.CommitToUsed(leverage, s, rid, price, qty, ts, true).0;
    actual := RequiredMargin(qty, price, s.live[rid].intent, leverage);
  }

  /** An exit within its position raises exactly when its loss outruns the committed margin it frees and what is available. */
  lemma ReleaseUsedRaisesIff(split: Split, trades: Trades, base: Base, s: State, c: Call)
    requires split.Valid() && Solvent(s, trades, base) && c.op.ReleaseUsed? && c.writeOk
    requires Attributed(s, trades, base, c) && BucketFor(c.op.intent).Some?
    requires var it := RidOf(trades, c.op.trade); it.Some? && c.op.qty <= CommitQty(s.log, it.value) - Exited(s.log, trades, it.value)
    ensures var (s', o) := Step(split, trades, s, c);
            var b, it := BucketFor(c.op.intent).value, RidOf(trades, c.op.trade).value;
            Settle(split, s', o).Raised?
            <==> -Earned(c.op.direction, c.op.entry, c.op.exit, c.op.qty, c.op.costs)
                 > SliceOf(PositionOf(s.log, trades, it), c.op.qty) + s.Of(b).avail + TOLERANCE
  {
    var s' := Step(split, trades, s, c).0;
    PnlInPrices(c.op.direction, c.op.entry, c.op.exit, c.op.qty, c.op.costs);
    FreedIsSlice(s, trades, base, c);
    StepReserved(split, trades, s, c);
    StepGap(split, trades, s, c);
    ReservedLeft(s, s', trades, base);
    SolventIsNonNegative(s, trades, base);
    ExitWithinUsed(s, trades, base, BucketFor(c.op.intent).value, RidOf(trades, c.op.trade).value, c.op.qty);
    RaisesForAvailable(split, s');
  }

  /** A sync raises exactly when a bucket, or both together, are short by more than the tolerance. */
  lemma SyncRaisesIff(split: Split, s: State, trades: Trades, base: Base, balance: real, ts: int)
    requires split.Valid() && Solvent(s, trades, base)
    ensures var (s', o) := Book.SyncFromBroker(split, s, balance, ts, true);
            var i, p := Shortfall(split, s, balance, Intraday), Shortfall(split, s, balance, Positional);
            Settle(split, s', o).Raised? <==> i > TOLERANCE || p > TOLERANCE || i + p > TOLERANCE
  {
    SyncLeaves(split, s, balance, ts);
    SyncBalances(split, s, balance, ts);
    SolventIsNonNegative(s, trades, base);
    RaisesForAvailable(split, Book.SyncFromBroker(split, s, balance, ts, true).0);
  }
}
