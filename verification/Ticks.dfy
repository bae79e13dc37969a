/**
 * Prices on the exchange's tick grid: broker/slippage_engine.py (rounding, adverse slippage)
 * and the order snapping of broker/zerodha_adapter.py.
 */
module Ticks {
  import opened Options
  import opened Sides

  const DEFAULT_TICK := 0.05

  /** The k-th grid point. */
  function Grid(k: int, tick: real): real {
    k as real * tick
  }

  ghost predicate OnGrid(price: real, tick: real) {
    exists k :: price == Grid(k, tick)
  }

  function Ceil(x: real): int {
    -(-x).Floor
  }

  /** Decimal's ROUND_HALF_UP: ties go away from zero. */
  function HalfUp(x: real): int {
    if x >= 0.0 then (x + 0.5).Floor else -(0.5 - x).Floor
  }

  function RoundDown(price: real, tick: real): real
    requires tick > 0.0
  {
    Grid((price / tick).Floor, tick)
  }

  function RoundUp(price: real, tick: real): real
    requires tick > 0.0
  {
    Grid(Ceil(price / tick), tick)
  }

  function RoundNearest(price: real, tick: real): real
    requires tick > 0.0
  {
    Grid(HalfUp(price / tick), tick)
  }

  lemma GridIsMonotone(j: int, k: int, tick: real)
    requires tick > 0.0 && j <= k
    ensures Grid(j, tick) <= Grid(k, tick)
    ensures j < k ==> Grid(j, tick) + tick <= Grid(k, tick)
  {
    assert (k - j) as real * tick == Grid(k, tick) - Grid(j, tick);
  }

  /** A price and a point between the grid points, compared in prices and in ticks. */
  lemma InTicks(price: real, k: int, part: real, tick: real)
    requires tick > 0.0
    ensures price <= Grid(k, tick) + part * tick <==> price / tick <= k as real + part
    ensures price < Grid(k, tick) + part * tick <==> price / tick < k as real + part
  {
    var q, x := price / tick, k as real + part;
    assert q * tick == price && x * tick == Grid(k, tick) + part * tick;
    if q < x { assert (x - q) * tick > 0.0; } else { assert (q - x) * tick >= 0.0; }
    if q > x { assert (q - x) * tick > 0.0; }
  }

  lemma QuotientsKeepOrder(p: real, q: real, tick: real)
    requires tick > 0.0
    ensures p <= q <==> p / tick <= q / tick
    ensures p > 0.0 <==> p / tick > 0.0
  {
    assert (p / tick) * tick == p && (q / tick) * tick == q;
    if p <= q { assert (q - p) / tick >= 0.0; } else { assert (p - q) / tick > 0.0; }
  }

  /** The largest grid point at most the price ... */
  lemma RoundDownIsFloor(price: real, tick: real, k: int)
    requires tick > 0.0
    ensures RoundDown(price, tick) <= price < RoundDown(price, tick) + tick
    ensures Grid(k, tick) <= price ==> Grid(k, tick) <= RoundDown(price, tick)
  {
    var n := (price / tick).Floor;
    InTicks(price, n, 0.0, tick);
    InTicks(price, n, 1.0, tick);
    InTicks(price, k, 0.0, tick);
    if k <= n { GridIsMonotone(k, n, tick); }
  }

  /** ... the least at least the price ... */
  lemma RoundUpIsCeiling(price: real, tick: real, k: int)
    requires tick > 0.0
    ensures RoundUp(price, tick) - tick < price <= RoundUp(price, tick)
    ensures price <= Grid(k, tick) ==> RoundUp(price, tick) <= Grid(k, tick)
  {
    var n := Ceil(price / tick);
    InTicks(price, n, 0.0, tick);
    InTicks(price, n, -1.0, tick);
    InTicks(price, k, 0.0, tick);
    if n <= k { GridIsMonotone(n, k, tick); }
  }

  function Distance(x: real, y: real): real {
    if x < y then y - x else x - y
  }

  /** ... and one no other grid point is nearer than, the farther from zero of two equally near. */
  lemma RoundNearestIsNearest(price: real, tick: real, k: int)
    requires tick > 0.0
    ensures Distance(price, RoundNearest(price, tick)) <= Distance(price, Grid(k, tick))
    ensures 2.0 * Distance(price, RoundNearest(price, tick)) <= tick
    ensures price >= 0.0 && Grid(k, tick) > RoundNearest(price, tick) ==>
      Distance(price, RoundNearest(price, tick)) < Distance(price, Grid(k, tick))
  {
    var n := HalfUp(price / tick);
    InTicks(price, n, -0.5, tick);
    InTicks(price, n, 0.5, tick);
    InTicks(price, 0, 0.0, tick);
    if k < n { GridIsMonotone(k, n, tick); } else { GridIsMonotone(n, k, tick); }
  }

  // ----- order snapping -----------------------------------------------------------------

  /** _resolve_tick: never "do not round". */
  function ResolveTick(listed: Option<real>): (tick: real)
    ensures tick > 0.0
    ensures listed.Some? && listed.value > 0.0 ==> tick == listed.value
    ensures listed.None? || listed.value <= 0.0 ==> tick == 0.05
  {
    if listed.None? || listed.value <= 0.0 then DEFAULT_TICK else listed.value
  }

  datatype Prices = Prices(price: real, trigger: real)

  /** _snap_order_to_tick. A stop-limit order is the type "SL"; a price of zero or less stands for none. */
  function Snap(stopLimit: bool, side: Side, order: Prices, tick: real): Prices
    requires tick > 0.0
  {
    var price :=
      if order.price <= 0.0 then order.price
      else if !stopLimit then RoundNearest(order.price, tick)
      else if side == SELL then RoundDown(order.price, tick)
      else RoundUp(order.price, tick);
    Prices(price, if order.trigger <= 0.0 then order.trigger else RoundNearest(order.trigger, tick))
  }

  /** The limit of a stop is not short of its trigger. */
  predicate PastTrigger(side: Side, order: Prices) {
    if side == SELL then order.price <= order.trigger else order.price >= order.trigger
  }

  /**
   * Snapping never turns a stop around, for any tick and any prices: the limit is rounded
   * away from the trigger, which itself is rounded to the nearest.
   */
  lemma StopKeepsOrder(side: Side, order: Prices, tick: real)
    requires tick > 0.0 && PastTrigger(side, order)
    ensures PastTrigger(side, Snap(true, side, order, tick))
  {
    var p, t := order.price / tick, order.trigger / tick;
    QuotientsKeepOrder(order.price, order.trigger, tick);
    QuotientsKeepOrder(order.trigger, order.price, tick);
    if order.price > 0.0 && order.trigger > 0.0 {
      if side == SELL { GridIsMonotone(p.Floor, HalfUp(t), tick); } else { GridIsMonotone(HalfUp(t), Ceil(p), tick); }
    } else if side == SELL {
      if order.trigger > 0.0 { GridIsMonotone(0, HalfUp(t), tick); }
    } else if order.price > 0.0 {
      GridIsMonotone(0, Ceil(p), tick);
    }
  }

  /** A limit more than half a tick past its trigger stays strictly past it. */
  lemma StopStaysStrict(side: Side, order: Prices, tick: real)
    requires tick > 0.0 && order.price > 0.0 && order.trigger > 0.0
    requires 2.0 * Distance(order.price, order.trigger) > tick && PastTrigger(side, order)
    ensures Snap(true, side, order, tick).price != Snap(true, side, order, tick).trigger
  {
    RoundDownIsFloor(order.price, tick, 0);
    RoundUpIsCeiling(order.price, tick, 0);
    RoundNearestIsNearest(order.trigger, tick, 0);
  }

  /** Snapping can lose a positive sell stop limit to zero: exactly when it is below one tick. */
  lemma SellStopVanishesIff(order: Prices, tick: real)
    requires tick > 0.0 && order.price > 0.0
    ensures Snap(true, SELL, order, tick).price == 0.0 <==> order.price < tick
  {
    var n := (order.price / tick).Floor;
    RoundDownIsFloor(order.price, tick, 1);
    QuotientsKeepOrder(order.price, 0.0, tick);
    assert Grid(0, tick) == 0.0 && Grid(1, tick) == tick;
    if n > 0 { GridIsMonotone(1, n, tick); }
  }

  /** Whatever is snapped lands on the grid, within a tick of where it was. */
  lemma SnapLandsOnGrid(stopLimit: bool, side: Side, order: Prices, tick: real)
    requires tick > 0.0
    ensures order.price > 0.0 ==> OnGrid(Snap(stopLimit, side, order, tick).price, tick)
    ensures order.trigger > 0.0 ==> OnGrid(Snap(stopLimit, side, order, tick).trigger, tick)
    ensures Distance(Snap(stopLimit, side, order, tick).price, order.price) < tick
    ensures Distance(Snap(stopLimit, side, order, tick).trigger, order.trigger) < tick
  {
    RoundDownIsFloor(order.price, tick, 0);
    RoundUpIsCeiling(order.price, tick, 0);
    RoundNearestIsNearest(order.price, tick, 0);
    RoundNearestIsNearest(order.trigger, tick, 0);
    var p, t := order.price / tick, order.trigger / tick;
    assert RoundDown(order.price, tick) == Grid(p.Floor, tick);
    assert RoundUp(order.price, tick) == Grid(Ceil(p), tick);
    assert RoundNearest(order.price, tick) == Grid(HalfUp(p), tick);
    assert RoundNearest(order.trigger, tick) == Grid(HalfUp(t), tick);
  }

  /**
   * Which way a price goes: a stop's limit away from its trigger, everything else to the
   * nearest grid point; what stands for no price stays as it is.
   */
  lemma SnapDirection(stopLimit: bool, side: Side, order: Prices, tick: real)
    requires tick > 0.0
    ensures var s := Snap(stopLimit, side, order, tick);
      && (order.price <= 0.0 ==> s.price == order.price) && (order.trigger <= 0.0 ==> s.trigger == order.trigger)
      && 2.0 * Distance(s.trigger, order.trigger) <= tick
      && (!stopLimit ==> 2.0 * Distance(s.price, order.price) <= tick)
      && (stopLimit && side == SELL ==> order.price - tick < s.price <= order.price)
      && (stopLimit && side == BUY ==> order.price <= s.price < order.price + tick)
  {
    RoundDownIsFloor(order.price, tick, 0);
    RoundUpIsCeiling(order.price, tick, 0);
    RoundNearestIsNearest(order.price, tick, 0);
    RoundNearestIsNearest(order.trigger, tick, 0);
  }

  lemma GridIsKept(k: int, tick: real)
    requires tick > 0.0
    ensures RoundDown(Grid(k, tick), tick) == Grid(k, tick)
    ensures RoundUp(Grid(k, tick), tick) == Grid(k, tick)
    ensures RoundNearest(Grid(k, tick), tick) == Grid(k, tick)
  {
    assert Grid(k, tick) / tick == k as real;
  }

  /** Snapping twice is snapping once. */
  lemma SnapIsIdempotent(stopLimit: bool, side: Side, order: Prices, tick: real)
    requires tick > 0.0
    ensures Snap(stopLimit, side, Snap(stopLimit, side, order, tick), tick) == Snap(stopLimit, side, order, tick)
  {
    SnapLandsOnGrid(stopLimit, side, order, tick);
    var s := Snap(stopLimit, side, order, tick);
    if order.price > 0.0 {
      var k :| s.price == Grid(k, tick);
      GridIsKept(k, tick);
    }
    if order.trigger > 0.0 {
      var k :| s.trigger == Grid(k, tick);
      GridIsKept(k, tick);
    }
  }

  // ----- slippage -----------------------------------------------------------------------

  datatype Instrument = Instrument(fno: bool, tick: real)

  /** The tier table; the constructor refuses a default tier that is not in it. */
  datatype Config = Config(tiers: map<string, real>, defaultTier: string)

  function TierFor(config: Config, row: Option<Instrument>): (tier: string)
    requires config.defaultTier in config.tiers
    ensures tier in config.tiers
    ensures tier == config.defaultTier || (row.Some? && tier == if row.value.fno then "liquid" else "mid")
  {
    match row
    case None => config.defaultTier
    case Some(r) =>
      if r.fno then (if "liquid" in config.tiers then "liquid" else config.defaultTier)
      else (if "mid" in config.tiers then "mid" else config.defaultTier)
  }

  function Delta(price: real, bps: real): real {
    price * (bps / 10000.0)
  }

  /** SlippageEngine.apply, for a side already known to be BUY or SELL. */
  function Slip(config: Config, row: Option<Instrument>, side: Side, price: real): real
    requires config.defaultTier in config.tiers
  {
    if price <= 0.0 then price
    else Slipped(side, price, Delta(price, config.tiers[TierFor(config, row)]), if row.Some? then Some(row.value.tick) else None)
  }

  function Slipped(side: Side, price: real, delta: real, tick: Option<real>): real {
    var adjusted := if side == BUY then price + delta else price - delta;
    if tick.None? || tick.value <= 0.0 then adjusted
    else if Distance(delta, 0.0) < tick.value / 2.0 then adjusted
    else if side == BUY then RoundUp(adjusted, tick.value)
    else RoundDown(adjusted, tick.value)
  }

  /** How much worse than the input price a fill is, for its side. */
  function Cost(side: Side, price: real, fill: real): real {
    if side == BUY then fill - price else price - fill
  }

  lemma DeltaIsCost(price: real, bps: real)
    requires price > 0.0
    ensures bps >= 0.0 <==> Delta(price, bps) >= 0.0
  {
    if bps >= 0.0 { assert bps / 10000.0 >= 0.0; } else { assert bps / 10000.0 < 0.0; }
  }

  /** The tier's basis points of the price, and the tier by the kind of instrument, where the table has it. */
  lemma TierInWords(config: Config, row: Option<Instrument>, price: real)
    requires config.defaultTier in config.tiers
    ensures Delta(price, config.tiers[TierFor(config, row)]) * 10000.0 == price * config.tiers[TierFor(config, row)]
    ensures row.Some? && row.value.fno && "liquid" in config.tiers ==> TierFor(config, row) == "liquid"
    ensures row.Some? && !row.value.fno && "mid" in config.tiers ==> TierFor(config, row) == "mid"
    ensures row.None? || (row.value.fno && "liquid" !in config.tiers) || (!row.value.fno && "mid" !in config.tiers) ==>
      TierFor(config, row) == config.defaultTier
  {
    var bps := config.tiers[TierFor(config, row)];
    var share := bps / 10000.0;
    assert share * 10000.0 == bps;
    assert price * share * 10000.0 == price * bps;
  }

  /**
   * Slippage is never in the trader's favour and never runs away: a fill costs at least the
   * tier's delta and less than a tick more; without rounding it costs exactly the delta.
   */
  lemma FillIsAdverse(config: Config, row: Option<Instrument>, side: Side, price: real)
    requires config.defaultTier in config.tiers && price > 0.0 && config.tiers[TierFor(config, row)] >= 0.0
    ensures var delta := Delta(price, config.tiers[TierFor(config, row)]);
      var cost := Cost(side, price, Slip(config, row, side, price));
      && 0.0 <= delta <= cost
      && (row.None? || row.value.tick <= 0.0 ==> cost == delta)
      && (row.Some? && row.value.tick > 0.0 ==> cost < delta + row.value.tick)
  {
    DeltaIsCost(price, config.tiers[TierFor(config, row)]);
    var delta := Delta(price, config.tiers[TierFor(config, row)]);
    if row.Some? && row.value.tick > 0.0 {
      RoundUpIsCeiling(price + delta, row.value.tick, 0);
      RoundDownIsFloor(price - delta, row.value.tick, 0);
    }
  }

  /** Below half a tick the fill is left off the grid, so a fill costs less than three times its delta. */
  lemma GuardBoundsOvershoot(config: Config, row: Option<Instrument>, side: Side, price: real)
    requires config.defaultTier in config.tiers && price > 0.0 && config.tiers[TierFor(config, row)] > 0.0
    ensures var delta := Delta(price, config.tiers[TierFor(config, row)]);
      Cost(side, price, Slip(config, row, side, price)) < 3.0 * delta
  {
    FillIsAdverse(config, row, side, price);
    var bps := config.tiers[TierFor(config, row)];
    assert bps / 10000.0 > 0.0;
  }

  /** With a real tick, the fill is put on the grid exactly when the delta reaches half a tick, unless it falls there anyway. */
  lemma FillOnGridIff(config: Config, instrument: Instrument, side: Side, price: real)
    requires config.defaultTier in config.tiers && price > 0.0 && instrument.tick > 0.0
    requires config.tiers[TierFor(config, Some(instrument))] >= 0.0 && OnGrid(price, instrument.tick)
    ensures var delta := Delta(price, config.tiers[TierFor(config, Some(instrument))]);
      OnGrid(Slip(config, Some(instrument), side, price), instrument.tick)
      <==> delta == 0.0 || 2.0 * delta >= instrument.tick
  {
    var tick := instrument.tick;
    var delta := Delta(price, config.tiers[TierFor(config, Some(instrument))]);
    DeltaIsCost(price, config.tiers[TierFor(config, Some(instrument))]);
    var fill := Slip(config, Some(instrument), side, price);
    if 2.0 * delta >= tick {
      var adjusted := (if side == BUY then price + delta else price - delta) / tick;
      assert fill == Grid(if side == BUY then Ceil(adjusted) else adjusted.Floor, tick);
    } else if OnGrid(fill, tick) {
      var j :| price == Grid(j, tick);
      var k :| fill == Grid(k, tick);
      if j < k { GridIsMonotone(j, k, tick); } else if k < j { GridIsMonotone(k, j, tick); }
    }
  }
}
