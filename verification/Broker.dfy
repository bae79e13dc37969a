/**
 * The broker as the flatten sees it, and broker/position_helpers.py: signed net positions and
 * the side and quantity that close one.
 */
module Brokers {
  import opened Options
  import opened Sides

  /** One row of get_positions; products are stripped and upper-cased. */
  datatype PosRow = PosRow(symbol: string, product: string, qty: int)

  /** An exit order, with the product of the item it was placed for. */
  datatype Order = Order(symbol: string, side: Side, qty: nat, product: string)

  datatype Fill = Part(n: nat) | Whole

  /**
   * How the broker answers its k-th call: whether a read succeeds, whether an order or cancel
   * is accepted, and how much of it is done before the next read, accepted or not.
   */
  datatype Reply = Reply(readable: bool, accepted: bool, fill: Fill)

  /** broker_net_qty sums over every row of the symbol. */
  function Net(rows: seq<PosRow>, symbol: string): int {
    if rows == [] then 0 else (if rows[0].symbol == symbol then rows[0].qty else 0) + Net(rows[1..], symbol)
  }

  function Signed(side: Side, n: nat): int {
    var size: int := n;
    if side == BUY then size else -size
  }

  /** The rows after `n` shares of a side are done; an unknown symbol opens a new row. */
  function Traded(rows: seq<PosRow>, symbol: string, side: Side, n: nat): seq<PosRow> {
    if rows == [] then (if n == 0 then [] else [PosRow(symbol, "MIS", Signed(side, n))])
    else if rows[0].symbol == symbol then [rows[0].(qty := rows[0].qty + Signed(side, n))] + rows[1..]
    else [rows[0]] + Traded(rows[1..], symbol, side, n)
  }

  lemma {:induction false} TradedNet(rows: seq<PosRow>, symbol: string, side: Side, n: nat, s: string)
    ensures Net(Traded(rows, symbol, side, n), s) == Net(rows, s) + (if s == symbol then Signed(side, n) else 0)
  {
    if rows != [] && rows[0].symbol != symbol {
      TradedNet(rows[1..], symbol, side, n, s);
      assert Traded(rows, symbol, side, n)[1..] == Traded(rows[1..], symbol, side, n);
    } else if rows != [] {
      assert Traded(rows, symbol, side, n)[1..] == rows[1..];
    }
  }

  predicate Distinct(rows: seq<PosRow>) {
    forall i, j :: 0 <= i < j < |rows| ==> rows[i].symbol != rows[j].symbol
  }

  lemma {:induction false} AbsentNet(rows: seq<PosRow>, s: string)
    requires forall i :: 0 <= i < |rows| ==> rows[i].symbol != s
    ensures Net(rows, s) == 0
  {
    if rows != [] {
      AbsentNet(rows[1..], s);
    }
  }

  /** With one product per symbol, a row is the whole net of its symbol. */
  lemma {:induction false} RowIsNet(rows: seq<PosRow>, i: nat)
    requires Distinct(rows) && i < |rows|
    ensures Net(rows, rows[i].symbol) == rows[i].qty
  {
    if i == 0 {
      forall k | 0 <= k < |rows[1..]| ensures rows[1..][k].symbol != rows[0].symbol {
        assert rows[1..][k] == rows[k + 1];
      }
      AbsentNet(rows[1..], rows[0].symbol);
    } else {
      assert rows[i] == rows[1..][i - 1];
      RowIsNet(rows[1..], i - 1);
    }
  }

  /** Same symbols and products, row by row; only quantities may differ. */
  predicate SameShape(a: seq<PosRow>, b: seq<PosRow>) {
    |a| == |b| && forall i :: 0 <= i < |a| ==> a[i].symbol == b[i].symbol && a[i].product == b[i].product
  }

  predicate Lacks(rows: seq<PosRow>, symbol: string) {
    forall i :: 0 <= i < |rows| ==> rows[i].symbol != symbol
  }

  lemma DistinctCons(row: PosRow, rest: seq<PosRow>)
    ensures Distinct([row] + rest) <==> Distinct(rest) && Lacks(rest, row.symbol)
  {
    var rows := [row] + rest;
    assert forall i :: 0 <= i < |rest| ==> rest[i] == rows[i + 1];
    if Distinct(rows) {
      forall i, j | 0 <= i < j < |rest| ensures rest[i].symbol != rest[j].symbol {
        assert rest[i] == rows[i + 1] && rest[j] == rows[j + 1];
      }
      forall i | 0 <= i < |rest| ensures rest[i].symbol != row.symbol {
        assert rest[i] == rows[i + 1] && rows[0] == row;
      }
    }
  }

  /** An order brings in no symbol but its own. */
  lemma {:induction false} TradedLacks(rows: seq<PosRow>, symbol: string, side: Side, n: nat, other: string)
    requires other != symbol && Lacks(rows, other)
    ensures Lacks(Traded(rows, symbol, side, n), other)
  {
    if rows != [] && rows[0].symbol != symbol {
      TradedLacks(rows[1..], symbol, side, n, other);
    }
  }

  lemma {:induction false} TradedDistinct(rows: seq<PosRow>, symbol: string, side: Side, n: nat)
    requires Distinct(rows)
    ensures Distinct(Traded(rows, symbol, side, n))
  {
    if rows != [] {
      assert rows == [rows[0]] + rows[1..];
      DistinctCons(rows[0], rows[1..]);
      if rows[0].symbol == symbol {
        DistinctCons(Traded(rows, symbol, side, n)[0], rows[1..]);
      } else {
        TradedDistinct(rows[1..], symbol, side, n);
        TradedLacks(rows[1..], symbol, side, n, rows[0].symbol);
        DistinctCons(rows[0], Traded(rows[1..], symbol, side, n));
      }
    }
  }

  lemma {:induction false} TradedShape(rows: seq<PosRow>, symbol: string, side: Side, n: nat)
    requires n == 0 || Net(rows, symbol) != 0
    ensures SameShape(rows, Traded(rows, symbol, side, n))
  {
    if rows != [] && rows[0].symbol != symbol {
      TradedShape(rows[1..], symbol, side, n);
      ShapeCons(rows[0], rows[1..], Traded(rows[1..], symbol, side, n));
      assert rows == [rows[0]] + rows[1..];
    }
  }

  lemma ShapeCons(row: PosRow, a: seq<PosRow>, b: seq<PosRow>)
    requires SameShape(a, b)
    ensures SameShape([row] + a, [row] + b)
  {
  }

  /** `n` is between zero and `n0`: the sign never changes and the size never grows. */
  predicate Toward(n0: int, n: int) {
    if n0 >= 0 then 0 <= n <= n0 else n0 <= n <= 0
  }

  ghost predicate Converges(rows0: seq<PosRow>, rows: seq<PosRow>) {
    forall s :: Toward(Net(rows0, s), Net(rows, s))
  }

  lemma ConvergesFurther(a: seq<PosRow>, b: seq<PosRow>, c: seq<PosRow>)
    requires Converges(a, b) && Converges(b, c)
    ensures Converges(a, c)
  {
    forall s ensures Toward(Net(a, s), Net(c, s)) {
      assert Toward(Net(a, s), Net(b, s)) && Toward(Net(b, s), Net(c, s));
    }
  }

  function Min(a: nat, b: nat): nat {
    if a < b then a else b
  }

  function Done(fill: Fill, qty: nat): nat {
    match fill
    case Part(n) => Min(n, qty)
    case Whole => qty
  }

  function Abs(n: int): nat {
    if n < 0 then -n else n
  }

  function ClosingSide(net: int): Side {
    if net > 0 then SELL else BUY
  }

  /** determine_close_direction: reverse-aware, nothing to do when flat, the fallback when the net is unknown. */
  function DetermineCloseDirection(net: Option<int>, fallbackSide: Side, fallbackQty: int): (r: (Option<Side>, nat))
    ensures net.Some? ==> (r.0.None? <==> net.value == 0)
    ensures net.Some? && r.0.Some? ==> net.value + Signed(r.0.value, r.1) == 0
  {
    match net
    case None => (Some(fallbackSide), if fallbackQty < 0 then 0 else fallbackQty)
    case Some(n) => if n > 0 then (Some(SELL), n) else if n < 0 then (Some(BUY), -n) else (None, 0)
  }

  /** An order for the whole net, however much of it is done, only moves that net towards zero. */
  lemma ClosingConverges(rows: seq<PosRow>, symbol: string, n: nat)
    requires n <= Abs(Net(rows, symbol))
    ensures Converges(rows, Traded(rows, symbol, ClosingSide(Net(rows, symbol)), n))
    ensures n == Abs(Net(rows, symbol)) ==> Net(Traded(rows, symbol, ClosingSide(Net(rows, symbol)), n), symbol) == 0
    ensures SameShape(rows, Traded(rows, symbol, ClosingSide(Net(rows, symbol)), n))
  {
    var side := ClosingSide(Net(rows, symbol));
    TradedShape(rows, symbol, side, n);
    forall s ensures Toward(Net(rows, s), Net(Traded(rows, symbol, side, n), s)) {
      TradedNet(rows, symbol, side, n, s);
    }
    TradedNet(rows, symbol, side, n, symbol);
  }

  /** Without the read: an exit of this side and size stays on its side of zero, however much of it is done. */
  predicate BlindSafe(net: int, side: Side, qty: int) {
    qty <= 0 || (side == ClosingSide(net) && qty <= Abs(net))
  }

  lemma OvershootCrosses(rows: seq<PosRow>, symbol: string, side: Side, qty: nat)
    requires !BlindSafe(Net(rows, symbol), side, qty)
    ensures !Converges(rows, Traded(rows, symbol, side, qty))
  {
    TradedNet(rows, symbol, side, qty, symbol);
    assert !Toward(Net(rows, symbol), Net(Traded(rows, symbol, side, qty), symbol));
  }

  /** When is a blind exit safe? Exactly when it closes in the right direction and no more than there is. */
  lemma BlindExitSafeIff(rows: seq<PosRow>, symbol: string, side: Side, qty: nat)
    ensures (forall n: nat :: n <= qty ==> Converges(rows, Traded(rows, symbol, side, n))) <==> BlindSafe(Net(rows, symbol), side, qty)
  {
    if BlindSafe(Net(rows, symbol), side, qty) {
      forall n: nat | n <= qty ensures Converges(rows, Traded(rows, symbol, side, n)) {
        if qty == 0 {
          ClosingConverges(rows, symbol, 0);
          NothingTraded(rows, symbol, side);
          NothingTraded(rows, symbol, ClosingSide(Net(rows, symbol)));
        } else {
          ClosingConverges(rows, symbol, n);
        }
      }
    } else {
      OvershootCrosses(rows, symbol, side, qty);
    }
  }

  lemma {:induction false} NothingTraded(rows: seq<PosRow>, symbol: string, side: Side)
    ensures Traded(rows, symbol, side, 0) == rows
  {
    if rows != [] && rows[0].symbol != symbol {
      NothingTraded(rows[1..], symbol, side);
    }
  }

  /** So the fallback can cross zero: a long of 1 already closed by somebody else becomes a short. */
  lemma BlindFallbackCrossesZero()
    ensures var close := DetermineCloseDirection(None, SELL, 1);
            var rows := [PosRow("THELEELA", "MIS", 0)];
            close == (Some(SELL), 1) && Net(Traded(rows, "THELEELA", SELL, 1), "THELEELA") == -1
            && !Converges(rows, Traded(rows, "THELEELA", SELL, 1))
  {
    var rows := [PosRow("THELEELA", "MIS", 0)];
    TradedNet(rows, "THELEELA", SELL, 1, "THELEELA");
    assert rows[1..] == [] && Net(rows, "THELEELA") == 0;
  }

  class Broker {
    const script: nat -> Reply
    var calls: nat
    var rows: seq<PosRow>
    var orders: seq<Order>
    var cancels: seq<string>

    constructor (script: nat -> Reply, rows: seq<PosRow>)
      ensures this.script == script && this.rows == rows && calls == 0 && orders == [] && cancels == []
    {
      this.script, this.rows, calls, orders, cancels := script, rows, 0, [], [];
    }

    method GetPositions() returns (r: Option<seq<PosRow>>)
      modifies `calls
      ensures calls == old(calls) + 1
      ensures r == if script(old(calls)).readable then Some(rows) else None
    {
      r := if script(calls).readable then Some(rows) else None;
      calls := calls + 1;
    }

    /** The fill happens whether or not the call comes back with an order id. */
    method PlaceOrder(symbol: string, side: Side, qty: nat, product: string) returns (ok: bool)
      modifies `calls, `rows, `orders
      ensures calls == old(calls) + 1 && ok == script(old(calls)).accepted
      ensures orders == old(orders) + [Order(symbol, side, qty, product)]
      ensures rows == Traded(old(rows), symbol, side, Done(script(old(calls)).fill, qty))
    {
      ok := script(calls).accepted;
      orders := orders + [Order(symbol, side, qty, product)];
      rows := Traded(rows, symbol, side, Done(script(calls).fill, qty));
      calls := calls + 1;
    }

    /** cancel_co_bracket: the broker collapses the bracket and closes the position itself. */
    method CancelCoBracket(orderId: string, symbol: string) returns (ok: bool)
      modifies `calls, `rows, `cancels
      ensures calls == old(calls) + 1 && ok == script(old(calls)).accepted
      ensures cancels == old(cancels) + [orderId]
      ensures var net := Net(old(rows), symbol);
              rows == Traded(old(rows), symbol, ClosingSide(net), Done(script(old(calls)).fill, Abs(net)))
    {
      ok := script(calls).accepted;
      cancels := cancels + [orderId];
      var net := Net(rows, symbol);
      rows := Traded(rows, symbol, ClosingSide(net), Done(script(calls).fill, Abs(net)));
      calls := calls + 1;
    }
  }

  /** The loop of broker_net_qty. */
  method BrokerNetQty(broker: Broker, symbol: string) returns (net: Option<int>)
    modifies broker`calls
    ensures broker.calls == old(broker.calls) + 1
    ensures net == if broker.script(old(broker.calls)).readable then Some(Net(broker.rows, symbol)) else None
  {
    var positions := broker.GetPositions();
    if positions.None? { return None; }
    var rows := positions.value;
    var sum, i := 0, 0;
    while i < |rows|
      invariant 0 <= i <= |rows| && sum + Net(rows[i..], symbol) == Net(rows, symbol)
    {
      assert rows[i..][1..] == rows[i + 1..];
      if rows[i].symbol == symbol {
        sum := sum + rows[i].qty;
      }
      i := i + 1;
    }
    return Some(sum);
  }
}
