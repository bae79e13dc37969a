/**
 * _exit_all_trades_indestructible: the hard-kill flatten. A pass over the local trades, a
 * sweep over the broker's positions, and retries until a deadline.
 */
module Flattens {
  import opened Options
  import opened Brokers
  import opened Sides

  /** A row of the open-trades query, with its entry order looked up. */
  datatype LiveTrade = LiveTrade(
    id: string, symbol: string, qtyFilled: int, long: bool, product: string, entryOrder: string, variety: string)

  /** What could not be closed yet; `coOrder` is set when closing means cancelling a bracket. */
  datatype Pending = Pending(id: string, symbol: string, side: Side, qty: nat, product: string, coOrder: Option<string>)

  datatype Report = Report(attempted: int, succeeded: int, failed: seq<string>)

  /** Delivery is spared, and a cover order is only ever cancelled. */
  predicate Reversible(product: string) {
    product != "CNC" && product != "CO"
  }

  predicate Routed(orders: seq<Order>) {
    forall i :: 0 <= i < |orders| ==> Reversible(orders[i].product)
  }

  /** The bracket that closes a cover-order trade. */
  predicate BracketOf(t: LiveTrade, order: string) {
    t.product == "CO" && t.variety == "co" && t.entryOrder == order && order != ""
  }

  predicate CancelsRouted(cancels: seq<string>, trades: seq<LiveTrade>) {
    forall i :: 0 <= i < |cancels| ==> exists t :: t in trades && BracketOf(t, cancels[i])
  }

  predicate PendingRouted(p: Pending, trades: seq<LiveTrade>) {
    if p.coOrder.None? then Reversible(p.product) else exists t :: t in trades && BracketOf(t, p.coOrder.value)
  }

  predicate AllRouted(ps: seq<Pending>, trades: seq<LiveTrade>) {
    forall i :: 0 <= i < |ps| ==> PendingRouted(ps[i], trades)
  }

  ghost predicate Readable(script: nat -> Reply) {
    forall k :: script(k).readable
  }

  /** Every read works, and every order and cancel is accepted and done in full. */
  ghost predicate Ideal(script: nat -> Reply) {
    forall k :: script(k) == Reply(true, true, Whole)
  }

  datatype CloseResult = Flat | Placed | Failed(side: Side, qty: nat)

  /** What an order does, however much of it is done. */
  lemma OrderMoves(rows: seq<PosRow>, symbol: string, side: Side, n: nat)
    ensures n == 0 || Net(rows, symbol) != 0 ==> SameShape(rows, Traded(rows, symbol, side, n))
    ensures Distinct(rows) ==> Distinct(Traded(rows, symbol, side, n))
    ensures forall s :: Net(Traded(rows, symbol, side, n), s) == Net(rows, s) + if s == symbol then Signed(side, n) else 0
  {
    if n == 0 || Net(rows, symbol) != 0 { TradedShape(rows, symbol, side, n); }
    if Distinct(rows) { TradedDistinct(rows, symbol, side, n); }
    forall s ensures Net(Traded(rows, symbol, side, n), s) == Net(rows, s) + if s == symbol then Signed(side, n) else 0 {
      TradedNet(rows, symbol, side, n, s);
    }
  }

  lemma BlindClose(rows: seq<PosRow>, symbol: string, side: Side, qty: nat, fill: Fill)
    ensures BlindSafe(Net(rows, symbol), side, qty) ==> Converges(rows, Traded(rows, symbol, side, Done(fill, qty)))
    ensures fill == Whole && Converges(rows, Traded(rows, symbol, side, Done(fill, qty))) ==> BlindSafe(Net(rows, symbol), side, qty)
  {
    if BlindSafe(Net(rows, symbol), side, qty) {
      BlindExitSafeIff(rows, symbol, side, qty);
    } else {
      OvershootCrosses(rows, symbol, side, qty);
    }
  }

  // --- turns: what is done about one item, and how it comes out ---

  /** How many calls the broker has answered, and its positions. */
  datatype Moment = Moment(calls: nat, rows: seq<PosRow>)

  datatype Answer = FoundFlat | Accepted | Refused(again: Pending)

  datatype Turn = Turn(item: Pending, before: Moment, answer: Answer, after: Moment)

  type Script = nat -> Reply

  /** The order that closes what is seen: the net when it can be read, the fallback when it cannot. */
  function Closing(script: Script, m: Moment, symbol: string, fallbackSide: Side, fallbackQty: int): (Side, nat) {
    if script(m.calls).readable then (ClosingSide(Net(m.rows, symbol)), Brokers.Abs(Net(m.rows, symbol)))
    else (fallbackSide, if fallbackQty < 0 then 0 else fallbackQty)
  }

  /** After an order is answered, some of it done. */
  function Ordered(script: Script, m: Moment, symbol: string, side: Side, qty: nat): Moment {
    Moment(m.calls + 1, Traded(m.rows, symbol, side, Done(script(m.calls).fill, qty)))
  }

  /** An order for nothing is not placed; any other is refused exactly when its call was not accepted. */
  ghost predicate ExitTurn(script: Script, t: Turn) {
    var (side, qty) := Closing(script, t.before, t.item.symbol, t.item.side, t.item.qty);
    var looked := t.before.(calls := t.before.calls + 1);
    if qty == 0 then t.answer == FoundFlat && t.after == looked
    else
      && t.after == Ordered(script, looked, t.item.symbol, side, qty)
      && t.answer == if script(looked.calls).accepted then Accepted else Refused(t.item.(side := side, qty := qty))
  }

  /** A cancel is refused exactly when its call was not accepted; the broker closes the position itself. */
  ghost predicate CancelTurn(script: Script, t: Turn) {
    var net := Net(t.before.rows, t.item.symbol);
    && t.after == Ordered(script, t.before, t.item.symbol, ClosingSide(net), Brokers.Abs(net))
    && t.answer == if script(t.before.calls).accepted then Accepted else Refused(t.item)
  }

  /** The sweep orders what its snapshot showed. */
  ghost predicate SweepTurn(script: Script, t: Turn) {
    && t.after == Ordered(script, t.before, t.item.symbol, t.item.side, t.item.qty)
    && t.answer == if script(t.before.calls).accepted then Accepted else Refused(t.item)
  }

  ghost predicate ItemTurn(script: Script, t: Turn) {
    if t.item.coOrder.Some? then CancelTurn(script, t) else ExitTurn(script, t)
  }

  ghost predicate ItemTurns(script: Script, turns: seq<Turn>) {
    forall i :: 0 <= i < |turns| ==> ItemTurn(script, turns[i])
  }

  ghost predicate SweepTurns(script: Script, turns: seq<Turn>) {
    forall i :: 0 <= i < |turns| ==> SweepTurn(script, turns[i])
  }

  /** One turn begins where the one before it ended. */
  ghost predicate Follow(from: Moment, turns: seq<Turn>, to: Moment)
    decreases |turns|
  {
    if turns == [] then from == to
    else turns[|turns| - 1].after == to && Follow(from, turns[..|turns| - 1], turns[|turns| - 1].before)
  }

  function Items(turns: seq<Turn>): seq<Pending> {
    seq(|turns|, i requires 0 <= i < |turns| => turns[i].item)
  }

  /** What was refused, in order, as it will be tried again. */
  function Refusals(turns: seq<Turn>): seq<Pending> {
    if turns == [] then []
    else
      var earlier, last := Refusals(turns[..|turns| - 1]), turns[|turns| - 1].answer;
      if last.Refused? then earlier + [last.again] else earlier
  }

  lemma OneMoreTurn(from: Moment, turns: seq<Turn>, t: Turn)
    requires Follow(from, turns, t.before)
    ensures Follow(from, turns + [t], t.after)
    ensures Items(turns + [t]) == Items(turns) + [t.item]
    ensures Refusals(turns + [t]) == Refusals(turns) + if t.answer.Refused? then [t.answer.again] else []
  {
    assert (turns + [t])[..|turns|] == turns;
    assert Refusals(turns) + [] == Refusals(turns);
  }

  ghost predicate Touched(turns: seq<Turn>, s: string) {
    exists i :: 0 <= i < |turns| && turns[i].item.symbol == s
  }

  /** What one turn does to the positions. */
  ghost predicate Settles(script: Script, t: Turn) {
    && (Distinct(t.before.rows) ==> Distinct(t.after.rows))
    && (Readable(script) ==> Converges(t.before.rows, t.after.rows) && SameShape(t.before.rows, t.after.rows))
    && (Ideal(script) ==> !t.answer.Refused?)
    && (Ideal(script) ==> forall s :: Net(t.after.rows, s) == if s == t.item.symbol then 0 else Net(t.before.rows, s))
  }

  lemma CancelSettles(script: Script, t: Turn)
    requires CancelTurn(script, t)
    ensures Settles(script, t)
  {
    ClosingMoves(t.before.rows, t.item.symbol,
                 Done(script(t.before.calls).fill, Brokers.Abs(Net(t.before.rows, t.item.symbol))));
  }

  lemma ExitSettles(script: Script, t: Turn)
    requires ExitTurn(script, t)
    ensures Settles(script, t)
  {
    var (side, qty) := Closing(script, t.before, t.item.symbol, t.item.side, t.item.qty);
    var n := Done(script(t.before.calls + 1).fill, qty);
    OrderMoves(t.before.rows, t.item.symbol, side, n);
    if qty == 0 { NothingTraded(t.before.rows, t.item.symbol, side); }
    if script(t.before.calls).readable { ClosingMoves(t.before.rows, t.item.symbol, n); }
  }

  lemma TurnEffect(script: Script, t: Turn)
    requires ItemTurn(script, t)
    ensures Settles(script, t)
  {
    if t.item.coOrder.Some? { CancelSettles(script, t); } else { ExitSettles(script, t); }
  }

  lemma ClosingMoves(rows: seq<PosRow>, symbol: string, n: nat)
    requires n <= Brokers.Abs(Net(rows, symbol))
    ensures var after := Traded(rows, symbol, ClosingSide(Net(rows, symbol)), n);
      && Converges(rows, after) && SameShape(rows, after) && (Distinct(rows) ==> Distinct(after))
      && (n == Brokers.Abs(Net(rows, symbol)) ==> forall s :: Net(after, s) == if s == symbol then 0 else Net(rows, s))
  {
    ClosingConverges(rows, symbol, n);
    OrderMoves(rows, symbol, ClosingSide(Net(rows, symbol)), n);
  }

  /** What any number of turns does. */
  lemma {:induction false} TurnsEffect(script: Script, from: Moment, turns: seq<Turn>, to: Moment)
    requires ItemTurns(script, turns) && Follow(from, turns, to)
    ensures Distinct(from.rows) ==> Distinct(to.rows)
    ensures Readable(script) ==> Converges(from.rows, to.rows) && SameShape(from.rows, to.rows)
    ensures Ideal(script) ==> Refusals(turns) == []
    ensures Ideal(script) ==> forall s :: Net(to.rows, s) == if Touched(turns, s) then 0 else Net(from.rows, s)
    decreases |turns|
  {
    if turns != [] {
      var n := |turns| - 1;
      TurnsEffect(script, from, turns[..n], turns[n].before);
      TurnEffect(script, turns[n]);
      if Readable(script) { ConvergesFurther(from.rows, turns[n].before.rows, to.rows); }
      forall s ensures Touched(turns, s) <==> Touched(turns[..n], s) || turns[n].item.symbol == s {
        TouchedByOneMore(turns, s);
      }
    }
  }

  lemma TouchedByOneMore(turns: seq<Turn>, s: string)
    requires turns != []
    ensures Touched(turns, s) <==> Touched(turns[..|turns| - 1], s) || turns[|turns| - 1].item.symbol == s
  {
    var n := |turns| - 1;
    if Touched(turns[..n], s) {
      var i :| 0 <= i < n && turns[..n][i].item.symbol == s;
      assert turns[i].item.symbol == s;
    }
    if Touched(turns, s) && turns[n].item.symbol != s {
      var i :| 0 <= i < |turns| && turns[i].item.symbol == s;
      assert turns[..n][i].item.symbol == s;
    }
  }

  /** What the order for what is seen leaves, at worst and at best. */
  lemma ExitEffect(script: Script, m: Moment, symbol: string, fallbackSide: Side, fallbackQty: int)
    ensures var (side, qty) := Closing(script, m, symbol, fallbackSide, fallbackQty);
            var fill := script(m.calls + 1).fill;
            var after := Traded(m.rows, symbol, side, Done(fill, qty));
      && (qty == 0 ==> after == m.rows)
      && (Distinct(m.rows) ==> Distinct(after))
      && (script(m.calls).readable ==> Converges(m.rows, after) && SameShape(m.rows, after))
      && (!script(m.calls).readable && fallbackQty > 0 ==>
            && (BlindSafe(Net(m.rows, symbol), fallbackSide, fallbackQty) ==> Converges(m.rows, after))
            && (fill == Whole && Converges(m.rows, after) ==> BlindSafe(Net(m.rows, symbol), fallbackSide, fallbackQty)))
  {
    var (side, qty) := Closing(script, m, symbol, fallbackSide, fallbackQty);
    var n := Done(script(m.calls + 1).fill, qty);
    OrderMoves(m.rows, symbol, side, n);
    if qty == 0 { NothingTraded(m.rows, symbol, side); }
    if script(m.calls).readable {
      ClosingMoves(m.rows, symbol, n);
    } else {
      BlindClose(m.rows, symbol, fallbackSide, qty, script(m.calls + 1).fill);
    }
  }

  /**
   * One reverse-aware exit: read, decide, place. It fails exactly when an order was placed and
   * its call was not accepted. With readable positions it never crosses zero; without the read
   * it trades the fallback blindly, and crosses zero unless that is safe.
   */
  method CloseOne(broker: Broker, symbol: string, fallbackSide: Side, fallbackQty: int, product: string)
    returns (r: CloseResult)
    requires Reversible(product) && Routed(broker.orders)
    modifies broker`calls, broker`rows, broker`orders
    ensures Routed(broker.orders)
    ensures var m := Moment(old(broker.calls), old(broker.rows));
            var (side, qty) := Closing(broker.script, m, symbol, fallbackSide, fallbackQty);
            if qty == 0
            then r == Flat && broker.orders == old(broker.orders) && broker.rows == m.rows && broker.calls == m.calls + 1
            else
              && broker.orders == old(broker.orders) + [Order(symbol, side, qty, product)]
              && Moment(broker.calls, broker.rows) == Ordered(broker.script, m.(calls := m.calls + 1), symbol, side, qty)
              && r == if broker.script(m.calls + 1).accepted then Placed else Failed(side, qty)
    ensures broker.script(old(broker.calls)).readable ==> Converges(old(broker.rows), broker.rows)
    ensures !broker.script(old(broker.calls)).readable && fallbackQty > 0 ==>
      && (BlindSafe(Net(old(broker.rows), symbol), fallbackSide, fallbackQty) ==> Converges(old(broker.rows), broker.rows))
      && (broker.script(old(broker.calls) + 1).fill == Whole && Converges(old(broker.rows), broker.rows) ==>
            BlindSafe(Net(old(broker.rows), symbol), fallbackSide, fallbackQty))
  {
    ExitEffect(broker.script, Moment(broker.calls, broker.rows), symbol, fallbackSide, fallbackQty);
    var net := BrokerNetQty(broker, symbol);
    var (side, qty) := DetermineCloseDirection(net, fallbackSide, fallbackQty);
    if side.None? || qty <= 0 {
      return Flat;
    }
    var ok := broker.PlaceOrder(symbol, side.value, qty, product);
    return if ok then Placed else Failed(side.value, qty);
  }

  /** One turn at an item: a bracket is only ever cancelled, anything else is closed by an order. */
  method TakeTurn(broker: Broker, p: Pending, ghost trades: seq<LiveTrade>) returns (again: Option<Pending>, ghost turn: Turn)
    requires Routed(broker.orders) && CancelsRouted(broker.cancels, trades) && PendingRouted(p, trades)
    modifies broker`calls, broker`rows, broker`orders, broker`cancels
    ensures Routed(broker.orders) && CancelsRouted(broker.cancels, trades)
    ensures turn.item == p && turn.before == Moment(old(broker.calls), old(broker.rows))
    ensures turn.after == Moment(broker.calls, broker.rows) && ItemTurn(broker.script, turn)
    ensures again == if turn.answer.Refused? then Some(turn.answer.again) else None
    ensures again.Some? ==> PendingRouted(again.value, trades)
  {
    ghost var before := Moment(broker.calls, broker.rows);
    if p.coOrder.Some? {
      ghost var t :| t in trades && BracketOf(t, p.coOrder.value);
      CancelRouted(broker.cancels, trades, t);
      var ok := broker.CancelCoBracket(p.coOrder.value, p.symbol);
      again := if ok then None else Some(p);
      turn := Turn(p, before, if ok then Accepted else Refused(p), Moment(broker.calls, broker.rows));
    } else {
      var r := CloseOne(broker, p.symbol, p.side, p.qty, p.product);
      again := if r.Failed? then Some(p.(side := r.side, qty := r.qty)) else None;
      turn := Turn(p, before, if r == Flat then FoundFlat else if r == Placed then Accepted else Refused(again.value),
                   Moment(broker.calls, broker.rows));
    }
  }

  // --- which symbols a pass deals with ---

  /** The local pass places an exit for this trade. */
  predicate Exits(t: LiveTrade) {
    t.qtyFilled != 0 && Reversible(t.product)
  }

  /** The local pass cancels this trade's bracket. */
  predicate Collapses(t: LiveTrade) {
    t.qtyFilled != 0 && BracketOf(t, t.entryOrder)
  }

  /** The local pass takes this trade's symbol away from the sweep. */
  predicate Handles(t: LiveTrade) {
    t.qtyFilled == 0 || Reversible(t.product)
  }

  predicate Closed(trades: seq<LiveTrade>, s: string) {
    exists i :: 0 <= i < |trades| && trades[i].symbol == s && (Exits(trades[i]) || Collapses(trades[i]))
  }

  function HandledBy(trades: seq<LiveTrade>): set<string> {
    set i | 0 <= i < |trades| && Handles(trades[i]) :: trades[i].symbol
  }

  /** What an ideal local pass leaves of a symbol. */
  function AfterPass(rows: seq<PosRow>, trades: seq<LiveTrade>, s: string): int {
    if Closed(trades, s) then 0 else Net(rows, s)
  }

  /** What the local pass does about a trade: close it by an order, cancel its bracket, or nothing. */
  function ItemOf(t: LiveTrade): Option<Pending> {
    var side := if t.long then SELL else BUY;
    if Exits(t) then Some(Pending(t.id, t.symbol, side, Brokers.Abs(t.qtyFilled), t.product, None))
    else if Collapses(t) then Some(Pending(t.id, t.symbol, side, Brokers.Abs(t.qtyFilled), t.product, Some(t.entryOrder)))
    else None
  }

  /**
   * The order that a trade's turn falls back to, when its position cannot be read, is safe if
   * and only if at least the filled quantity is still held in the trade's direction.
   */
  lemma FallbackFitsTrade(t: LiveTrade, net: int)
    requires ItemOf(t).Some?
    ensures BlindSafe(net, ItemOf(t).value.side, ItemOf(t).value.qty) <==>
            if t.long then net >= Brokers.Abs(t.qtyFilled) else net + Brokers.Abs(t.qtyFilled) <= 0
  {
  }

  function ItemsOf(trades: seq<LiveTrade>): seq<Pending> {
    if trades == [] then []
    else
      var earlier, item := ItemsOf(trades[..|trades| - 1]), ItemOf(trades[|trades| - 1]);
      if item.Some? then earlier + [item.value] else earlier
  }

  /** A cover order without a bracket to cancel. */
  predicate Unclosable(t: LiveTrade) {
    t.qtyFilled != 0 && t.product == "CO" && !BracketOf(t, t.entryOrder)
  }

  function UnclosableOf(trades: seq<LiveTrade>): seq<string> {
    if trades == [] then []
    else
      var earlier, last := UnclosableOf(trades[..|trades| - 1]), trades[|trades| - 1];
      if Unclosable(last) then earlier + [last.id] else earlier
  }

  /** Delivery positions are spared, and not counted as attempted. */
  predicate Spared(t: LiveTrade) {
    t.qtyFilled != 0 && t.product == "CNC"
  }

  function SparedCount(trades: seq<LiveTrade>): nat {
    if trades == [] then 0
    else SparedCount(trades[..|trades| - 1]) + if Spared(trades[|trades| - 1]) then 1 else 0
  }

  lemma PassStep(trades: seq<LiveTrade>, i: nat)
    requires i < |trades|
    ensures ItemsOf(trades[..i + 1]) == ItemsOf(trades[..i]) + if ItemOf(trades[i]).Some? then [ItemOf(trades[i]).value] else []
    ensures UnclosableOf(trades[..i + 1]) == UnclosableOf(trades[..i]) + if Unclosable(trades[i]) then [trades[i].id] else []
    ensures SparedCount(trades[..i + 1]) == SparedCount(trades[..i]) + if Spared(trades[i]) then 1 else 0
  {
    assert trades[..i + 1][..i] == trades[..i];
    assert ItemsOf(trades[..i]) + [] == ItemsOf(trades[..i]) && UnclosableOf(trades[..i]) + [] == UnclosableOf(trades[..i]);
  }

  /** The four branches of the pass, and what each trade counts for. */
  lemma {:induction false} PassCounts(trades: seq<LiveTrade>)
    ensures |ItemsOf(trades)| + |UnclosableOf(trades)| + SparedCount(trades) <= |trades|
    ensures forall s :: (exists i :: 0 <= i < |ItemsOf(trades)| && ItemsOf(trades)[i].symbol == s) <==> Closed(trades, s)
  {
    if trades == [] {
    } else {
      var n := |trades| - 1;
      PassCounts(trades[..n]);
      assert trades[..n + 1] == trades;
      PassStep(trades, n);
      forall s ensures (exists i :: 0 <= i < |ItemsOf(trades)| && ItemsOf(trades)[i].symbol == s) <==> Closed(trades, s) {
        ClosedStep(trades, n, s);
        ItemStep(trades, n, s);
      }
    }
  }

  ghost predicate HasSymbol(ps: seq<Pending>, s: string) {
    exists i :: 0 <= i < |ps| && ps[i].symbol == s
  }

  lemma ItemStep(trades: seq<LiveTrade>, n: nat, s: string)
    requires n < |trades|
    ensures HasSymbol(ItemsOf(trades[..n + 1]), s)
        <==> HasSymbol(ItemsOf(trades[..n]), s) || (ItemOf(trades[n]).Some? && trades[n].symbol == s)
  {
    PassStep(trades, n);
    var longer, shorter := ItemsOf(trades[..n + 1]), ItemsOf(trades[..n]);
    if HasSymbol(shorter, s) {
      var i :| 0 <= i < |shorter| && shorter[i].symbol == s;
      assert longer[i].symbol == s;
    }
    if ItemOf(trades[n]).Some? && trades[n].symbol == s { assert longer[|shorter|].symbol == s; }
  }

  /**
   * The local pass takes one turn at every trade that it exits or collapses, in order; what
   * comes back as failed is exactly what was refused, and cover orders without a bracket come
   * back apart.
   */
  method LocalPass(broker: Broker, trades: seq<LiveTrade>)
    returns (attempted: int, failed: seq<Pending>, refused: seq<string>, handled: set<string>, ghost turns: seq<Turn>)
    requires Routed(broker.orders) && CancelsRouted(broker.cancels, trades)
    modifies broker`calls, broker`rows, broker`orders, broker`cancels
    ensures Routed(broker.orders) && CancelsRouted(broker.cancels, trades) && AllRouted(failed, trades)
    ensures Items(turns) == ItemsOf(trades) && ItemTurns(broker.script, turns)
    ensures Follow(Moment(old(broker.calls), old(broker.rows)), turns, Moment(broker.calls, broker.rows))
    ensures failed == Refusals(turns) && refused == UnclosableOf(trades)
    ensures attempted == |trades| - SparedCount(trades) && |failed| + |refused| <= attempted
    ensures handled == HandledBy(trades)
    ensures Distinct(old(broker.rows)) ==> Distinct(broker.rows)
    ensures Readable(broker.script) ==> Converges(old(broker.rows), broker.rows) && SameShape(old(broker.rows), broker.rows)
    ensures Ideal(broker.script) ==>
      failed == [] && forall s :: Net(broker.rows, s) == AfterPass(old(broker.rows), trades, s)
  {
    attempted, failed, refused, handled := |trades|, [], [], {};
    ghost var start := Moment(broker.calls, broker.rows);
    turns := [];
    var i := 0;
    assert trades[..0] == [];
    while i < |trades|
      invariant 0 <= i <= |trades|
      invariant Routed(broker.orders) && CancelsRouted(broker.cancels, trades) && AllRouted(failed, trades)
      invariant Items(turns) == ItemsOf(trades[..i]) && ItemTurns(broker.script, turns)
      invariant Follow(start, turns, Moment(broker.calls, broker.rows))
      invariant failed == Refusals(turns) && refused == UnclosableOf(trades[..i])
      invariant attempted == |trades| - SparedCount(trades[..i])
      invariant handled == HandledBy(trades[..i])
    {
      var t := trades[i];
      HandledStep(trades, i);
      PassStep(trades, i);
      if t.qtyFilled == 0 {
        handled := handled + {t.symbol};
      } else if t.product == "CNC" {
        attempted := attempted - 1;
      } else if t.product == "CO" && (t.variety != "co" || t.entryOrder == "") {
        refused := refused + [t.id];
      } else {
        if t.product != "CO" {
          handled := handled + {t.symbol};
        }
        var p := Pending(t.id, t.symbol, if t.long then SELL else BUY, Brokers.Abs(t.qtyFilled), t.product,
                         if t.product == "CO" then Some(t.entryOrder) else None);
        assert ItemOf(t) == Some(p) && PendingRouted(p, trades);
        var again;
        ghost var turn;
        again, turn := TakeTurn(broker, p, trades);
        OneMoreTurn(start, turns, turn);
        turns := turns + [turn];
        if again.Some? {
          failed := failed + [again.value];
        }
      }
      i := i + 1;
    }
    assert trades[..|trades|] == trades;
    PassDone(broker.script, start, turns, Moment(broker.calls, broker.rows), trades);
  }

  lemma PassDone(script: Script, from: Moment, turns: seq<Turn>, to: Moment, trades: seq<LiveTrade>)
    requires ItemTurns(script, turns) && Follow(from, turns, to) && Items(turns) == ItemsOf(trades)
    ensures |Refusals(turns)| + |UnclosableOf(trades)| <= |trades| - SparedCount(trades)
    ensures Distinct(from.rows) ==> Distinct(to.rows)
    ensures Readable(script) ==> Converges(from.rows, to.rows) && SameShape(from.rows, to.rows)
    ensures Ideal(script) ==> Refusals(turns) == [] && forall s :: Net(to.rows, s) == AfterPass(from.rows, trades, s)
  {
    TurnsEffect(script, from, turns, to);
    PassCounts(trades);
    RefusedAreItems(turns);
    forall s ensures Touched(turns, s) <==> Closed(trades, s) {
      assert Touched(turns, s) <==> HasSymbol(Items(turns), s) by {
        if Touched(turns, s) {
          var i :| 0 <= i < |turns| && turns[i].item.symbol == s;
          assert Items(turns)[i].symbol == s;
        }
      }
      assert HasSymbol(ItemsOf(trades), s) <==> Closed(trades, s);
    }
  }

  lemma {:induction false} RefusedAreItems(turns: seq<Turn>)
    ensures |Refusals(turns)| <= |Items(turns)|
  {
    if turns != [] {
      RefusedAreItems(turns[..|turns| - 1]);
    }
  }

  lemma CancelRouted(cancels: seq<string>, trades: seq<LiveTrade>, t: LiveTrade)
    requires CancelsRouted(cancels, trades) && t in trades && BracketOf(t, t.entryOrder)
    ensures CancelsRouted(cancels + [t.entryOrder], trades)
  {
    var more := cancels + [t.entryOrder];
    forall i | 0 <= i < |more| ensures exists u :: u in trades && BracketOf(u, more[i]) {
      if i < |cancels| { assert more[i] == cancels[i]; }
    }
  }

  lemma ClosedStep(trades: seq<LiveTrade>, i: nat, s: string)
    requires i < |trades|
    ensures Closed(trades[..i + 1], s)
        <==> Closed(trades[..i], s) || (trades[i].symbol == s && (Exits(trades[i]) || Collapses(trades[i])))
  {
    var longer, shorter := trades[..i + 1], trades[..i];
    if Closed(longer, s) {
      var k :| 0 <= k < |longer| && longer[k].symbol == s && (Exits(longer[k]) || Collapses(longer[k]));
      if k < i { assert shorter[k] == longer[k]; }
    }
    if Closed(shorter, s) {
      var k :| 0 <= k < |shorter| && shorter[k].symbol == s && (Exits(shorter[k]) || Collapses(shorter[k]));
      assert longer[k] == shorter[k];
    }
    assert longer[i] == trades[i];
  }

  lemma HandledStep(trades: seq<LiveTrade>, i: nat)
    requires i < |trades|
    ensures HandledBy(trades[..i + 1]) == HandledBy(trades[..i]) + if Handles(trades[i]) then {trades[i].symbol} else {}
  {
    var longer, shorter := trades[..i + 1], trades[..i];
    forall s | s in HandledBy(longer) ensures s in HandledBy(shorter) || (Handles(trades[i]) && s == trades[i].symbol) {
      var k :| 0 <= k < |longer| && Handles(longer[k]) && longer[k].symbol == s;
      if k < i { assert shorter[k] == longer[k]; }
    }
    forall s | s in HandledBy(shorter) ensures s in HandledBy(longer) {
      var k :| 0 <= k < |shorter| && Handles(shorter[k]) && shorter[k].symbol == s;
      assert longer[k] == shorter[k];
    }
    assert longer[i] == trades[i];
  }

  /** The sweep places an exit for this row. */
  predicate Swept(row: PosRow, handled: set<string>) {
    row.qty != 0 && row.symbol !in handled && Reversible(row.product)
  }

  /** What an ideal sweep leaves of a symbol. */
  function AfterSweep(rows: seq<PosRow>, upTo: nat, handled: set<string>, s: string): int
    requires upTo <= |rows|
  {
    if exists i :: 0 <= i < upTo && rows[i].symbol == s && Swept(rows[i], handled) then 0 else Net(rows, s)
  }

  /** The positions a sweep orders away: not delivery, not cover orders, one row a symbol. */
  function SweepItems(rows: seq<PosRow>, seen: set<string>): seq<Pending> {
    if rows == [] then []
    else
      var row := rows[0];
      if Swept(row, seen) then [SweepItem(row)] + SweepItems(rows[1..], seen + {row.symbol})
      else SweepItems(rows[1..], seen)
  }

  function SweepItem(row: PosRow): Pending {
    Pending("sweep", row.symbol, if row.qty > 0 then SELL else BUY, Brokers.Abs(row.qty), row.product, None)
  }

  /** Cover orders nobody has a bracket for: reported, and left alone. */
  function SweepRefused(rows: seq<PosRow>, seen: set<string>): seq<string> {
    if rows == [] then []
    else
      var row := rows[0];
      if Swept(row, seen) then SweepRefused(rows[1..], seen + {row.symbol})
      else if row.qty != 0 && row.symbol !in seen && row.product == "CO" then [row.symbol] + SweepRefused(rows[1..], seen)
      else SweepRefused(rows[1..], seen)
  }

  ghost predicate Differ(ps: seq<Pending>, seen: set<string>) {
    && (forall i :: 0 <= i < |ps| ==> ps[i].symbol !in seen)
    && (forall i, j :: 0 <= i < j < |ps| ==> ps[i].symbol != ps[j].symbol)
  }

  lemma DifferCons(p: Pending, qs: seq<Pending>, seen: set<string>)
    requires p.symbol !in seen && Differ(qs, seen + {p.symbol})
    ensures Differ([p] + qs, seen)
  {
    var ps := [p] + qs;
    forall i | 0 <= i < |ps| ensures ps[i].symbol !in seen {
      if i > 0 { assert ps[i] == qs[i - 1]; }
    }
    forall i, j | 0 <= i < j < |ps| ensures ps[i].symbol != ps[j].symbol {
      assert ps[j] == qs[j - 1] && (i > 0 ==> ps[i] == qs[i - 1]);
    }
  }

  /** A sweep takes no symbol that was seen before, and none twice. */
  lemma {:induction false} SweepItemsDiffer(rows: seq<PosRow>, seen: set<string>)
    ensures Differ(SweepItems(rows, seen), seen)
  {
    if rows != [] {
      var row := rows[0];
      if Swept(row, seen) {
        SweepItemsDiffer(rows[1..], seen + {row.symbol});
        DifferCons(SweepItem(row), SweepItems(rows[1..], seen + {row.symbol}), seen);
      } else {
        SweepItemsDiffer(rows[1..], seen);
      }
    }
  }

  lemma {:induction false} SweepItemsComeFrom(rows: seq<PosRow>, seen: set<string>, i: nat)
    requires i < |SweepItems(rows, seen)|
    ensures ComesFrom(rows, seen, SweepItems(rows, seen)[i])
  {
    if Swept(rows[0], seen) {
      if i == 0 {
        assert SweepItems(rows, seen)[0] == SweepItem(rows[0]);
      } else {
        SweepItemsComeFrom(rows[1..], seen + {rows[0].symbol}, i - 1);
        ComesFromLonger(rows, seen, seen + {rows[0].symbol}, SweepItems(rows[1..], seen + {rows[0].symbol})[i - 1]);
      }
    } else {
      SweepItemsComeFrom(rows[1..], seen, i);
      ComesFromLonger(rows, seen, seen, SweepItems(rows[1..], seen)[i]);
    }
  }

  lemma ComesFromLonger(rows: seq<PosRow>, seen: set<string>, more: set<string>, p: Pending)
    requires rows != [] && seen <= more && ComesFrom(rows[1..], more, p)
    ensures ComesFrom(rows, seen, p)
  {
    var k :| 0 <= k < |rows[1..]| && Swept(rows[1..][k], more) && p == SweepItem(rows[1..][k]);
    assert Swept(rows[k + 1], seen) && p == SweepItem(rows[k + 1]);
  }

  lemma {:induction false} SweptIsItem(rows: seq<PosRow>, seen: set<string>, k: nat)
    requires k < |rows| && Swept(rows[k], seen)
    ensures HasSymbol(SweepItems(rows, seen), rows[k].symbol)
  {
    var row, rest, ps := rows[0], rows[1..], SweepItems(rows, seen);
    if Swept(row, seen) {
      if row.symbol == rows[k].symbol {
        assert ps[0].symbol == rows[k].symbol;
      } else {
        assert rest[k - 1] == rows[k];
        SweptIsItem(rest, seen + {row.symbol}, k - 1);
        var qs := SweepItems(rest, seen + {row.symbol});
        var i :| 0 <= i < |qs| && qs[i].symbol == rows[k].symbol;
        assert ps[i + 1] == qs[i];
      }
    } else {
      assert rest[k - 1] == rows[k];
      SweptIsItem(rest, seen, k - 1);
    }
  }

  ghost predicate ComesFrom(rows: seq<PosRow>, seen: set<string>, p: Pending) {
    exists k :: 0 <= k < |rows| && Swept(rows[k], seen) && p == SweepItem(rows[k])
  }

  /** Orders that close the nets of different symbols. */
  ghost predicate ClosesNets(rows: seq<PosRow>, turns: seq<Turn>) {
    && (forall i :: 0 <= i < |turns| ==>
          var p := turns[i].item; p.side == ClosingSide(Net(rows, p.symbol)) && p.qty == Brokers.Abs(Net(rows, p.symbol)))
    && (forall i, j :: 0 <= i < j < |turns| ==> turns[i].item.symbol != turns[j].item.symbol)
  }

  lemma {:induction false} SweepEffect(script: Script, from: Moment, turns: seq<Turn>, to: Moment)
    requires SweepTurns(script, turns) && Follow(from, turns, to) && ClosesNets(from.rows, turns)
    ensures Converges(from.rows, to.rows)
    ensures forall s :: !Touched(turns, s) ==> Net(to.rows, s) == Net(from.rows, s)
    ensures Ideal(script) ==> Refusals(turns) == [] && forall s :: Touched(turns, s) ==> Net(to.rows, s) == 0
    decreases |turns|
  {
    if turns == [] {
      assert Converges(from.rows, to.rows);
    } else {
      var n, t := |turns| - 1, turns[|turns| - 1];
      SweepEffect(script, from, turns[..n], t.before);
      assert !Touched(turns[..n], t.item.symbol);
      ClosingMoves(t.before.rows, t.item.symbol, Done(script(t.before.calls).fill, t.item.qty));
      OrderMoves(t.before.rows, t.item.symbol, t.item.side, Done(script(t.before.calls).fill, t.item.qty));
      ConvergesFurther(from.rows, t.before.rows, to.rows);
      forall s ensures Touched(turns, s) <==> Touched(turns[..n], s) || t.item.symbol == s {
        TouchedByOneMore(turns, s);
      }
    }
  }

  lemma SweptIsTouched(rows: seq<PosRow>, handled: set<string>, turns: seq<Turn>, k: nat)
    requires Items(turns) == SweepItems(rows, handled) && k < |rows| && Swept(rows[k], handled)
    ensures Touched(turns, rows[k].symbol)
  {
    SweptIsItem(rows, handled, k);
    var i :| 0 <= i < |Items(turns)| && Items(turns)[i].symbol == rows[k].symbol;
    assert turns[i].item == Items(turns)[i];
  }

  lemma SweptRows(rows: seq<PosRow>, handled: set<string>, turns: seq<Turn>)
    requires Distinct(rows) && Items(turns) == SweepItems(rows, handled)
    ensures ClosesNets(rows, turns)
    ensures forall s :: Touched(turns, s) ==> AfterSweep(rows, |rows|, handled, s) == 0
    ensures forall s :: !Touched(turns, s) ==> AfterSweep(rows, |rows|, handled, s) == Net(rows, s)
  {
    SweepItemsDiffer(rows, handled);
    forall i | 0 <= i < |turns|
      ensures turns[i].item.side == ClosingSide(Net(rows, turns[i].item.symbol))
      ensures turns[i].item.qty == Brokers.Abs(Net(rows, turns[i].item.symbol))
      ensures AfterSweep(rows, |rows|, handled, turns[i].item.symbol) == 0
    {
      assert turns[i].item == Items(turns)[i];
      SweepItemsComeFrom(rows, handled, i);
      var k :| 0 <= k < |rows| && Swept(rows[k], handled) && turns[i].item == SweepItem(rows[k]);
      RowIsNet(rows, k);
    }
    forall i, j | 0 <= i < j < |turns| ensures turns[i].item.symbol != turns[j].item.symbol {
      assert Items(turns)[i] == turns[i].item && Items(turns)[j] == turns[j].item;
    }
    forall s | !Touched(turns, s) ensures AfterSweep(rows, |rows|, handled, s) == Net(rows, s) {
      forall k | 0 <= k < |rows| && rows[k].symbol == s ensures !Swept(rows[k], handled) {
        if Swept(rows[k], handled) { SweptIsTouched(rows, handled, turns, k); }
      }
    }
  }

  lemma SweepDone(script: Script, from: Moment, turns: seq<Turn>, to: Moment, handled: set<string>)
    requires SweepTurns(script, turns) && Follow(from, turns, to)
    requires Items(turns) == SweepItems(from.rows, handled) && Distinct(from.rows)
    ensures Converges(from.rows, to.rows)
    ensures Ideal(script) ==>
      Refusals(turns) == [] && forall s :: Net(to.rows, s) == AfterSweep(from.rows, |from.rows|, handled, s)
  {
    SweptRows(from.rows, handled, turns);
    SweepEffect(script, from, turns, to);
  }

  lemma SweepStep(rows: seq<PosRow>, i: nat, seen: set<string>)
    requires i < |rows|
    ensures var row, more := rows[i], if Swept(rows[i], seen) then seen + {rows[i].symbol} else seen;
      && SweepItems(rows[i..], seen) == (if Swept(row, seen) then [SweepItem(row)] else []) + SweepItems(rows[i + 1..], more)
      && SweepRefused(rows[i..], seen)
         == (if row.qty != 0 && row.symbol !in seen && row.product == "CO" then [row.symbol] else []) + SweepRefused(rows[i + 1..], more)
  {
    assert rows[i..][1..] == rows[i + 1..] && rows[i..][0] == rows[i];
    assert [] + SweepItems(rows[i + 1..], seen) == SweepItems(rows[i + 1..], seen);
    assert forall ps: seq<string> :: [] + ps == ps;
  }

  /** A sweep up to a row: what it has ordered and refused, and that the rest is what remains. */
  ghost predicate SweptTo(rows: seq<PosRow>, handled: set<string>, i: nat, seen: set<string>, items: seq<Pending>, left: seq<string>) {
    && i <= |rows|
    && items + SweepItems(rows[i..], seen) == SweepItems(rows, handled)
    && left + SweepRefused(rows[i..], seen) == SweepRefused(rows, handled)
  }

  lemma SweepStarts(rows: seq<PosRow>, handled: set<string>)
    ensures SweptTo(rows, handled, 0, handled, [], [])
  {
    assert rows[0..] == rows;
    assert [] + SweepItems(rows, handled) == SweepItems(rows, handled);
    assert [] + SweepRefused(rows, handled) == SweepRefused(rows, handled);
  }

  lemma SweepEnds(rows: seq<PosRow>, handled: set<string>, seen: set<string>, items: seq<Pending>, left: seq<string>)
    requires SweptTo(rows, handled, |rows|, seen, items, left)
    ensures items == SweepItems(rows, handled) && left == SweepRefused(rows, handled)
  {
    assert items + [] == items && left + [] == left;
  }

  /** The three branches of the sweep's loop. */
  lemma SweepGoesOn(rows: seq<PosRow>, handled: set<string>, i: nat, seen: set<string>, items: seq<Pending>, left: seq<string>)
    requires i < |rows| && SweptTo(rows, handled, i, seen, items, left)
    ensures var row := rows[i];
      if row.qty == 0 || row.symbol in seen || row.product == "CNC" then SweptTo(rows, handled, i + 1, seen, items, left)
      else if row.product == "CO" then SweptTo(rows, handled, i + 1, seen, items, left + [row.symbol])
      else SweptTo(rows, handled, i + 1, seen + {row.symbol}, items + [SweepItem(row)], left)
  {
    var row := rows[i];
    var more := if Swept(row, seen) then seen + {row.symbol} else seen;
    SweepStep(rows, i, seen);
    Regroups(items, [SweepItem(row)], SweepItems(rows[i + 1..], more));
    Regroups(left, [row.symbol], SweepRefused(rows[i + 1..], more));
  }

  lemma Regroups<T>(a: seq<T>, b: seq<T>, c: seq<T>)
    ensures a + (b + c) == (a + b) + c && a + ([] + c) == a + c
  {
  }

  /** One orphan position, closed as the snapshot showed it. */
  method SweepOne(broker: Broker, row: PosRow) returns (ok: bool, ghost turn: Turn)
    requires Reversible(row.product) && Routed(broker.orders)
    modifies broker`calls, broker`rows, broker`orders
    ensures Routed(broker.orders)
    ensures turn.item == SweepItem(row) && turn.before == Moment(old(broker.calls), old(broker.rows))
    ensures turn.after == Moment(broker.calls, broker.rows) && SweepTurn(broker.script, turn)
    ensures ok <==> !turn.answer.Refused?
  {
    ghost var m := Moment(broker.calls, broker.rows);
    ok := broker.PlaceOrder(row.symbol, ClosingSide(row.qty), Brokers.Abs(row.qty), row.product);
    turn := Turn(SweepItem(row), m, if ok then Accepted else Refused(SweepItem(row)), Moment(broker.calls, broker.rows));
  }

  /**
   * The broker sweep; `handled` keeps it off the symbols of the local pass. It takes one turn
   * at each position of its snapshot that may be swept, and adds exactly what was refused.
   */
  method Sweep(broker: Broker, trades: seq<LiveTrade>, attempted0: int, failed0: seq<Pending>, refused0: seq<string>,
               handled: set<string>)
    returns (attempted: int, failed: seq<Pending>, refused: seq<string>, ghost turns: seq<Turn>)
    requires Routed(broker.orders) && AllRouted(failed0, trades)
    modifies broker`calls, broker`rows, broker`orders
    ensures Routed(broker.orders) && AllRouted(failed, trades)
    ensures SweepTurns(broker.script, turns)
    ensures Follow(Moment(old(broker.calls) + 1, old(broker.rows)), turns, Moment(broker.calls, broker.rows))
    ensures var seen := if broker.script(old(broker.calls)).readable then old(broker.rows) else [];
      && Items(turns) == SweepItems(seen, handled) && failed == failed0 + Refusals(turns)
      && refused == refused0 + SweepRefused(seen, handled)
      && attempted == attempted0 + |turns| + |SweepRefused(seen, handled)|
    ensures Distinct(old(broker.rows)) ==> Converges(old(broker.rows), broker.rows)
    ensures Ideal(broker.script) && Distinct(old(broker.rows)) ==>
      failed == failed0 && forall s :: Net(broker.rows, s) == AfterSweep(old(broker.rows), |old(broker.rows)|, handled, s)
  {
    attempted, failed, refused, turns := attempted0, failed0, refused0, [];
    ghost var start := Moment(broker.calls + 1, broker.rows);
    var positions := broker.GetPositions();
    if positions.None? { return; }
    var rows := positions.value;
    var seen := handled;
    var i := 0;
    ghost var left := [];
    SweepStarts(rows, handled);
    while i < |rows|
      invariant 0 <= i <= |rows|
      invariant Routed(broker.orders) && AllRouted(failed, trades)
      invariant SweepTurns(broker.script, turns) && Follow(start, turns, Moment(broker.calls, broker.rows))
      invariant SweptTo(rows, handled, i, seen, Items(turns), left)
      invariant failed == failed0 + Refusals(turns) && refused == refused0 + left
      invariant attempted == attempted0 + |turns| + |left|
    {
      var row := rows[i];
      SweepGoesOn(rows, handled, i, seen, Items(turns), left);
      if row.qty == 0 || row.symbol in seen || row.product == "CNC" {
        i := i + 1;
        continue;
      }
      attempted := attempted + 1;
      if row.product == "CO" {
        refused, left := refused + [row.symbol], left + [row.symbol];
      } else {
        seen := seen + {row.symbol};
        var ok;
        ghost var turn;
        ok, turn := SweepOne(broker, row);
        OneMoreTurn(start, turns, turn);
        turns := turns + [turn];
        if !ok {
          failed := failed + [Pending("sweep", row.symbol, ClosingSide(row.qty), Brokers.Abs(row.qty), row.product, None)];
        }
      }
      i := i + 1;
    }
    SweepEnds(rows, handled, seen, Items(turns), left);
    if Distinct(rows) { SweepDone(broker.script, start, turns, Moment(broker.calls, broker.rows), handled); }
  }

  // --- retries ---

  /** The wall clock: a sleep takes at least as long as asked. */
  class Clock {
    const extra: nat -> real
    var now: real
    var naps: nat

    constructor (extra: nat -> real, now: real)
      ensures this.extra == extra && this.now == now && naps == 0
    {
      this.extra, this.now, naps := extra, now, 0;
    }

    method Sleep(seconds: real)
      modifies this
      ensures now >= old(now) + seconds
    {
      now := now + seconds + (if extra(naps) < 0.0 then 0.0 else extra(naps));
      naps := naps + 1;
    }
  }

  const MAX_RETRY_SECONDS := 7200.0

  /** 5, 15, then 45 seconds for ever. */
  function Delay(attempt: nat): real {
    if attempt == 0 then 5.0 else if attempt == 1 then 15.0 else 45.0
  }

  /** The least time that `n` rounds take. */
  function Elapsed(n: nat): real {
    if n == 0 then 0.0 else Elapsed(n - 1) + Delay(n - 1)
  }

  lemma {:induction false} ElapsedIs(n: nat)
    ensures n >= 2 ==> Elapsed(n) == 20.0 + 45.0 * (n - 2) as real
  {
    if n > 2 {
      ElapsedIs(n - 1);
    } else if n == 2 {
      assert Elapsed(1) == 5.0;
    }
  }

  /** One round takes one turn at each failed item; what is still failed is exactly what was refused again. */
  method RetryRound(broker: Broker, trades: seq<LiveTrade>, failed: seq<Pending>)
    returns (still: seq<Pending>, ghost turns: seq<Turn>)
    requires Routed(broker.orders) && CancelsRouted(broker.cancels, trades) && AllRouted(failed, trades)
    modifies broker`calls, broker`rows, broker`orders, broker`cancels
    ensures Routed(broker.orders) && CancelsRouted(broker.cancels, trades) && AllRouted(still, trades)
    ensures Items(turns) == failed && still == Refusals(turns) && ItemTurns(broker.script, turns)
    ensures Follow(Moment(old(broker.calls), old(broker.rows)), turns, Moment(broker.calls, broker.rows))
    ensures |still| <= |failed|
    ensures Readable(broker.script) ==> Converges(old(broker.rows), broker.rows)
  {
    still, turns := [], [];
    ghost var start := Moment(broker.calls, broker.rows);
    var i := 0;
    while i < |failed|
      invariant 0 <= i <= |failed|
      invariant Routed(broker.orders) && CancelsRouted(broker.cancels, trades) && AllRouted(still, trades)
      invariant Items(turns) == failed[..i] && still == Refusals(turns) && ItemTurns(broker.script, turns)
      invariant Follow(start, turns, Moment(broker.calls, broker.rows))
    {
      assert PendingRouted(failed[i], trades);
      var again;
      ghost var turn;
      again, turn := TakeTurn(broker, failed[i], trades);
      OneMoreTurn(start, turns, turn);
      turns := turns + [turn];
      if again.Some? { still := still + [again.value]; }
      i := i + 1;
    }
    TurnsEffect(broker.script, start, turns, Moment(broker.calls, broker.rows));
    RefusedAreItems(turns);
  }

  function Concat(rounds: seq<seq<Turn>>): seq<Turn> {
    if rounds == [] then [] else Concat(rounds[..|rounds| - 1]) + rounds[|rounds| - 1]
  }

  lemma {:induction false} FollowOn(from: Moment, a: seq<Turn>, mid: Moment, b: seq<Turn>, to: Moment)
    requires Follow(from, a, mid) && Follow(mid, b, to)
    ensures Follow(from, a + b, to)
    decreases |b|
  {
    if b == [] {
      assert a + b == a;
    } else {
      var n := |b| - 1;
      FollowOn(from, a, mid, b[..n], b[n].before);
      assert (a + b)[..|a + b| - 1] == a + b[..n];
    }
  }

  /** What is left after some rounds. */
  function Left(first: seq<Pending>, rounds: seq<seq<Turn>>): seq<Pending> {
    if rounds == [] then first else Refusals(rounds[|rounds| - 1])
  }

  /** Every round is about exactly what the one before it left. */
  ghost predicate Retried(script: Script, first: seq<Pending>, rounds: seq<seq<Turn>>) {
    forall k :: 0 <= k < |rounds| ==> ItemTurns(script, rounds[k]) && Items(rounds[k]) == Left(first, rounds[..k])
  }

  /** The rounds so far: what they were about, what they left, and that they follow one another. */
  ghost predicate Rounds(script: Script, first: seq<Pending>, from: Moment, rounds: seq<seq<Turn>>, failed: seq<Pending>, to: Moment) {
    Retried(script, first, rounds) && failed == Left(first, rounds) && Follow(from, Concat(rounds), to)
  }

  lemma OneMoreRound(script: Script, first: seq<Pending>, from: Moment, rounds: seq<seq<Turn>>, mid: Moment, turns: seq<Turn>, to: Moment)
    requires Rounds(script, first, from, rounds, Items(turns), mid) && ItemTurns(script, turns) && Follow(mid, turns, to)
    ensures Rounds(script, first, from, rounds + [turns], Refusals(turns), to)
  {
    var more := rounds + [turns];
    assert more[..|rounds|] == rounds;
    FollowOn(from, Concat(rounds), mid, turns, to);
    forall k | 0 <= k < |more| ensures ItemTurns(script, more[k]) && Items(more[k]) == Left(first, more[..k]) {
      if k < |rounds| { assert more[..k] == rounds[..k] && more[k] == rounds[k]; }
    }
  }

  /** Retries end by success or by the deadline, after at most 162 rounds. */
  method RetryLoop(broker: Broker, clock: Clock, trades: seq<LiveTrade>, failed0: seq<Pending>)
    returns (failed: seq<Pending>, rounds: nat, ghost history: seq<seq<Turn>>)
    requires Routed(broker.orders) && CancelsRouted(broker.cancels, trades) && AllRouted(failed0, trades)
    modifies broker`calls, broker`rows, broker`orders, broker`cancels, clock
    ensures Routed(broker.orders) && CancelsRouted(broker.cancels, trades)
    ensures |history| == rounds
    ensures Rounds(broker.script, failed0, Moment(old(broker.calls), old(broker.rows)), history, failed, Moment(broker.calls, broker.rows))
    ensures |failed| <= |failed0| && (failed != [] ==> clock.now >= old(clock.now) + 7200.0)
    ensures rounds <= 162 && (failed0 == [] ==> rounds == 0 && broker.rows == old(broker.rows))
    ensures Readable(broker.script) ==> Converges(old(broker.rows), broker.rows)
  {
    failed, rounds, history := failed0, 0, [];
    ghost var rows0, start, from := broker.rows, clock.now, Moment(broker.calls, broker.rows);
    var deadline := clock.now + MAX_RETRY_SECONDS;
    while failed != []
      invariant Routed(broker.orders) && CancelsRouted(broker.cancels, trades) && AllRouted(failed, trades)
      invariant |history| == rounds
      invariant Rounds(broker.script, failed0, from, history, failed, Moment(broker.calls, broker.rows))
      invariant |failed| <= |failed0| && rounds <= 162 && clock.now >= start + Elapsed(rounds)
      invariant failed0 == [] ==> rounds == 0 && broker.rows == rows0
      invariant Readable(broker.script) ==> Converges(rows0, broker.rows)
      decreases 162 - rounds
    {
      ElapsedIs(rounds);
      if clock.now >= deadline { return; }
      ghost var rows1, mid := broker.rows, Moment(broker.calls, broker.rows);
      clock.Sleep(Delay(rounds));
      rounds := rounds + 1;
      assert clock.now >= start + Elapsed(rounds);
      ghost var turns;
      failed, turns := RetryRound(broker, trades, failed);
      OneMoreRound(broker.script, failed0, from, history, mid, turns, Moment(broker.calls, broker.rows));
      history := history + [turns];
      if Readable(broker.script) { ConvergesFurther(rows0, rows1, broker.rows); }
    }
  }

  // --- the whole flatten ---

  /** What an ideal flatten leaves of a symbol. */
  function FlattenedNet(rows: seq<PosRow>, trades: seq<LiveTrade>, s: string): int {
    if Closed(trades, s) then 0
    else if exists i :: 0 <= i < |rows| && rows[i].symbol == s && Reversible(rows[i].product) && s !in HandledBy(trades)
    then 0
    else Net(rows, s)
  }

  lemma SweepAfterPass(rows0: seq<PosRow>, rows1: seq<PosRow>, trades: seq<LiveTrade>, s: string)
    requires Distinct(rows0) && SameShape(rows0, rows1) && Net(rows1, s) == AfterPass(rows0, trades, s)
    ensures AfterSweep(rows1, |rows1|, HandledBy(trades), s) == FlattenedNet(rows0, trades, s)
  {
    var handled := HandledBy(trades);
    forall i | 0 <= i < |rows1| && rows1[i].symbol == s ensures rows1[i].qty == Net(rows1, s) {
      RowIsNet(rows1, i);
    }
    if i :| 0 <= i < |rows1| && rows1[i].symbol == s && Swept(rows1[i], handled) {
      assert rows0[i].symbol == s && Reversible(rows0[i].product);
    } else if i :| 0 <= i < |rows0| && rows0[i].symbol == s && Reversible(rows0[i].product) && s !in handled {
      assert rows1[i].symbol == s && !Swept(rows1[i], handled);
    }
  }

  /** The turns of a whole flatten. */
  datatype Story = Story(passed: seq<Turn>, swept: seq<Turn>, retries: seq<seq<Turn>>)

  function First(story: Story): seq<Turn> {
    story.passed + story.swept
  }

  /**
   * A flatten's turns, in order, from the first call to the last: one at every trade that is
   * exited or collapsed, one at every position swept from the snapshot between, and then round
   * by round at exactly what was refused before.
   */
  ghost predicate Told(script: Script, trades: seq<LiveTrade>, from: Moment, mid: Moment, snapshot: seq<PosRow>, story: Story,
                       after: Moment, to: Moment) {
    && PassesTold(script, trades, from, mid, snapshot, story.passed, story.swept, after)
    && Rounds(script, Refusals(story.passed) + Refusals(story.swept), after, story.retries, StillRefused(story), to)
  }

  ghost predicate PassesTold(script: Script, trades: seq<LiveTrade>, from: Moment, mid: Moment, snapshot: seq<PosRow>,
                             passed: seq<Turn>, swept: seq<Turn>, after: Moment) {
    && ItemTurns(script, passed) && Items(passed) == ItemsOf(trades) && Follow(from, passed, mid)
    && snapshot == (if script(mid.calls).readable then mid.rows else [])
    && SweepTurns(script, swept) && Items(swept) == SweepItems(snapshot, HandledBy(trades))
    && Follow(Moment(mid.calls + 1, mid.rows), swept, after)
  }

  function Ids(ps: seq<Pending>): seq<string> {
    seq(|ps|, i requires 0 <= i < |ps| => ps[i].id)
  }

  /** What the last turns left refused. */
  function StillRefused(story: Story): seq<Pending> {
    Left(Refusals(story.passed) + Refusals(story.swept), story.retries)
  }

  /** The two passes before the retries. */
  method Passes(broker: Broker, trades: seq<LiveTrade>)
    returns (attempted: int, failed: seq<Pending>, refused: seq<string>,
             ghost mid: Moment, ghost snapshot: seq<PosRow>, ghost passed: seq<Turn>, ghost swept: seq<Turn>)
    requires Routed(broker.orders) && broker.cancels == []
    modifies broker`calls, broker`rows, broker`orders, broker`cancels
    ensures Routed(broker.orders) && CancelsRouted(broker.cancels, trades) && AllRouted(failed, trades)
    ensures PassesTold(broker.script, trades, Moment(old(broker.calls), old(broker.rows)), mid, snapshot, passed, swept,
                       Moment(broker.calls, broker.rows))
    ensures failed == Refusals(passed) + Refusals(swept)
    ensures refused == UnclosableOf(trades) + SweepRefused(snapshot, HandledBy(trades))
    ensures attempted == |trades| - SparedCount(trades) + |swept| + |SweepRefused(snapshot, HandledBy(trades))|
    ensures |failed| + |refused| <= attempted
    ensures Readable(broker.script) && Distinct(old(broker.rows)) ==> Converges(old(broker.rows), broker.rows)
    ensures Ideal(broker.script) && Distinct(old(broker.rows)) ==>
      failed == [] && forall s :: Net(broker.rows, s) == FlattenedNet(old(broker.rows), trades, s)
  {
    ghost var rows0 := broker.rows;
    var handled;
    attempted, failed, refused, handled, passed := LocalPass(broker, trades);
    mid := Moment(broker.calls, broker.rows);
    snapshot := if broker.script(mid.calls).readable then mid.rows else [];
    attempted, failed, refused, swept := Sweep(broker, trades, attempted, failed, refused, handled);
    RefusedAreItems(swept);
    if Distinct(rows0) { PassesDone(broker.script, rows0, mid.rows, broker.rows, trades); }
  }

  /**
   * The three phases. The accounting balances, and the report names exactly what the last
   * round was refused, after two hours of rounds, and the cover orders without a bracket;
   * delivery gets no order and cover orders are only cancelled, in any phase; with readable
   * positions and one product per symbol no net ever crosses zero or grows; and a broker that
   * does everything in full leaves FlattenedNet.
   */
  method FlattenTrades(broker: Broker, clock: Clock, trades: seq<LiveTrade>)
    returns (report: Report, rounds: nat, ghost mid: Moment, ghost snapshot: seq<PosRow>, ghost story: Story, ghost after: Moment)
    requires Routed(broker.orders) && broker.cancels == []
    modifies broker`calls, broker`rows, broker`orders, broker`cancels, clock
    ensures Routed(broker.orders) && CancelsRouted(broker.cancels, trades)
    ensures Told(broker.script, trades, Moment(old(broker.calls), old(broker.rows)), mid, snapshot, story, after,
                 Moment(broker.calls, broker.rows))
    ensures report.failed == Ids(StillRefused(story)) + (UnclosableOf(trades) + SweepRefused(snapshot, HandledBy(trades)))
    ensures report.attempted == |trades| - SparedCount(trades) + |story.swept| + |SweepRefused(snapshot, HandledBy(trades))|
    ensures report.succeeded == report.attempted - |report.failed| && report.succeeded >= 0
    ensures rounds == |story.retries| <= 162 && (StillRefused(story) != [] ==> clock.now >= old(clock.now) + 7200.0)
    ensures Readable(broker.script) && Distinct(old(broker.rows)) ==> Converges(old(broker.rows), broker.rows)
    ensures Ideal(broker.script) && Distinct(old(broker.rows)) ==>
      rounds == 0 && forall s :: Net(broker.rows, s) == FlattenedNet(old(broker.rows), trades, s)
  {
    ghost var rows0 := broker.rows;
    var attempted, failed, refused;
    ghost var passed, swept, retries;
    attempted, failed, refused, mid, snapshot, passed, swept := Passes(broker, trades);
    after := Moment(broker.calls, broker.rows);
    failed, rounds, retries := RetryLoop(broker, clock, trades, failed);
    story := Story(passed, swept, retries);
    var remaining := Ids(failed) + refused;
    report := Report(attempted, attempted - |remaining|, remaining);
    if Readable(broker.script) && Distinct(rows0) { ConvergesFurther(rows0, after.rows, broker.rows); }
  }

  /** Two phases, each converging, converge; two ideal phases leave what they should. */
  lemma PassesDone(script: Script, rows0: seq<PosRow>, rows1: seq<PosRow>, rows2: seq<PosRow>, trades: seq<LiveTrade>)
    requires Distinct(rows0) && (Readable(script) ==> Converges(rows0, rows1) && SameShape(rows0, rows1))
    requires Converges(rows1, rows2)
    ensures Readable(script) ==> Converges(rows0, rows2)
    ensures Ideal(script) ==>
      forall s :: Net(rows1, s) == AfterPass(rows0, trades, s) && Net(rows2, s) == AfterSweep(rows1, |rows1|, HandledBy(trades), s) ==>
        Net(rows2, s) == FlattenedNet(rows0, trades, s)
  {
    if Readable(script) {
      ConvergesFurther(rows0, rows1, rows2);
      forall s | Net(rows1, s) == AfterPass(rows0, trades, s)
        ensures AfterSweep(rows1, |rows1|, HandledBy(trades), s) == FlattenedNet(rows0, trades, s)
      {
        SweepAfterPass(rows0, rows1, trades, s);
      }
    }
  }

  /** Trades that could not be fetched end the flatten at once, with a report that does not balance. */
  method Flatten(broker: Broker, clock: Clock, fetched: Option<seq<LiveTrade>>)
    returns (report: Report, rounds: nat, ghost mid: Moment, ghost snapshot: seq<PosRow>, ghost story: Story, ghost after: Moment)
    requires Routed(broker.orders) && broker.cancels == []
    modifies broker`calls, broker`rows, broker`orders, broker`cancels, clock
    ensures Routed(broker.orders) && CancelsRouted(broker.cancels, if fetched.Some? then fetched.value else [])
    ensures fetched.None? ==> report == Report(0, 0, ["fetch_failed"]) && rounds == 0 && broker.rows == old(broker.rows)
    ensures fetched.Some? ==> var trades := fetched.value;
      && Told(broker.script, trades, Moment(old(broker.calls), old(broker.rows)), mid, snapshot, story, after,
              Moment(broker.calls, broker.rows))
      && report.failed == Ids(StillRefused(story)) + (UnclosableOf(trades) + SweepRefused(snapshot, HandledBy(trades)))
      && report.attempted == |trades| - SparedCount(trades) + |story.swept| + |SweepRefused(snapshot, HandledBy(trades))|
      && rounds == |story.retries| && (StillRefused(story) != [] ==> clock.now >= old(clock.now) + 7200.0)
    ensures report.attempted == report.succeeded + |report.failed| <==> fetched.Some?
    ensures report.succeeded >= 0 && rounds <= 162
    ensures Readable(broker.script) && Distinct(old(broker.rows)) ==> Converges(old(broker.rows), broker.rows)
    ensures Ideal(broker.script) && Distinct(old(broker.rows)) && fetched.Some? ==>
      rounds == 0 && forall s :: Net(broker.rows, s) == FlattenedNet(old(broker.rows), fetched.value, s)
  {
    if fetched.None? {
      mid, snapshot, story := Moment(broker.calls, broker.rows), [], Story([], [], []);
      report, rounds, after := Report(0, 0, ["fetch_failed"]), 0, mid;
    } else {
      report, rounds, mid, snapshot, story, after := FlattenTrades(broker, clock, fetched.value);
    }
  }

  // --- what the report names ---

  function Key(p: Pending): (string, string) {
    (p.id, p.symbol)
  }

  ghost predicate HasKey(ps: seq<Pending>, key: (string, string)) {
    exists i :: 0 <= i < |ps| && Key(ps[i]) == key
  }

  ghost predicate DistinctKeys(ps: seq<Pending>) {
    forall i, j :: 0 <= i < j < |ps| ==> Key(ps[i]) != Key(ps[j])
  }

  /** How the last turn at an item came out. */
  function LastAnswer(turns: seq<Turn>, key: (string, string)): Option<Answer> {
    if turns == [] then None
    else if Key(turns[|turns| - 1].item) == key then Some(turns[|turns| - 1].answer)
    else LastAnswer(turns[..|turns| - 1], key)
  }

  lemma {:induction false} LastAnswerConcat(a: seq<Turn>, b: seq<Turn>, key: (string, string))
    ensures LastAnswer(a + b, key) == if LastAnswer(b, key).Some? then LastAnswer(b, key) else LastAnswer(a, key)
    decreases |b|
  {
    if b == [] {
      assert a + b == a;
    } else {
      assert (a + b)[..|a + b| - 1] == a + b[..|b| - 1];
      LastAnswerConcat(a, b[..|b| - 1], key);
    }
  }

  /** What is refused stays the same item. */
  ghost predicate KeepsKeys(turns: seq<Turn>) {
    forall i :: 0 <= i < |turns| && turns[i].answer.Refused? ==> Key(turns[i].answer.again) == Key(turns[i].item)
  }

  lemma KeySnoc(ps: seq<Pending>, p: Pending, key: (string, string))
    ensures HasKey(ps + [p], key) <==> HasKey(ps, key) || Key(p) == key
    ensures DistinctKeys(ps + [p]) ==> DistinctKeys(ps) && !HasKey(ps, Key(p))
    ensures DistinctKeys(ps) && !HasKey(ps, Key(p)) ==> DistinctKeys(ps + [p])
  {
    var more := ps + [p];
    assert more[|ps|] == p && forall i :: 0 <= i < |ps| ==> more[i] == ps[i];
    if HasKey(ps, key) {
      var i :| 0 <= i < |ps| && Key(ps[i]) == key;
      assert Key(more[i]) == key;
    }
  }

  /** In one round an item comes back exactly when its turn was refused. */
  lemma {:induction false} OneRound(turns: seq<Turn>, key: (string, string))
    requires KeepsKeys(turns) && DistinctKeys(Items(turns))
    ensures HasKey(Refusals(turns), key) <==> LastAnswer(turns, key).Some? && LastAnswer(turns, key).value.Refused?
    ensures HasKey(Items(turns), key) <==> LastAnswer(turns, key).Some?
    ensures DistinctKeys(Refusals(turns)) && (HasKey(Refusals(turns), key) ==> HasKey(Items(turns), key))
    decreases |turns|
  {
    if turns != [] {
      var earlier, last := turns[..|turns| - 1], turns[|turns| - 1];
      assert Items(turns) == Items(earlier) + [last.item];
      KeySnoc(Items(earlier), last.item, key);
      OneRound(earlier, key);
      OneRound(earlier, Key(last.item));
      if last.answer.Refused? { KeySnoc(Refusals(earlier), last.answer.again, key); }
    }
  }

  lemma ItemsKeepKeys(script: Script, turns: seq<Turn>)
    requires ItemTurns(script, turns) || SweepTurns(script, turns)
    ensures KeepsKeys(turns)
  {
    forall i | 0 <= i < |turns| && turns[i].answer.Refused?
      ensures Key(turns[i].answer.again) == Key(turns[i].item)
    {
      if ItemTurns(script, turns) { assert ItemTurn(script, turns[i]); } else { assert SweepTurn(script, turns[i]); }
    }
  }

  predicate WasRefused(turns: seq<Turn>, key: (string, string)) {
    var last := LastAnswer(turns, key);
    last.Some? && last.value.Refused?
  }

  lemma RoundStep(all: seq<Turn>, left: seq<Pending>, turns: seq<Turn>, key: (string, string))
    requires KeepsKeys(turns) && Items(turns) == left && DistinctKeys(left)
    requires HasKey(left, key) <==> WasRefused(all, key)
    ensures DistinctKeys(Refusals(turns))
    ensures HasKey(Refusals(turns), key) <==> WasRefused(all + turns, key)
  {
    OneRound(turns, key);
    LastAnswerConcat(all, turns, key);
  }

  /** Round after round, what is left is what was refused last. */
  lemma {:induction false} RoundsDecide(script: Script, first: seq<Turn>, rounds: seq<seq<Turn>>, key: (string, string))
    requires KeepsKeys(first) && DistinctKeys(Items(first)) && Retried(script, Refusals(first), rounds)
    ensures DistinctKeys(Left(Refusals(first), rounds))
    ensures HasKey(Left(Refusals(first), rounds), key) <==> WasRefused(first + Concat(rounds), key)
    decreases |rounds|
  {
    if rounds == [] {
      assert first + [] == first;
      OneRound(first, key);
    } else {
      var n := |rounds| - 1;
      EarlierRounds(script, Refusals(first), rounds);
      RoundsDecide(script, first, rounds[..n], key);
      ItemsKeepKeys(script, rounds[n]);
      RoundStep(first + Concat(rounds[..n]), Left(Refusals(first), rounds[..n]), rounds[n], key);
      assert first + (Concat(rounds[..n]) + rounds[n]) == (first + Concat(rounds[..n])) + rounds[n];
    }
  }

  lemma EarlierRounds(script: Script, first: seq<Pending>, rounds: seq<seq<Turn>>)
    requires Retried(script, first, rounds) && rounds != []
    ensures var n := |rounds| - 1;
      Retried(script, first, rounds[..n]) && ItemTurns(script, rounds[n]) && Items(rounds[n]) == Left(first, rounds[..n])
  {
    var n := |rounds| - 1;
    forall k | 0 <= k < n ensures ItemTurns(script, rounds[..n][k]) && Items(rounds[..n][k]) == Left(first, rounds[..n][..k]) {
      assert rounds[..n][k] == rounds[k] && rounds[..n][..k] == rounds[..k];
    }
  }

  lemma {:induction false} RefusalsConcat(a: seq<Turn>, b: seq<Turn>)
    ensures Refusals(a + b) == Refusals(a) + Refusals(b)
    decreases |b|
  {
    if b == [] {
      assert a + b == a;
    } else {
      assert (a + b)[..|a + b| - 1] == a + b[..|b| - 1];
      RefusalsConcat(a, b[..|b| - 1]);
    }
  }

  /** Items differ when trade ids do, and none is the sweep's. */
  lemma {:induction false} ItemsDiffer(trades: seq<LiveTrade>)
    requires forall i, j :: 0 <= i < j < |trades| ==> trades[i].id != trades[j].id
    ensures DistinctKeys(ItemsOf(trades))
    ensures forall k :: 0 <= k < |ItemsOf(trades)| ==> exists i :: 0 <= i < |trades| && trades[i].id == ItemsOf(trades)[k].id
  {
    if trades != [] {
      var n := |trades| - 1;
      ItemsDiffer(trades[..n]);
      var earlier := ItemsOf(trades[..n]);
      forall k | 0 <= k < |earlier| ensures exists i :: 0 <= i < n && trades[i].id == earlier[k].id {
        var i :| 0 <= i < n && trades[..n][i].id == earlier[k].id;
        assert trades[i] == trades[..n][i];
      }
      if ItemOf(trades[n]).Some? {
        var p := ItemOf(trades[n]).value;
        assert !HasKey(earlier, Key(p));
        KeySnoc(earlier, p, Key(p));
        assert trades[n].id == p.id;
      }
    }
  }

  /**
   * With distinct items, the report of a flatten names an item as still open exactly when its
   * last turn, in whatever round, was a refused order or cancel.
   */
  lemma LastTurnDecides(script: Script, trades: seq<LiveTrade>, from: Moment, mid: Moment, snapshot: seq<PosRow>, story: Story,
                        after: Moment, to: Moment, key: (string, string))
    requires Told(script, trades, from, mid, snapshot, story, after, to) && DistinctKeys(Items(First(story)))
    ensures HasKey(StillRefused(story), key) <==> WasRefused(First(story) + Concat(story.retries), key)
  {
    RefusalsConcat(story.passed, story.swept);
    ItemsKeepKeys(script, story.passed);
    ItemsKeepKeys(script, story.swept);
    RoundsDecide(script, First(story), story.retries, key);
  }

  /**
   * When does a flatten that the broker carries out in full leave an intraday position live?
   * Exactly when the position's symbol has a local trade of quantity zero, which hides it from
   * the sweep, and no local trade that is exited or collapsed.
   */
  lemma IntradayLeftLiveIff(rows: seq<PosRow>, trades: seq<LiveTrade>, k: nat)
    requires Distinct(rows) && k < |rows| && Reversible(rows[k].product)
    ensures FlattenedNet(rows, trades, rows[k].symbol) != 0
            <==> && rows[k].qty != 0
                 && (exists i :: 0 <= i < |trades| && trades[i].symbol == rows[k].symbol && trades[i].qtyFilled == 0)
                 && !Closed(trades, rows[k].symbol)
  {
    var s := rows[k].symbol;
    RowIsNet(rows, k);
    if !Closed(trades, s) {
      if s in HandledBy(trades) {
        var i :| 0 <= i < |trades| && Handles(trades[i]) && trades[i].symbol == s;
        assert !Exits(trades[i]);
      }
      if i :| 0 <= i < |trades| && trades[i].symbol == s && trades[i].qtyFilled == 0 {
        assert Handles(trades[i]);
      }
      forall i | 0 <= i < |rows| && rows[i].symbol == s ensures i == k {
      }
    }
  }
}
