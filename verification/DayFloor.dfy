/**
 * What rehydrate reads of the ledger: the rows of reservations, and the exits since the start
 * of the day. Profit realized on earlier days stays out.
 */
module DayFloor {
  import opened Options
  import opened Ledger
  import opened Book
  import opened Replay
  import opened Restart
  import opened Figures
  import Sums

  predicate Counts(row: Row, floor: int) {
    row.rid.Some? || (row.entryType == RELEASE_USED && row.ts >= floor)
  }

  /** The ledger without the rows that rehydrate has no use for. */
  function Relevant(log: Log, floor: int): Log {
    if log == [] then []
    else if Counts(Last(log), floor) then Relevant(Front(log), floor) + [Last(log)]
    else Relevant(Front(log), floor)
  }

  lemma {:induction false} ChainIsRelevant(log: Log, floor: int, rid: Rid)
    ensures Chain(Relevant(log, floor), rid) == Chain(log, rid)
  {
    if log != [] {
      ChainIsRelevant(Front(log), floor, rid);
      assert Chain(Front(log), rid) + [] == Chain(Front(log), rid);
      if Counts(Last(log), floor) { Snoc(Relevant(Front(log), floor), Last(log)); }
    }
  }

  lemma {:induction false} SignalIsRelevant(log: Log, floor: int, signal: string)
    ensures RidForSignal(Relevant(log, floor), signal) == RidForSignal(log, signal)
  {
    if log != [] {
      SignalIsRelevant(Front(log), floor, signal);
      if Counts(Last(log), floor) { Snoc(Relevant(Front(log), floor), Last(log)); }
    }
  }

  lemma {:induction false} CarryoverIsRelevant(log: Log, floor: int, b: Bucket)
    ensures CarryoverOf(Relevant(log, floor), floor, b) == CarryoverOf(log, floor, b)
  {
    if log != [] {
      CarryoverIsRelevant(Front(log), floor, b);
      if Counts(Last(log), floor) { Snoc(Relevant(Front(log), floor), Last(log)); }
    }
  }

  /** Progress and outcome of a replay, on another ledger. */
  function OnLedger(acc: Progress, log: Log): Progress {
    if acc.Progress? then acc.(s := acc.s.(log := log)) else acc
  }

  function TradesOn(acc: Replayed, log: Log): Replayed {
    if acc.Replayed? then acc.(s := acc.s.(log := log)) else acc
  }

  lemma ReserveOn(s: State, rid: Rid, res: Reservation, log: Log)
    ensures ApplyReserve(s.(log := log), rid, res) == ApplyReserve(s, rid, res).(log := log)
  {
  }

  lemma CommitOn(s: State, rid: Rid, actual: real, excess: real, log: Log)
    requires rid in s.live
    ensures ApplyCommit(s.(log := log), rid, actual, excess) == ApplyCommit(s, rid, actual, excess).(log := log)
  {
  }

  lemma RowOnLedger(acc: Progress, row: Row, t: Trade, rid: Rid, intent: Intent, log: Log)
    ensures ReplayRow(OnLedger(acc, log), row, t, rid, intent) == OnLedger(ReplayRow(acc, row, t, rid, intent), log)
  {
    if acc.Progress? {
      match row.entryType
      case RESERVE =>
        ReserveOn(acc.s, rid, Reservation(t.symbol, ReplayQty(t), ReplayPrice(t), intent, row.amount, RowBucket(row), t.signal,
                                          row.ts, 0.0, None), log);
      case COMMIT => if rid in acc.s.live { CommitOn(acc.s, rid, row.amount, row.after - row.before, log); }
      case _ =>
    }
  }

  lemma {:induction false} ChainOnLedger(acc: Progress, chain: Log, t: Trade, rid: Rid, intent: Intent, log: Log)
    ensures ReplayChain(OnLedger(acc, log), chain, t, rid, intent) == OnLedger(ReplayChain(acc, chain, t, rid, intent), log)
  {
    if chain != [] {
      ChainOnLedger(acc, Front(chain), t, rid, intent, log);
      RowOnLedger(ReplayChain(acc, Front(chain), t, rid, intent), Last(chain), t, rid, intent, log);
    }
  }

  lemma ResolvesOn(log: Log, floor: int, t: Trade)
    ensures Resolve(Relevant(log, floor), t) == Resolve(log, t)
  {
    if t.signal.Some? { SignalIsRelevant(log, floor, t.signal.value); }
  }

  lemma ChainTradeOn(acc: Replayed, t: Trade, floor: int, rid: Rid, intent: Intent)
    requires acc.Replayed? && t.signal.Some? && Resolve(acc.s.log, t) == Some(rid)
    requires Chain(acc.s.log, rid) != [] && ReplayIntent(t, Chain(acc.s.log, rid)) == Some(intent)
    ensures ReplayTrade(TradesOn(acc, Relevant(acc.s.log, floor)), t) == TradesOn(ReplayTrade(acc, t), Relevant(acc.s.log, floor))
  {
    ResolvesOn(acc.s.log, floor, t);
    ChainIsRelevant(acc.s.log, floor, rid);
    ChainOnLedger(Progress(acc.s, false, false, acc.anomalies), Chain(acc.s.log, rid), t, rid, intent, Relevant(acc.s.log, floor));
  }

  lemma TradeOnLedger(acc: Replayed, t: Trade, floor: int)
    requires acc.Replayed?
    ensures ReplayTrade(TradesOn(acc, Relevant(acc.s.log, floor)), t) == TradesOn(ReplayTrade(acc, t), Relevant(acc.s.log, floor))
  {
    ResolvesOn(acc.s.log, floor, t);
    if t.signal.Some? && Resolve(acc.s.log, t).Some? {
      var rid := Resolve(acc.s.log, t).value;
      var chain := Chain(acc.s.log, rid);
      if chain != [] && ReplayIntent(t, chain).Some? {
        ChainTradeOn(acc, t, floor, rid, ReplayIntent(t, chain).value);
      } else {
        ChainIsRelevant(acc.s.log, floor, rid);
      }
    }
  }

  lemma {:induction false} TradesOnLedger(s: State, trades: seq<Trade>, floor: int)
    ensures ReplayTrades(s.(log := Relevant(s.log, floor)), trades) == TradesOn(ReplayTrades(s, trades), Relevant(s.log, floor))
  {
    if trades != [] {
      var n := |trades| - 1;
      TradesOnLedger(s, trades[..n], floor);
      TradesKeepLedger(s, trades[..n]);
      var acc := ReplayTrades(s, trades[..n]);
      if acc.Replayed? { TradeOnLedger(acc, trades[n], floor); }
    }
  }

  lemma {:induction false} ChainKeepsLedger(acc: Progress, chain: Log, t: Trade, rid: Rid, intent: Intent)
    requires acc.Progress?
    ensures var r := ReplayChain(acc, chain, t, rid, intent); r.Progress? ==> r.s.log == acc.s.log
  {
    if chain != [] {
      ChainKeepsLedger(acc, Front(chain), t, rid, intent);
    }
  }

  lemma {:induction false} TradesKeepLedger(s: State, trades: seq<Trade>)
    ensures var r := ReplayTrades(s, trades); r.Replayed? ==> r.s.log == s.log
  {
    if trades != [] {
      var n := |trades| - 1;
      TradesKeepLedger(s, trades[..n]);
      var acc, t := ReplayTrades(s, trades[..n]), trades[n];
      if acc.Replayed? && t.signal.Some? && Resolve(acc.s.log, t).Some? {
        var rid := Resolve(acc.s.log, t).value;
        var chain := Chain(acc.s.log, rid);
        if chain != [] && ReplayIntent(t, chain).Some? {
          ChainKeepsLedger(Progress(acc.s, false, false, acc.anomalies), chain, t, rid, ReplayIntent(t, chain).value);
        }
      }
    }
  }

  function OptionOn(r: Option<State>, log: Log): Option<State> {
    if r.Some? then Some(r.value.(log := log)) else None
  }

  lemma PhasesOnLedger(before: State, s: State, floor: int, log: Log)
    requires forall b :: CarryoverOf(log, floor, b) == CarryoverOf(s.log, floor, b)
    ensures AddCarryover(NameCarry(before.(log := log), s.(log := log)), floor) == AddCarryover(NameCarry(before, s), floor).(log := log)
  {
    assert CarryoverOf(log, floor, Intraday) == CarryoverOf(s.log, floor, Intraday);
    assert CarryoverOf(log, floor, Positional) == CarryoverOf(s.log, floor, Positional);
  }

  /**
   * Rehydrate does not depend on exits before the floor, nor on any other row without a
   * reservation: without those rows it fails alike, and else rebuilds the same book.
   */
  lemma OldExitsStayOut(s: State, trades: seq<Trade>, floor: int)
    ensures Rehydrate(s.(log := Relevant(s.log, floor)), trades, floor) == OptionOn(Rehydrate(s, trades, floor), Relevant(s.log, floor))
  {
    TradesOnLedger(s, trades, floor);
    var r := ReplayTrades(s, trades);
    if r.Replayed? {
      TradesKeepLedger(s, trades);
      forall b ensures CarryoverOf(Relevant(s.log, floor), floor, b) == CarryoverOf(s.log, floor, b) {
        CarryoverIsRelevant(s.log, floor, b);
      }
      PhasesOnLedger(s, r.s, floor, Relevant(s.log, floor));
    }
  }

  // --- what the exits of the day come to ---

  /** The profit of the exits of one bucket since the floor. */
  ghost function Realized(log: Log, floor: int, b: Bucket): real {
    Sums.Over(ExitsSince(log, floor, b), PnlAt(log))
  }

  lemma CarryoversAreRealized(log: Log, floor: int)
    ensures CarryoverOf(log, floor, Intraday) == Realized(log, floor, Intraday)
    ensures CarryoverOf(log, floor, Positional) == Realized(log, floor, Positional)
    ensures Carryover(log, floor) == Realized(log, floor, Intraday) + Realized(log, floor, Positional)
  {
    CarryoverSplits(log, floor);
    CarryoverIsSum(log, floor, Intraday);
    CarryoverIsSum(log, floor, Positional);
  }

  /** Whatever the open trades, each exit since the floor adds exactly its profit to its bucket and to the total. */
  lemma RehydrateAddsTheDay(b: State, log: Log, open: seq<Trade>, floor: int)
    requires Opened(b, log) && AllReplayable(log, open)
    ensures var r := Rehydrate(b, open, floor);
      && r.Some?
      && r.value.total == b.total + r.value.positional.carry + Realized(log, floor, Intraday) + Realized(log, floor, Positional)
      && r.value.intraday.avail == b.intraday.avail + AllMoved(log, Rids(log, open), Intraday).avail + Realized(log, floor, Intraday)
      && r.value.positional.avail == b.positional.avail + AllMoved(log, Rids(log, open), Positional).avail
                                     + r.value.positional.carry + Realized(log, floor, Positional)
  {
    OpenedRehydrates(b, log, open, floor);
    CarryoversAreRealized(log, floor);
  }

  /** With no open trades a morning holds its shares of the balance and the profit of the day so far. */
  lemma FlatMorning(split: Split, log: Log, balance: real, ts: int, floor: int)
    ensures var b := BootWith(split, log, balance, ts);
            var i, p := Realized(b.log, floor, Intraday), Realized(b.log, floor, Positional);
      Rehydrate(b, [], floor) == Some(b.(
        total := balance + i + p,
        intraday := Part(balance * split.intraday + i, 0.0, 0.0, 0.0),
        positional := Part(balance * split.positional + p, 0.0, 0.0, 0.0)))
  {
    var b := BootWith(split, log, balance, ts);
    CarryoversAreRealized(b.log, floor);
    assert NameCarry(b, b) == b;
    assert Rehydrate(b, [], floor) == Some(AddCarryover(b, floor));
    assert b.intraday == Part(balance * split.intraday, 0.0, 0.0, 0.0);
    assert b.positional == Part(balance * split.positional, 0.0, 0.0, 0.0);
  }

  lemma NothingRealized(log: Log, floor: int, b: Bucket)
    requires forall i :: 0 <= i < |log| && log[i].entryType == RELEASE_USED ==> log[i].ts < floor
    ensures Realized(log, floor, b) == 0.0
  {
    assert ExitsSince(log, floor, b) == {};
  }

  /** So it is the opened book when all exits are of earlier days. */
  lemma EarlierDaysAreOver(split: Split, log: Log, balance: real, ts: int, floor: int)
    requires forall i :: 0 <= i < |log| && log[i].entryType == RELEASE_USED ==> log[i].ts < floor
    ensures Rehydrate(BootWith(split, log, balance, ts), [], floor) == Some(BootWith(split, log, balance, ts))
  {
    var b := BootWith(split, log, balance, ts);
    FlatMorning(split, log, balance, ts, floor);
    NothingRealized(b.log, floor, Intraday);
    NothingRealized(b.log, floor, Positional);
    assert b == b.(total := balance, intraday := Part(balance * split.intraday, 0.0, 0.0, 0.0),
                   positional := Part(balance * split.positional, 0.0, 0.0, 0.0));
  }
}
