/**
 * FundManager itself: the object whose methods update the balances, the reservations and
 * the ledger in place. Each method is proved to end in the state, and to give the outcome,
 * that the functions of Book, Replay and Adopted say.
 */
module FundManagers {
  import opened Options
  import opened Ledger
  import opened CapitalInvariant
  import opened Book
  import opened Replay
  import opened Adopted
  import opened Figures

  class FundManager {
    const split: Split
    const leverage: Leverage

    var initialized: bool
    var total: real
    /** Per bucket: available, reserved, used, and the carry that the broker already took. */
    var intraday: Part
    var positional: Part
    var reservations: map<Rid, Reservation>
    var commitClaims: set<Rid>
    var ledger: Log

    /** Calls of kill_switch.hard_kill made so far. */
    var hardKills: nat

    function Snapshot(): State
      reads this
    {
      State(initialized, total, intraday, positional, reservations, commitClaims, ledger)
    }

    constructor (split: Split, leverage: Leverage, log: Log)
      requires split.Valid()
      ensures Snapshot() == FRESH.(log := log) && this.split == split && this.leverage == leverage && hardKills == 0
    {
      this.split, this.leverage := split, leverage;
      initialized, total := false, 0.0;
      intraday, positional := Part(0.0, 0.0, 0.0, 0.0), Part(0.0, 0.0, 0.0, 0.0);
      reservations, commitClaims, ledger, hardKills := map[], {}, log, 0;
    }

    // --- bucket helpers ---

    function BucketAvail(b: Bucket): real
      reads this
    {
      if b == Intraday then intraday.avail else positional.avail
    }

    method AddAvail(b: Bucket, amount: real)
      modifies `intraday, `positional
      ensures intraday == if b == Intraday then old(intraday).Move(amount, 0.0, 0.0) else old(intraday)
      ensures positional == if b == Positional then old(positional).Move(amount, 0.0, 0.0) else old(positional)
    {
      if b == Intraday {
        intraday := intraday.(avail := intraday.avail + amount);
      } else {
        positional := positional.(avail := positional.avail + amount);
      }
    }

    method AddReserved(b: Bucket, amount: real)
      modifies `intraday, `positional
      ensures intraday == if b == Intraday then old(intraday).Move(0.0, amount, 0.0) else old(intraday)
      ensures positional == if b == Positional then old(positional).Move(0.0, amount, 0.0) else old(positional)
    {
      if b == Intraday {
        intraday := intraday.(reserved := intraday.reserved + amount);
      } else {
        positional := positional.(reserved := positional.reserved + amount);
      }
    }

    method AddUsed(b: Bucket, amount: real)
      modifies `intraday, `positional
      ensures intraday == if b == Intraday then old(intraday).Move(0.0, 0.0, amount) else old(intraday)
      ensures positional == if b == Positional then old(positional).Move(0.0, 0.0, amount) else old(positional)
    {
      if b == Intraday {
        intraday := intraday.(used := intraday.used + amount);
      } else {
        positional := positional.(used := positional.used + amount);
      }
    }

    /** The write-ahead row: nothing is written when the store fails. */
    method WriteLedger(row: Row, writeOk: bool)
      modifies `ledger
      ensures ledger == if writeOk then old(ledger) + [row] else old(ledger)
    {
      if writeOk { ledger := ledger + [row]; }
    }

    method DoReserve(rid: Rid, res: Reservation)
      modifies `intraday, `positional, `reservations
      ensures Snapshot() == ApplyReserve(old(Snapshot()), rid, res)
    {
      AddAvail(res.bucket, -res.margin);
      AddReserved(res.bucket, res.margin);
      reservations := reservations[rid := res];
    }

    method DoRelease(rid: Rid)
      requires rid in reservations
      modifies `intraday, `positional, `reservations
      ensures Snapshot() == ApplyRelease(old(Snapshot()), rid)
    {
      var res := reservations[rid];
      reservations := reservations - {rid};
      AddAvail(res.bucket, res.margin);
      AddReserved(res.bucket, -res.margin);
    }

    method DoCommit(rid: Rid, actual: real, excess: real)
      requires rid in reservations
      modifies `intraday, `positional, `reservations
      ensures Snapshot() == ApplyCommit(old(Snapshot()), rid, actual, excess)
    {
      var res := reservations[rid];
      reservations := reservations - {rid};
      AddReserved(res.bucket, -res.margin);
      AddUsed(res.bucket, actual);
      if excess != 0.0 {
        AddAvail(res.bucket, excess);
      }
    }

    /** The check that closes a mutator; a violation is reported to the kill switch. */
    method Close(o: Outcome) returns (r: Outcome)
      modifies `hardKills
      ensures r == Settle(split, Snapshot(), o)
      ensures hardKills == old(hardKills) + (if r != o then 1 else 0)
    {
      r := o;
      if o.Ok? {
        var v := CheckInvariant(split, Snapshot());
        if v.Some? {
          r := Raised(Violated(v.value));
          hardKills := hardKills + 1;
        }
      }
    }

    // --- mutators ---

    method Initialize(balance: real, ts: int, writeOk: bool) returns (r: Outcome)
      modifies this
      ensures (Snapshot(), r) == Book.Initialize(split, old(Snapshot()), balance, ts, writeOk)
    {
      if initialized { return Refused(0.0); }
      WriteLedger(Row(INIT, ts, balance, Both, 0.0, balance, None, None, None, 0, 0.0, 0.0), writeOk);
      if !writeOk { return Raised(WriteFailed); }
      total := balance;
      intraday := Part(balance * split.intraday, 0.0, 0.0, 0.0);
      positional := Part(balance * split.positional, 0.0, 0.0, 0.0);
      initialized := true;
      assert Snapshot() == Book.Initialize(split, old(Snapshot()), balance, ts, writeOk).0;
      return Ok(balance);
    }

    method Reserve(rid: Rid, symbol: string, qty: int, price: real, intent: Intent, signal: Option<string>,
                   strategy: Option<string>, ts: int, writeOk: bool) returns (r: Outcome)
      modifies this
      ensures var (s, o) := Book.Reserve(split, leverage, old(Snapshot()), rid, symbol, qty, price, intent, signal,
                                         strategy, ts, writeOk);
              Snapshot() == s && r == Settle(split, s, o)
    {
      r := ReserveBody(rid, symbol, qty, price, intent, signal, strategy, ts, writeOk);
      r := Close(r);
    }

    method ReserveBody(rid: Rid, symbol: string, qty: int, price: real, intent: Intent, signal: Option<string>,
                       strategy: Option<string>, ts: int, writeOk: bool) returns (r: Outcome)
      modifies this
      ensures (Snapshot(), r) == Book.Reserve(split, leverage, old(Snapshot()), rid, symbol, qty, price, intent, signal,
                                              strategy, ts, writeOk)
    {
      if !initialized { return Raised(NotInitialized); }
      var bucket := BucketFor(intent);
      if bucket.None? { return Raised(UnknownIntent); }
      var b := bucket.value;
      var base := RequiredMargin(qty, price, intent, leverage);
      var margin := GrossMargin(split, base);
      var before := BucketAvail(b);
      if margin > before { return Refused(margin); }
      WriteLedger(Row(RESERVE, ts, margin, One(b), before, before - margin, signal, Some(rid), None, qty, margin, 0.0),
                  writeOk);
      if !writeOk { return Raised(WriteFailed); }
      DoReserve(rid, Reservation(symbol, qty, price, intent, margin, b, signal, ts, SlmBuffer(split, base), strategy));
      return Ok(margin);
    }

    method Release(rid: Rid, ts: int, writeOk: bool) returns (r: Outcome)
      modifies this
      ensures var (s, o) := Book.Release(old(Snapshot()), rid, ts, writeOk);
              Snapshot() == s && r == Settle(split, s, o)
    {
      if !initialized { return Raised(NotInitialized); }
      if rid !in reservations { return Refused(0.0); }
      var res := reservations[rid];
      var before := BucketAvail(res.bucket);
      WriteLedger(Row(RELEASE, ts, -res.margin, One(res.bucket), before, before + res.margin, res.signal, Some(rid),
                      None, 0, -res.margin, 0.0), writeOk);
      if !writeOk { return Raised(WriteFailed); }
      DoRelease(rid);
      r := Close(Ok(res.margin));
    }

    method ReleaseSlmBuffer(rid: Rid, ts: int, writeOk: bool) returns (r: Outcome)
      modifies this
      ensures var (s, o) := Book.ReleaseSlmBuffer(old(Snapshot()), rid, ts, writeOk);
              Snapshot() == s && r == Settle(split, s, o)
    {
      if !initialized { return Raised(NotInitialized); }
      if rid !in reservations { return Refused(0.0); }
      var res := reservations[rid];
      if res.slmBuffer <= 0.0 { return Refused(0.0); }
      var freed := res.slmBuffer;
      var before := BucketAvail(res.bucket);
      WriteLedger(Row(RELEASE, ts, freed, One(res.bucket), before, before + freed, None, Some(rid), None, 0, -freed, 0.0),
                  writeOk);
      if !writeOk { return Raised(WriteFailed); }
      AddAvail(res.bucket, freed);
      AddReserved(res.bucket, -freed);
      reservations := reservations[rid := res.(margin := res.margin - freed, slmBuffer := 0.0, strategy := None)];
      r := Close(Ok(freed));
    }

    method TopUpReservation(rid: Rid, extra: real, ts: int, writeOk: bool) returns (r: Outcome)
      modifies this
      ensures var (s, o) := Book.TopUp(old(Snapshot()), rid, extra, ts, writeOk);
              Snapshot() == s && r == Settle(split, s, o)
    {
      if extra <= 0.0 { return Raised(BadAmount); }
      if !initialized { return Raised(NotInitialized); }
      if rid !in reservations { return Raised(UnknownReservation); }
      var res := reservations[rid];
      var before := BucketAvail(res.bucket);
      if extra > before { return Refused(extra); }
      WriteLedger(Row(TOP_UP, ts, extra, One(res.bucket), before, before - extra, res.signal, Some(rid), None, 0, extra,
                      0.0), writeOk);
      if !writeOk { return Raised(WriteFailed); }
      AddAvail(res.bucket, -extra);
      AddReserved(res.bucket, extra);
      reservations := reservations[rid := res.(margin := res.margin + extra, strategy := None)];
      r := Close(Ok(res.margin + extra));
    }

    /** BL-4: whatever is raised here also reaches the kill switch, once more for a violation. */
    method CommitToUsed(rid: Rid, price: real, qty: int, ts: int, writeOk: bool) returns (r: Outcome)
      modifies this
      ensures var (s, o) := Book.CommitToUsed(leverage, old(Snapshot()), rid, price, qty, ts, writeOk);
              Snapshot() == s && r == Settle(split, s, o)
      ensures hardKills - old(hardKills) == if !r.Raised? then 0 else if r.error.Violated? then 2 else 1
    {
      r := CommitBody(rid, price, qty, ts, writeOk);
      if r.Raised? { hardKills := hardKills + 1; }
    }

    method CommitBody(rid: Rid, price: real, qty: int, ts: int, writeOk: bool) returns (r: Outcome)
      modifies this
      ensures var (s, o) := Book.CommitToUsed(leverage, old(Snapshot()), rid, price, qty, ts, writeOk);
              Snapshot() == s && r == Settle(split, s, o)
      ensures hardKills - old(hardKills) == if r.Raised? && r.error.Violated? then 1 else 0
    {
      if !initialized { return Raised(NotInitialized); }
      if rid !in reservations { return Raised(UnknownReservation); }
      var res := reservations[rid];
      var actual := RequiredMargin(qty, price, res.intent, leverage);
      var excess := res.margin - actual;
      var before := BucketAvail(res.bucket);
      WriteLedger(Row(COMMIT, ts, actual, One(res.bucket), before, before + excess, res.signal, Some(rid), None, qty,
                      0.0, 0.0), writeOk);
      if !writeOk { return Raised(WriteFailed); }
      DoCommit(rid, actual, excess);
      r := Close(Ok(actual));
    }

    /** `rid` is the reservation_id of the trade row named by `trade`, when there is one. */
    method ReleaseUsed(trade: Option<TradeId>, rid: Option<Rid>, exit: real, qty: int, intent: Intent, entry: real,
                       direction: Direction, costs: real, ts: int, writeOk: bool) returns (r: Outcome)
      modifies this
      ensures var (s, o) := Book.ReleaseUsed(leverage, old(Snapshot()), trade, rid, exit, qty, intent, entry, direction,
                                             costs, ts, writeOk);
              Snapshot() == s && r == Settle(split, s, o)
      ensures total == old(total) + if old(initialized) && writeOk && !intent.Unknown?
                                    then Earned(direction, entry, exit, qty, costs) else 0.0
    {
      PnlInPrices(direction, entry, exit, qty, costs);
      r := ReleaseUsedBody(trade, rid, exit, qty, intent, entry, direction, costs, ts, writeOk);
      r := Close(r);
    }

    method ReleaseUsedBody(trade: Option<TradeId>, rid: Option<Rid>, exit: real, qty: int, intent: Intent, entry: real,
                           direction: Direction, costs: real, ts: int, writeOk: bool) returns (r: Outcome)
      modifies this
      ensures (Snapshot(), r) == Book.ReleaseUsed(leverage, old(Snapshot()), trade, rid, exit, qty, intent, entry,
                                                  direction, costs, ts, writeOk)
    {
      if !initialized { return Raised(NotInitialized); }
      var bucket := BucketFor(intent);
      if bucket.None? { return Raised(UnknownIntent); }
      var margin := ReleaseMargin(leverage, ledger, rid, qty, entry, intent);
      var pnl := NetPnl(direction, entry, exit, qty, costs);
      if !writeOk { return Raised(WriteFailed); }
      DoReleaseUsed(bucket.value, margin, pnl, trade, qty, ts);
      return Ok(margin);
    }

    method DoReleaseUsed(b: Bucket, margin: real, pnl: real, trade: Option<TradeId>, qty: int, ts: int)
      modifies `intraday, `positional, `total, `ledger
      ensures Snapshot() == Freed(old(Snapshot()), b, margin, pnl, trade, qty, ts)
    {
      var before := BucketAvail(b);
      WriteLedger(Row(RELEASE_USED, ts, -margin, One(b), before, before + margin + pnl, None, None, trade, qty, -margin,
                      pnl), true);
      AddUsed(b, -margin);
      AddAvail(b, margin + pnl);
      total := total + pnl;
    }

    method SyncFromBroker(balance: real, ts: int, writeOk: bool) returns (r: Outcome, events: seq<Drift>)
      modifies this
      ensures var (s, o) := Book.SyncFromBroker(split, old(Snapshot()), balance, ts, writeOk);
              && Snapshot() == s && r == Settle(split, s, o)
              && events == if o.Ok? then SyncEvents(old(Snapshot()), s) else []
    {
      events := [];
      if !initialized { return Raised(NotInitialized), events; }
      var oldTotal := total;
      var newTotal := balance + (intraday.carry + positional.carry);
      WriteLedger(Row(SYNC, ts, newTotal - oldTotal, Both, oldTotal, newTotal, None, None, None, 0, 0.0, 0.0), writeOk);
      if !writeOk { return Raised(WriteFailed), events; }
      total := newTotal;
      var intradayTotal, positionalTotal := BucketBase(split, Snapshot(), Intraday), BucketBase(split, Snapshot(), Positional);
      intraday := intraday.(avail := intradayTotal - intraday.reserved - intraday.used);
      positional := positional.(avail := positionalTotal - positional.reserved - positional.used);
      var delta := newTotal - oldTotal;
      if Abs(delta) > 1.0 {
        events := events + [Drift(TotalDrift, oldTotal, newTotal, delta)];
      }
      if intraday.avail < -TOLERANCE || positional.avail < -TOLERANCE {
        var gap := if intraday.avail < positional.avail then intraday.avail else positional.avail;
        events := events + [Drift(BucketOverflow, 0.0, gap, Abs(gap))];
      }
      r := Close(Ok(newTotal));
    }

    method ResetDailyPnl(ts: int, writeOk: bool) returns (r: Outcome)
      modifies this
      ensures (Snapshot(), r) == Book.ResetDailyPnl(old(Snapshot()), ts, writeOk)
    {
      var realized := DailyPnl(ledger, Day(ts));
      WriteLedger(Row(RESET_PNL, ts, 0.0, Both, realized, 0.0, None, None, None, 0, 0.0, -realized), writeOk);
      if !writeOk { return Raised(WriteFailed); }
      return Ok(realized);
    }

    // --- recovery of adopted entries ---

    method RestoreReserve(t: Trade) returns (rid: Option<Rid>)
      modifies `intraday, `positional, `reservations
      ensures (Snapshot(), rid) == Restore(old(Snapshot()), t)
    {
      rid := ResolveRecovery(ledger, t);
      if rid.None? || rid.value == "" { return None; }
      if rid.value in reservations { return; }
      var row := ReserveRow(ledger, rid.value);
      if row.None? { return None; }
      var b := RowBucket(row.value);
      DoReserve(rid.value, Reservation(t.symbol, t.qtyPlanned, t.entryTarget,
                                       if b == Intraday then INTRADAY else DELIVERY, row.value.amount, b,
                                       row.value.signal, row.value.ts, 0.0, None));
    }

    /** The locked half of commit_adopted_entry. */
    method ClaimAdopted(t: Trade) returns (g: Guarded)
      modifies `intraday, `positional, `reservations, `commitClaims
      ensures (Snapshot(), g) == AdoptGuard(old(Snapshot()), t)
    {
      if !initialized { return NotReady; }
      var resolved := ResolveRecovery(ledger, t);
      if resolved.Some? && resolved.value != "" && CommitCount(ledger, resolved.value) > 0 { return AlreadyCommitted; }
      var rid := RestoreReserve(t);
      if rid.None? { return NoReservation; }
      if rid.value in commitClaims { return InFlight; }
      commitClaims := commitClaims + {rid.value};
      return Granted(rid.value);
    }

    /**
     * Alone, the call commits an adoptable entry, once, and no other; it gives the claim back
     * whatever happened, and never meets a missing reservation.
     */
    method CommitAdoptedEntry(t: Trade, price: real, qty: int, ts: int, writeOk: bool) returns (r: Option<Outcome>)
      modifies this
      ensures r != Some(Raised(UnknownReservation))
      ensures var (s', o) := AdoptAlone(leverage, old(Snapshot()), t, price, qty, ts, writeOk);
              Snapshot() == s' && r == if o.Some? then Some(Settle(split, s', o.value)) else None
      ensures forall rid :: Names(old(ledger), t, rid) && Adoptable(old(Snapshot()), rid) && writeOk ==>
                r.Some? && CommitCount(ledger, rid) == 1 && rid !in reservations && rid !in commitClaims
      ensures (forall rid :: !(Names(old(ledger), t, rid) && Adoptable(old(Snapshot()), rid))) ==> r == None && ledger == old(ledger)
    {
      ghost var s := Snapshot();
      AdoptedIff(leverage, s, t, price, qty, ts);
      var g := ClaimAdopted(t);
      if !g.Granted? { return None; }
      var o := CommitToUsed(g.rid, price, qty, ts, writeOk);
      ClaimsUnchecked(split, Snapshot(), commitClaims - {g.rid});
      commitClaims := commitClaims - {g.rid};
      return Some(o);
    }

    method ReleaseAdoptedReservation(t: Trade, ts: int, writeOk: bool) returns (r: Outcome)
      modifies this
      ensures var (s, o) := ReleaseAdopted(old(Snapshot()), t, ts, writeOk);
              Snapshot() == s && r == Settle(split, s, o)
    {
      if !initialized { return Raised(NotInitialized); }
      var rid := ResolveRecovery(ledger, t);
      if rid.None? || rid.value == "" { return Refused(0.0); }
      if rid.value !in reservations {
        var restored := RestoreReserve(t);
        if restored.None? { return Refused(0.0); }
      }
      r := Release(rid.value, ts, writeOk);
    }

    // --- rehydrate ---

    /** The replay loop over one chain; false is the KeyError of a second commit. */
    method ReplayRows(chain: Log, t: Trade, rid: Rid, intent: Intent, anomalies: seq<Anomaly>)
      returns (ok: bool, applied: bool, found: seq<Anomaly>)
      modifies `intraday, `positional, `reservations
      ensures var p := ReplayChain(Progress(old(Snapshot()), false, false, anomalies), chain, t, rid, intent);
              && ok == p.Progress?
              && (ok ==> Snapshot() == p.s && applied == p.applied && found == p.anomalies)
    {
      ghost var start := Progress(Snapshot(), false, false, anomalies);
      var sawReserve := false;
      ok, applied, found := true, false, anomalies;
      var i := 0;
      assert chain[..0] == [];
      while i < |chain|
        invariant 0 <= i <= |chain| && ok
        invariant ReplayChain(start, chain[..i], t, rid, intent) == Progress(Snapshot(), sawReserve, applied, found)
      {
        var row := chain[i];
        assert Front(chain[..i + 1]) == chain[..i] && Last(chain[..i + 1]) == row;
        if row.entryType == RESERVE {
          if !sawReserve {
            DoReserve(rid, Reservation(t.symbol, ReplayQty(t), ReplayPrice(t), intent, row.amount, RowBucket(row), t.signal,
                                       row.ts, 0.0, None));
            sawReserve, applied := true, true;
          }
        } else if row.entryType == COMMIT {
          if !sawReserve {
            found := found + [CommitFirst(t.id)];
          } else if rid !in reservations {
            KeyErrorStays(start, chain, i + 1, t, rid, intent);
            ok := false;
            return;
          } else {
            DoCommit(rid, row.amount, row.after - row.before);
            applied := true;
          }
        } else {
          found := found + [NotApplied(t.id, row.entryType)];
        }
        i := i + 1;
      }
      assert chain[..|chain|] == chain;
    }

    method ReplayOpenTrade(t: Trade, anomalies: seq<Anomaly>)
      returns (ok: bool, applied: bool, found: seq<Anomaly>)
      modifies `intraday, `positional, `reservations
      ensures forall count: nat :: TradeOutcome(Replayed(old(Snapshot()), count, anomalies), t, ok, applied, found, Snapshot())
    {
      ok, applied, found := true, false, anomalies;
      if t.signal.None? {
        found := found + [NoSignal(t.id)];
        return;
      }
      var rid := Resolve(ledger, t);
      if rid.None? {
        found := found + [NoReserveRow(t.id)];
        return;
      }
      var chain := Chain(ledger, rid.value);
      if chain == [] {
        found := found + [NoRows(t.id)];
        return;
      }
      var intent := ReplayIntent(t, chain);
      if intent.None? {
        found := found + [NoProduct(t.id)];
        return;
      }
      ok, applied, found := ReplayRows(chain, t, rid.value, intent.value, anomalies);
    }

    /** The whole rehydrate; the last component is None when replay hit a KeyError. */
    method RehydrateFromOpenTrades(trades: seq<Trade>, floor: int)
      returns (r: Option<Outcome>, replayed: nat, anomalies: seq<Anomaly>)
      modifies this
      ensures !old(initialized) ==> r == Some(Raised(NotInitialized)) && Snapshot() == old(Snapshot())
      ensures old(initialized) ==>
                match Rehydrate(old(Snapshot()), trades, floor)
                case None => r == None
                case Some(s) => Snapshot() == s && r == Some(Settle(split, s, Ok(s.total)))
                                && replayed == ReplayTrades(old(Snapshot()), trades).count
                                && anomalies == ReplayTrades(old(Snapshot()), trades).anomalies
    {
      replayed, anomalies := 0, [];
      if !initialized { return Some(Raised(NotInitialized)), replayed, anomalies; }
      var committedBefore := positional.reserved + positional.used;
      ghost var start := Snapshot();
      var i := 0;
      assert trades[..0] == [];
      while i < |trades|
        invariant 0 <= i <= |trades|
        invariant ReplayTrades(start, trades[..i]) == Replayed(Snapshot(), replayed, anomalies)
      {
        assert trades[..i + 1][..i] == trades[..i] && trades[..i + 1][i] == trades[i];
        var ok, applied, found := ReplayOpenTrade(trades[i], anomalies);
        assert TradeOutcome(ReplayTrades(start, trades[..i]), trades[i], ok, applied, found, Snapshot());
        if !ok {
          FailedStays(start, trades, i + 1);
          return None, replayed, anomalies;
        }
        if applied { replayed := replayed + 1; }
        anomalies := found;
        i := i + 1;
      }
      assert trades[..|trades|] == trades;
      NameReplayed(start, committedBefore);
      ApplyCarryover(floor);
      var o := Close(Ok(total));
      return Some(o), replayed, anomalies;
    }

    method NameReplayed(ghost before: State, committedBefore: real)
      requires committedBefore == before.positional.reserved + before.positional.used
      modifies `intraday, `positional, `total
      ensures Snapshot() == NameCarry(before, old(Snapshot()))
    {
      intraday := intraday.(carry := 0.0);
      positional := positional.(carry := positional.reserved + positional.used - committedBefore);
      positional := positional.(avail := positional.avail + positional.carry);
      total := total + positional.carry;
    }

    /** Phase 2, row by row. */
    method ApplyCarryover(floor: int)
      modifies `intraday, `positional, `total
      ensures Snapshot() == AddCarryover(old(Snapshot()), floor)
    {
      var i := 0;
      ghost var start := Snapshot();
      assert ledger[..0] == [];
      while i < |ledger|
        invariant 0 <= i <= |ledger|
        invariant Snapshot() == AddCarryover(start.(log := ledger[..i]), floor).(log := ledger)
      {
        var row := ledger[i];
        assert Front(ledger[..i + 1]) == ledger[..i] && Last(ledger[..i + 1]) == row;
        if row.entryType == RELEASE_USED && row.ts >= floor && row.pnlDelta != 0.0 {
          AddAvail(RowBucket(row), row.pnlDelta);
          total := total + row.pnlDelta;
        }
        i := i + 1;
      }
      assert ledger[..|ledger|] == ledger;
    }
  }

  /** The closing check does not look at the claims. */
  lemma ClaimsUnchecked(split: Split, s: State, claims: set<Rid>)
    ensures CheckInvariant(split, s.(claims := claims)) == CheckInvariant(split, s)
  {
    var s' := s.(claims := claims);
    assert s'.intraday == s.intraday && s'.positional == s.positional && s'.total == s.total;
    assert forall b :: BucketBase(split, s', b) == BucketBase(split, s, b);
  }

  ghost predicate TradeOutcome(acc: Replayed, t: Trade, ok: bool, applied: bool, found: seq<Anomaly>, s: State) {
    match ReplayTrade(acc, t)
    case Failed => !ok
    case Replayed(s', count, anomalies) =>
      ok && s == s' && found == anomalies && acc.Replayed? && count == acc.count + (if applied then 1 else 0)
  }

  lemma {:induction false} KeyErrorStays(acc: Progress, chain: Log, n: nat, t: Trade, rid: Rid, intent: Intent)
    requires n <= |chain| && ReplayChain(acc, chain[..n], t, rid, intent).KeyError?
    ensures ReplayChain(acc, chain, t, rid, intent).KeyError?
    decreases |chain|
  {
    if n == |chain| {
      assert chain[..n] == chain;
    } else {
      assert Front(chain)[..n] == chain[..n];
      KeyErrorStays(acc, Front(chain), n, t, rid, intent);
    }
  }

  lemma {:induction false} FailedStays(s: State, trades: seq<Trade>, n: nat)
    requires n <= |trades| && ReplayTrades(s, trades[..n]).Failed?
    ensures ReplayTrades(s, trades).Failed?
    decreases |trades|
  {
    if n == |trades| {
      assert trades[..n] == trades;
    } else {
      assert trades[..|trades| - 1][..n] == trades[..n];
      FailedStays(s, trades[..|trades| - 1], n);
    }
  }
}
