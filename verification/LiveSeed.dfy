/**
 * The live boot: main.py seeds the capital with the broker's net margin minus the day's
 * realized profit, rehydrates, and re-syncs at market open.
 */
module LiveSeed {
  import opened Options
  import opened Ledger
  import opened CapitalInvariant
  import opened Book
  import opened Runs
  import opened Replay
  import opened Restart

  function ComputeLiveSeed(net: real, log: Log, floor: int): real {
    net - Carryover(log, floor)
  }

  /** Whatever phase 1 does, anomalies included, it leaves total, carry and ledger alone. */
  ghost predicate SameAccount(s: State, s': State) {
    && s'.total == s.total && s'.log == s.log && s'.initialized == s.initialized
    && s'.intraday.carry == s.intraday.carry && s'.positional.carry == s.positional.carry
  }

  lemma {:induction false} ChainKeepsAccount(acc: Progress, chain: Log, t: Trade, rid: Rid, intent: Intent)
    requires acc.Progress?
    ensures var r := ReplayChain(acc, chain, t, rid, intent); r.Progress? ==> SameAccount(acc.s, r.s)
  {
    if chain != [] {
      ChainKeepsAccount(acc, Front(chain), t, rid, intent);
    }
  }

  lemma {:induction false} TradesKeepAccount(s: State, trades: seq<Trade>)
    ensures var r := ReplayTrades(s, trades); r.Replayed? ==> SameAccount(s, r.s)
  {
    if trades != [] {
      var n := |trades| - 1;
      TradesKeepAccount(s, trades[..n]);
      var acc, t := ReplayTrades(s, trades[..n]), trades[n];
      if acc.Replayed? && t.signal.Some? && Resolve(acc.s.log, t).Some? {
        var rid := Resolve(acc.s.log, t).value;
        var chain := Chain(acc.s.log, rid);
        if chain != [] && ReplayIntent(t, chain).Some? {
          ChainKeepsAccount(Progress(acc.s, false, false, acc.anomalies), chain, t, rid, ReplayIntent(t, chain).value);
        }
      }
    }
  }

  /** The live account after boot: the seed's subtraction and phase 2's addition cancel, and the carry is on top. */
  lemma SeedCancels(split: Split, log: Log, open: seq<Trade>, net: real, ts: int, floor: int)
    requires split.Valid()
    ensures var r := Rehydrate(BootWith(split, log, ComputeLiveSeed(net, log, floor), ts), open, floor);
            r.Some? ==> r.value.initialized && r.value.total == net + r.value.positional.carry && r.value.intraday.carry == 0.0
  {
    var b := BootWith(split, log, ComputeLiveSeed(net, log, floor), ts);
    BootOpens(split, log, ComputeLiveSeed(net, log, floor), ts);
    OpenedReads(b, log, map[], floor);
    TradesKeepAccount(b, open);
    CarryoverSplits(b.log, floor);
  }

  /** Each bucket holds its base, and the bases are the account. */
  predicate OnBase(split: Split, s: State) {
    && s.intraday.Sum() == BucketBase(split, s, Intraday)
    && s.positional.Sum() == BucketBase(split, s, Positional)
    && BucketBase(split, s, Intraday) + BucketBase(split, s, Positional) == s.total
  }

  lemma SyncRestsOnBase(split: Split, s: State, net: real, ts: int)
    requires split.Valid() && s.initialized
    ensures var s' := SyncFromBroker(split, s, net, ts, true).0;
            && OnBase(split, s') && s'.initialized && s'.total == net + s.Carry() && s'.Carry() == s.Carry()
  {
    BasesSumToTotal(split, s.(total := net + s.Carry()));
  }

  lemma SyncTwice(split: Split, s: State, net: real, ts: int)
    requires split.Valid() && s.initialized && OnBase(split, s) && s.total == net + s.Carry()
    ensures SameBook(s, SyncFromBroker(split, s, net, ts, true).0)
  {
  }

  /**
   * Boot, rehydrate whatever trades, then sync with the same net: the total stays at net plus
   * the positional carry, no total drift is published, every bucket rests on its base, and
   * syncing again changes nothing but the ledger.
   */
  lemma LiveSeedCancellation(split: Split, log: Log, open: seq<Trade>, net: real, floor: int, ts: int, ts1: int, ts2: int)
    requires split.Valid()
    requires Rehydrate(BootWith(split, log, ComputeLiveSeed(net, log, floor), ts), open, floor).Some?
    ensures var r := Rehydrate(BootWith(split, log, ComputeLiveSeed(net, log, floor), ts), open, floor).value;
            var s := SyncFromBroker(split, r, net, ts1, true).0;
            && s.total == r.total == net + r.positional.carry
            && (forall e :: e in SyncEvents(r, s) ==> e.source != TotalDrift)
            && OnBase(split, s) && s.Gap() == 0.0
            && SameBook(s, SyncFromBroker(split, s, net, ts2, true).0)
  {
    SeedCancels(split, log, open, net, ts, floor);
    var r := Rehydrate(BootWith(split, log, ComputeLiveSeed(net, log, floor), ts), open, floor).value;
    SyncRestsOnBase(split, r, net, ts1);
    SyncTwice(split, SyncFromBroker(split, r, net, ts1, true).0, net, ts2);
  }
}
