/**
 * rehydrate_from_open_trades: rebuilding memory from the ledger and the open trades.
 * Replay applies RESERVE and COMMIT rows only; any other row of a chain becomes an anomaly.
 */
module Replay {
  import opened Options
  import opened Ledger
  import opened CapitalInvariant
  import opened Book
  import Sums

  /** A row of get_all_open_trades. */
  datatype Trade = Trade(
    id: TradeId, signal: Option<string>, rid: Option<Rid>, symbol: string,
    qtyPlanned: int, qtyFilled: int, entryActual: Option<real>, entryTarget: real, product: Option<string>)

  datatype Anomaly =
    | NoSignal(trade: TradeId)
    | NoReserveRow(trade: TradeId)
    | NoRows(trade: TradeId)
    | NoProduct(trade: TradeId)
    | CommitFirst(trade: TradeId)
    | NotApplied(trade: TradeId, entryType: EntryType)

  function ProductIntent(product: Option<string>): Option<Intent> {
    match product
    case None => None
    case Some(p) =>
      if p == "MIS" then Some(INTRADAY)
      else if p == "CO" then Some(COVER_ORDER)
      else if p == "CNC" || p == "NRML" then Some(DELIVERY)
      else None
  }

  /** The column when it is set, else the latest reserve of the signal. */
  function Resolve(log: Log, t: Trade): Option<Rid> {
    if t.rid.Some? && t.rid.value != "" then t.rid
    else if t.signal.Some? then RidForSignal(log, t.signal.value)
    else None
  }

  function FirstReserve(chain: Log): Option<Row> {
    if chain == [] then None
    else
      var earlier := FirstReserve(Front(chain));
      if earlier.Some? then earlier else if Last(chain).entryType == RESERVE then Some(Last(chain)) else None
  }

  function ReplayIntent(t: Trade, chain: Log): Option<Intent> {
    var mapped := ProductIntent(t.product);
    if mapped.Some? then mapped
    else
      var first := FirstReserve(chain);
      if first.None? then None else Some(if RowBucket(first.value) == Intraday then INTRADAY else DELIVERY)
  }

  function ReplayQty(t: Trade): int {
    if t.qtyFilled > 0 then t.qtyFilled else t.qtyPlanned
  }

  function ReplayPrice(t: Trade): real {
    if t.entryActual.Some? && t.entryActual.value != 0.0 then t.entryActual.value else t.entryTarget
  }

  /** A replay in progress; KeyError is the pop of a reservation that is not there. */
  datatype Progress =
    | KeyError
    | Progress(s: State, sawReserve: bool, applied: bool, anomalies: seq<Anomaly>)

  function ReplayRow(acc: Progress, row: Row, t: Trade, rid: Rid, intent: Intent): Progress {
    if acc.KeyError? then acc
    else match row.entryType
      case RESERVE =>
        if acc.sawReserve then acc
        else
          var res := Reservation(t.symbol, ReplayQty(t), ReplayPrice(t), intent, row.amount, RowBucket(row), t.signal,
                                 row.ts, 0.0, None);
          acc.(s := ApplyReserve(acc.s, rid, res), sawReserve := true, applied := true)
      case COMMIT =>
        if !acc.sawReserve then acc.(anomalies := acc.anomalies + [CommitFirst(t.id)])
        else if rid !in acc.s.live then KeyError
        else acc.(s := ApplyCommit(acc.s, rid, row.amount, row.after - row.before), applied := true)
      case other => acc.(anomalies := acc.anomalies + [NotApplied(t.id, other)])
  }

  function ReplayChain(acc: Progress, chain: Log, t: Trade, rid: Rid, intent: Intent): Progress {
    if chain == [] then acc
    else ReplayRow(ReplayChain(acc, Front(chain), t, rid, intent), Last(chain), t, rid, intent)
  }

  datatype Replayed = Failed | Replayed(s: State, count: nat, anomalies: seq<Anomaly>)

  function ReplayTrade(acc: Replayed, t: Trade): Replayed {
    if acc.Failed? then acc
    else if t.signal.None? then acc.(anomalies := acc.anomalies + [NoSignal(t.id)])
    else
      var rid := Resolve(acc.s.log, t);
      if rid.None? then acc.(anomalies := acc.anomalies + [NoReserveRow(t.id)])
      else
        var chain := Chain(acc.s.log, rid.value);
        if chain == [] then acc.(anomalies := acc.anomalies + [NoRows(t.id)])
        else
          var intent := ReplayIntent(t, chain);
          if intent.None? then acc.(anomalies := acc.anomalies + [NoProduct(t.id)])
          else
            match ReplayChain(Progress(acc.s, false, false, acc.anomalies), chain, t, rid.value, intent.value)
            case KeyError => Failed
            case Progress(s', _, applied, anomalies) => Replayed(s', acc.count + (if applied then 1 else 0), anomalies)
  }

  function ReplayTrades(s: State, trades: seq<Trade>): Replayed {
    if trades == [] then Replayed(s, 0, [])
    else ReplayTrade(ReplayTrades(s, trades[..|trades| - 1]), trades[|trades| - 1])
  }

  /** What phase 1 put into the positional bucket is carry: base and total are lifted by it. */
  function NameCarry(before: State, s: State): State {
    var carry := (s.positional.reserved + s.positional.used) - (before.positional.reserved + before.positional.used);
    s.(intraday := s.intraday.(carry := 0.0),
       positional := s.positional.(carry := carry, avail := s.positional.avail + carry),
       total := s.total + carry)
  }

  /** Phase 2: the day's realized profit and loss, per bucket. */
  function AddCarryover(s: State, floor: int): State {
    var i, p := CarryoverOf(s.log, floor, Intraday), CarryoverOf(s.log, floor, Positional);
    s.(intraday := s.intraday.(avail := s.intraday.avail + i),
       positional := s.positional.(avail := s.positional.avail + p),
       total := s.total + i + p)
  }

  /** The state at the end of rehydrate; the closing check may still raise on it. */
  function Rehydrate(s: State, trades: seq<Trade>, floor: int): Option<State> {
    match ReplayTrades(s, trades)
    case Failed => None
    case Replayed(s1, _, _) => Some(AddCarryover(NameCarry(s, s1), floor))
  }

  // --- what one chain amounts to ---

  /**
   * A chain read as the life of a reservation: `first` is what RESERVE took, `skipped` what
   * the rows add that replay skips, and a commit put `amount` to use and gave `excess` back.
   * `plain` says that there were no rows to skip.
   */
  datatype Phase =
    | Absent
    | Open(bucket: Bucket, first: real, skipped: real, plain: bool)
    | Committed(bucket: Bucket, first: real, skipped: real, plain: bool, excess: real, amount: real)
    | Broken

  function NextPhase(p: Phase, row: Row): Phase {
    match p
    case Absent =>
      if row.entryType == RESERVE && row.scope.One? && row.marginDelta == row.amount
      then Open(row.scope.bucket, row.amount, 0.0, true) else Broken
    case Open(b, first, skipped, plain) =>
      if row.scope != One(b) then Broken
      else if row.entryType in {TOP_UP, RELEASE} then Open(b, first, skipped + row.marginDelta, false)
      else if row.entryType == COMMIT && row.marginDelta == 0.0 && (plain ==> row.after - row.before == first - row.amount)
      then Committed(b, first, skipped, plain, row.after - row.before, row.amount)
      else Broken
    case _ => Broken
  }

  function ChainPhase(chain: Log): Phase {
    if chain == [] then Absent else NextPhase(ChainPhase(Front(chain)), Last(chain))
  }

  function PhaseOf(log: Log, rid: Rid): Phase {
    ChainPhase(Chain(log, rid))
  }

  /** Sum of margin_delta over the rows that replay skips. */
  function SkippedDelta(chain: Log): real {
    if chain == [] then 0.0
    else SkippedDelta(Front(chain)) + (if Last(chain).entryType in {RESERVE, COMMIT} then 0.0 else Last(chain).marginDelta)
  }

  /** The phase keeps the skipped rows' sum; with the RESERVE amount it is the ledger's margin of the chain. */
  lemma {:induction false} SkippedInPhase(chain: Log)
    ensures var p := ChainPhase(chain); p.Open? || p.Committed? ==> p.skipped == SkippedDelta(chain) && (p.plain ==> p.skipped == 0.0)
    ensures ChainPhase(chain).Absent? <==> chain == []
  {
    if chain != [] {
      SkippedInPhase(Front(chain));
    }
  }

  lemma {:induction false} MarginInPhase(log: Log, rid: Rid)
    ensures var p := PhaseOf(log, rid); p.Open? || p.Committed? ==> MarginOf(log, rid) == p.first + p.skipped
    ensures PhaseOf(log, rid).Absent? ==> MarginOf(log, rid) == 0.0
  {
    if log != [] {
      MarginInPhase(Front(log), rid);
      if Last(log).rid == Some(rid) { Snoc(Chain(Front(log), rid), Last(log)); } else { assert Chain(Front(log), rid) + [] == Chain(Front(log), rid); }
      assert PhaseOf(log, rid) == if Last(log).rid == Some(rid) then NextPhase(PhaseOf(Front(log), rid), Last(log)) else PhaseOf(Front(log), rid);
    }
  }

  lemma {:induction false} LiveChainHasReserve(chain: Log)
    ensures ChainPhase(chain).Open? || ChainPhase(chain).Committed? ==> FirstReserve(chain).Some?
    ensures ChainPhase(chain).Absent? ==> chain == []
  {
    if chain != [] {
      LiveChainHasReserve(Front(chain));
    }
  }

  /** The part of a bucket that replaying a chain in phase `p` moves. */
  function Moved(p: Phase, b: Bucket): Part {
    match p
    case Open(bucket, first, _, _) => if bucket == b then Part(-first, first, 0.0, 0.0) else Part(0.0, 0.0, 0.0, 0.0)
    case Committed(bucket, first, _, _, excess, amount) =>
      if bucket == b then Part(excess - first, 0.0, amount, 0.0) else Part(0.0, 0.0, 0.0, 0.0)
    case _ => Part(0.0, 0.0, 0.0, 0.0)
  }

  /** What a commit dealt out beyond what RESERVE took: replay finds no row for it. */
  function Unbacked(p: Phase): real {
    if p.Committed? then p.excess + p.amount - p.first else 0.0
  }

  /** A commit deals out exactly what the ledger says its reservation held. */
  predicate Square(p: Phase) {
    p.Committed? ==> p.excess + p.amount == p.first + p.skipped
  }

  ghost predicate MovedBy(s: State, s': State, b: Bucket, m: Part) {
    s'.Of(b) == s.Of(b).Move(m.avail, m.reserved, m.used)
  }

  ghost predicate SameOutside(s: State, s': State, rid: Rid) {
    s'.total == s.total && s'.log == s.log && s'.initialized == s.initialized && s'.live - {rid} == s.live - {rid}
  }

  /** What a rebuilt reservation is made of, beside margin and bucket: the trade row, not the RESERVE row. */
  predicate FromTrade(res: Reservation, t: Trade, intent: Intent) {
    && res.symbol == t.symbol && res.signal == t.signal && res.intent == intent
    && res.qty == (if t.qtyFilled > 0 then t.qtyFilled else t.qtyPlanned)
    && res.price == (match t.entryActual case None => t.entryTarget case Some(p) => if p == 0.0 then t.entryTarget else p)
    && res.slmBuffer == 0.0 && res.strategy == None
  }

  lemma {:induction false} RebuiltFromTrade(acc: Progress, chain: Log, t: Trade, rid: Rid, intent: Intent)
    requires acc.Progress? && (rid in acc.s.live ==> FromTrade(acc.s.live[rid], t, intent))
    ensures var r := ReplayChain(acc, chain, t, rid, intent);
      r.Progress? && rid in r.s.live ==> FromTrade(r.s.live[rid], t, intent)
  {
    if chain != [] {
      RebuiltFromTrade(acc, Front(chain), t, rid, intent);
    }
  }

  /** The row is reported: neither RESERVE nor COMMIT, or a COMMIT with no RESERVE before it. */
  ghost predicate Reported(chain: Log, i: nat, t: Trade, a: Anomaly)
    requires i < |chain|
  {
    || (chain[i].entryType !in {RESERVE, COMMIT} && a == NotApplied(t.id, chain[i].entryType))
    || (chain[i].entryType == COMMIT && a == CommitFirst(t.id) && forall j :: 0 <= j < i ==> chain[j].entryType != RESERVE)
  }

  ghost predicate ReportedSome(chain: Log, t: Trade, a: Anomaly) {
    exists i: nat :: i < |chain| && Reported(chain, i, t, a)
  }

  lemma ReportedSnoc(chain: Log, t: Trade, a: Anomaly)
    requires chain != []
    ensures ReportedSome(chain, t, a) <==> ReportedSome(Front(chain), t, a) || Reported(chain, |chain| - 1, t, a)
  {
    var n := |chain| - 1;
    if ReportedSome(Front(chain), t, a) {
      var i: nat :| i < n && Reported(Front(chain), i, t, a);
      assert forall j :: 0 <= j <= i ==> chain[j] == Front(chain)[j];
      assert Reported(chain, i, t, a);
    }
    if ReportedSome(chain, t, a) && !Reported(chain, n, t, a) {
      var i: nat :| i < |chain| && Reported(chain, i, t, a);
      assert forall j :: 0 <= j <= i ==> chain[j] == Front(chain)[j];
      assert Reported(Front(chain), i, t, a);
    }
  }

  /** The anomalies of a chain are those of its rows that are passed over, and no others. */
  lemma {:induction false} AnomaliesReported(s: State, anomalies: seq<Anomaly>, chain: Log, t: Trade, rid: Rid, intent: Intent, a: Anomaly)
    ensures var r := ReplayChain(Progress(s, false, false, anomalies), chain, t, rid, intent);
      r.Progress? ==>
        && (r.sawReserve <==> exists j :: 0 <= j < |chain| && chain[j].entryType == RESERVE)
        && (a in r.anomalies <==> a in anomalies || ReportedSome(chain, t, a))
  {
    if chain != [] {
      AnomaliesReported(s, anomalies, Front(chain), t, rid, intent, a);
      ReportedSnoc(chain, t, a);
      var n := |chain| - 1;
      assert Last(chain) == chain[n] && forall j :: 0 <= j < n ==> Front(chain)[j] == chain[j];
    }
  }

  /** A trade's product decides the intent; failing that, the bucket of its earliest RESERVE row does. */
  lemma IntentOfTrade(t: Trade, chain: Log)
    ensures t.product == Some("MIS") ==> ReplayIntent(t, chain) == Some(INTRADAY)
    ensures t.product == Some("CO") ==> ReplayIntent(t, chain) == Some(COVER_ORDER)
    ensures t.product in {Some("CNC"), Some("NRML")} ==> ReplayIntent(t, chain) == Some(DELIVERY)
    ensures t.product !in {Some("MIS"), Some("CO"), Some("CNC"), Some("NRML")} ==>
      ReplayIntent(t, chain) == match FirstReserve(chain)
        case None => None
        case Some(row) => Some(if row.scope == One(Intraday) then INTRADAY else DELIVERY)
  {
  }

  lemma {:induction false} FirstReserveIsEarliest(chain: Log, k: nat)
    requires k < |chain| && chain[k].entryType == RESERVE && forall i :: 0 <= i < k ==> chain[i].entryType != RESERVE
    ensures FirstReserve(chain) == Some(chain[k])
  {
    if k < |chain| - 1 {
      FirstReserveIsEarliest(Front(chain), k);
    } else {
      NoFirstReserve(Front(chain));
    }
  }

  lemma {:induction false} NoFirstReserve(chain: Log)
    requires forall i :: 0 <= i < |chain| ==> chain[i].entryType != RESERVE
    ensures FirstReserve(chain) == None
  {
    if chain != [] {
      assert chain[|chain| - 1].entryType != RESERVE;
      NoFirstReserve(Front(chain));
    }
  }

  /** The reservation of a trade: its column when set, else the latest RESERVE row of its signal. */
  lemma ResolvesTo(log: Log, t: Trade)
    ensures t.rid.Some? && t.rid != Some("") ==> Resolve(log, t) == t.rid
    ensures (t.rid.None? || t.rid == Some("")) && t.signal.None? ==> Resolve(log, t) == None
    ensures (t.rid.None? || t.rid == Some("")) && t.signal.Some? ==> Resolve(log, t) == RidForSignal(log, t.signal.value)
  {
  }

  /** One trade rebuilds at most its own reservation, out of its own row. */
  lemma TradeRebuilds(s: State, count: nat, anomalies: seq<Anomaly>, t: Trade, rid: Rid)
    requires t.signal.Some? && Resolve(s.log, t) == Some(rid) && rid !in s.live
    ensures var r, intent := ReplayTrade(Replayed(s, count, anomalies), t), ReplayIntent(t, Chain(s.log, rid));
      r.Replayed? && rid in r.s.live ==> intent.Some? && FromTrade(r.s.live[rid], t, intent.value)
  {
    var chain := Chain(s.log, rid);
    if chain != [] && ReplayIntent(t, chain).Some? {
      RebuiltFromTrade(Progress(s, false, false, anomalies), chain, t, rid, ReplayIntent(t, chain).value);
    }
  }

  /** Where replay stands after a chain in phase `p`. */
  ghost predicate Stands(s: State, r: Progress, p: Phase, rid: Rid) {
    && r.Progress?
    && r.sawReserve == r.applied == !p.Absent?
    && (p.Open? <==> rid in r.s.live)
    && (p.Open? ==> r.s.live[rid].margin == p.first && r.s.live[rid].bucket == p.bucket)
    && MovedBy(s, r.s, Intraday, Moved(p, Intraday)) && MovedBy(s, r.s, Positional, Moved(p, Positional))
    && SameOutside(s, r.s, rid)
  }

  lemma RowReplayed(s: State, acc: Progress, p: Phase, row: Row, t: Trade, rid: Rid, intent: Intent)
    requires Stands(s, acc, p, rid) && !p.Broken? && !NextPhase(p, row).Broken?
    ensures Stands(s, ReplayRow(acc, row, t, rid, intent), NextPhase(p, row), rid)
  {
    var next := ReplayRow(acc, row, t, rid, intent);
    if row.entryType in {RESERVE, COMMIT} {
      assert next.s.live - {rid} == acc.s.live - {rid};
    }
  }

  /** Replaying a chain moves what its phase says, never pops a missing reservation, and touches no other reservation. */
  lemma {:induction false} ChainReplayed(s: State, anomalies: seq<Anomaly>, chain: Log, t: Trade, rid: Rid, intent: Intent)
    requires rid !in s.live && !ChainPhase(chain).Broken?
    ensures Stands(s, ReplayChain(Progress(s, false, false, anomalies), chain, t, rid, intent), ChainPhase(chain), rid)
  {
    if chain != [] {
      ChainReplayed(s, anomalies, Front(chain), t, rid, intent);
      RowReplayed(s, ReplayChain(Progress(s, false, false, anomalies), Front(chain), t, rid, intent),
                  ChainPhase(Front(chain)), Last(chain), t, rid, intent);
    }
  }

  /** A trade that replay passes over with an anomaly: no signal, no reservation, or no ledger rows. */
  predicate PassedOver(log: Log, t: Trade) {
    t.signal.None? || Resolve(log, t).None? || PhaseOf(log, Resolve(log, t).value).Absent?
  }

  /** A trade whose chain replays: its reservation is open or committed in the ledger. */
  predicate Replayable(log: Log, t: Trade) {
    t.signal.Some? && Resolve(log, t).Some?
    && (PhaseOf(log, Resolve(log, t).value).Open? || PhaseOf(log, Resolve(log, t).value).Committed?)
  }

  /** Every chain is in order, and no reservation is named by two trades. */
  ghost predicate AllReplayable(log: Log, trades: seq<Trade>) {
    && (forall i :: 0 <= i < |trades| ==> PassedOver(log, trades[i]) || Replayable(log, trades[i]))
    && (forall i, j :: 0 <= i < j < |trades| && Replayable(log, trades[i]) && Replayable(log, trades[j]) ==>
          Resolve(log, trades[i]) != Resolve(log, trades[j]))
  }

  /** The reservations that are replayed. */
  ghost function Rids(log: Log, trades: seq<Trade>): set<Rid> {
    set i | 0 <= i < |trades| && Replayable(log, trades[i]) :: Resolve(log, trades[i]).value
  }

  ghost function AvailMoved(log: Log, b: Bucket): Rid -> real { rid => Moved(PhaseOf(log, rid), b).avail }
  ghost function ReservedMoved(log: Log, b: Bucket): Rid -> real { rid => Moved(PhaseOf(log, rid), b).reserved }
  ghost function UsedMoved(log: Log, b: Bucket): Rid -> real { rid => Moved(PhaseOf(log, rid), b).used }

  ghost function AllMoved(log: Log, rids: set<Rid>, b: Bucket): Part {
    Part(Sums.Over(rids, AvailMoved(log, b)), Sums.Over(rids, ReservedMoved(log, b)), Sums.Over(rids, UsedMoved(log, b)), 0.0)
  }

  lemma AllMovedInsert(log: Log, rids: set<Rid>, rid: Rid, b: Bucket)
    requires rid !in rids
    ensures var m, all, more := Moved(PhaseOf(log, rid), b), AllMoved(log, rids, b), AllMoved(log, rids + {rid}, b);
            more == all.Move(m.avail, m.reserved, m.used)
  {
    Sums.Insert(rids, AvailMoved(log, b), AvailMoved(log, b), rid);
    Sums.Insert(rids, ReservedMoved(log, b), ReservedMoved(log, b), rid);
    Sums.Insert(rids, UsedMoved(log, b), UsedMoved(log, b), rid);
  }

  ghost function OpenOf(log: Log, rids: set<Rid>): set<Rid> {
    set rid | rid in rids && PhaseOf(log, rid).Open?
  }

  /** What phase 1 has done once the reservations `rids` are replayed. */
  ghost predicate Rebuilt(s: State, s': State, rids: set<Rid>) {
    && s'.total == s.total && s'.log == s.log && s'.initialized == s.initialized
    && MovedBy(s, s', Intraday, AllMoved(s.log, rids, Intraday))
    && MovedBy(s, s', Positional, AllMoved(s.log, rids, Positional))
    && RebuiltLive(s.log, s.live, s'.live, rids)
  }

  /** The live reservations were there before, or are open and hold what their RESERVE row took. */
  ghost predicate RebuiltLive(log: Log, before: map<Rid, Reservation>, after: map<Rid, Reservation>, rids: set<Rid>) {
    && after.Keys == before.Keys + OpenOf(log, rids)
    && (forall rid :: rid in before ==> after[rid] == before[rid])
    && (forall rid :: rid in OpenOf(log, rids) && rid !in before ==> AsReserved(after[rid], PhaseOf(log, rid)))
  }

  /** A replayed reservation holds what its RESERVE row took. */
  predicate AsReserved(res: Reservation, p: Phase) {
    p.Open? && res.margin == p.first && res.bucket == p.bucket
  }

  /** One replayed trade, relative to the state before it. */
  ghost predicate OneMore(s: State, s': State, rid: Rid) {
    && MovedBy(s, s', Intraday, Moved(PhaseOf(s.log, rid), Intraday))
    && MovedBy(s, s', Positional, Moved(PhaseOf(s.log, rid), Positional))
    && SameOutside(s, s', rid)
    && (PhaseOf(s.log, rid).Open? <==> rid in s'.live)
    && (rid in s'.live ==> AsReserved(s'.live[rid], PhaseOf(s.log, rid)))
  }

  lemma TradeReplayed(acc: Replayed, t: Trade)
    requires acc.Replayed? && Replayable(acc.s.log, t) && Resolve(acc.s.log, t).value !in acc.s.live
    ensures var r := ReplayTrade(acc, t);
            r.Replayed? && r.count == acc.count + 1 && OneMore(acc.s, r.s, Resolve(acc.s.log, t).value)
  {
    var rid := Resolve(acc.s.log, t).value;
    var chain := Chain(acc.s.log, rid);
    LiveChainHasReserve(chain);
    ChainReplayed(acc.s, acc.anomalies, chain, t, rid, ReplayIntent(t, chain).value);
  }

  lemma TradePassedOver(acc: Replayed, t: Trade)
    requires acc.Replayed? && PassedOver(acc.s.log, t)
    ensures var r := ReplayTrade(acc, t);
            r.Replayed? && r.count == acc.count && r.s == acc.s && |r.anomalies| == |acc.anomalies| + 1
  {
    if t.signal.Some? && Resolve(acc.s.log, t).Some? { SkippedInPhase(Chain(acc.s.log, Resolve(acc.s.log, t).value)); }
  }

  lemma LiveOneMore(log: Log, before: map<Rid, Reservation>, mid: map<Rid, Reservation>, after: map<Rid, Reservation>,
                    rids: set<Rid>, rid: Rid)
    requires RebuiltLive(log, before, mid, rids) && rid !in rids && rid !in before
    requires after - {rid} == mid - {rid} && (PhaseOf(log, rid).Open? <==> rid in after)
    requires rid in after ==> AsReserved(after[rid], PhaseOf(log, rid))
    ensures RebuiltLive(log, before, after, rids + {rid})
  {
    forall k ensures k != rid ==> (k in after <==> k in mid) && (k in after ==> after[k] == mid[k]) {
      if k != rid {
        assert k in after <==> k in after - {rid};
        assert k in mid <==> k in mid - {rid};
        if k in after { assert (after - {rid})[k] == (mid - {rid})[k]; }
      }
    }
    assert OpenOf(log, rids + {rid}) == OpenOf(log, rids) + (if rid in after then {rid} else {});
  }

  lemma MovedFurther(p: Part, q: Part, r: Part, all: Part, m: Part, more: Part)
    requires q == p.Move(all.avail, all.reserved, all.used) && r == q.Move(m.avail, m.reserved, m.used)
    requires more == all.Move(m.avail, m.reserved, m.used)
    ensures r == p.Move(more.avail, more.reserved, more.used)
  {
  }

  lemma BucketOneMore(s: State, mid: State, s': State, rids: set<Rid>, rid: Rid, b: Bucket)
    requires MovedBy(s, mid, b, AllMoved(s.log, rids, b)) && MovedBy(mid, s', b, Moved(PhaseOf(s.log, rid), b))
    requires rid !in rids
    ensures MovedBy(s, s', b, AllMoved(s.log, rids + {rid}, b))
  {
    AllMovedInsert(s.log, rids, rid, b);
    MovedFurther(s.Of(b), mid.Of(b), s'.Of(b), AllMoved(s.log, rids, b), Moved(PhaseOf(s.log, rid), b),
                 AllMoved(s.log, rids + {rid}, b));
  }

  lemma RebuiltOneMore(s: State, mid: State, s': State, rids: set<Rid>, rid: Rid)
    requires Rebuilt(s, mid, rids) && OneMore(mid, s', rid) && rid !in rids && rid !in s.live
    ensures Rebuilt(s, s', rids + {rid})
  {
    BucketOneMore(s, mid, s', rids, rid, Intraday);
    BucketOneMore(s, mid, s', rids, rid, Positional);
    LiveOneMore(s.log, s.live, mid.live, s'.live, rids, rid);
  }

  lemma RidsSnoc(log: Log, trades: seq<Trade>)
    requires AllReplayable(log, trades) && trades != []
    ensures var init, t := trades[..|trades| - 1], trades[|trades| - 1];
            && AllReplayable(log, init)
            && (Replayable(log, t) ==>
                  Rids(log, trades) == Rids(log, init) + {Resolve(log, t).value} && Resolve(log, t).value !in Rids(log, init))
            && (PassedOver(log, t) ==> Rids(log, trades) == Rids(log, init))
  {
    var n := |trades| - 1;
    var init, t := trades[..n], trades[n];
    var more := if Replayable(log, t) then {Resolve(log, t).value} else {};
    forall k ensures k in Rids(log, trades) <==> k in Rids(log, init) + more {
      if k in Rids(log, trades) {
        var i :| 0 <= i < |trades| && Replayable(log, trades[i]) && Resolve(log, trades[i]).value == k;
        if i < n { assert init[i] == trades[i]; }
      }
    }
  }

  /** Phase 1 as sums over the replayed reservations: it never fails, counts the replayed trades, and passes over the rest. */
  lemma {:induction false} TradesReplayed(s: State, trades: seq<Trade>)
    requires AllReplayable(s.log, trades) && s.live.Keys !! Rids(s.log, trades)
    ensures var r := ReplayTrades(s, trades);
            r.Replayed? && r.count == |Rids(s.log, trades)| && Rebuilt(s, r.s, Rids(s.log, trades))
  {
    if trades == [] {
      assert Rids(s.log, trades) == {};
    } else {
      var init, t := trades[..|trades| - 1], trades[|trades| - 1];
      RidsSnoc(s.log, trades);
      TradesReplayed(s, init);
      var before := ReplayTrades(s, init);
      if Replayable(s.log, t) {
        TradeReplayed(before, t);
        RebuiltOneMore(s, before.s, ReplayTrade(before, t).s, Rids(s.log, init), Resolve(s.log, t).value);
      } else {
        TradePassedOver(before, t);
      }
    }
  }

  // --- the gap that skipped rows leave ---

  ghost function CommittedOf(log: Log, rids: set<Rid>, b: Bucket): set<Rid> {
    set rid | rid in rids && PhaseOf(log, rid).Committed? && PhaseOf(log, rid).bucket == b
  }

  ghost function UnbackedBy(log: Log): Rid -> real { rid => Unbacked(PhaseOf(log, rid)) }

  lemma ChainMovedSum(log: Log, rid: Rid, b: Bucket)
    ensures var p := PhaseOf(log, rid);
            Moved(p, b).Sum() == if p.Committed? && p.bucket == b then UnbackedBy(log)(rid) else 0.0
  {
  }

  lemma MoveSum(p: Part, q: Part, m: Part)
    requires q == p.Move(m.avail, m.reserved, m.used)
    ensures q.Sum() == p.Sum() + m.Sum()
  {
  }

  lemma NothingMoved(log: Log, b: Bucket)
    ensures AllMoved(log, {}, b).Sum() == 0.0 == Sums.Over(CommittedOf(log, {}, b), UnbackedBy(log))
  {
    assert CommittedOf(log, {}, b) == {};
    ZeroSum(AllMoved(log, {}, b));
  }

  lemma ZeroSum(p: Part)
    requires p == Part(0.0, 0.0, 0.0, 0.0)
    ensures p.Sum() == 0.0
  {
  }

  lemma CommittedInsert(log: Log, rids: set<Rid>, rid: Rid, b: Bucket)
    requires rid !in rids
    ensures Sums.Over(CommittedOf(log, rids + {rid}, b), UnbackedBy(log))
            == Sums.Over(CommittedOf(log, rids, b), UnbackedBy(log))
               + (var p := PhaseOf(log, rid); if p.Committed? && p.bucket == b then UnbackedBy(log)(rid) else 0.0)
  {
    if PhaseOf(log, rid).Committed? && PhaseOf(log, rid).bucket == b {
      assert CommittedOf(log, rids + {rid}, b) == CommittedOf(log, rids, b) + {rid};
      Sums.Insert(CommittedOf(log, rids, b), UnbackedBy(log), UnbackedBy(log), rid);
    } else {
      assert CommittedOf(log, rids + {rid}, b) == CommittedOf(log, rids, b);
    }
  }

  lemma MovedInsert(log: Log, rids: set<Rid>, rid: Rid, b: Bucket)
    requires rid !in rids
    ensures AllMoved(log, rids + {rid}, b).Sum() == AllMoved(log, rids, b).Sum() + Moved(PhaseOf(log, rid), b).Sum()
  {
    AllMovedInsert(log, rids, rid, b);
    MoveSum(AllMoved(log, rids, b), AllMoved(log, rids + {rid}, b), Moved(PhaseOf(log, rid), b));
  }

  /** Replay moves available against reserved and used, except for what commits dealt out beyond their RESERVE row. */
  lemma {:induction false} MovedSum(log: Log, rids: set<Rid>, b: Bucket)
    ensures AllMoved(log, rids, b).Sum() == Sums.Over(CommittedOf(log, rids, b), UnbackedBy(log))
    decreases |rids|
  {
    if rids == {} {
      NothingMoved(log, b);
    } else {
      var rid :| rid in rids;
      assert rids - {rid} + {rid} == rids;
      MovedSum(log, rids - {rid}, b);
      MovedSumInsert(log, rids - {rid}, rid, b);
    }
  }

  lemma MovedSumInsert(log: Log, rids: set<Rid>, rid: Rid, b: Bucket)
    requires rid !in rids && AllMoved(log, rids, b).Sum() == Sums.Over(CommittedOf(log, rids, b), UnbackedBy(log))
    ensures AllMoved(log, rids + {rid}, b).Sum() == Sums.Over(CommittedOf(log, rids + {rid}, b), UnbackedBy(log))
  {
    MovedInsert(log, rids, rid, b);
    CommittedInsert(log, rids, rid, b);
    ChainMovedSum(log, rid, b);
  }

  /** What the replayed commits dealt out beyond their RESERVE rows. */
  ghost function UnbackedTotal(log: Log, rids: set<Rid>): real {
    Sums.Over(CommittedOf(log, rids, Intraday), UnbackedBy(log)) + Sums.Over(CommittedOf(log, rids, Positional), UnbackedBy(log))
  }

  ghost function SkippedBy(log: Log): Rid -> real { rid => SkippedDelta(Chain(log, rid)) }

  /** The margin_delta of the rows that replay skips in the committed chains. */
  ghost function SkippedTotal(log: Log, rids: set<Rid>): real {
    Sums.Over(CommittedOf(log, rids, Intraday), SkippedBy(log)) + Sums.Over(CommittedOf(log, rids, Positional), SkippedBy(log))
  }

  ghost predicate AllSquare(log: Log, rids: set<Rid>) {
    forall rid :: rid in rids ==> Square(PhaseOf(log, rid))
  }

  /** When every commit dealt out what its chain held, the two are the same. */
  lemma SquareIsSkipped(log: Log, rids: set<Rid>)
    requires AllSquare(log, rids)
    ensures UnbackedTotal(log, rids) == SkippedTotal(log, rids)
  {
    forall rid | rid in rids && PhaseOf(log, rid).Committed? ensures UnbackedBy(log)(rid) == SkippedBy(log)(rid) {
      SkippedInPhase(Chain(log, rid));
    }
    Sums.Same(CommittedOf(log, rids, Intraday), UnbackedBy(log), SkippedBy(log));
    Sums.Same(CommittedOf(log, rids, Positional), UnbackedBy(log), SkippedBy(log));
  }

  lemma FinishGap(s: State, s1: State, rids: set<Rid>, floor: int)
    requires Rebuilt(s, s1, rids)
    ensures AddCarryover(NameCarry(s, s1), floor).Gap() == s.Gap() + UnbackedTotal(s.log, rids)
  {
    MovedSum(s.log, rids, Intraday);
    MovedSum(s.log, rids, Positional);
    MoveSum(s.intraday, s1.intraday, AllMoved(s.log, rids, Intraday));
    MoveSum(s.positional, s1.positional, AllMoved(s.log, rids, Positional));
    FinishKeepsGap(s, s1, floor);
  }

  lemma FinishKeepsGap(s: State, s1: State, floor: int)
    ensures AddCarryover(NameCarry(s, s1), floor).Gap() == s1.Gap()
  {
  }

  /**
   * After rehydrating any list of trades, available + reserved + used misses the total by
   * exactly what the committed chains dealt out beyond RESERVE: the margin_delta of their rows
   * besides RESERVE and COMMIT, where each commit dealt out what its chain held. Carry and
   * realized profit keep the gap.
   */
  lemma ReplayGap(s: State, trades: seq<Trade>, floor: int)
    requires AllReplayable(s.log, trades) && s.live.Keys !! Rids(s.log, trades)
    ensures var r := Rehydrate(s, trades, floor);
            r.Some? && r.value.Gap() == s.Gap() + UnbackedTotal(s.log, Rids(s.log, trades))
    ensures AllSquare(s.log, Rids(s.log, trades)) ==>
      UnbackedTotal(s.log, Rids(s.log, trades)) == SkippedTotal(s.log, Rids(s.log, trades))
  {
    TradesReplayed(s, trades);
    FinishGap(s, ReplayTrades(s, trades).s, Rids(s.log, trades), floor);
    if AllSquare(s.log, Rids(s.log, trades)) { SquareIsSkipped(s.log, Rids(s.log, trades)); }
  }

  /** A gap beyond the tolerance and one paise always stops the start; one within it, on a sound book, never does. */
  lemma GapDecides(split: Split, s: State)
    ensures Abs(s.Gap()) > 1.01 ==> CheckInvariant(split, s).Some?
    ensures Abs(s.Gap()) <= 0.99 && NonNegative(s) ==> CheckInvariant(split, s).None?
  {
    var lhs := ComputeLhs(s.intraday.avail + s.positional.avail, s.intraday.reserved + s.positional.reserved,
                          s.intraday.used + s.positional.used);
    RoundedGap(lhs, ComputeRhs(s.total, 0.0));
  }

  predicate NonNegative(s: State) {
    && s.intraday.avail >= 0.0 && s.intraday.reserved >= 0.0 && s.intraday.used >= 0.0
    && s.positional.avail >= 0.0 && s.positional.reserved >= 0.0 && s.positional.used >= 0.0
    && s.total >= 0.0
  }

  /** One balance, or one balance of both buckets together, or the total, below the tolerance. */
  predicate NegativeSomewhere(s: State) {
    || BelowTolerance(s.intraday) || BelowTolerance(s.positional)
    || s.intraday.avail + s.positional.avail < -TOLERANCE
    || s.intraday.reserved + s.positional.reserved < -TOLERANCE
    || s.intraday.used + s.positional.used < -TOLERANCE
    || s.total < -TOLERANCE
  }

  /** On a book without a gap the check raises exactly for a negative balance, and never for a mismatch. */
  lemma BalancedRaisesOnlyNegative(split: Split, s: State)
    requires s.Gap() == 0.0
    ensures CheckInvariant(split, s).Some? <==> NegativeSomewhere(s)
    ensures CheckInvariant(split, s).Some? ==> CheckInvariant(split, s).value.cause != Mismatch
  {
  }

  /** On a balanced boot what the skipped rows left alone decides whether the start is stopped. */
  lemma SkippedRowsDecideStart(split: Split, s: State, trades: seq<Trade>, floor: int)
    requires s.Gap() == 0.0 && AllReplayable(s.log, trades) && s.live.Keys !! Rids(s.log, trades)
    ensures var r, gap := Rehydrate(s, trades, floor), UnbackedTotal(s.log, Rids(s.log, trades));
            && r.Some?
            && (Abs(gap) > 1.01 ==> CheckInvariant(split, r.value).Some?)
            && (Abs(gap) <= 0.99 && NonNegative(r.value) ==> CheckInvariant(split, r.value).None?)
    ensures AllSquare(s.log, Rids(s.log, trades)) ==>
      UnbackedTotal(s.log, Rids(s.log, trades)) == SkippedTotal(s.log, Rids(s.log, trades))
  {
    ReplayGap(s, trades, floor);
    GapDecides(split, Rehydrate(s, trades, floor).value);
  }
}
