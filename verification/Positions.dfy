/**
 * What a live run leaves in the ledger about each reservation and each committed
 * position: chains stay well formed, and used margin is released in proportion to the
 * quantity that has left.
 */
module Positions {
  import opened Options
  import opened Ledger
  import opened Book
  import opened Runs
  import opened Replay
  import Sums

  // --- chains ---

  ghost predicate ChainFits(s: State, rid: Rid) {
    var p := PhaseOf(s.log, rid);
    && !p.Broken?
    && (rid in s.live ==> p.Open? && p.bucket == s.live[rid].bucket && (p.plain ==> s.live[rid].margin == p.first))
  }

  ghost predicate ChainsFit(s: State) {
    forall rid :: ChainFits(s, rid)
  }

  lemma ChainSnoc(log: Log, row: Row, rid: Rid)
    ensures row.rid != Some(rid) ==> PhaseOf(log + [row], rid) == PhaseOf(log, rid)
    ensures row.rid == Some(rid) ==> PhaseOf(log + [row], rid) == NextPhase(PhaseOf(log, rid), row)
  {
    Snoc(log, row);
    if row.rid == Some(rid) {
      Snoc(Chain(log, rid), row);
    } else {
      assert Chain(log, rid) + [] == Chain(log, rid);
    }
  }

  /** Every row a mutator writes continues its reservation's chain properly. */
  lemma StepKeepsChains(split: Split, trades: Trades, s: State, c: Call)
    requires ChainsFit(s) && Fresh(s, c)
    ensures ChainsFit(Step(split, trades, s, c).0)
  {
    var s' := Step(split, trades, s, c).0;
    StepWritesAhead(split, trades, s, c);
    if s' != s {
      var row := Last(s'.log);
      forall rid ensures ChainFits(s', rid) {
        assert ChainFits(s, rid);
        ChainSnoc(s.log, row, rid);
        if row.entryType == RESERVE { Unmentioned(s.log, row.rid.value); }
      }
    }
  }

  // --- committed positions ---

  /** The reservations committed in this session, by bucket. */
  ghost function CommittedRids(log: Log, b: Bucket): set<Rid> {
    if log == [] || Last(log).entryType == INIT then {}
    else CommittedRids(Front(log), b)
         + (if Last(log).entryType == COMMIT && Last(log).scope == One(b) && Last(log).rid.Some?
            then {Last(log).rid.value} else {})
  }

  /**
   * What a restart brought into the session: by bucket, the reservations of the positions it
   * rebuilt, and the margin it put to use for quantity that had already left.
   */
  datatype Base = Base(intraday: set<Rid>, positional: set<Rid>, overIntraday: real, overPositional: real) {
    function Of(b: Bucket): set<Rid> {
      if b == Intraday then intraday else positional
    }

    function Over(b: Bucket): real {
      if b == Intraday then overIntraday else overPositional
    }
  }

  const NOTHING := Base({}, {}, 0.0, 0.0)

  /** The positions behind a bucket's used margin: rebuilt at boot or committed since. */
  ghost function Backing(log: Log, base: Base, b: Bucket): set<Rid> {
    base.Of(b) + CommittedRids(log, b)
  }

  /** Quantity that has left the position of a reservation. */
  ghost function Exited(log: Log, trades: Trades, rid: Rid): int {
    if log == [] then 0
    else Exited(Front(log), trades, rid)
         + (if Last(log).entryType == RELEASE_USED && RidOf(trades, Last(log).trade) == Some(rid) then Last(log).qty else 0)
  }

  /** The committed margin that still backs open quantity. */
  ghost function Held(log: Log, trades: Trades): Rid -> real {
    rid => HeldBy(PositionOf(log, trades, rid))
  }

  /** Everything the ledger says about the position of one reservation. */
  datatype Position = Position(commits: nat, margin: real, qty: int, parses: bool, exited: int, phase: Phase)

  ghost function PositionOf(log: Log, trades: Trades, rid: Rid): Position {
    Position(CommitCount(log, rid), CommitMargin(log, rid), CommitQty(log, rid), CommitQtyParses(log, rid),
             Exited(log, trades, rid), PhaseOf(log, rid))
  }

  ghost predicate ProRata(s: State, trades: Trades, base: Base, b: Bucket) {
    s.Of(b).used - base.Over(b) == Sums.Over(Backing(s.log, base, b), Held(s.log, trades))
  }

  ghost predicate Fits(p: Position, b: Bucket) {
    && p.phase.Committed? && p.phase.bucket == b && p.phase.amount == p.margin
    && p.qty > 0 && p.commits == 1 && p.parses
  }

  ghost predicate CommittedFit(s: State, trades: Trades, base: Base, b: Bucket) {
    forall rid :: rid in Backing(s.log, base, b) ==> Fits(PositionOf(s.log, trades, rid), b)
  }

  ghost predicate LiveUncommitted(s: State, trades: Trades) {
    forall rid :: rid in s.live ==>
      PositionOf(s.log, trades, rid).commits == 0 && PositionOf(s.log, trades, rid).exited == 0
  }

  ghost predicate PositionsFit(s: State, trades: Trades, base: Base) {
    && CommittedFit(s, trades, base, Intraday) && CommittedFit(s, trades, base, Positional)
    && LiveUncommitted(s, trades)
    && ProRata(s, trades, base, Intraday) && ProRata(s, trades, base, Positional)
  }

  /** The callers' obligations: fills have a quantity, exits name the trade and its bucket. */
  ghost predicate Attributed(s: State, trades: Trades, base: Base, c: Call) {
    match c.op
    case Reserve(rid, _, _, _, _, _, _) => Exited(s.log, trades, rid) == 0
    case Commit(_, _, qty) => qty > 0
    case ReleaseUsed(trade, _, _, intent, _, _, _) =>
      BucketFor(intent).Some? ==>
        RidOf(trades, trade).Some? && RidOf(trades, trade).value in Backing(s.log, base, BucketFor(intent).value)
    case _ => true
  }

  lemma {:induction false} NoCommits(log: Log, rid: Rid)
    requires CommitCount(log, rid) == 0
    ensures CommitMargin(log, rid) == 0.0 && CommitQty(log, rid) == 0 && CommitQtyParses(log, rid)
    ensures forall b :: rid !in CommittedRids(log, b)
  {
    if log != [] {
      NoCommits(Front(log), rid);
    }
  }

  /** What one more row makes of a position. */
  ghost function NextPosition(p: Position, row: Row, trades: Trades, rid: Rid): Position {
    var commit := IsCommitOf(row, rid);
    Position(
      p.commits + (if commit then 1 else 0), p.margin + (if commit then row.amount else 0.0),
      p.qty + (if commit then row.qty else 0), p.parses && (commit ==> row.qty >= 0),
      p.exited + (if row.entryType == RELEASE_USED && RidOf(trades, row.trade) == Some(rid) then row.qty else 0),
      if row.rid == Some(rid) then NextPhase(p.phase, row) else p.phase)
  }

  lemma PositionSnoc(log: Log, row: Row, trades: Trades, rid: Rid)
    ensures PositionOf(log + [row], trades, rid) == NextPosition(PositionOf(log, trades, rid), row, trades, rid)
  {
    Snoc(log, row);
    ChainSnoc(log, row, rid);
  }

  lemma SessionSnoc(log: Log, row: Row, b: Bucket)
    ensures CommittedRids(log + [row], b)
              == if row.entryType == INIT then {}
                 else if row.entryType == COMMIT && row.scope == One(b) && row.rid.Some?
                 then CommittedRids(log, b) + {row.rid.value} else CommittedRids(log, b)
  {
    Snoc(log, row);
  }

  ghost function SliceOf(p: Position, qty: int): real {
    if p.qty == 0 then 0.0 else p.margin * qty as real / p.qty as real
  }

  ghost function HeldBy(p: Position): real {
    SliceOf(p, p.qty - p.exited)
  }

  lemma SliceSplits(p: Position, whole: int, part: int)
    ensures SliceOf(p, whole - part) == SliceOf(p, whole) - SliceOf(p, part)
  {
    if p.qty != 0 {
      var m, q, w, x := p.margin, p.qty as real, whole as real, part as real;
      assert m * (w - x) == m * w - m * x;
      assert (m * w - m * x) / q == m * w / q - m * x / q;
    }
  }

  lemma SliceOfAll(p: Position)
    requires p.qty != 0
    ensures SliceOf(p, p.qty) == p.margin && SliceOf(p, 0) == 0.0
  {
    var m, q := p.margin, p.qty as real;
    assert m * q / q == m;
  }

  lemma NextCommittedFit(s: State, s': State, trades: Trades, base: Base, row: Row, b: Bucket)
    requires s'.log == s.log + [row] && CommittedFit(s, trades, base, b)
    requires row.entryType == COMMIT ==>
      row.rid.Some? && row.scope.One? && Fits(NextPosition(PositionOf(s.log, trades, row.rid.value), row, trades, row.rid.value), row.scope.bucket)
    requires row.rid.Some? ==> row.scope.One?
    requires row.rid.Some? && row.rid.value in Backing(s.log, base, b) ==> !NextPhase(PhaseOf(s.log, row.rid.value), row).Broken?
    ensures CommittedFit(s', trades, base, b)
  {
    SessionSnoc(s.log, row, b);
    forall rid | rid in Backing(s'.log, base, b) ensures Fits(PositionOf(s'.log, trades, rid), b) {
      PositionSnoc(s.log, row, trades, rid);
    }
  }

  lemma NextLive(s: State, s': State, trades: Trades, row: Row)
    requires Describes(row, s, s') && LiveUncommitted(s, trades)
    requires row.entryType == RESERVE ==> !Mentions(s.log, row.rid.value) && Exited(s.log, trades, row.rid.value) == 0
    requires row.entryType == RELEASE_USED ==>
      RidOf(trades, row.trade).Some? && RidOf(trades, row.trade).value !in s.live
    ensures LiveUncommitted(s', trades)
  {
    if row.entryType == RESERVE { Unmentioned(s.log, row.rid.value); }
    forall rid | rid in s'.live
      ensures PositionOf(s'.log, trades, rid).commits == 0 && PositionOf(s'.log, trades, rid).exited == 0 {
      PositionSnoc(s.log, row, trades, rid);
    }
  }

  lemma UntouchedHeld(p: Position, row: Row, trades: Trades, rid: Rid)
    requires !IsCommitOf(row, rid) && (row.entryType == RELEASE_USED ==> RidOf(trades, row.trade) != Some(rid))
    ensures HeldBy(NextPosition(p, row, trades, rid)) == HeldBy(p)
  {
  }

  /** Used margin of a bucket after one row, from the change to the one position the row is about. */
  lemma NextProRata(s: State, s': State, trades: Trades, base: Base, row: Row, b: Bucket, it: Rid)
    requires s'.log == s.log + [row] && ProRata(s, trades, base, b)
    requires row.entryType != INIT
    requires row.entryType == COMMIT ==> row.rid == Some(it)
    requires row.entryType == RELEASE_USED ==> RidOf(trades, row.trade) == Some(it)
    requires row.entryType == COMMIT && row.scope == One(b) ==> it !in Backing(s.log, base, b)
    requires var delta := s'.Of(b).used - s.Of(b).used;
             var before, after := HeldBy(PositionOf(s.log, trades, it)),
                                  HeldBy(NextPosition(PositionOf(s.log, trades, it), row, trades, it));
             if it in Backing(s.log, base, b) then delta == after - before
             else if row.entryType == COMMIT && row.scope == One(b) then delta == after
             else delta == 0.0
    ensures ProRata(s', trades, base, b)
  {
    PositionSnoc(s.log, row, trades, it);
    HeldElsewhere(s.log, row, trades, it);
    TermsProRata(s, s', trades, base, row, b, it);
  }

  lemma TermsProRata(s: State, s': State, trades: Trades, base: Base, row: Row, b: Bucket, it: Rid)
    requires s'.log == s.log + [row] && ProRata(s, trades, base, b)
    requires row.entryType != INIT && (row.entryType == COMMIT ==> row.rid == Some(it))
    requires row.entryType == COMMIT && row.scope == One(b) ==> it !in Backing(s.log, base, b)
    requires forall rid :: rid != it ==> Held(s'.log, trades)(rid) == Held(s.log, trades)(rid)
    requires var delta := s'.Of(b).used - s.Of(b).used;
             if it in Backing(s.log, base, b) then delta == Held(s'.log, trades)(it) - Held(s.log, trades)(it)
             else if row.entryType == COMMIT && row.scope == One(b) then delta == Held(s'.log, trades)(it)
             else delta == 0.0
    ensures ProRata(s', trades, base, b)
  {
    BackingSnoc(s.log, row, base, b);
    SumFollows(Backing(s.log, base, b), Backing(s'.log, base, b), Held(s.log, trades), Held(s'.log, trades), it,
               row.entryType == COMMIT && row.scope == One(b), s.Of(b).used - base.Over(b), s'.Of(b).used - base.Over(b));
  }

  /** A sum of which one term changes, or to which one is added, and a figure that moves with it. */
  lemma SumFollows(keys: set<Rid>, keys': set<Rid>, f: Rid -> real, g: Rid -> real, it: Rid, added: bool, x: real, x': real)
    requires keys' == (if added then keys + {it} else keys) && (added ==> it !in keys)
    requires forall rid :: rid != it ==> g(rid) == f(rid)
    requires x == Sums.Over(keys, f)
    requires x' - x == if it in keys then g(it) - f(it) else if added then g(it) else 0.0
    ensures x' == Sums.Over(keys', g)
  {
    if it in keys {
      Sums.Change(keys, f, g, it);
    } else if added {
      Sums.Insert(keys, f, g, it);
    } else {
      Sums.Same(keys, f, g);
    }
  }

  lemma BackingSnoc(log: Log, row: Row, base: Base, b: Bucket)
    requires row.entryType != INIT
    ensures Backing(log + [row], base, b)
            == Backing(log, base, b) + if row.entryType == COMMIT && row.scope == One(b) && row.rid.Some? then {row.rid.value} else {}
  {
    SessionSnoc(log, row, b);
  }

  lemma HeldElsewhere(log: Log, row: Row, trades: Trades, it: Rid)
    requires row.entryType == COMMIT ==> row.rid == Some(it)
    requires row.entryType == RELEASE_USED ==> RidOf(trades, row.trade) == Some(it)
    ensures forall rid :: rid != it ==> Held(log + [row], trades)(rid) == Held(log, trades)(rid)
  {
    forall rid | rid != it ensures Held(log + [row], trades)(rid) == Held(log, trades)(rid) {
      PositionSnoc(log, row, trades, rid);
      UntouchedHeld(PositionOf(log, trades, rid), row, trades, rid);
    }
  }

  lemma NextChain(s: State, row: Row, s': State, rid: Rid)
    requires ChainsFit(s) && ChainsFit(s') && s'.log == s.log + [row] && row.rid == Some(rid)
    ensures !NextPhase(PhaseOf(s.log, rid), row).Broken?
  {
    assert ChainFits(s', rid);
    ChainSnoc(s.log, row, rid);
  }

  lemma OtherBucket(s: State, s': State, trades: Trades, base: Base, row: Row, b: Bucket)
    requires s'.log == s.log + [row] && CommittedFit(s, trades, base, b) && ProRata(s, trades, base, b)
    requires row.entryType !in {COMMIT, RELEASE_USED, INIT} && s'.Of(b).used == s.Of(b).used
    requires row.rid.Some? ==> row.scope.One? && !NextPhase(PhaseOf(s.log, row.rid.value), row).Broken?
    ensures CommittedFit(s', trades, base, b) && ProRata(s', trades, base, b)
  {
    var it := if row.rid.Some? then row.rid.value else "";
    UntouchedHeld(PositionOf(s.log, trades, it), row, trades, it);
    NextCommittedFit(s, s', trades, base, row, b);
    NextProRata(s, s', trades, base, row, b, it);
  }

  lemma OtherRow(s: State, s': State, trades: Trades, base: Base, row: Row)
    requires Describes(row, s, s') && PositionsFit(s, trades, base) && ChainsFit(s) && ChainsFit(s')
    requires row.entryType !in {COMMIT, RELEASE_USED, INIT}
    requires row.entryType == RESERVE ==> !Mentions(s.log, row.rid.value) && Exited(s.log, trades, row.rid.value) == 0
    ensures PositionsFit(s', trades, base)
  {
    if row.rid.Some? { NextChain(s, row, s', row.rid.value); }
    NextLive(s, s', trades, row);
    OtherBucket(s, s', trades, base, row, Intraday);
    OtherBucket(s, s', trades, base, row, Positional);
  }

  lemma CommitRow(s: State, s': State, trades: Trades, base: Base, row: Row)
    requires Describes(row, s, s') && PositionsFit(s, trades, base) && ChainsFit(s) && ChainsFit(s')
    requires row.entryType == COMMIT && row.rid.Some? && row.rid.value in s.live && row.qty > 0
    ensures PositionsFit(s', trades, base)
  {
    CommitFits(s, s', trades, base, row);
    NextLive(s, s', trades, row);
    CommitBucket(s, s', trades, base, row, Intraday);
    CommitBucket(s, s', trades, base, row, Positional);
  }

  /** The position a commit opens: all of it held, and new to every bucket. */
  lemma CommitFits(s: State, s': State, trades: Trades, base: Base, row: Row)
    requires Describes(row, s, s') && PositionsFit(s, trades, base) && ChainsFit(s) && ChainsFit(s')
    requires row.entryType == COMMIT && row.rid.Some? && row.rid.value in s.live && row.qty > 0
    ensures row.scope.One? && !NextPhase(PhaseOf(s.log, row.rid.value), row).Broken?
    ensures var next := NextPosition(PositionOf(s.log, trades, row.rid.value), row, trades, row.rid.value);
            Fits(next, row.scope.bucket) && HeldBy(next) == row.amount
    ensures forall b :: row.rid.value !in Backing(s.log, base, b)
  {
    var it := row.rid.value;
    NextChain(s, row, s', it);
    NoCommits(s.log, it);
    assert ChainFits(s, it);
    FirstFill(PositionOf(s.log, trades, it), row, trades, it);
    NewToBacking(s, trades, base, it);
  }

  lemma FirstFill(p: Position, row: Row, trades: Trades, it: Rid)
    requires p.commits == 0 && p.margin == 0.0 && p.qty == 0 && p.parses && p.exited == 0 && p.phase.Open?
    requires IsCommitOf(row, it) && row.qty > 0 && row.scope.One? && !NextPhase(p.phase, row).Broken?
    ensures var next := NextPosition(p, row, trades, it); Fits(next, row.scope.bucket) && HeldBy(next) == row.amount
  {
    SliceOfAll(NextPosition(p, row, trades, it));
  }

  lemma NewToBacking(s: State, trades: Trades, base: Base, it: Rid)
    requires PositionsFit(s, trades, base) && it in s.live
    ensures forall b :: it !in Backing(s.log, base, b)
  {
    assert PositionOf(s.log, trades, it).commits == 0;
    assert CommittedFit(s, trades, base, Intraday) && CommittedFit(s, trades, base, Positional);
    assert it !in Backing(s.log, base, Intraday) && it !in Backing(s.log, base, Positional);
  }

  lemma CommitBucket(s: State, s': State, trades: Trades, base: Base, row: Row, b: Bucket)
    requires Describes(row, s, s') && PositionsFit(s, trades, base)
    requires row.entryType == COMMIT && row.rid.Some? && row.scope.One?
    requires var next := NextPosition(PositionOf(s.log, trades, row.rid.value), row, trades, row.rid.value);
             Fits(next, row.scope.bucket) && HeldBy(next) == row.amount
    requires !NextPhase(PhaseOf(s.log, row.rid.value), row).Broken?
    requires row.rid.value !in Backing(s.log, base, b)
    ensures CommittedFit(s', trades, base, b) && ProRata(s', trades, base, b)
  {
    assert CommittedFit(s, trades, base, b) && ProRata(s, trades, base, b);
    NextCommittedFit(s, s', trades, base, row, b);
    NextProRata(s, s', trades, base, row, b, row.rid.value);
  }

  /** A committed reservation is not live, and is committed in one bucket only. */
  lemma CommittedOnce(s: State, trades: Trades, base: Base, it: Rid, b: Bucket)
    requires PositionsFit(s, trades, base) && ChainsFit(s) && it in Backing(s.log, base, b)
    ensures Fits(PositionOf(s.log, trades, it), b) && it !in s.live
    ensures forall other :: other != b ==> it !in Backing(s.log, base, other)
  {
    assert ChainFits(s, it);
    assert CommittedFit(s, trades, base, b);
    forall other | other != b ensures it !in Backing(s.log, base, other) {
      assert CommittedFit(s, trades, base, other);
    }
  }

  lemma ExitHeld(p: Position, row: Row, trades: Trades, it: Rid)
    requires row.entryType == RELEASE_USED && row.rid.None? && RidOf(trades, row.trade) == Some(it)
    ensures HeldBy(NextPosition(p, row, trades, it)) == HeldBy(p) - SliceOf(p, row.qty)
  {
    SliceSplits(p, p.qty - p.exited, row.qty);
  }

  lemma ExitBucket(s: State, s': State, trades: Trades, base: Base, row: Row, it: Rid, b: Bucket)
    requires s'.log == s.log + [row] && CommittedFit(s, trades, base, b) && ProRata(s, trades, base, b)
    requires row.entryType == RELEASE_USED && row.rid.None? && RidOf(trades, row.trade) == Some(it)
    requires s'.Of(b).used - s.Of(b).used == if row.scope == One(b) then row.marginDelta else 0.0
    requires it in Backing(s.log, base, b) <==> row.scope == One(b)
    requires row.marginDelta == -SliceOf(PositionOf(s.log, trades, it), row.qty)
    ensures CommittedFit(s', trades, base, b) && ProRata(s', trades, base, b)
  {
    ExitHeld(PositionOf(s.log, trades, it), row, trades, it);
    NextCommittedFit(s, s', trades, base, row, b);
    NextProRata(s, s', trades, base, row, b, it);
  }

  lemma ExitRow(s: State, s': State, trades: Trades, base: Base, row: Row, it: Rid)
    requires Describes(row, s, s') && PositionsFit(s, trades, base) && ChainsFit(s)
    requires row.entryType == RELEASE_USED && row.rid.None? && row.scope.One?
    requires RidOf(trades, row.trade) == Some(it) && it in Backing(s.log, base, row.scope.bucket)
    requires row.marginDelta == -SliceOf(PositionOf(s.log, trades, it), row.qty)
    ensures PositionsFit(s', trades, base)
  {
    CommittedOnce(s, trades, base, it, row.scope.bucket);
    NextLive(s, s', trades, row);
    ExitBucket(s, s', trades, base, row, it, Intraday);
    ExitBucket(s, s', trades, base, row, it, Positional);
  }

  /** release_used frees the committed margin in proportion to the quantity, not a recomputed margin. */
  lemma ExitSlice(s: State, leverage: Leverage, trades: Trades, it: Rid, b: Bucket, qty: int, entry: real, intent: Intent)
    requires Fits(PositionOf(s.log, trades, it), b)
    ensures ReleaseMargin(leverage, s.log, Some(it), qty, entry, intent) == SliceOf(PositionOf(s.log, trades, it), qty)
  {
  }

  /** Each call keeps used margin pro rata, whatever leverage map it runs under. */
  lemma StepKeepsPositions(split: Split, trades: Trades, base: Base, s: State, c: Call)
    requires s.initialized && Fresh(s, c) && Attributed(s, trades, base, c)
    requires PositionsFit(s, trades, base) && ChainsFit(s)
    ensures PositionsFit(Step(split, trades, s, c).0, trades, base)
  {
    if Step(split, trades, s, c).0 != s {
      if c.op.Commit? {
        StepCommits(split, trades, base, s, c);
      } else if c.op.ReleaseUsed? {
        StepExits(split, trades, base, s, c);
      } else {
        StepWritesAhead(split, trades, s, c);
        StepKeepsChains(split, trades, s, c);
        OtherRow(s, Step(split, trades, s, c).0, trades, base, Last(Step(split, trades, s, c).0.log));
      }
    }
  }

  lemma StepCommits(split: Split, trades: Trades, base: Base, s: State, c: Call)
    requires s.initialized && Fresh(s, c) && Attributed(s, trades, base, c) && c.op.Commit?
    requires PositionsFit(s, trades, base) && ChainsFit(s) && Step(split, trades, s, c).0 != s
    ensures PositionsFit(Step(split, trades, s, c).0, trades, base)
  {
    StepWritesAhead(split, trades, s, c);
    StepKeepsChains(split, trades, s, c);
    CommitRow(s, Step(split, trades, s, c).0, trades, base, Last(Step(split, trades, s, c).0.log));
  }

  lemma StepExits(split: Split, trades: Trades, base: Base, s: State, c: Call)
    requires s.initialized && Fresh(s, c) && Attributed(s, trades, base, c) && c.op.ReleaseUsed?
    requires PositionsFit(s, trades, base) && ChainsFit(s) && Step(split, trades, s, c).0 != s
    ensures PositionsFit(Step(split, trades, s, c).0, trades, base)
  {
    StepWritesAhead(split, trades, s, c);
    var it, b := RidOf(trades, c.op.trade).value, BucketFor(c.op.intent).value;
    CommittedOnce(s, trades, base, it, b);
    ExitSlice(s, c.leverage, trades, it, b, c.op.qty, c.op.entry, c.op.intent);
    ExitRow(s, Step(split, trades, s, c).0, trades, base, Last(Step(split, trades, s, c).0.log), it);
  }

  ghost predicate AllAttributed(split: Split, trades: Trades, base: Base, s: State, calls: seq<Call>)
    decreases |calls|
  {
    calls == []
    || (Fresh(s, calls[0]) && Attributed(s, trades, base, calls[0])
        && AllAttributed(split, trades, base, Step(split, trades, s, calls[0]).0, calls[1..]))
  }

  /** Over every run, each under its own leverage map: used is the committed margin still open, pro rata. */
  lemma {:induction false} RunKeepsPositions(split: Split, trades: Trades, base: Base, s: State, calls: seq<Call>)
    requires s.initialized && AllAttributed(split, trades, base, s, calls)
    requires PositionsFit(s, trades, base) && ChainsFit(s)
    ensures var s' := Run(split, trades, s, calls);
            s'.initialized && PositionsFit(s', trades, base) && ChainsFit(s')
    decreases |calls|
  {
    if calls != [] {
      StepKeepsPositions(split, trades, base, s, calls[0]);
      StepKeepsChains(split, trades, s, calls[0]);
      RunKeepsPositions(split, trades, base, Step(split, trades, s, calls[0]).0, calls[1..]);
    }
  }

  /** Fills of non-negative margin, and no position exited beyond its quantity. */
  ghost predicate WithinFills(s: State, trades: Trades, base: Base, b: Bucket) {
    forall rid :: rid in Backing(s.log, base, b) ==>
      CommitMargin(s.log, rid) >= 0.0 && Exited(s.log, trades, rid) <= CommitQty(s.log, rid)
  }

  lemma HeldNonNegative(s: State, trades: Trades, base: Base, b: Bucket, rid: Rid)
    requires PositionsFit(s, trades, base) && WithinFills(s, trades, base, b) && rid in Backing(s.log, base, b)
    ensures Held(s.log, trades)(rid) >= 0.0
  {
    assert CommittedFit(s, trades, base, b);
    ShareNonNegative(PositionOf(s.log, trades, rid));
  }

  /** Then used margin never goes below what the restart put there for quantity that had left, so never below zero. */
  lemma UsedNonNegative(s: State, trades: Trades, base: Base, b: Bucket)
    requires PositionsFit(s, trades, base) && WithinFills(s, trades, base, b)
    ensures s.Of(b).used >= base.Over(b)
  {
    forall rid | rid in Backing(s.log, base, b) ensures Held(s.log, trades)(rid) >= 0.0 {
      HeldNonNegative(s, trades, base, b, rid);
    }
    Sums.NonNegative(Backing(s.log, base, b), Held(s.log, trades));
  }

  /** And an exit of no more than what is left of its position frees no more than what is used. */
  lemma ExitWithinUsed(s: State, trades: Trades, base: Base, b: Bucket, it: Rid, qty: int)
    requires PositionsFit(s, trades, base) && WithinFills(s, trades, base, b) && it in Backing(s.log, base, b)
    requires qty <= CommitQty(s.log, it) - Exited(s.log, trades, it)
    ensures SliceOf(PositionOf(s.log, trades, it), qty) <= s.Of(b).used - base.Over(b)
  {
    var keys, held, p := Backing(s.log, base, b), Held(s.log, trades), PositionOf(s.log, trades, it);
    forall rid | rid in keys - {it} ensures held(rid) >= 0.0 {
      HeldNonNegative(s, trades, base, b, rid);
    }
    Sums.NonNegative(keys - {it}, held);
    Sums.Pick(keys, held, it);
    assert CommittedFit(s, trades, base, b);
    SliceOfLeft(p, qty);
  }

  lemma SliceOfLeft(p: Position, qty: int)
    requires p.qty > 0 && p.margin >= 0.0 && qty <= p.qty - p.exited
    ensures SliceOf(p, qty) <= HeldBy(p)
  {
    SliceSplits(p, p.qty - p.exited, qty);
    ShareNonNegative(p.(exited := p.exited + qty));
  }

  lemma ShareNonNegative(p: Position)
    requires p.qty > 0 && p.margin >= 0.0 && p.exited <= p.qty
    ensures HeldBy(p) >= 0.0
  {
    var part, whole := (p.qty - p.exited) as real, p.qty as real;
    assert p.margin * part >= 0.0;
    assert p.margin * part / whole >= 0.0;
  }

  /** One exit of a position: how much leaves, and the leverage map of that moment. */
  datatype Exit = Exit(qty: int, leverage: Leverage, entry: real, intent: Intent)

  ghost function TotalQty(exits: seq<Exit>): int {
    if exits == [] then 0 else exits[0].qty + TotalQty(exits[1..])
  }

  ghost function TotalFreed(log: Log, it: Rid, exits: seq<Exit>): real {
    if exits == [] then 0.0
    else ReleaseMargin(exits[0].leverage, log, Some(it), exits[0].qty, exits[0].entry, exits[0].intent)
         + TotalFreed(log, it, exits[1..])
  }

  lemma {:induction false} ExitsFreeSlice(s: State, trades: Trades, it: Rid, b: Bucket, exits: seq<Exit>)
    requires Fits(PositionOf(s.log, trades, it), b)
    ensures TotalFreed(s.log, it, exits) == SliceOf(PositionOf(s.log, trades, it), TotalQty(exits))
  {
    var p := PositionOf(s.log, trades, it);
    if exits == [] {
      SliceOfAll(p);
    } else {
      ExitSlice(s, exits[0].leverage, trades, it, b, exits[0].qty, exits[0].entry, exits[0].intent);
      ExitsFreeSlice(s, trades, it, b, exits[1..]);
      SliceSplits(p, TotalQty(exits), exits[0].qty);
    }
  }

  /** Partial exits that add up to the committed quantity free exactly the committed margin, whatever the leverage maps. */
  lemma FullExitFreesAll(s: State, trades: Trades, base: Base, it: Rid, b: Bucket, exits: seq<Exit>)
    requires PositionsFit(s, trades, base) && it in Backing(s.log, base, b)
    requires TotalQty(exits) == CommitQty(s.log, it)
    ensures TotalFreed(s.log, it, exits) == CommitMargin(s.log, it)
  {
    assert CommittedFit(s, trades, base, b);
    ExitsFreeSlice(s, trades, it, b, exits);
    SliceOfAll(PositionOf(s.log, trades, it));
  }
}
