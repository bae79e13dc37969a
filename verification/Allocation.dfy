/**
 * allocation/: ranking the candidates of a window, admitting them greedily, and the regret of
 * admitting by arrival instead.
 */
module Allocation {
  import opened Options
  import opened Sorting
  import opened Sides

  /** The tier label is upper-cased. */
  datatype Candidate = Candidate(
    signalId: string, symbol: string, side: Side, score: real, tier: string, margin: real, epoch: real)

  function TierRank(tier: string): nat {
    if tier == "HIGH" then 3 else if tier == "MEDIUM" then 2 else if tier == "LOW" then 1 else 0
  }

  /** Code-point order of strings. */
  predicate TextLe(a: string, b: string) {
    a == "" || (b != "" && (a[0] < b[0] || (a[0] == b[0] && TextLe(a[1..], b[1..]))))
  }

  lemma {:induction false} TextTotal(a: string, b: string)
    ensures TextLe(a, b) || TextLe(b, a)
    ensures TextLe(a, b) && TextLe(b, a) ==> a == b
  {
    if a != "" && b != "" && a[0] == b[0] {
      TextTotal(a[1..], b[1..]);
      assert a == [a[0]] + a[1..] && b == [b[0]] + b[1..];
    }
  }

  lemma {:induction false} TextTransitive(a: string, b: string, c: string)
    requires TextLe(a, b) && TextLe(b, c)
    ensures TextLe(a, c)
  {
    if a != "" && a[0] == b[0] && b[0] == c[0] {
      TextTransitive(a[1..], b[1..], c[1..]);
    }
  }

  /** A7: score down, tier down, trigger time up, signal id up. */
  predicate RankLe(a: Candidate, b: Candidate) {
    a.score > b.score
    || (a.score == b.score
        && (TierRank(a.tier) > TierRank(b.tier)
            || (TierRank(a.tier) == TierRank(b.tier)
                && (a.epoch < b.epoch || (a.epoch == b.epoch && TextLe(a.signalId, b.signalId))))))
  }

  predicate ArrivalLe(a: Candidate, b: Candidate) {
    a.epoch < b.epoch || (a.epoch == b.epoch && TextLe(a.signalId, b.signalId))
  }

  function RankCandidates(cs: seq<Candidate>): seq<Candidate> {
    Sort(RankLe, cs)
  }

  function ArrivalOrdered(cs: seq<Candidate>): seq<Candidate> {
    Sort(ArrivalLe, cs)
  }

  lemma BothAreOrders()
    ensures Order(RankLe) && Order(ArrivalLe)
  {
    forall a: Candidate, b: Candidate { TextTotal(a.signalId, b.signalId); }
    forall a: Candidate, b: Candidate, c: Candidate
      | TextLe(a.signalId, b.signalId) && TextLe(b.signalId, c.signalId)
      ensures TextLe(a.signalId, c.signalId) {
      TextTransitive(a.signalId, b.signalId, c.signalId);
    }
  }

  /** HIGH before MEDIUM before LOW before any other label. */
  predicate BetterTier(a: string, b: string) {
    || (a == "HIGH" && b != "HIGH")
    || (a == "MEDIUM" && b != "HIGH" && b != "MEDIUM")
    || (a == "LOW" && b != "HIGH" && b != "MEDIUM" && b != "LOW")
  }

  /** In a ranked window the better score stands first, then the better tier, then the earlier trigger, then the smaller id. */
  lemma RankedOrder(cs: seq<Candidate>, i: nat, j: nat)
    requires i < j < |cs|
    ensures |RankCandidates(cs)| == |cs|
    ensures var a, b := RankCandidates(cs)[i], RankCandidates(cs)[j];
      && a.score >= b.score
      && (a.score == b.score ==> !BetterTier(b.tier, a.tier))
      && (a.score == b.score && !BetterTier(a.tier, b.tier) ==>
            a.epoch < b.epoch || (a.epoch == b.epoch && TextLe(a.signalId, b.signalId)))
  {
    BothAreOrders();
    SortSorts(RankLe, cs);
    var ranked := RankCandidates(cs);
    assert |multiset(ranked)| == |multiset(cs)|;
    var a, b := ranked[i], ranked[j];
    assert RankLe(a, b);
    TierOrder(a.tier, b.tier);
    TierOrder(b.tier, a.tier);
  }

  lemma TierOrder(a: string, b: string)
    ensures TierRank(a) > TierRank(b) <==> BetterTier(a, b)
  {
  }

  predicate DistinctIds(cs: seq<Candidate>) {
    forall a, b :: a in cs && b in cs && a.signalId == b.signalId ==> a == b
  }

  /** Ranking a window is replayable: whatever order the workers appended in, the result is the same. */
  lemma RankingIsReplayable(cs: seq<Candidate>, ds: seq<Candidate>)
    requires DistinctIds(cs) && multiset(cs) == multiset(ds)
    ensures RankCandidates(cs) == RankCandidates(ds) && ArrivalOrdered(cs) == ArrivalOrdered(ds)
  {
    BothAreOrders();
    forall a, b | a in cs && b in cs { TextTotal(a.signalId, b.signalId); }
    SortIgnoresArrival(RankLe, cs, ds);
    SortIgnoresArrival(ArrivalLe, cs, ds);
  }

  // --- greedy admission ---

  datatype Rules = Rules(cap: Option<real>, skew: Option<real>)

  datatype Reason = DuplicateSymbol | SharedConcentration | LongShortSkew

  /** What an admission has used up so far. */
  datatype Room = Room(slots: int, cash: real, deployed: real, symbols: set<string>, longs: nat, shorts: nat)

  function Ceil(x: real): int {
    -(-x).Floor
  }

  function Longs(c: Candidate): nat { if c.side == BUY then 1 else 0 }

  function Shorts(c: Candidate): nat { if c.side == SELL then 1 else 0 }

  predicate WithinCap(rules: Rules, total: real, deployed: real) {
    rules.cap.Some? && total > 0.0 ==> deployed <= rules.cap.value * total
  }

  predicate WithinSkew(rules: Rules, longs: nat, shorts: nat) {
    rules.skew.Some? && longs + shorts > 0 ==>
      (if longs > shorts then longs else shorts) <= Ceil(rules.skew.value * (longs + shorts) as real)
  }

  function PassesPortfolioRules(rules: Rules, total: real, c: Candidate, r: Room): Option<Reason> {
    if c.symbol in r.symbols then Some(DuplicateSymbol)
    else if !WithinCap(rules, total, r.deployed + c.margin) then Some(SharedConcentration)
    else if !WithinSkew(rules, r.longs + Longs(c), r.shorts + Shorts(c)) then Some(LongShortSkew)
    else None
  }

  predicate Admits(rules: Rules, total: real, c: Candidate, r: Room) {
    c.margin <= r.cash && PassesPortfolioRules(rules, total, c, r).None?
  }

  function Taken(r: Room, c: Candidate): Room {
    Room(r.slots - 1, r.cash - c.margin, r.deployed + c.margin, r.symbols + {c.symbol}, r.longs + Longs(c),
         r.shorts + Shorts(c))
  }

  function Greedy(rules: Rules, total: real, cs: seq<Candidate>, r: Room): seq<Candidate> {
    if cs == [] || r.slots <= 0 then []
    else if Admits(rules, total, cs[0], r) then [cs[0]] + Greedy(rules, total, cs[1..], Taken(r, cs[0]))
    else Greedy(rules, total, cs[1..], r)
  }

  /**
   * When a candidate is admitted: its margin is there, its symbol is new, what is deployed with
   * it stays within its share of the capital, and the larger side with it stays within its share
   * of all positions, rounded up.
   */
  lemma AdmitsIff(rules: Rules, total: real, c: Candidate, r: Room)
    ensures Admits(rules, total, c, r) <==>
      && c.margin <= r.cash && c.symbol !in r.symbols
      && (rules.cap == None || total <= 0.0 || r.deployed + c.margin <= rules.cap.value * total)
      && (rules.skew == None ||
            (&& (r.longs + (if c.side == BUY then 1 else 0)) as real < rules.skew.value * (r.longs + r.shorts + 1) as real + 1.0
             && (r.shorts + (if c.side == BUY then 0 else 1)) as real < rules.skew.value * (r.longs + r.shorts + 1) as real + 1.0))
  {
    if rules.skew.Some? {
      CeilIs(rules.skew.value * (r.longs + r.shorts + 1) as real, r.longs + Longs(c));
      CeilIs(rules.skew.value * (r.longs + r.shorts + 1) as real, r.shorts + Shorts(c));
      assert Longs(c) + Shorts(c) == 1;
    }
  }

  /** A refusal names the first rule that is broken: the symbol, the share of the capital, the larger side. */
  lemma RefusalNames(rules: Rules, total: real, c: Candidate, r: Room)
    ensures var reason := PassesPortfolioRules(rules, total, c, r);
            var overCap := rules.cap.Some? && total > 0.0 && r.deployed + c.margin > rules.cap.value * total;
      && (reason == Some(DuplicateSymbol) <==> c.symbol in r.symbols)
      && (reason == Some(SharedConcentration) <==> c.symbol !in r.symbols && overCap)
      && (reason == Some(LongShortSkew) ==> c.symbol !in r.symbols && !overCap && rules.skew.Some?)
  {
  }

  lemma CeilIs(x: real, n: int)
    ensures n <= Ceil(x) <==> n as real < x + 1.0
  {
  }

  /** _simulate, the loop. */
  method Simulate(rules: Rules, ordered: seq<Candidate>, freeSlots: int, avail: real, deployed: real, total: real)
    returns (admitted: seq<Candidate>)
    ensures admitted == Greedy(rules, total, ordered, Room(freeSlots, avail, deployed, {}, 0, 0))
  {
    admitted := [];
    ghost var all := Greedy(rules, total, ordered, Room(freeSlots, avail, deployed, {}, 0, 0));
    var room := Room(freeSlots, avail, deployed, {}, 0, 0);
    var i := 0;
    assert ordered[0..] == ordered;
    while i < |ordered|
      invariant 0 <= i <= |ordered|
      invariant admitted + Greedy(rules, total, ordered[i..], room) == all
    {
      if room.slots <= 0 { break; }
      var c := ordered[i];
      assert ordered[i..][1..] == ordered[i + 1..];
      if Admits(rules, total, c, room) {
        assert admitted + ([c] + Greedy(rules, total, ordered[i + 1..], Taken(room, c)))
            == (admitted + [c]) + Greedy(rules, total, ordered[i + 1..], Taken(room, c));
        admitted := admitted + [c];
        room := Taken(room, c);
      }
      i := i + 1;
    }
  }

  function MarginSum(cs: seq<Candidate>): real {
    if cs == [] then 0.0 else cs[0].margin + MarginSum(cs[1..])
  }

  function ScoreSum(cs: seq<Candidate>): real {
    if cs == [] then 0.0 else cs[0].score + ScoreSum(cs[1..])
  }

  /** The room after the first `k` admissions. */
  function RoomAfter(r: Room, admitted: seq<Candidate>): Room
    decreases |admitted|
  {
    if admitted == [] then r else RoomAfter(Taken(r, admitted[0]), admitted[1..])
  }

  predicate DistinctSymbols(cs: seq<Candidate>) {
    forall i, j :: 0 <= i < j < |cs| ==> cs[i].symbol != cs[j].symbol
  }

  predicate Avoids(cs: seq<Candidate>, symbols: set<string>) {
    forall i :: 0 <= i < |cs| ==> cs[i].symbol !in symbols
  }

  /** Admitted candidates come from the list, one per symbol, within the slots and within the capital. */
  lemma {:induction false} GreedyIsFeasible(rules: Rules, total: real, cs: seq<Candidate>, r: Room)
    ensures var g := Greedy(rules, total, cs, r);
            && DistinctSymbols(g) && Avoids(g, r.symbols)
            && (forall i :: 0 <= i < |g| ==> g[i] in cs)
            && |g| <= (if r.slots < 0 then 0 else r.slots)
            && (g != [] ==> MarginSum(g) <= r.cash)
  {
    if cs != [] && r.slots > 0 {
      if Admits(rules, total, cs[0], r) {
        GreedyIsFeasible(rules, total, cs[1..], Taken(r, cs[0]));
        var rest := Greedy(rules, total, cs[1..], Taken(r, cs[0]));
        assert ([cs[0]] + rest)[1..] == rest;
      } else {
        GreedyIsFeasible(rules, total, cs[1..], r);
      }
    }
  }

  /** The cap and the skew hold after every single admission, not only at the end. */
  lemma {:induction false} RulesHoldThroughout(rules: Rules, total: real, cs: seq<Candidate>, r: Room, k: nat)
    requires 0 < k <= |Greedy(rules, total, cs, r)|
    ensures var after := RoomAfter(r, Greedy(rules, total, cs, r)[..k]);
            WithinCap(rules, total, after.deployed) && WithinSkew(rules, after.longs, after.shorts) && after.cash >= 0.0
  {
    if Admits(rules, total, cs[0], r) {
      var rest := Greedy(rules, total, cs[1..], Taken(r, cs[0]));
      var g := [cs[0]] + rest;
      assert g[..k][1..] == rest[..k - 1];
      if k > 1 {
        RulesHoldThroughout(rules, total, cs[1..], Taken(r, cs[0]), k - 1);
      }
    } else {
      RulesHoldThroughout(rules, total, cs[1..], r, k);
    }
  }

  // --- optimality ---

  function Symbols(cs: seq<Candidate>): set<string> {
    set c | c in cs :: c.symbol
  }

  function Min(a: int, b: int): int {
    if a < b then a else b
  }

  /** Every margin is non-negative and all of them together fit. */
  predicate AllFit(cs: seq<Candidate>, cash: real) {
    (forall i :: 0 <= i < |cs| ==> cs[i].margin >= 0.0) && MarginSum(cs) <= cash
  }

  const OFF := Rules(None, None)

  lemma {:induction false} MarginSumNonNegative(cs: seq<Candidate>)
    requires forall i :: 0 <= i < |cs| ==> cs[i].margin >= 0.0
    ensures MarginSum(cs) >= 0.0
  {
    if cs != [] {
      MarginSumNonNegative(cs[1..]);
    }
  }

  lemma SymbolsStep(cs: seq<Candidate>)
    requires cs != []
    ensures Symbols(cs) == {cs[0].symbol} + Symbols(cs[1..])
  {
    forall s ensures s in Symbols(cs) <==> s in {cs[0].symbol} + Symbols(cs[1..]) {
      if s in Symbols(cs) {
        var c :| c in cs && c.symbol == s;
        assert c == cs[0] || c in cs[1..];
      }
    }
  }

  lemma NewSymbols(cs: seq<Candidate>, seen: set<string>)
    requires cs != []
    ensures cs[0].symbol in seen ==> Symbols(cs) - seen == Symbols(cs[1..]) - seen
    ensures cs[0].symbol !in seen ==> |Symbols(cs) - seen| == |Symbols(cs[1..]) - (seen + {cs[0].symbol})| + 1
  {
    SymbolsStep(cs);
    var s := cs[0].symbol;
    if s in seen {
      assert Symbols(cs) - seen == Symbols(cs[1..]) - seen;
    } else {
      assert Symbols(cs) - seen == (Symbols(cs[1..]) - (seen + {s})) + {s};
    }
  }

  lemma TailFits(cs: seq<Candidate>, cash: real)
    requires cs != [] && AllFit(cs, cash)
    ensures cs[0].margin <= cash && AllFit(cs[1..], cash) && AllFit(cs[1..], cash - cs[0].margin)
  {
    MarginSumNonNegative(cs[1..]);
  }

  lemma GreedyStep(total: real, cs: seq<Candidate>, r: Room)
    requires cs != [] && r.slots > 0 && cs[0].margin <= r.cash
    ensures Greedy(OFF, total, cs, r)
            == if cs[0].symbol in r.symbols then Greedy(OFF, total, cs[1..], r)
               else [cs[0]] + Greedy(OFF, total, cs[1..], Taken(r, cs[0]))
  {
  }

  /** With the rules off and everything affordable, greedy fills the slots or runs out of symbols. */
  lemma {:induction false} GreedyCount(total: real, cs: seq<Candidate>, r: Room)
    requires AllFit(cs, r.cash) && r.slots >= 0
    ensures |Greedy(OFF, total, cs, r)| == Min(r.slots, |Symbols(cs) - r.symbols|)
  {
    if cs == [] {
      assert Symbols(cs) - r.symbols == {};
    } else if r.slots > 0 {
      NewSymbols(cs, r.symbols);
      TailFits(cs, r.cash);
      GreedyStep(total, cs, r);
      if cs[0].symbol in r.symbols {
        GreedyCount(total, cs[1..], r);
      } else {
        GreedyCount(total, cs[1..], Taken(r, cs[0]));
      }
    }
  }

  function Without(cs: seq<Candidate>, i: nat): seq<Candidate>
    requires i < |cs|
  {
    cs[..i] + cs[i + 1..]
  }

  lemma {:induction false} ScoreWithout(cs: seq<Candidate>, i: nat)
    requires i < |cs|
    ensures ScoreSum(cs) == cs[i].score + ScoreSum(Without(cs, i))
  {
    if i == 0 {
      assert Without(cs, 0) == cs[1..];
    } else {
      ScoreWithout(cs[1..], i - 1);
      assert Without(cs, i)[1..] == Without(cs[1..], i - 1);
      assert Without(cs, i)[0] == cs[0];
    }
  }

  predicate ByScore(cs: seq<Candidate>) {
    forall i, j :: 0 <= i < j < |cs| ==> cs[i].score >= cs[j].score
  }

  /** A selection that greedy could have made instead: candidates of the list, one per new symbol. */
  predicate Selects(t: seq<Candidate>, cs: seq<Candidate>, symbols: set<string>) {
    DistinctSymbols(t) && Avoids(t, symbols) && forall i :: 0 <= i < |t| ==> t[i] in cs
  }

  /** Which element of a selection to trade for the head of the list: the one with its symbol, else any. */
  lemma ExchangeOne(t: seq<Candidate>, cs: seq<Candidate>, symbols: set<string>) returns (i: nat)
    requires cs != [] && ByScore(cs) && Selects(t, cs, symbols) && t != []
    ensures i < |t| && t[i].score <= cs[0].score
    ensures Selects(Without(t, i), cs[1..], symbols + {cs[0].symbol})
  {
    if k :| 0 <= k < |t| && t[k].symbol == cs[0].symbol { i := k; } else { i := 0; }
    var k :| 0 <= k < |cs| && cs[k] == t[i];
    var u := Without(t, i);
    forall j | 0 <= j < |u| ensures u[j] in cs[1..] && u[j].symbol !in symbols + {cs[0].symbol} {
      var j' := if j < i then j else j + 1;
      assert u[j] == t[j'] && t[j'].symbol != cs[0].symbol;
      var m :| 0 <= m < |cs| && cs[m] == t[j'];
      assert m != 0;
      assert cs[1..][m - 1] == t[j'];
    }
  }

  /** Ranked greedy is optimal: no equally large selection of distinct symbols scores more. */
  lemma {:induction false} GreedyIsOptimal(total: real, cs: seq<Candidate>, r: Room, t: seq<Candidate>)
    requires AllFit(cs, r.cash) && ByScore(cs)
    requires Selects(t, cs, r.symbols) && |t| == |Greedy(OFF, total, cs, r)|
    ensures ScoreSum(t) <= ScoreSum(Greedy(OFF, total, cs, r))
  {
    if cs != [] && r.slots > 0 {
      var c := cs[0];
      TailFits(cs, r.cash);
      assert forall i, j :: 0 <= i < j < |cs[1..]| ==> cs[1..][i] == cs[i + 1] && cs[1..][j] == cs[j + 1];
      if c.symbol in r.symbols {
        forall i | 0 <= i < |t| ensures t[i] in cs[1..] {
          var m :| 0 <= m < |cs| && cs[m] == t[i];
          assert cs[1..][m - 1] == t[i];
        }
        GreedyIsOptimal(total, cs[1..], r, t);
      } else {
        var rest := Greedy(OFF, total, cs[1..], Taken(r, c));
        assert ([c] + rest)[1..] == rest;
        var i := ExchangeOne(t, cs, r.symbols);
        ScoreWithout(t, i);
        GreedyIsOptimal(total, cs[1..], Taken(r, c), Without(t, i));
      }
    }
  }

  // --- regret ---

  datatype Regret = Regret(ranked: seq<Candidate>, fcfs: seq<Candidate>, crowdOut: nat, starvation: nat, scoreWeighted: real)

  function ComputeRegret(rules: Rules, drained: seq<Candidate>, freeSlots: int, avail: real, deployed: real, total: real)
    : Regret
  {
    var room := Room(freeSlots, avail, deployed, {}, 0, 0);
    var ranked, fcfs := Greedy(rules, total, RankCandidates(drained), room), Greedy(rules, total, ArrivalOrdered(drained), room);
    Regret(ranked, fcfs, |Symbols(fcfs) - Symbols(ranked)|, |Symbols(ranked) - Symbols(fcfs)|,
           ScoreSum(ranked) - ScoreSum(fcfs))
  }

  lemma {:induction false} DistinctCount(cs: seq<Candidate>)
    requires DistinctSymbols(cs)
    ensures |Symbols(cs)| == |cs|
  {
    if cs != [] {
      DistinctCount(cs[1..]);
      SymbolsStep(cs);
      forall c | c in cs[1..] ensures c.symbol != cs[0].symbol {
        var i :| 0 <= i < |cs[1..]| && cs[1..][i] == c;
        assert cs[i + 1] == c;
      }
    }
  }

  /** The two counts of a regret record balance, under any rules and any capacity. */
  lemma RegretBalances(rules: Rules, drained: seq<Candidate>, freeSlots: int, avail: real, deployed: real, total: real)
    ensures var g := ComputeRegret(rules, drained, freeSlots, avail, deployed, total);
            g.crowdOut + |g.ranked| == g.starvation + |g.fcfs|
  {
    var room := Room(freeSlots, avail, deployed, {}, 0, 0);
    var g := ComputeRegret(rules, drained, freeSlots, avail, deployed, total);
    GreedyIsFeasible(rules, total, RankCandidates(drained), room);
    GreedyIsFeasible(rules, total, ArrivalOrdered(drained), room);
    DistinctCount(g.ranked);
    DistinctCount(g.fcfs);
    UnionCount(Symbols(g.ranked), Symbols(g.fcfs));
  }

  lemma UnionCount(r: set<string>, f: set<string>)
    ensures |f - r| + |r| == |r - f| + |f|
  {
    assert f - r + r == r + f == r - f + f;
    assert |f - r + r| == |f - r| + |r| && |r - f + f| == |r - f| + |f|;
  }

  lemma {:induction false} MarginSumIsSetLike(xs: seq<Candidate>, ys: seq<Candidate>)
    requires multiset(xs) == multiset(ys)
    ensures MarginSum(xs) == MarginSum(ys)
    decreases |xs|
  {
    if xs == [] {
      assert |multiset(ys)| == 0;
    } else {
      assert xs[0] in multiset(ys);
      var j :| 0 <= j < |ys| && ys[j] == xs[0];
      TailMultiset(xs);
      WithoutMultiset(ys, j);
      MarginSumIsSetLike(xs[1..], Without(ys, j));
      MarginWithout(ys, j);
    }
  }

  lemma WithoutMultiset(cs: seq<Candidate>, i: nat)
    requires i < |cs|
    ensures multiset(Without(cs, i)) == multiset(cs) - multiset{cs[i]}
  {
    assert cs == cs[..i] + ([cs[i]] + cs[i + 1..]);
  }

  lemma {:induction false} MarginWithout(cs: seq<Candidate>, i: nat)
    requires i < |cs|
    ensures MarginSum(cs) == cs[i].margin + MarginSum(Without(cs, i))
  {
    if i == 0 {
      assert Without(cs, 0) == cs[1..];
    } else {
      MarginWithout(cs[1..], i - 1);
      assert Without(cs, i)[1..] == Without(cs[1..], i - 1);
      assert Without(cs, i)[0] == cs[0];
    }
  }

  lemma SameMembers(xs: seq<Candidate>, ys: seq<Candidate>)
    requires multiset(xs) == multiset(ys)
    ensures forall c :: c in xs <==> c in ys
    ensures Symbols(xs) == Symbols(ys)
  {
    forall c ensures c in xs <==> c in ys {
      assert c in multiset(xs) <==> c in multiset(ys);
    }
  }

  /** Rearranging the candidates keeps them affordable. */
  lemma StillFits(xs: seq<Candidate>, ys: seq<Candidate>, cash: real)
    requires multiset(xs) == multiset(ys) && AllFit(xs, cash)
    ensures AllFit(ys, cash)
  {
    SameMembers(xs, ys);
    MarginSumIsSetLike(xs, ys);
    forall i | 0 <= i < |ys| ensures ys[i].margin >= 0.0 {
      assert ys[i] in xs;
    }
  }

  lemma RankedIsNoWorse(total: real, ranked: seq<Candidate>, arrived: seq<Candidate>, r: Room, symbols: set<string>)
    requires AllFit(ranked, r.cash) && AllFit(arrived, r.cash) && ByScore(ranked) && r.slots >= 0 && r.symbols == {}
    requires (forall c :: c in arrived <==> c in ranked) && Symbols(ranked) == Symbols(arrived) == symbols
    ensures |Greedy(OFF, total, ranked, r)| == |Greedy(OFF, total, arrived, r)| == Min(r.slots, |symbols|)
    ensures ScoreSum(Greedy(OFF, total, arrived, r)) <= ScoreSum(Greedy(OFF, total, ranked, r))
  {
    GreedyCount(total, ranked, r);
    GreedyCount(total, arrived, r);
    assert symbols - {} == symbols;
    GreedyIsFeasible(OFF, total, arrived, r);
    GreedyIsOptimal(total, ranked, r, Greedy(OFF, total, arrived, r));
  }

  lemma BothOrders(drained: seq<Candidate>, cash: real)
    requires AllFit(drained, cash)
    ensures AllFit(RankCandidates(drained), cash) && AllFit(ArrivalOrdered(drained), cash) && ByScore(RankCandidates(drained))
    ensures forall c :: c in ArrivalOrdered(drained) <==> c in RankCandidates(drained)
    ensures Symbols(RankCandidates(drained)) == Symbols(ArrivalOrdered(drained)) == Symbols(drained)
  {
    BothAreOrders();
    SortSorts(RankLe, drained);
    SortSorts(ArrivalLe, drained);
    StillFits(drained, RankCandidates(drained), cash);
    StillFits(drained, ArrivalOrdered(drained), cash);
    SameMembers(drained, RankCandidates(drained));
    SameMembers(drained, ArrivalOrdered(drained));
  }

  /** The shadow figure is never negative: with the rules off and the margins affordable, ranking loses no score. */
  lemma RegretNonNegative(drained: seq<Candidate>, freeSlots: int, avail: real, deployed: real, total: real)
    requires AllFit(drained, avail) && freeSlots >= 0
    ensures var g := ComputeRegret(OFF, drained, freeSlots, avail, deployed, total);
            && |g.ranked| == |g.fcfs| == Min(freeSlots, |Symbols(drained)|)
            && g.scoreWeighted >= 0.0
  {
    BothOrders(drained, avail);
    RankedIsNoWorse(total, RankCandidates(drained), ArrivalOrdered(drained),
                    Room(freeSlots, avail, deployed, {}, 0, 0), Symbols(drained));
  }

  /** What ranked admission would take, were there cash for every candidate. */
  function Top(drained: seq<Candidate>, freeSlots: int, deployed: real, total: real): seq<Candidate> {
    Greedy(OFF, total, RankCandidates(drained), Room(freeSlots, MarginSum(drained), deployed, {}, 0, 0))
  }

  predicate NoneNegative(cs: seq<Candidate>) {
    forall i :: 0 <= i < |cs| ==> cs[i].margin >= 0.0 && cs[i].score >= 0.0
  }

  /** Cash beyond what the unbounded admission takes changes nothing. */
  lemma {:induction false} EnoughCash(total: real, cs: seq<Candidate>, r: Room, plenty: real)
    requires AllFit(cs, plenty) && MarginSum(Greedy(OFF, total, cs, r.(cash := plenty))) <= r.cash
    ensures Greedy(OFF, total, cs, r) == Greedy(OFF, total, cs, r.(cash := plenty))
  {
    if cs != [] && r.slots > 0 {
      var c := cs[0];
      TailFits(cs, plenty);
      if c.symbol in r.symbols {
        EnoughCash(total, cs[1..], r, plenty);
      } else {
        var rest := Greedy(OFF, total, cs[1..], Taken(r.(cash := plenty), c));
        assert ([c] + rest)[1..] == rest;
        GreedyMargins(total, cs[1..], Taken(r.(cash := plenty), c));
        EnoughCash(total, cs[1..], Taken(r, c), plenty - c.margin);
      }
    }
  }

  lemma GreedyMargins(total: real, cs: seq<Candidate>, r: Room)
    requires forall i :: 0 <= i < |cs| ==> cs[i].margin >= 0.0
    ensures MarginSum(Greedy(OFF, total, cs, r)) >= 0.0
  {
    GreedyIsFeasible(OFF, total, cs, r);
    MarginSumNonNegative(Greedy(OFF, total, cs, r));
  }

  /** With scores that are not negative, a smaller selection scores no more either. */
  lemma {:induction false} GreedyBeatsSmaller(total: real, cs: seq<Candidate>, r: Room, t: seq<Candidate>)
    requires AllFit(cs, r.cash) && ByScore(cs) && NoneNegative(cs)
    requires Selects(t, cs, r.symbols) && |t| <= |Greedy(OFF, total, cs, r)|
    ensures ScoreSum(t) <= ScoreSum(Greedy(OFF, total, cs, r))
  {
    if cs != [] && r.slots > 0 {
      var c := cs[0];
      TailFits(cs, r.cash);
      assert forall i, j :: 0 <= i < j < |cs[1..]| ==> cs[1..][i] == cs[i + 1] && cs[1..][j] == cs[j + 1];
      if c.symbol in r.symbols {
        SelectsFromTail(t, cs, r.symbols);
        GreedyBeatsSmaller(total, cs[1..], r, t);
      } else {
        var rest := Greedy(OFF, total, cs[1..], Taken(r, c));
        assert ([c] + rest)[1..] == rest;
        if t == [] {
          GreedyBeatsSmaller(total, cs[1..], Taken(r, c), t);
        } else {
          var i := ExchangeOne(t, cs, r.symbols);
          ScoreWithout(t, i);
          GreedyBeatsSmaller(total, cs[1..], Taken(r, c), Without(t, i));
        }
      }
    }
  }

  lemma SelectsFromTail(t: seq<Candidate>, cs: seq<Candidate>, symbols: set<string>)
    requires cs != [] && Selects(t, cs, symbols) && cs[0].symbol in symbols
    ensures Selects(t, cs[1..], symbols)
  {
    forall i | 0 <= i < |t| ensures t[i] in cs[1..] {
      var m :| 0 <= m < |cs| && cs[m] == t[i];
      assert cs[1..][m - 1] == t[i];
    }
  }

  lemma NeverMoreThanSymbols(t: seq<Candidate>, cs: seq<Candidate>)
    requires Selects(t, cs, {})
    ensures |t| <= |Symbols(cs)|
  {
    DistinctCount(t);
    assert Symbols(t) <= Symbols(cs);
    SubsetCount(Symbols(t), Symbols(cs));
  }

  lemma SubsetCount(a: set<string>, b: set<string>)
    requires a <= b
    ensures |a| <= |b|
  {
    assert b == a + (b - a);
  }

  lemma RankedLosesNothing(total: real, ranked: seq<Candidate>, arrived: seq<Candidate>, r: Room, plenty: real)
    requires AllFit(ranked, plenty) && ByScore(ranked) && NoneNegative(ranked)
    requires (forall c :: c in arrived <==> c in ranked) && r.slots >= 0 && r.symbols == {}
    requires MarginSum(Greedy(OFF, total, ranked, r.(cash := plenty))) <= r.cash
    ensures Greedy(OFF, total, ranked, r) == Greedy(OFF, total, ranked, r.(cash := plenty))
    ensures ScoreSum(Greedy(OFF, total, arrived, r)) <= ScoreSum(Greedy(OFF, total, ranked, r))
  {
    EnoughCash(total, ranked, r, plenty);
    GreedyCount(total, ranked, r.(cash := plenty));
    assert Symbols(ranked) - {} == Symbols(ranked);
    GreedyIsFeasible(OFF, total, arrived, r);
    NeverMoreThanSymbols(Greedy(OFF, total, arrived, r), ranked);
    GreedyBeatsSmaller(total, ranked, r.(cash := plenty), Greedy(OFF, total, arrived, r));
  }

  lemma NotNegative(xs: seq<Candidate>, ys: seq<Candidate>)
    requires NoneNegative(xs) && Sort(RankLe, xs) == ys
    ensures NoneNegative(ys)
  {
    BothAreOrders();
    SortSorts(RankLe, xs);
    SameMembers(xs, ys);
    forall i | 0 <= i < |ys| ensures ys[i].margin >= 0.0 && ys[i].score >= 0.0 {
      assert ys[i] in xs;
    }
  }

  /**
   * Ranking loses no score as soon as the cash covers what it would take without a cash limit,
   * though the arrival order may then run short of cash.
   */
  lemma TopFitsNoRegret(drained: seq<Candidate>, freeSlots: int, avail: real, deployed: real, total: real)
    requires NoneNegative(drained) && freeSlots >= 0
    requires MarginSum(Top(drained, freeSlots, deployed, total)) <= avail
    ensures var g := ComputeRegret(OFF, drained, freeSlots, avail, deployed, total);
            g.ranked == Top(drained, freeSlots, deployed, total) && g.scoreWeighted >= 0.0
  {
    BothOrders(drained, MarginSum(drained));
    NotNegative(drained, RankCandidates(drained));
    RankedLosesNothing(total, RankCandidates(drained), ArrivalOrdered(drained),
                       Room(freeSlots, avail, deployed, {}, 0, 0), MarginSum(drained));
  }

  /** `a` is ranked first but came last, and taking it leaves cash for neither `b` nor `c`. */
  predicate Crowds(a: Candidate, b: Candidate, c: Candidate, cash: real) {
    && a.score > b.score >= c.score && b.tier == c.tier && b.epoch < c.epoch < a.epoch
    && a.symbol != b.symbol && b.symbol != c.symbol && a.symbol != c.symbol
    && a.margin <= cash < a.margin + b.margin && cash < a.margin + c.margin && b.margin + c.margin <= cash
    && b.margin >= 0.0 && c.margin >= 0.0
  }

  /**
   * When cash binds, ranking can lose: with two free slots the regret of such a window is
   * the one score admitted less the two it crowded out, negative whenever those two sum to more.
   */
  lemma CashCanMakeRegretNegative(a: Candidate, b: Candidate, c: Candidate, cash: real, deployed: real, total: real)
    requires Crowds(a, b, c, cash)
    ensures var g := ComputeRegret(OFF, [a, b, c], 2, cash, deployed, total);
            && g.ranked == [a] && g.fcfs == [b, c]
            && (g.scoreWeighted < 0.0 <==> a.score < b.score + c.score)
  {
    assert RankLe(b, c) && !RankLe(b, a) && RankLe(a, b);
    assert ArrivalLe(b, c) && !ArrivalLe(a, b) && !ArrivalLe(a, c);
    SortThree(RankLe, a, b, c);
    SortThree(ArrivalLe, a, b, c);
    var room := Room(2, cash, deployed, {}, 0, 0);
    RankedTakesOne(total, a, b, c, room);
    ArrivalTakesTwo(total, b, c, a, room);
    assert [a][1..] == [] && [b, c][1..] == [c] && [c][1..] == [];
    assert ScoreSum([c]) == c.score;
  }

  lemma RankedTakesOne(total: real, a: Candidate, b: Candidate, c: Candidate, r: Room)
    requires r.slots == 2 && r.symbols == {} && a.margin <= r.cash
    requires r.cash < a.margin + b.margin && r.cash < a.margin + c.margin
    ensures Greedy(OFF, total, [a, b, c], r) == [a]
  {
    assert [a, b, c][1..] == [b, c] && [b, c][1..] == [c];
    assert Greedy(OFF, total, [c], Taken(r, a)) == [];
  }

  lemma ArrivalTakesTwo(total: real, b: Candidate, c: Candidate, a: Candidate, r: Room)
    requires r.slots == 2 && r.symbols == {} && b.symbol != c.symbol
    requires 0.0 <= c.margin && b.margin + c.margin <= r.cash
    ensures Greedy(OFF, total, [b, c, a], r) == [b, c]
  {
    assert [b, c, a][1..] == [c, a] && [c, a][1..] == [a];
    assert Greedy(OFF, total, [a], Taken(Taken(r, b), c)) == [];
    assert Greedy(OFF, total, [c, a], Taken(r, b)) == [c];
  }

  lemma SortThree(le: (Candidate, Candidate) -> bool, a: Candidate, b: Candidate, c: Candidate)
    requires le(b, c) && (le(a, b) || !le(a, c))
    ensures Sort(le, [a, b, c]) == if le(a, b) then [a, b, c] else [b, c, a]
  {
    assert [a, b, c][1..] == [b, c] && [b, c][1..] == [c];
    assert Sort(le, [c]) == [c];
    assert Sort(le, [b, c]) == [b, c];
    assert Insert(le, a, [c]) == if le(a, c) then [a, c] else [c, a];
  }
}
