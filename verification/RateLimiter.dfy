/**
 * broker/rate_limiter.py: the token bucket, its freeze, and the blocking acquire. Time is the
 * monotonic clock; every call carries the reading it makes.
 */
module RateLimiters {
  import opened Options

  datatype Bucket = Bucket(capacity: int, rate: real, tokens: real, lastRefill: real, frozenUntil: real)

  function Min(a: real, b: real): real {
    if a < b then a else b
  }

  function Max(a: real, b: real): real {
    if a > b then a else b
  }

  /** What flows in during some seconds. */
  function Inflow(b: Bucket, seconds: real): real {
    seconds * b.rate
  }

  function Refilled(b: Bucket, now: real): Bucket {
    b.(tokens := Min(b.capacity as real, b.tokens + Inflow(b, now - b.lastRefill)), lastRefill := now)
  }

  /** One locked section of a bucket. `Peek` is any of the readers that refill: available_tokens, the sleep estimate. */
  datatype Op = TryAcquire(n: int) | Freeze(seconds: real) | Peek

  datatype Call = Call(op: Op, now: real)

  predicate Grants(b: Bucket, c: Call) {
    c.op.TryAcquire? && c.now >= b.frozenUntil && Refilled(b, c.now).tokens >= c.op.n as real
  }

  function Next(b: Bucket, c: Call): Bucket {
    match c.op
    case TryAcquire(n) =>
      if c.now < b.frozenUntil then b
      else
        var r := Refilled(b, c.now);
        if r.tokens >= n as real then r.(tokens := r.tokens - n as real) else r
    case Freeze(seconds) => b.(frozenUntil := c.now + seconds)
    case Peek => Refilled(b, c.now)
  }

  function Run(b: Bucket, calls: seq<Call>): Bucket
    decreases |calls|
  {
    if calls == [] then b else Run(Next(b, calls[0]), calls[1..])
  }

  function Granted(b: Bucket, calls: seq<Call>): int
    decreases |calls|
  {
    if calls == [] then 0
    else (if Grants(b, calls[0]) then calls[0].op.n else 0) + Granted(Next(b, calls[0]), calls[1..])
  }

  /** What the configuration and the constructor give: a full bucket and a positive rate. */
  predicate Fair(b: Bucket) {
    b.capacity >= 0 && b.rate > 0.0 && 0.0 <= b.tokens <= b.capacity as real
  }

  /** Readings of a monotonic clock, from `start` to at most `end`; no negative request. */
  predicate Timed(calls: seq<Call>, start: real, end: real)
    decreases |calls|
  {
    if calls == [] then start <= end
    else
      && start <= calls[0].now && (calls[0].op.TryAcquire? ==> calls[0].op.n >= 0)
      && Timed(calls[1..], calls[0].now, end)
  }

  /** Tokens stay within the bucket, unless a negative number is asked for. */
  lemma NextIsFair(b: Bucket, c: Call)
    requires Fair(b) && b.lastRefill <= c.now && (c.op.TryAcquire? ==> c.op.n >= 0)
    ensures Fair(Next(b, c)) && Next(b, c).lastRefill <= c.now
    ensures Next(b, c).capacity == b.capacity && Next(b, c).rate == b.rate
  {
    InflowAdds(b, c.now - b.lastRefill, 0.0);
  }

  /**
   * How far a request may go below zero: a request of any n leaves the bucket fair exactly
   * when what it would put in fits. An overfull bucket needs a negative request.
   */
  lemma NegativeRequestOverfills(b: Bucket, n: int, now: real)
    requires Fair(b) && b.lastRefill <= now && b.frozenUntil <= now
    ensures Fair(Next(b, Call(TryAcquire(n), now))) <==> Refilled(b, now).tokens - n as real <= b.capacity as real
    ensures !Fair(Next(b, Call(TryAcquire(n), now))) ==> n < 0
  {
    InflowAdds(b, now - b.lastRefill, 0.0);
  }

  /** What the bucket could hold at `t`, were it not capped. */
  function Potential(b: Bucket, t: real): real {
    b.tokens + Inflow(b, t - b.lastRefill)
  }

  lemma PotentialDrops(b: Bucket, c: Call, t: real)
    requires Fair(b) && b.lastRefill <= c.now <= t && (c.op.TryAcquire? ==> c.op.n >= 0)
    ensures (if Grants(b, c) then c.op.n as real else 0.0) + Potential(Next(b, c), t) <= Potential(b, t)
  {
    InflowAdds(b, c.now - b.lastRefill, t - c.now);
    assert Inflow(Next(b, c), t - c.now) == Inflow(b, t - c.now);
  }

  lemma InflowAdds(b: Bucket, x: real, y: real)
    requires b.rate > 0.0
    ensures Inflow(b, x + y) == Inflow(b, x) + Inflow(b, y)
    ensures x >= 0.0 ==> Inflow(b, x) >= 0.0
    ensures Inflow(b, 0.0) == 0.0
  {
  }

  /** Grants only spend potential. */
  lemma {:induction false} GrantedWithinPotential(b: Bucket, calls: seq<Call>, start: real, t: real)
    requires Fair(b) && b.lastRefill <= start && Timed(calls, start, t)
    ensures Granted(b, calls) as real <= Potential(b, t)
    decreases |calls|
  {
    if calls == [] {
      InflowAdds(b, t - b.lastRefill, 0.0);
      assert Granted(b, calls) == 0;
    } else {
      var c := calls[0];
      TimedEnds(calls[1..], c.now, t);
      NextIsFair(b, c);
      PotentialDrops(b, c, t);
      GrantedWithinPotential(Next(b, c), calls[1..], c.now, t);
    }
  }

  lemma {:induction false} TimedEnds(calls: seq<Call>, start: real, end: real)
    requires Timed(calls, start, end)
    ensures start <= end
    decreases |calls|
  {
    if calls != [] {
      TimedEnds(calls[1..], calls[0].now, end);
    }
  }

  lemma {:induction false} RunIsFair(b: Bucket, calls: seq<Call>, start: real, end: real)
    requires Fair(b) && b.lastRefill <= start && Timed(calls, start, end)
    ensures Fair(Run(b, calls)) && Run(b, calls).lastRefill <= end
    ensures Run(b, calls).capacity == b.capacity && Run(b, calls).rate == b.rate
    decreases |calls|
  {
    if calls != [] {
      NextIsFair(b, calls[0]);
      RunIsFair(Next(b, calls[0]), calls[1..], calls[0].now, end);
    }
  }

  /** From `s` on, grants fit in what the refilled bucket holds at `s` plus what flows in afterwards. */
  lemma Spending(b: Bucket, calls: seq<Call>, s: real, t: real)
    requires Fair(b) && b.lastRefill <= s && Timed(calls, s, t)
    ensures Granted(b, calls) as real <= Potential(Refilled(b, s), t)
  {
    NextIsFair(b, Call(Peek, s));
    SameGrants(b, Refilled(b, s), calls, s, t);
    GrantedWithinPotential(Refilled(b, s), calls, s, t);
  }

  lemma RefilledHolds(b: Bucket, s: real, t: real)
    ensures Potential(Refilled(b, s), t) <= b.capacity as real + Inflow(b, t - s)
  {
  }

  lemma SameInflow(a: Bucket, b: Bucket, seconds: real)
    requires a.rate == b.rate
    ensures Inflow(a, seconds) == Inflow(b, seconds)
  {
  }

  /**
   * The window bound. After any history up to `s`, whatever mix of requests, freezes and
   * reads follows until `t`, at most capacity + rate * (t - s) tokens are granted in between.
   */
  lemma WindowBound(b: Bucket, history: seq<Call>, start: real, s: real, calls: seq<Call>, t: real)
    requires Fair(b) && b.lastRefill <= start && Timed(history, start, s) && Timed(calls, s, t)
    ensures Granted(Run(b, history), calls) as real <= b.capacity as real + Inflow(b, t - s)
  {
    RunIsFair(b, history, start, s);
    Spending(Run(b, history), calls, s, t);
    RefilledHolds(Run(b, history), s, t);
    SameInflow(Run(b, history), b, t - s);
  }

  lemma {:induction false} SameGrants(b: Bucket, r: Bucket, calls: seq<Call>, s: real, t: real)
    requires Fair(b) && b.lastRefill <= s && Timed(calls, s, t) && r == Refilled(b, s)
    ensures Granted(b, calls) == Granted(r, calls)
    decreases |calls|
  {
    if calls != [] {
      var c := calls[0];
      RefillTwice(b, s, c.now);
      if c.op.Freeze? || (c.op.TryAcquire? && c.now < b.frozenUntil) {
        SameGrants(Next(b, c), Next(r, c), calls[1..], s, t);
      }
    }
  }

  /** Refilling on the way changes nothing: the cap bites the same. */
  lemma RefillTwice(b: Bucket, s: real, now: real)
    requires Fair(b) && b.lastRefill <= s <= now
    ensures Refilled(Refilled(b, s), now) == Refilled(b, now)
  {
    InflowAdds(b, s - b.lastRefill, now - s);
    InflowAdds(b, now - s, 0.0);
  }

  /** A frozen bucket grants nothing: not before the latest freeze ends. */
  lemma FrozenGrantsNothing(b: Bucket, seconds: real, at: real, calls: seq<Call>, end: real)
    requires Timed(calls, at, end) && end < at + seconds && (forall i :: 0 <= i < |calls| ==> !calls[i].op.Freeze?)
    ensures Granted(Next(b, Call(Freeze(seconds), at)), calls) == 0
  {
    FrozenRun(Next(b, Call(Freeze(seconds), at)), calls, at, end);
  }

  lemma {:induction false} FrozenRun(b: Bucket, calls: seq<Call>, start: real, end: real)
    requires Timed(calls, start, end) && end < b.frozenUntil && (forall i :: 0 <= i < |calls| ==> !calls[i].op.Freeze?)
    ensures Granted(b, calls) == 0
    decreases |calls|
  {
    if calls != [] {
      TimedEnds(calls[1..], calls[0].now, end);
      FrozenRun(Next(b, calls[0]), calls[1..], calls[0].now, end);
    }
  }

  /** A try is granted exactly when no freeze is on and what is held, with what flowed in and up to the capacity, suffices. */
  lemma GrantIff(b: Bucket, n: int, now: real)
    ensures Grants(b, Call(TryAcquire(n), now)) <==>
      now >= b.frozenUntil && n <= b.capacity && n as real <= b.tokens + (now - b.lastRefill) * b.rate
    ensures Grants(b, Call(TryAcquire(n), now)) ==> var after := Next(b, Call(TryAcquire(n), now));
      && after.lastRefill == now && after.frozenUntil == b.frozenUntil && after.tokens <= b.capacity as real - n as real
      && after.tokens <= b.tokens + (now - b.lastRefill) * b.rate - n as real
  {
    var inflow := Inflow(b, now - b.lastRefill);
    assert inflow == (now - b.lastRefill) * b.rate;
  }

  /** A freeze ends as it was set: from then on a try is granted as if there had been none. */
  lemma FreezeEnds(b: Bucket, seconds: real, at: real, n: int, later: real)
    requires later >= at + seconds && later >= b.frozenUntil
    ensures Grants(Next(b, Call(Freeze(seconds), at)), Call(TryAcquire(n), later)) <==> Grants(b, Call(TryAcquire(n), later))
    ensures Next(Next(b, Call(Freeze(seconds), at)), Call(TryAcquire(n), later)).tokens == Next(b, Call(TryAcquire(n), later)).tokens
  {
  }

  /** _seconds_until_ready, which refills before it estimates. */
  function SecondsLeft(b: Bucket, n: int, now: real): real
    requires b.rate > 0.0
  {
    var needed := Max(0.0, n as real - Refilled(b, now).tokens);
    Max(Max(0.0, b.frozenUntil - now), if needed > 0.0 then needed / b.rate else 0.0)
  }

  lemma InflowReaches(b: Bucket, needed: real, seconds: real)
    requires b.rate > 0.0
    ensures Inflow(b, seconds) >= needed <==> seconds >= needed / b.rate
  {
    var q := needed / b.rate;
    assert q * b.rate == needed;
    if seconds >= q { assert (seconds - q) * b.rate >= 0.0; } else { assert (q - seconds) * b.rate > 0.0; }
  }

  /** The estimate is exact: left alone, a try is granted if and only if at least the estimate has passed. */
  lemma EstimateIsExact(b: Bucket, n: nat, now: real, later: real)
    requires Fair(b) && n <= b.capacity && b.lastRefill <= now <= later
    ensures Grants(Next(b, Call(Peek, now)), Call(TryAcquire(n), later)) <==> later >= now + SecondsLeft(b, n, now)
  {
    var r := Refilled(b, now);
    NextIsFair(b, Call(Peek, now));
    InflowReaches(r, n as real - r.tokens, later - now);
    InflowAdds(r, later - now, 0.0);
  }

  lemma {:induction false} RunSnoc(b: Bucket, calls: seq<Call>, c: Call)
    ensures Run(b, calls + [c]) == Next(Run(b, calls), c)
    decreases |calls|
  {
    if calls == [] {
      assert (calls + [c])[1..] == [];
    } else {
      assert (calls + [c])[1..] == calls[1..] + [c];
      RunSnoc(Next(b, calls[0]), calls[1..], c);
    }
  }

  lemma {:induction false} TimedSnoc(calls: seq<Call>, start: real, end: real, c: Call)
    requires Timed(calls, start, end) && c.now >= end && (c.op.TryAcquire? ==> c.op.n >= 0)
    ensures Timed(calls + [c], start, c.now)
    decreases |calls|
  {
    if calls == [] {
      assert (calls + [c])[1..] == [];
    } else {
      assert (calls + [c])[1..] == calls[1..] + [c];
      TimedSnoc(calls[1..], calls[0].now, end, c);
    }
  }

  /** One token bucket. Its fields are at every moment what its history of calls makes of them. */
  class TokenBucket {
    const capacity: int
    const rate: real
    var tokens: real
    var lastRefill: real
    var frozenUntil: real

    ghost const first: Bucket
    ghost var history: seq<Call>
    ghost var latest: real

    function State(): Bucket
      reads this
    {
      Bucket(capacity, rate, tokens, lastRefill, frozenUntil)
    }

    ghost predicate Valid()
      reads this
    {
      && State() == Run(first, history) && Fair(first)
      && first.capacity == capacity && first.rate == rate
      && Timed(history, first.lastRefill, latest)
    }

    constructor (capacity: int, rate: real, now: real)
      requires capacity >= 0 && rate > 0.0
      ensures Valid() && State() == Bucket(capacity, rate, capacity as real, now, 0.0) && history == [] && latest == now
    {
      this.capacity, this.rate := capacity, rate;
      tokens, lastRefill, frozenUntil := capacity as real, now, 0.0;
      first, history, latest := Bucket(capacity, rate, capacity as real, now, 0.0), [], now;
    }

    ghost method Record(c: Call)
      requires Fair(first) && first.capacity == capacity && first.rate == rate
      requires Timed(history, first.lastRefill, latest) && State() == Next(Run(first, history), c)
      requires c.now >= latest && (c.op.TryAcquire? ==> c.op.n >= 0)
      modifies `history, `latest
      ensures Valid() && history == old(history) + [c] && latest == c.now
    {
      RunSnoc(first, history, c);
      TimedSnoc(history, first.lastRefill, latest, c);
      history, latest := history + [c], c.now;
    }

    method Refill(now: real)
      modifies `tokens, `lastRefill
      ensures State() == Refilled(old(State()), now)
    {
      var elapsed := now - lastRefill;
      tokens := Min(capacity as real, tokens + Inflow(State(), elapsed));
      lastRefill := now;
    }

    method TryAcquire(n: nat, now: real) returns (granted: bool)
      requires Valid() && now >= latest
      modifies this
      ensures Valid() && history == old(history) + [Call(Op.TryAcquire(n), now)] && latest == now
      ensures State() == Next(old(State()), Call(Op.TryAcquire(n), now))
      ensures granted == Grants(old(State()), Call(Op.TryAcquire(n), now))
    {
      granted := false;
      if now >= frozenUntil {
        Refill(now);
        if tokens >= n as real {
          tokens := tokens - n as real;
          granted := true;
        }
      }
      Record(Call(Op.TryAcquire(n), now));
    }

    method Freeze(seconds: real, now: real)
      requires Valid() && now >= latest
      modifies this
      ensures Valid() && history == old(history) + [Call(Op.Freeze(seconds), now)] && latest == now
      ensures State() == Next(old(State()), Call(Op.Freeze(seconds), now))
    {
      frozenUntil := now + seconds;
      Record(Call(Op.Freeze(seconds), now));
    }

    /** _seconds_until_ready; the estimate also refills. */
    method SecondsUntilReady(n: nat, now: real) returns (seconds: real)
      requires Valid() && now >= latest
      modifies this
      ensures Valid() && history == old(history) + [Call(Peek, now)] && latest == now
      ensures rate > 0.0 && seconds == SecondsLeft(old(State()), n, now)
    {
      RunIsFair(first, history, first.lastRefill, latest);
      var freezeLeft := Max(0.0, frozenUntil - now);
      Refill(now);
      Record(Call(Peek, now));
      var needed := Max(0.0, n as real - tokens);
      seconds := Max(freezeLeft, if needed > 0.0 then needed / rate else 0.0);
    }
  }

  /** time.monotonic and time.sleep: readings never go back, and a sleep lasts at least as long as asked. */
  class MonotonicClock {
    const drift: nat -> real
    var now: real
    var ticks: nat
    /** The sleeps asked for so far. */
    ghost var naps: seq<real>

    constructor (drift: nat -> real, now: real)
      ensures this.drift == drift && this.now == now && naps == []
    {
      this.drift, this.now, ticks, naps := drift, now, 0, [];
    }

    method Read() returns (t: real)
      modifies `now, `ticks
      ensures t == now >= old(now)
    {
      now := now + Max(0.0, drift(ticks));
      ticks := ticks + 1;
      t := now;
    }

    method Sleep(seconds: real)
      requires seconds >= 0.0
      modifies this
      ensures now >= old(now) + seconds && naps == old(naps) + [seconds]
    {
      now := now + seconds + Max(0.0, drift(ticks));
      ticks, naps := ticks + 1, naps + [seconds];
    }
  }

  datatype Acquired = Granted | ExceedsCapacity | TimedOut | Aborted

  /** Other threads of the process at work on the same bucket. */
  method Interfere(bucket: TokenBucket, clock: MonotonicClock, ops: seq<Op>)
    requires bucket.Valid() && clock.now >= bucket.latest
    requires forall i :: 0 <= i < |ops| && ops[i].TryAcquire? ==> ops[i].n >= 0
    modifies bucket, clock`now, clock`ticks
    ensures bucket.Valid() && clock.now >= bucket.latest && clock.now >= old(clock.now)
    ensures old(bucket.history) <= bucket.history
  {
    var i := 0;
    while i < |ops|
      invariant 0 <= i <= |ops| && bucket.Valid() && clock.now >= bucket.latest && clock.now >= old(clock.now)
      invariant old(bucket.history) <= bucket.history
    {
      var t := clock.Read();
      match ops[i] {
        case TryAcquire(n) => var _ := bucket.TryAcquire(n, t);
        case Freeze(seconds) => bucket.Freeze(seconds, t);
        case Peek => var _ := bucket.SecondsUntilReady(0, t);
      }
      i := i + 1;
    }
  }

  /** The first try after some history was for `n` tokens, and was not granted. */
  ghost predicate FirstRefused(b: Bucket, before: seq<Call>, history: seq<Call>, n: int) {
    |history| > |before| && history[|before|].op == Op.TryAcquire(n) && !Grants(b, history[|before|])
  }

  /**
   * acquire: ends for every clock and every interference, granting only through a granted
   * try, and at the first one when that is possible; refusing at once what the bucket can never
   * hold, giving up only after the wait or on shutdown, and never asleep for more than a tenth
   * of a second.
   */
  method Acquire(bucket: TokenBucket, clock: MonotonicClock, n: nat, maxWait: real, others: nat -> seq<Op>, shutdown: nat -> bool)
    returns (r: Acquired)
    requires bucket.Valid() && clock.now >= bucket.latest
    requires forall k, i :: 0 <= i < |others(k)| && others(k)[i].TryAcquire? ==> others(k)[i].n >= 0
    modifies bucket, clock
    ensures bucket.Valid() && old(bucket.history) <= bucket.history
    ensures r.ExceedsCapacity? <==> n > bucket.capacity
    ensures r.ExceedsCapacity? ==> bucket.history == old(bucket.history)
    ensures !r.ExceedsCapacity? ==>
      && |bucket.history| > |old(bucket.history)| && bucket.history[|old(bucket.history)|].op == Op.TryAcquire(n)
      && (Grants(old(bucket.State()), bucket.history[|old(bucket.history)|]) ==>
            r.Granted? && |bucket.history| == |old(bucket.history)| + 1)
    ensures old(clock.naps) <= clock.naps
    ensures forall i :: |old(clock.naps)| <= i < |clock.naps| ==> 0.001 <= clock.naps[i] <= 0.1
    ensures r.TimedOut? ==> clock.now >= old(clock.now) + maxWait
    ensures r.Aborted? ==> exists k :: shutdown(k)
    ensures r.Granted? ==>
      && bucket.history != []
      && bucket.history[|bucket.history| - 1].op == Op.TryAcquire(n)
      && Grants(Run(bucket.first, bucket.history[..|bucket.history| - 1]), bucket.history[|bucket.history| - 1])
  {
    if n > bucket.capacity { return ExceedsCapacity; }
    var start := clock.Read();
    var deadline := start + maxWait;
    var round := 0;
    while true
      invariant bucket.Valid() && clock.now >= bucket.latest && clock.now >= start
      invariant old(bucket.history) <= bucket.history
      invariant round == 0 ==> bucket.history == old(bucket.history) && bucket.State() == old(bucket.State())
      invariant round > 0 ==> FirstRefused(old(bucket.State()), old(bucket.history), bucket.history, n)
      invariant old(clock.naps) <= clock.naps
      invariant forall i :: |old(clock.naps)| <= i < |clock.naps| ==> 0.001 <= clock.naps[i] <= 0.1
      decreases (deadline - clock.now) * 1000.0
    {
      ghost var before := clock.now;
      var t := clock.Read();
      ghost var calls := bucket.history;
      var granted := bucket.TryAcquire(n, t);
      if granted {
        assert bucket.history[..|bucket.history| - 1] == calls;
        return Acquired.Granted;
      }
      var now := clock.Read();
      if now >= deadline {
        t := clock.Read();
        var _ := bucket.SecondsUntilReady(0, t);
        return TimedOut;
      }
      t := clock.Read();
      var sleepFor := bucket.SecondsUntilReady(n, t);
      t := clock.Read();
      sleepFor := Min(Min(sleepFor, deadline - t), 0.1);
      sleepFor := Max(sleepFor, 0.001);
      if shutdown(round) { return Aborted; }
      clock.Sleep(sleepFor);
      Interfere(bucket, clock, others(round));
      round := round + 1;
      assert clock.now >= before + 0.001;
    }
  }
}
