/**
 * The request rate limiter. Each admission reads a monotonic clock twice: the first read becomes the
 * refill time, the second measures the elapsed time, so the gap between them is credited twice.
 */
module TokenBucket {
  import opened Basics

  const NANOS: nat := 1_000_000_000

  datatype Policy = Policy(rate: nat, burst: nat) {
    predicate Valid() { 0 < rate <= 10_000 && rate <= burst <= 100_000 }
  }

  datatype Bucket = Bucket(tokens: nat, refilledAt: nat)

  /** The two clock reads of one admission. */
  datatype Call = Call(now: nat, later: nat)

  function Credit(p: Policy, elapsed: nat): nat {
    Min(Min(elapsed * p.rate, U128_MAX) / NANOS, U64_MAX)
  }

  function Refilled(p: Policy, b: Bucket, c: Call): Bucket
    requires b.refilledAt <= c.later
  {
    var credit := Credit(p, c.later - b.refilledAt);
    if credit > 0 then Bucket(Min(Min(b.tokens + credit, U64_MAX), p.burst), c.now) else b
  }

  function Admits(p: Policy, b: Bucket, c: Call): bool
    requires b.refilledAt <= c.later
  {
    Refilled(p, b, c).tokens > 0
  }

  function After(p: Policy, b: Bucket, c: Call): Bucket
    requires b.refilledAt <= c.later
  {
    var r := Refilled(p, b, c);
    if r.tokens > 0 then r.(tokens := r.tokens - 1) else r
  }

  lemma SaturationIsHarmless(product: nat)
    ensures Min(product, U128_MAX) / NANOS >= U64_MAX || product <= U128_MAX
  {
    assert U128_MAX / NANOS >= U64_MAX;
  }

  lemma DivMonotone(a: nat, b: nat, n: nat)
    requires a <= b && n > 0
    ensures a / n <= b / n
  {
    assert a == a / n * n + a % n && b == b / n * n + b % n;
    if b / n < a / n { MulMonotone(b / n + 1, a / n, n); }
  }

  lemma CreditExactly(p: Policy, elapsed: nat)
    ensures Credit(p, elapsed) == Min(elapsed * p.rate / NANOS, U64_MAX)
  {
    var product := elapsed * p.rate;
    SaturationIsHarmless(product);
    if product > U128_MAX { DivMonotone(U128_MAX, product, NANOS); }
  }

  /**
   * One admission, without the saturating steps, which never change it: whole tokens earned since the
   * refill time are added up to the burst, one is spent if there is any, and the refill time becomes
   * the first read whenever something was earned.
   */
  lemma AdmissionExactly(p: Policy, b: Bucket, c: Call)
    requires b.refilledAt <= c.later && p.burst <= U64_MAX
    ensures var earned := (c.later - b.refilledAt) * p.rate / 1_000_000_000;
            var available := if earned == 0 then b.tokens else Min(b.tokens + earned, p.burst);
            && (Admits(p, b, c) <==> available > 0)
            && After(p, b, c) == Bucket(if available > 0 then available - 1 else 0,
                                        if earned == 0 then b.refilledAt else c.now)
  {
    hide Credit;
    CreditExactly(p, c.later - b.refilledAt);
  }

  class Limiter {
    const policy: Policy
    var tokens: nat
    var refilledAt: nat

    constructor (policy: Policy, start: nat)
      ensures this.policy == policy && State() == Bucket(policy.burst, start)
    {
      this.policy, tokens, refilledAt := policy, policy.burst, start;
    }

    ghost function State(): Bucket
      reads this
    {
      Bucket(tokens, refilledAt)
    }

    /** `admit_token` under its lock. */
    method AdmitToken(now: nat, later: nat) returns (admitted: bool)
      requires refilledAt <= now <= later
      modifies this
      ensures admitted == Admits(policy, old(State()), Call(now, later))
      ensures State() == After(policy, old(State()), Call(now, later))
    {
      var product := Min((later - refilledAt) * policy.rate, U128_MAX);
      var refill := product / NANOS;
      if refill > 0 {
        tokens := Min(Min(tokens + Min(refill, U64_MAX), U64_MAX), policy.burst);
        refilledAt := now;
      }
      if tokens == 0 {
        return false;
      }
      tokens := tokens - 1;
      return true;
    }
  }

  // ----- Runs -----

  /** Calls take the lock one after another on a monotonic clock. */
  ghost predicate Ordered(b: Bucket, calls: seq<Call>)
    decreases calls
  {
    calls == [] ||
    (b.refilledAt <= calls[0].now <= calls[0].later && forall i :: 0 <= i < |calls| ==> Follows(calls, i))
  }

  predicate Follows(calls: seq<Call>, i: nat)
    requires i < |calls|
  {
    calls[i].now <= calls[i].later && (i > 0 ==> calls[i - 1].later <= calls[i].now)
  }

  lemma OrderedTail(p: Policy, b: Bucket, calls: seq<Call>)
    requires Ordered(b, calls) && calls != []
    ensures Ordered(After(p, b, calls[0]), calls[1..])
  {
    var rest := calls[1..];
    assert Follows(calls, 0);
    forall i | 0 <= i < |rest|
      ensures Follows(rest, i)
    {
      assert Follows(calls, i + 1);
    }
    if rest != [] { assert Follows(calls, 1); }
  }

  ghost function Final(p: Policy, b: Bucket, calls: seq<Call>): Bucket
    requires Ordered(b, calls)
    decreases calls
  {
    if calls == [] then b
    else
      OrderedTail(p, b, calls);
      Final(p, After(p, b, calls[0]), calls[1..])
  }

  ghost function Admissions(p: Policy, b: Bucket, calls: seq<Call>): nat
    requires Ordered(b, calls)
    decreases calls
  {
    if calls == [] then 0
    else
      OrderedTail(p, b, calls);
      (if Admits(p, b, calls[0]) then 1 else 0) + Admissions(p, After(p, b, calls[0]), calls[1..])
  }

  /** Time between the two reads, summed over all calls. */
  function Gaps(calls: seq<Call>): nat
    requires forall i :: 0 <= i < |calls| ==> calls[i].now <= calls[i].later
  {
    if calls == [] then 0 else calls[0].later - calls[0].now + Gaps(calls[1..])
  }

  lemma OrderedGaps(b: Bucket, calls: seq<Call>)
    requires Ordered(b, calls)
    ensures forall i :: 0 <= i < |calls| ==> calls[i].now <= calls[i].later
  {
    forall i | 0 <= i < |calls|
      ensures calls[i].now <= calls[i].later
    {
      assert Follows(calls, i);
    }
  }

  lemma CreditBound(p: Policy, elapsed: nat)
    ensures Credit(p, elapsed) * NANOS <= p.rate * elapsed
  {
    var q := Min(elapsed * p.rate, U128_MAX) / NANOS;
    assert q * NANOS <= Min(elapsed * p.rate, U128_MAX);
    assert elapsed * p.rate == p.rate * elapsed;
  }

  /** Tokens and admissions together never outrun what was there and what time has credited. */
  lemma StepBalance(p: Policy, b: Bucket, c: Call)
    requires b.refilledAt <= c.now <= c.later
    ensures var a := After(p, b, c);
            var admitted := if Admits(p, b, c) then 1 else 0;
            && a.refilledAt >= b.refilledAt
            && NANOS * (a.tokens + admitted)
                 <= NANOS * b.tokens + p.rate * ((a.refilledAt - b.refilledAt) + (c.later - c.now))
  {
    hide Credit;
    CreditBound(p, c.later - b.refilledAt);
    var r := Refilled(p, b, c);
    assert After(p, b, c).tokens + (if Admits(p, b, c) then 1 else 0) == r.tokens;
    if Credit(p, c.later - b.refilledAt) > 0 {
      assert c.later - b.refilledAt == (c.now - b.refilledAt) + (c.later - c.now);
    } else {
      assert p.rate * (c.later - c.now) >= 0;
    }
  }

  lemma {:induction false} RunBalance(p: Policy, b: Bucket, calls: seq<Call>)
    requires Ordered(b, calls)
    ensures forall i :: 0 <= i < |calls| ==> calls[i].now <= calls[i].later
    ensures var e := Final(p, b, calls);
            && e.refilledAt >= b.refilledAt && (calls != [] ==> e.refilledAt <= calls[|calls| - 1].now)
            && NANOS * (e.tokens + Admissions(p, b, calls))
                 <= NANOS * b.tokens + p.rate * (e.refilledAt - b.refilledAt + Gaps(calls))
    decreases calls
  {
    OrderedGaps(b, calls);
    if calls != [] {
      var c, a := calls[0], After(p, b, calls[0]);
      OrderedTail(p, b, calls);
      StepBalance(p, b, c);
      RunBalance(p, a, calls[1..]);
      var e := Final(p, b, calls);
      if |calls| > 1 {
        assert calls[1..][|calls| - 2] == calls[|calls| - 1];
      }
      AddBalance(p.rate, a.refilledAt - b.refilledAt + (c.later - c.now),
                 e.refilledAt - a.refilledAt + Gaps(calls[1..]),
                 e.refilledAt - b.refilledAt + Gaps(calls));
    }
  }

  lemma AddBalance(rate: nat, x: nat, y: nat, z: nat)
    requires z == x + y
    ensures rate * z == rate * x + rate * y
  {
  }

  /** A bucket never holds more than its burst. */
  lemma {:induction false} TokensBounded(p: Policy, b: Bucket, calls: seq<Call>)
    requires Ordered(b, calls) && b.tokens <= p.burst
    ensures Final(p, b, calls).tokens <= p.burst
    decreases calls
  {
    if calls != [] {
      OrderedTail(p, b, calls);
      TokensBounded(p, After(p, b, calls[0]), calls[1..]);
    }
  }

  /**
   * Over any run of a fresh bucket, admissions are at most the burst plus the configured rate over
   * the time from its start to the last first read, enlarged by all gaps between paired reads.
   */
  lemma AdmissionsBounded(p: Policy, start: nat, calls: seq<Call>)
    requires calls != [] && Ordered(Bucket(p.burst, start), calls)
    ensures forall i :: 0 <= i < |calls| ==> calls[i].now <= calls[i].later
    ensures start <= calls[|calls| - 1].now
    ensures Admissions(p, Bucket(p.burst, start), calls)
              <= p.burst + p.rate * (calls[|calls| - 1].now - start + Gaps(calls)) / NANOS
  {
    var b := Bucket(p.burst, start);
    RunBalance(p, b, calls);
    FloorBound(Admissions(p, b, calls), p.burst, p.rate, Final(p, b, calls).refilledAt - start + Gaps(calls),
               calls[|calls| - 1].now - start + Gaps(calls));
  }

  lemma FloorBound(n: nat, burst: nat, rate: nat, x: nat, time: nat)
    requires NANOS * n <= NANOS * burst + rate * x && x <= time
    ensures n <= burst + rate * time / NANOS
  {
    MulMonotone(x, time, rate);
    assert rate * x == x * rate && rate * time == time * rate;
  }

  lemma LastAdmission(p: Policy, c: Call)
    requires p == Policy(1, 1) && c == Call(NANOS, NANOS) && Ordered(Bucket(0, 0), [c])
    ensures Admissions(p, Bucket(0, 0), [c]) == 1
  {
    SpendAndRefill(p);
    assert [c] == [c] + [];
    Unfold(p, Bucket(0, 0), c, []);
  }

  lemma TwoAdmissions(p: Policy, b: Call, c: Call)
    requires p == Policy(1, 1) && b == Call(0, NANOS) && c == Call(NANOS, NANOS)
    requires Ordered(Bucket(0, 0), [b] + [c])
    ensures Admissions(p, Bucket(0, 0), [b] + [c]) == 2
  {
    SpendAndRefill(p);
    Unfold(p, Bucket(0, 0), b, [c]);
    LastAdmission(p, c);
  }

  lemma ThreeAdmissions(p: Policy, a: Call, b: Call, c: Call)
    requires p == Policy(1, 1) && a == Call(0, 0) && b == Call(0, NANOS) && c == Call(NANOS, NANOS)
    requires Ordered(Bucket(1, 0), [a] + ([b] + [c]))
    ensures Admissions(p, Bucket(1, 0), [a] + ([b] + [c])) == 3
  {
    SpendAndRefill(p);
    Unfold(p, Bucket(1, 0), a, [b] + [c]);
    TwoAdmissions(p, b, c);
  }

  /** Without the gaps the bound is false: three admissions in one second at rate one and burst one. */
  lemma GapsAreNeeded()
    ensures var p := Policy(1, 1);
            var calls := [Call(0, 0), Call(0, NANOS), Call(NANOS, NANOS)];
            && p.Valid() && Ordered(Bucket(p.burst, 0), calls)
            && Admissions(p, Bucket(p.burst, 0), calls) > p.burst + p.rate * calls[2].later / NANOS
  {
    var a, b, c := Call(0, 0), Call(0, NANOS), Call(NANOS, NANOS);
    var calls := [a, b, c];
    assert Follows(calls, 0) && Follows(calls, 1) && Follows(calls, 2);
    assert Ordered(Bucket(1, 0), calls);
    assert [a] + ([b] + [c]) == calls;
    ThreeAdmissions(Policy(1, 1), a, b, c);
  }

  lemma SpendAndRefill(p: Policy)
    requires p == Policy(1, 1)
    ensures Admits(p, Bucket(1, 0), Call(0, 0)) && After(p, Bucket(1, 0), Call(0, 0)) == Bucket(0, 0)
    ensures Admits(p, Bucket(0, 0), Call(0, NANOS)) && After(p, Bucket(0, 0), Call(0, NANOS)) == Bucket(0, 0)
    ensures Admits(p, Bucket(0, 0), Call(NANOS, NANOS))
  {
    assert Credit(p, 0) == 0 && Credit(p, NANOS) == 1;
  }

  lemma Unfold(p: Policy, b: Bucket, c: Call, rest: seq<Call>)
    requires Ordered(b, [c] + rest)
    ensures Ordered(After(p, b, c), rest)
    ensures Admissions(p, b, [c] + rest) == (if Admits(p, b, c) then 1 else 0) + Admissions(p, After(p, b, c), rest)
  {
    assert ([c] + rest)[1..] == rest;
    OrderedTail(p, b, [c] + rest);
  }

  // ----- A bucket that never fills keeps more than half the rate -----

  /** No refill is cut off by the burst or by a machine word. */
  ghost predicate Uncapped(p: Policy, b: Bucket, calls: seq<Call>)
    requires Ordered(b, calls)
    decreases calls
  {
    calls == [] ||
    (OrderedTail(p, b, calls);
     var c := calls[0];
     && (c.later - b.refilledAt) * p.rate <= U128_MAX
     && b.tokens + (c.later - b.refilledAt) * p.rate / NANOS <= p.burst
     && Uncapped(p, After(p, b, c), calls[1..]))
  }

  /** Tokens credited over a run. */
  ghost function Credited(p: Policy, b: Bucket, calls: seq<Call>): int
    requires Ordered(b, calls)
  {
    Final(p, b, calls).tokens + Admissions(p, b, calls) - b.tokens
  }

  /** `credit` tokens are at least half of what `rate` yields in `time`, and more once time has passed. */
  ghost predicate AboveHalf(rate: nat, time: int, credit: int) {
    time >= 0 && 2 * NANOS * credit >= rate * time && (time > 0 ==> 2 * NANOS * credit > rate * time)
  }

  lemma StepKeepsHalf(p: Policy, b: Bucket, c: Call)
    requires p.Valid() && b.refilledAt <= c.now <= c.later && (c.later - b.refilledAt) * p.rate <= U128_MAX
    requires b.tokens + (c.later - b.refilledAt) * p.rate / NANOS <= p.burst
    ensures var a := After(p, b, c);
            AboveHalf(p.rate, a.refilledAt - b.refilledAt, a.tokens + (if Admits(p, b, c) then 1 else 0) - b.tokens)
  {
    var elapsed := c.later - b.refilledAt;
    var credit := Credit(p, elapsed);
    var x := elapsed * p.rate;
    assert x / NANOS <= p.burst <= U64_MAX && credit == x / NANOS;
    if credit > 0 {
      assert x < NANOS * (credit + 1) <= 2 * NANOS * credit;
      MulMonotone(c.now - b.refilledAt, elapsed, p.rate);
      assert p.rate * (c.now - b.refilledAt) == (c.now - b.refilledAt) * p.rate;
    }
  }

  lemma HalfAdds(rate: nat, x: int, y: int, cx: int, cy: int)
    requires AboveHalf(rate, x, cx) && AboveHalf(rate, y, cy)
    ensures AboveHalf(rate, x + y, cx + cy)
  {
    assert rate * (x + y) == rate * x + rate * y;
  }

  lemma CreditedUnfolds(p: Policy, b: Bucket, calls: seq<Call>)
    requires Ordered(b, calls) && calls != []
    ensures var a := After(p, b, calls[0]);
            && Ordered(a, calls[1..]) && Final(p, a, calls[1..]) == Final(p, b, calls)
            && Credited(p, b, calls) == a.tokens + (if Admits(p, b, calls[0]) then 1 else 0) - b.tokens
                 + Credited(p, a, calls[1..])
  {
    OrderedTail(p, b, calls);
  }

  /**
   * Every refill drops less than one token and credits at least one, so a bucket that never fills is
   * credited more than half the configured rate over the time it was refilled for.
   */
  lemma {:induction false} MoreThanHalfTheRate(p: Policy, b: Bucket, calls: seq<Call>)
    requires p.Valid() && Ordered(b, calls) && Uncapped(p, b, calls)
    ensures AboveHalf(p.rate, Final(p, b, calls).refilledAt - b.refilledAt, Credited(p, b, calls))
    decreases calls
  {
    if calls != [] {
      var c, a := calls[0], After(p, b, calls[0]);
      CreditedUnfolds(p, b, calls);
      StepKeepsHalf(p, b, c);
      MoreThanHalfTheRate(p, a, calls[1..]);
      HalfAdds(p.rate, a.refilledAt - b.refilledAt, Final(p, b, calls).refilledAt - a.refilledAt,
               a.tokens + (if Admits(p, b, c) then 1 else 0) - b.tokens, Credited(p, a, calls[1..]));
    }
  }
}
