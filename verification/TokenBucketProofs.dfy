/**
  What one bucket guarantees over any run of calls.
 */
module TokenBucketProofs {
  import opened Collections
  import opened RateLimit

  ghost predicate BucketOk(b: Bucket) {
    0.0 <= b.rate && 0.0 <= b.tokens <= b.max
  }

  /** Call times in order, none before the bucket's last refill. */
  ghost predicate InOrder(from: real, times: seq<real>)
    decreases |times|
  {
    times == [] || (from <= times[0] && InOrder(times[0], times[1..]))
  }

  function After(b: Bucket, times: seq<real>): Bucket
    decreases |times|
  {
    if times == [] then b else After(Take(b, times[0]).bucket, times[1..])
  }

  /** The outcome of each call, with its retry delay. */
  function Outcomes(b: Bucket, times: seq<real>): seq<(bool, real)>
    decreases |times|
  {
    if times == [] then [] else [Report(Take(b, times[0]))] + Outcomes(Take(b, times[0]).bucket, times[1..])
  }

  type Stepper = (Bucket, real) -> Taken

  /** How many calls of a run are admitted. */
  function Count(step: Stepper, b: Bucket, times: seq<real>): nat
    decreases |times|
  {
    if times == [] then 0 else Bit(step(b, times[0]).allowed) + Count(step, step(b, times[0]).bucket, times[1..])
  }

  function Admitted(b: Bucket, times: seq<real>): nat {
    Count((x, t) => Take(x, t), b, times)
  }

  /** A step that pays one unit of credit for each admission can admit no more than the credit. */
  lemma {:induction false} CreditBound(step: Stepper, credit: Bucket -> real, ok: Bucket -> bool, b: Bucket, times: seq<real>, end: real)
    requires forall x, t :: ok(x) && x.last <= t <= end ==>
               && ok(step(x, t).bucket) && step(x, t).bucket.last == t
               && Bit(step(x, t).allowed) as real + credit(step(x, t).bucket) <= credit(x)
    requires forall x :: ok(x) && x.last <= end ==> 0.0 <= credit(x)
    requires ok(b) && b.last <= end && InOrder(b.last, times) && (times != [] ==> times[|times| - 1] <= end)
    ensures Count(step, b, times) as real <= credit(b)
    decreases |times|
  {
    if times != [] {
      LastIsLatest(times[0], times[1..]);
      CreditBound(step, credit, ok, step(b, times[0]).bucket, times[1..], end);
    }
  }

  lemma {:induction false} LastIsLatest(from: real, times: seq<real>)
    requires InOrder(from, times)
    ensures times != [] ==> from <= times[|times| - 1]
    decreases |times|
  {
    if times != [] { LastIsLatest(times[0], times[1..]); }
  }

  lemma GainAdds(rate: real, a: real, b: real, c: real)
    ensures Gain(rate, a, b) + Gain(rate, b, c) == Gain(rate, a, c)
  {
  }

  lemma TakeOk(b: Bucket, now: real)
    requires BucketOk(b) && b.last <= now
    ensures BucketOk(Take(b, now).bucket) && Take(b, now).bucket.last == now
    ensures Take(b, now).bucket.max == b.max && Take(b, now).bucket.rate == b.rate
  {
  }

  /** Tokens stay between 0 and the burst over every run. */
  lemma {:induction false} RunOk(b: Bucket, times: seq<real>)
    requires BucketOk(b) && InOrder(b.last, times)
    ensures BucketOk(After(b, times))
    decreases |times|
  {
    if times != [] {
      TakeOk(b, times[0]);
      RunOk(Take(b, times[0]).bucket, times[1..]);
    }
  }

  /** Refilling in two goes is refilling once. */
  lemma RefillComposes(b: Bucket, t: real, u: real)
    requires 0.0 <= b.rate && b.last <= t <= u
    ensures Refill(Refill(b, t), u) == Refill(b, u)
  {
    GainAdds(b.rate, b.last, t, u);
  }

  /** A rejected call leaves no trace: every later run goes as if it had not been made. */
  lemma RejectionInvisible(b: Bucket, t: real, times: seq<real>)
    requires BucketOk(b) && b.last <= t && InOrder(t, times) && !Take(b, t).allowed
    ensures Outcomes(Take(b, t).bucket, times) == Outcomes(b, times)
  {
    if times != [] { RefillComposes(b, t, times[0]); }
  }

  /** What is in the bucket and what will flow in until `end`. */
  function Credit(b: Bucket, end: real): real {
    b.tokens + Gain(b.rate, b.last, end)
  }

  lemma CreditNotNegative(b: Bucket, end: real)
    requires BucketOk(b) && b.last <= end
    ensures 0.0 <= Credit(b, end)
  {
  }

  lemma TakeSpends(b: Bucket, t: real, end: real)
    requires BucketOk(b) && b.last <= t <= end
    ensures BucketOk(Take(b, t).bucket) && Take(b, t).bucket.last == t
    ensures Bit(Take(b, t).allowed) as real + Credit(Take(b, t).bucket, end) <= Credit(b, end)
  {
    GainAdds(b.rate, b.last, t, end);
  }

  /** Spending is bounded by what was there plus what flowed in. */
  lemma SpendingBound(b: Bucket, times: seq<real>, end: real)
    requires BucketOk(b) && InOrder(b.last, times) && b.last <= end && (times != [] ==> times[|times| - 1] <= end)
    ensures Admitted(b, times) as real <= Credit(b, end)
  {
    var step: Stepper := (x, t) => Take(x, t);
    var credit := (x: Bucket) => Credit(x, end);
    var ok := (x: Bucket) => BucketOk(x);
    forall x, t | ok(x) && x.last <= t <= end
      ensures ok(step(x, t).bucket) && step(x, t).bucket.last == t
      ensures Bit(step(x, t).allowed) as real + credit(step(x, t).bucket) <= credit(x)
    {
      TakeSpends(x, t, end);
    }
    forall x | ok(x) && x.last <= end ensures 0.0 <= credit(x) { CreditNotNegative(x, end); }
    CreditBound(step, credit, ok, b, times, end);
  }

  /** In any window of length `w` a bucket admits at most its burst plus the window's refill. */
  lemma WindowBound(b: Bucket, times: seq<real>, w: real)
    requires BucketOk(b) && InOrder(b.last, times) && times != [] && times[|times| - 1] - times[0] <= w
    ensures Admitted(b, times) as real <= b.max + w * b.rate
  {
    var start := times[0];
    LastIsLatest(start, times[1..]);
    AdmittedFromRefill(b, times);
    RefillOk(b, start);
    SpendingBound(Refill(b, start), times, start + w);
    CreditOfRefill(b, start, w);
  }

  lemma RefillOk(b: Bucket, t: real)
    requires BucketOk(b) && b.last <= t
    ensures BucketOk(Refill(b, t)) && Refill(b, t).last == t
  {
  }

  /** Refilling at the time of the first call changes nothing. */
  lemma AdmittedFromRefill(b: Bucket, times: seq<real>)
    requires BucketOk(b) && InOrder(b.last, times) && times != []
    ensures Admitted(Refill(b, times[0]), times) == Admitted(b, times)
  {
    RefillComposes(b, times[0], times[0]);
    assert Take(Refill(b, times[0]), times[0]) == Take(b, times[0]);
  }

  lemma CreditOfRefill(b: Bucket, start: real, w: real)
    requires BucketOk(b) && b.last <= start
    ensures Credit(Refill(b, start), start + w) <= b.max + w * b.rate
  {
    assert start + w - start == w;
  }

  /** Every two neighbouring calls are at least `gap` apart. */
  ghost predicate Spaced(times: seq<real>, gap: real) {
    forall i :: 0 <= i < |times| - 1 ==> times[i] + gap <= times[i + 1]
  }

  /** Calls spaced at least 1/rate apart are all admitted, except perhaps the first. */
  lemma {:induction false} SpacedAllAdmitted(b: Bucket, times: seq<real>)
    requires BucketOk(b) && b.rate > 0.0 && b.max >= 1.0 && InOrder(b.last, times) && Spaced(times, 1.0 / b.rate)
    ensures Admitted(b, times) == |times| - Bit(times != [] && !Take(b, times[0]).allowed)
    decreases |times|
  {
    if times != [] {
      var rest := times[1..];
      TakeOk(b, times[0]);
      forall i | 0 <= i < |rest| - 1 ensures rest[i] + 1.0 / b.rate <= rest[i + 1] { assert rest[i] == times[i + 1] && rest[i + 1] == times[i + 2]; }
      if rest != [] { FullAgain(b, times[0], times[1]); }
      SpacedAllAdmitted(Take(b, times[0]).bucket, rest);
    }
  }

  /** On a new bucket they are all admitted. */
  lemma SpacedOnNew(burst: real, rate: real, now: real, times: seq<real>)
    requires rate > 0.0 && burst >= 1.0 && InOrder(now, times) && Spaced(times, 1.0 / rate)
    ensures Admitted(NewBucket(burst, rate, now), times) == |times|
  {
    var b := NewBucket(burst, rate, now);
    if times != [] { FullStays(b, times[0]); }
    SpacedAllAdmitted(b, times);
  }

  lemma FullStays(b: Bucket, u: real)
    requires 0.0 <= b.rate && b.last <= u && b.tokens == b.max
    ensures Refill(b, u).tokens == b.max
  {
  }

  /** `need` tokens have flowed in exactly from need / rate on. */
  lemma EnoughIff(rate: real, need: real, from: real, to: real)
    requires rate > 0.0
    ensures Gain(rate, from, to) >= need <==> to - from >= need / rate
  {
    var delay, dt := need / rate, to - from;
    Quotient(need, rate);
    GainIs(rate, from, to);
    ScaleIff(rate, delay, dt);
  }

  lemma Quotient(a: real, b: real)
    requires b > 0.0
    ensures (a / b) * b == a
  {
  }

  lemma GainIs(rate: real, from: real, to: real)
    ensures Gain(rate, from, to) == (to - from) * rate
  {
  }

  lemma ScaleIff(rate: real, a: real, b: real)
    requires rate > 0.0
    ensures b * rate >= a * rate <==> b >= a
  {
    if b >= a { Scale(rate, a, b); } else { ScaleStrict(rate, b, a); }
  }

  lemma Scale(rate: real, a: real, b: real)
    requires rate > 0.0 && a <= b
    ensures a * rate <= b * rate
  {
  }

  lemma ScaleStrict(rate: real, a: real, b: real)
    requires rate > 0.0 && a < b
    ensures a * rate < b * rate
  {
  }

  lemma FullEnough(x: Bucket, u: real)
    requires 0.0 <= x.tokens && 1.0 <= x.max && 1.0 <= Gain(x.rate, x.last, u)
    ensures Refill(x, u).tokens >= 1.0
  {
  }

  lemma FullAgain(b: Bucket, t: real, u: real)
    requires BucketOk(b) && b.rate > 0.0 && b.max >= 1.0 && b.last <= t && t + 1.0 / b.rate <= u
    ensures Refill(Take(b, t).bucket, u).tokens >= 1.0
  {
    TakeOk(b, t);
    var x := Take(b, t).bucket;
    EnoughIff(x.rate, 1.0, x.last, u);
    FullEnough(x, u);
  }

  /** After a rejection the next call on the bucket is admitted exactly from `retryAfter` on. */
  lemma RetryAfterIff(b: Bucket, t: real, u: real)
    requires BucketOk(b) && b.last <= t <= u && b.rate > 0.0 && b.max >= 1.0 && !Take(b, t).allowed
    ensures Take(Take(b, t).bucket, u).allowed <==> u - t >= RetryDelay(Take(b, t).bucket)
  {
    var r := Take(b, t).bucket;
    EnoughIff(r.rate, 1.0 - r.tokens, t, u);
    AllowedIff(r, u);
  }

  lemma AllowedIff(b: Bucket, u: real)
    requires b.max >= 1.0
    ensures Take(b, u).allowed <==> Gain(b.rate, b.last, u) >= 1.0 - b.tokens
  {
  }

  /** However many calls are made before `retryAfter` has passed, none is admitted. */
  lemma {:induction false} NoneBeforeRetry(b: Bucket, t: real, times: seq<real>)
    requires BucketOk(b) && b.last <= t && b.rate > 0.0 && b.max >= 1.0 && !Take(b, t).allowed
    requires InOrder(t, times) && forall i :: 0 <= i < |times| ==> times[i] - t < RetryDelay(Take(b, t).bucket)
    ensures Admitted(Take(b, t).bucket, times) == 0
    decreases |times|
  {
    if times != [] {
      var u, rejected := times[0], Take(b, t).bucket;
      TakeOk(b, t);
      RetryAfterIff(b, t, u);
      RejectionInvisible(b, t, times);
      RefillComposes(b, t, u);
      assert Take(rejected, u) == Take(b, u);
      RetryShrinks(b, t, u);
      forall i | 0 <= i < |times[1..]| ensures times[1..][i] - u < RetryDelay(Take(b, u).bucket) { assert times[1..][i] == times[i + 1]; }
      NoneBeforeRetry(b, u, times[1..]);
    }
  }

  /** Two rejections promise the same moment. */
  lemma RetryShrinks(b: Bucket, t: real, u: real)
    requires BucketOk(b) && b.last <= t <= u && b.rate > 0.0 && b.max >= 1.0 && !Take(b, t).allowed && !Take(b, u).allowed
    ensures u + RetryDelay(Take(b, u).bucket) == t + RetryDelay(Take(b, t).bucket)
  {
    RefillComposes(b, t, u);
    var p, q := Refill(b, t).tokens, Refill(b, u).tokens;
    assert q == p + Gain(b.rate, t, u);
    assert (1.0 - q) / b.rate == (1.0 - p) / b.rate - (u - t) by {
      assert ((1.0 - p) / b.rate - (u - t)) * b.rate == 1.0 - p - (u - t) * b.rate;
    }
  }

  /** A bucket that never refills and is out of tokens never admits again, whatever `retryAfter` says. */
  lemma {:induction false} NoRefillNoRetry(b: Bucket, times: seq<real>)
    requires b.rate == 0.0 && b.tokens < 1.0
    ensures Admitted(b, times) == 0
    decreases |times|
  {
    if times != [] {
      NoRefillNoRetry(Take(b, times[0]).bucket, times[1..]);
    }
  }

  /** Nor does one whose burst is less than a token, although it refills and reports a finite delay. */
  lemma {:induction false} SmallBurstNoRetry(b: Bucket, times: seq<real>)
    requires b.max < 1.0
    ensures Admitted(b, times) == 0
    decreases |times|
  {
    if times != [] {
      SmallBurstNoRetry(Take(b, times[0]).bucket, times[1..]);
    }
  }

  /** A reported delay is kept exactly when the bucket refills and can hold a token. */
  lemma RetryKeptIff(b: Bucket, t: real)
    requires BucketOk(b) && b.last <= t && !Take(b, t).allowed
    ensures var r := Take(b, t).bucket;
            Take(r, t + RetryDelay(r)).allowed <==> b.rate > 0.0 && b.max >= 1.0
  {
    var r := Take(b, t).bucket;
    TakeOk(b, t);
    if b.rate > 0.0 && b.max >= 1.0 {
      DelayNotNegative(r);
      RetryAfterIff(b, t, t + RetryDelay(r));
    } else if b.max >= 1.0 {
      assert Gain(r.rate, r.last, t + RetryDelay(r)) == 0.0;
    }
  }

  lemma DelayNotNegative(r: Bucket)
    requires r.rate > 0.0 && r.tokens < 1.0
    ensures RetryDelay(r) >= 0.0
  {
  }

  lemma RefillNow(b: Bucket)
    requires b.tokens <= b.max
    ensures Refill(b, b.last) == b
  {
  }

  /** A bucket without a token rejects at once and stays as it is. */
  lemma RejectsNow(b: Bucket)
    requires b.tokens < 1.0 && b.tokens <= b.max
    ensures Take(b, b.last) == Taken(b, false)
  {
    RefillNow(b);
  }

  lemma AdmitsNow(b: Bucket)
    requires 1.0 <= b.tokens <= b.max
    ensures Take(b, b.last) == Taken(b.(tokens := b.tokens - 1.0), true)
  {
    RefillNow(b);
  }

  /** One token, spent: without a refill it reports a minute, and rejects again after it. */
  lemma SpentBucketNotKept() returns (b: Bucket)
    ensures Take(NewBucket(1.0, 0.0, 0.0), 0.0) == Taken(b, true)
    ensures Take(b, 0.0) == Taken(b, false) && RetryDelay(b) == 60.0 && !Take(b, 60.0).allowed
  {
    var full := NewBucket(1.0, 0.0, 0.0);
    AdmitsNow(full);
    b := Bucket(1.0, 0.0, 0.0, 0.0);
    RejectsNow(b);
    NoRefillRejects(b, 60.0);
  }

  lemma SmallBurstRejects(b: Bucket, u: real)
    requires b.max < 1.0
    ensures !Take(b, u).allowed
  {
  }

  lemma NoRefillRejects(b: Bucket, u: real)
    requires b.rate == 0.0 && b.tokens < 1.0
    ensures !Take(b, u).allowed
  {
    GainIs(b.rate, b.last, u);
  }

  lemma DelayOfOne(b: Bucket)
    requires b.rate == 1.0 && b.tokens == 0.0
    ensures RetryDelay(b) == 1.0
  {
  }

  /** No burst: it refills a token a second but has room for none, reports one second, and rejects again after it. */
  lemma EmptyBurstNotKept() returns (b: Bucket)
    ensures b == NewBucket(0.0, 1.0, 0.0)
    ensures Take(b, 0.0) == Taken(b, false) && RetryDelay(b) == 1.0 && !Take(b, 1.0).allowed
  {
    b := Bucket(0.0, 1.0, 0.0, 0.0);
    RejectsNow(b);
    DelayOfOne(b);
    SmallBurstRejects(b, 1.0);
  }

  lemma HeaderCovers(retryAfter: real)
    ensures RetryAfterHeader(retryAfter) as real >= retryAfter && RetryAfterHeader(retryAfter) >= 1
  {
  }

  /** The header is the least such number of seconds. */
  lemma HeaderLeast(retryAfter: real, n: int)
    requires n >= 1 && n as real >= retryAfter
    ensures RetryAfterHeader(retryAfter) <= n
  {
  }

  /** The delay is the time in which what is missing of a token flows in; a minute without a refill. */
  lemma DelayIs(b: Bucket)
    ensures b.rate > 0.0 ==> RetryDelay(b) * b.rate == 1.0 - b.tokens
    ensures b.rate <= 0.0 ==> RetryDelay(b) == 60.0
  {
    if b.rate > 0.0 { Quotient(1.0 - b.tokens, b.rate); }
  }

  // ---------- Bursts ----------

  function AtOnce(now: real, n: nat): seq<real> {
    seq(n, _ => now)
  }

  /** Of `n` calls at the moment of the last refill, as many are admitted as there are whole tokens. */
  lemma {:induction false} AtOnceAdmitted(b: Bucket, n: nat)
    requires BucketOk(b)
    ensures Admitted(b, AtOnce(b.last, n)) == if n <= b.tokens.Floor then n else b.tokens.Floor
    decreases n
  {
    if n > 0 {
      assert AtOnce(b.last, n)[1..] == AtOnce(b.last, n - 1);
      if b.tokens >= 1.0 {
        AdmitsNow(b);
        AtOnceAdmitted(b.(tokens := b.tokens - 1.0), n - 1);
      } else {
        RejectsNow(b);
        AtOnceAdmitted(b, n - 1);
      }
    }
  }

  /** A new bucket holds its burst: `n` calls at once admit the lesser of `n` and the whole part of the burst. */
  lemma NewBucketBurst(burst: real, rate: real, now: real, n: nat)
    requires 0.0 <= burst && 0.0 <= rate
    ensures Admitted(NewBucket(burst, rate, now), AtOnce(now, n)) == if n <= burst.Floor then n else burst.Floor
  {
    AtOnceAdmitted(NewBucket(burst, rate, now), n);
  }

  lemma RefillsFully(b: Bucket, u: real)
    requires BucketOk(b) && b.rate > 0.0 && b.last + b.max / b.rate <= u
    ensures Refill(b, u).tokens == b.max && b.last <= u
  {
    Quotient(b.max, b.rate);
    EnoughIff(b.rate, b.max, b.last, u);
    DelayPositive(b.max, b.rate);
  }

  lemma DelayPositive(a: real, rate: real)
    requires 0.0 <= a && rate > 0.0
    ensures a / rate >= 0.0
  {
  }

  /** A bucket left alone for burst / rate seconds admits its whole burst at once again, and no more. */
  lemma IdleBucketBurst(b: Bucket, u: real, n: nat)
    requires BucketOk(b) && b.rate > 0.0 && b.last + b.max / b.rate <= u
    ensures Admitted(b, AtOnce(u, n)) == if n <= b.max.Floor then n else b.max.Floor
  {
    RefillsFully(b, u);
    RefillOk(b, u);
    AtOnceAdmitted(Refill(b, u), n);
    if n > 0 {
      assert InOrder(b.last, AtOnce(u, n)) by { AtOnceInOrder(b.last, u, n); }
      AdmittedFromRefill(b, AtOnce(u, n));
    }
  }

  lemma {:induction false} AtOnceInOrder(from: real, now: real, n: nat)
    requires from <= now
    ensures InOrder(from, AtOnce(now, n))
    decreases n
  {
    if n > 0 {
      assert AtOnce(now, n)[1..] == AtOnce(now, n - 1);
      AtOnceInOrder(now, now, n - 1);
    }
  }
}
