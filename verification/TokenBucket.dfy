/** The token bucket with burst 1: grants are at least one interval apart, and penalties are waited out. */
module TokenBucket {
  /**
   A monotone clock. Time passes when it is read and when it sleeps, as long as asked or longer; `asked`
   is history: all the sleep asked for so far.
   */
  class Clock {
    var now: real
    ghost var asked: real

    constructor (start: real)
      ensures now == start && asked == 0.0
    {
      now, asked := start, 0.0;
    }

    method Monotonic() returns (t: real)
      modifies this`now
      ensures t == now >= old(now)
    {
      var passed: real := *;
      if passed > 0.0 {
        now := now + passed;
      }
      t := now;
    }

    /** Something else takes its time. */
    method Pass()
      modifies this`now
      ensures now >= old(now)
    {
      var passed: real := *;
      if passed > 0.0 {
        now := now + passed;
      }
    }

    /** A negative duration is an error. */
    method Sleep(seconds: real)
      requires seconds >= 0.0
      modifies this
      ensures now >= old(now) + seconds && asked == old(asked) + seconds
    {
      asked := asked + seconds;
      var longer: real := *;
      var passed := if longer > seconds then longer else seconds;
      if passed > 0.0 {
        now := now + passed;
      }
    }
  }

  /** The fields of the bucket. */
  datatype Bucket = Bucket(interval: real, tokens: real, last: real, penaltyUntil: real)

  function Fill(b: Bucket, t: real): real
    requires b.interval > 0.0
  {
    var tokens := b.tokens + (t - b.last) / b.interval;
    if tokens < 1.0 then tokens else 1.0
  }

  /**
   One acquire that reads the clock at t0, again at t1 after waiting out a penalty (t1 == t0 without
   one), and at t2 after waiting for a token (t2 == t1 if there was one).
   */
  function Acquired(b: Bucket, t1: real, t2: real): Bucket
    requires b.interval > 0.0
  {
    if Fill(b, t1) < 1.0 then b.(tokens := 0.0, last := t2) else b.(tokens := Fill(b, t1) - 1.0, last := t1)
  }

  /** The readings a clock can give an acquire. */
  ghost predicate Readings(b: Bucket, t0: real, t1: real, t2: real)
    requires b.interval > 0.0
  {
    && t0 >= b.last
    && (if t0 < b.penaltyUntil then t1 >= b.penaltyUntil else t1 == t0)
    && (if Fill(b, t1) < 1.0 then t2 >= t1 + (1.0 - Fill(b, t1)) * b.interval else t2 == t1)
  }

  /** A bucket with burst 1 that has granted before: nothing is left of the token. */
  ghost predicate Drained(b: Bucket) {
    b.interval > 0.0 && b.tokens == 0.0
  }

  /** A bucket that has not granted yet: one token. */
  ghost predicate Full(b: Bucket) {
    b.interval > 0.0 && b.tokens == 1.0
  }

  /**
   Every grant drains the bucket and is stamped when it is given; a later one is given at least one
   interval after it, and none before the penalty in force when it was asked for.
   */
  lemma GrantIsSpaced(b: Bucket, t0: real, t1: real, t2: real)
    requires (Drained(b) || Full(b)) && Readings(b, t0, t1, t2)
    ensures Drained(Acquired(b, t1, t2)) && Acquired(b, t1, t2).last == t2
    ensures Drained(b) ==> t2 >= b.last + b.interval
    ensures t2 >= b.penaltyUntil && t2 >= t0
  {
    QuotientTimes(t1 - b.last, b.interval);
    var elapsed := (t1 - b.last) / b.interval;
    if Drained(b) {
      if elapsed < 1.0 {
        Missing(elapsed, b.interval);
      } else {
        ProductGrows(1.0, elapsed, b.interval);
      }
    }
  }

  lemma QuotientTimes(x: real, d: real)
    requires x >= 0.0 && d > 0.0
    ensures (x / d) * d == x && x / d >= 0.0
  {
    var q := x / d;
    assert q * d == x;
    assert q >= 0.0;
  }

  lemma ProductGrows(x: real, y: real, d: real)
    requires x <= y && d > 0.0
    ensures x * d <= y * d
  {
    assert (y - x) * d >= 0.0;
    assert (y - x) * d == y * d - x * d;
  }

  /** What is missing of a token, as time. */
  lemma Missing(filled: real, interval: real)
    requires filled <= 1.0 && interval > 0.0
    ensures (1.0 - filled) * interval == interval - filled * interval
    ensures (1.0 - filled) * interval >= 0.0
  {
    assert (1.0 - filled) * interval == 1.0 * interval - filled * interval;
    ProductGrows(filled, 1.0, interval);
  }

  /** The state of a bucket after these grants. */
  ghost predicate Granted(b: Bucket, grants: seq<real>) {
    && b.interval > 0.0
    && (if grants == [] then Full(b) else Drained(b) && b.last == grants[|grants| - 1])
    && Spaced(grants, b.interval)
  }

  /** One more grant keeps the grants spaced and comes after the penalty in force on entry. */
  lemma GrantKeeps(b: Bucket, grants: seq<real>, t0: real, t1: real, t2: real)
    requires Granted(b, grants) && Readings(b, t0, t1, t2)
    ensures Granted(Acquired(b, t1, t2), grants + [t2]) && Acquired(b, t1, t2).last == t2
    ensures t2 >= b.penaltyUntil && t2 >= t0
  {
    GrantIsSpaced(b, t0, t1, t2);
    SpacedSnoc(grants, b.interval, t2);
  }

  /** What is left of the interval after the last grant. */
  function Left(last: real, interval: real, t: real): real {
    if t < last + interval then last + interval - t else 0.0
  }

  /** A drained bucket makes up for exactly what is left of the interval since its stamp; a full one for nothing. */
  lemma WaitIs(b: Bucket, t: real)
    requires (Drained(b) || Full(b)) && t >= b.last
    ensures if Full(b) then Fill(b, t) == 1.0
            else (1.0 - Fill(b, t)) * b.interval == Left(b.last, b.interval, t)
                 && (Fill(b, t) < 1.0 <==> t < b.last + b.interval)
  {
    QuotientTimes(t - b.last, b.interval);
    var elapsed := (t - b.last) / b.interval;
    if Drained(b) {
      if elapsed < 1.0 {
        Missing(elapsed, b.interval);
        ProductLess(elapsed, 1.0, b.interval);
      } else {
        ProductGrows(1.0, elapsed, b.interval);
      }
    }
  }

  lemma ProductLess(x: real, y: real, d: real)
    requires x < y && d > 0.0
    ensures x * d < y * d
  {
    assert (y - x) * d > 0.0;
    assert (y - x) * d == y * d - x * d;
  }

  // ------------------------------------------------------------------ The class

  class TokenBucket {
    const clock: Clock
    var bucket: Bucket
    ghost var grants: seq<real>  // the clock reading each grant was decided on

    ghost predicate Valid()
      reads this, clock
    {
      bucket.last <= clock.now && Granted(bucket, grants)
    }

    constructor (rps: real, clock: Clock)
      requires rps > 0.0
      ensures Valid() && grants == [] && bucket.interval == 1.0 / rps && this.clock == clock
    {
      this.clock := clock;
      bucket := Bucket(1.0 / rps, 1.0, clock.now, 0.0);
      grants := [];
    }

    /** Wait until no penalty is in force; also the reading taken on entry. */
    method WaitOutPenalty() returns (now: real, ghost t0: real)
      requires Valid()
      modifies clock
      ensures now == clock.now >= t0 >= old(clock.now)
      ensures if t0 < bucket.penaltyUntil then now >= bucket.penaltyUntil else now == t0
      ensures clock.asked == old(clock.asked) + Left(bucket.penaltyUntil, 0.0, t0)
    {
      now := clock.Monotonic();
      t0 := now;
      if now < bucket.penaltyUntil {
        clock.Sleep(bucket.penaltyUntil - now);
        now := clock.Monotonic();
      }
    }

    /** Refill, wait for what is missing of a token, and take one. */
    method TakeToken(now: real)
      requires bucket.interval > 0.0 && clock.now == now
      modifies this`bucket, clock
      ensures clock.now >= now && bucket == Acquired(old(bucket), now, clock.now)
      ensures if Fill(old(bucket), now) < 1.0
              then clock.now >= now + (1.0 - Fill(old(bucket), now)) * old(bucket).interval
              else clock.now == now
      ensures clock.asked == old(clock.asked) +
              if Fill(old(bucket), now) < 1.0 then (1.0 - Fill(old(bucket), now)) * old(bucket).interval else 0.0
    {
      var tokens := Fill(bucket, now);
      bucket := bucket.(tokens := tokens, last := now);
      if tokens < 1.0 {
        var wait := (1.0 - tokens) * bucket.interval;
        ProductGrows(0.0, 1.0 - tokens, bucket.interval);
        clock.Sleep(wait);
        var later := clock.Monotonic();
        bucket := bucket.(tokens := 1.0, last := later);
      }
      bucket := bucket.(tokens := bucket.tokens - 1.0);
    }

    /**
     The grant is stamped with the clock reading it was decided on; the call returns then or later. It
     asks for no more sleep than is left of the penalty when the clock is read first, at t0, and of the
     interval since the last grant when it is read next, at t1; with neither left it does not sleep at all.
     */
    method Acquire() returns (ghost stamp: real, ghost t0: real, ghost t1: real)
      requires Valid()
      modifies this, clock
      ensures Valid() && bucket.interval == old(bucket.interval) && bucket.penaltyUntil == old(bucket.penaltyUntil)
      ensures grants == old(grants) + [stamp]
      ensures old(clock.now) <= t0 <= t1 <= stamp <= clock.now && old(bucket.penaltyUntil) <= stamp
      ensures t0 >= old(bucket.penaltyUntil) ==> t1 == t0
      ensures old(grants) == [] || t1 >= old(grants[|grants| - 1]) + bucket.interval ==> stamp == t1
      ensures clock.asked ==
              old(clock.asked) + (if t0 < old(bucket.penaltyUntil) then old(bucket.penaltyUntil) - t0 else 0.0)
              + if old(grants) != [] && t1 < old(grants[|grants| - 1]) + bucket.interval
                then old(grants[|grants| - 1]) + bucket.interval - t1 else 0.0
    {
      ghost var before := bucket;
      var now;
      now, t0 := WaitOutPenalty();
      t1 := now;
      WaitIs(before, t1);
      TakeToken(now);
      stamp := clock.now;
      GrantKeeps(before, grants, t0, t1, stamp);
      grants := grants + [stamp];
      clock.Pass();
    }

    method Penalize(seconds: real)
      requires Valid()
      modifies this`bucket, clock
      ensures Valid() && grants == old(grants) && clock.now >= old(clock.now)
      ensures bucket == old(bucket).(penaltyUntil := clock.now + seconds)
    {
      var now := clock.Monotonic();
      bucket := bucket.(penaltyUntil := now + seconds);
    }
  }

  // ------------------------------------------------------------------ Windows

  ghost predicate Spaced(grants: seq<real>, interval: real) {
    forall i :: 0 < i < |grants| ==> grants[i] >= grants[i - 1] + interval
  }

  lemma SpacedSnoc(grants: seq<real>, interval: real, t: real)
    requires Spaced(grants, interval) && (grants != [] ==> t >= grants[|grants| - 1] + interval)
    ensures Spaced(grants + [t], interval)
  {
    var all := grants + [t];
    assert forall i :: 0 <= i < |grants| ==> all[i] == grants[i];
  }

  lemma {:induction false} SpacedFar(grants: seq<real>, interval: real, i: nat, j: nat)
    requires Spaced(grants, interval) && i <= j < |grants|
    ensures grants[j] >= grants[i] + ((j - i) as real) * interval
    decreases j - i
  {
    if i < j {
      SpacedFar(grants, interval, i, j - 1);
      assert ((j - i) as real) * interval == ((j - 1 - i) as real) * interval + interval;
    }
  }

  /** Grants number i to j all fall in a window of the given length only if there are at most 1 + length * rps. */
  lemma WindowHoldsFew(grants: seq<real>, rps: real, start: real, length: real, i: nat, j: nat)
    requires rps > 0.0 && Spaced(grants, 1.0 / rps) && i <= j < |grants|
    requires start <= grants[i] && grants[j] <= start + length
    ensures (j - i + 1) as real <= 1.0 + length * rps
  {
    var interval := 1.0 / rps;
    var n := (j - i) as real;
    SpacedFar(grants, interval, i, j);
    assert n * interval <= length;
    assert interval * rps == 1.0;
    assert (n * interval) * rps == n;
    assert (length - n * interval) * rps >= 0.0;
    assert (length - n * interval) * rps == length * rps - n;
  }
}
