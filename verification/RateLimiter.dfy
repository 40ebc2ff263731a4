/** The leaky bucket that limits how many hits a peer may make. Times are real numbers. */
module RateLimiter {
  import opened Collections

  datatype Limit = Limit(maxHits: nat, windowSeconds: nat)

  /** How full the bucket is, and the time up to which its leakage has been counted. */
  datatype Bucket = Bucket(hits: nat, time: real)

  predicate ValidLimit(l: Limit) { l.maxHits > 0 && l.windowSeconds > 0 }

  /** What leaks in `dt` seconds. */
  function Leakage(l: Limit, dt: real): real
    requires ValidLimit(l)
  {
    dt * l.maxHits as real / l.windowSeconds as real
  }

  /** The whole hits of it. */
  function Leaked(l: Limit, dt: real): (n: int)
    requires ValidLimit(l)
  {
    Leakage(l, dt).Floor
  }

  /** The part of the elapsed time that did not make a whole hit is kept for the next one. */
  function NewTime(l: Limit, latest: real, dt: real): real
    requires ValidLimit(l)
  {
    latest + dt - (dt * l.maxHits as real - Leaked(l, dt) as real * l.windowSeconds as real) / l.maxHits as real
  }

  function AddHit(l: Limit, b: Bucket, now: real, weight: nat): (Bucket, bool)
    requires ValidLimit(l)
  {
    var dt := now - b.time;
    var kept := b.hits - Leaked(l, dt);
    var hits := (if kept < 0 then 0 else kept) + weight;
    (Bucket(if hits > l.maxHits then l.maxHits else hits, NewTime(l, b.time, dt)), hits <= l.maxHits)
  }

  lemma {:induction false} MulDiv(x: real, y: real)
    requires y > 0.0
    ensures x / y * y == x
  {
  }

  lemma {:induction false} Monotone(x: real, y: real, m: real)
    requires m > 0.0
    ensures x <= y <==> x * m <= y * m
  {
  }

  /** Whole hits leak in whole steps of the virtual time, which never passes the clock. */
  lemma {:induction false} LeakMovesTime(l: Limit, latest: real, now: real)
    requires ValidLimit(l) && latest <= now
    ensures var n := Leaked(l, now - latest);
            var time := NewTime(l, latest, now - latest);
            && 0 <= n && time <= now
            && (time - latest) * l.maxHits as real == n as real * l.windowSeconds as real
  {
    var m, w, dt := l.maxHits as real, l.windowSeconds as real, now - latest;
    var x := dt * m / w;
    var n := x.Floor;
    MulDiv(dt * m, w);
    assert n as real <= x;
    Monotone(n as real, x, w);
    assert n as real * w <= dt * m;
    assert dt * m >= 0.0;
    Monotone(0.0, x, w);
    var r := dt * m - n as real * w;
    MulDiv(r, m);
    Monotone(0.0, r / m, m);
    var time := latest + dt - r / m;
    assert (time - latest) * m == dt * m - r / m * m;
  }

  /** Without time passing, a hit is let through exactly if it fits into the bucket. */
  lemma {:induction false} FitsIffRoom(l: Limit, b: Bucket, weight: nat)
    requires ValidLimit(l)
    ensures AddHit(l, b, b.time, weight).1 <==> b.hits + weight <= l.maxHits
    ensures AddHit(l, b, b.time, weight).0 == Bucket(if b.hits + weight <= l.maxHits then b.hits + weight else l.maxHits, b.time)
  {
    assert Leaked(l, 0.0) == 0;
  }

  /** A whole window after the time that is counted, everything has leaked: whatever fits an empty
      bucket must be let through. */
  lemma {:induction false} WindowEmptiesBucket(l: Limit, b: Bucket, now: real, weight: nat)
    requires ValidLimit(l) && b.hits <= l.maxHits && weight <= l.maxHits && b.time + l.windowSeconds as real <= now
    ensures AddHit(l, b, now, weight).1 && AddHit(l, b, now, weight).0.hits == weight
  {
    WindowLeaks(l, now - b.time);
  }

  /** A window leaks a full bucket. */
  lemma {:induction false} WindowLeaks(l: Limit, dt: real)
    requires ValidLimit(l) && l.windowSeconds as real <= dt
    ensures Leaked(l, dt) >= l.maxHits
  {
    LeakRate(dt, l.maxHits as real, l.windowSeconds as real);
    assert l.maxHits as real <= Leakage(l, dt);
    FloorIsAbove(Leakage(l, dt), l.maxHits);
  }

  lemma {:induction false} LeakRate(dt: real, m: real, w: real)
    requires w > 0.0 && m > 0.0 && w <= dt
    ensures m <= dt * m / w
  {
    MulDiv(dt * m, w);
    Monotone(w, dt, m);
    assert m * w == w * m;
    Monotone(m, dt * m / w, w);
  }

  lemma {:induction false} FloorIsAbove(x: real, n: nat)
    requires n as real <= x
    ensures n <= x.Floor
  {
  }

  // ---- runs

  datatype Hit = Hit(now: real, weight: nat)

  predicate IsRun(hits: seq<Hit>) { forall i | 0 < i < |hits| :: hits[i - 1].now <= hits[i].now }

  /** The bucket after a run that starts with no bucket; the first hit is not checked. */
  function After(l: Limit, hits: seq<Hit>): Bucket
    requires ValidLimit(l) && hits != []
  {
    var last := hits[|hits| - 1];
    if |hits| == 1 then Bucket(last.weight, last.now) else AddHit(l, After(l, hits[..|hits| - 1]), last.now, last.weight).0
  }

  predicate LastAllowed(l: Limit, hits: seq<Hit>)
    requires ValidLimit(l) && hits != []
  {
    |hits| == 1 || AddHit(l, After(l, hits[..|hits| - 1]), hits[|hits| - 1].now, hits[|hits| - 1].weight).1
  }

  /** The total weight of the hits that were let through. */
  function Allowed(l: Limit, hits: seq<Hit>): nat
    requires ValidLimit(l)
  {
    if hits == [] then 0
    else Allowed(l, hits[..|hits| - 1]) + if LastAllowed(l, hits) then hits[|hits| - 1].weight else 0
  }

  /** Hits leaked so far. */
  ghost function TotalLeaked(l: Limit, hits: seq<Hit>): int
    requires ValidLimit(l) && hits != []
  {
    if |hits| == 1 then 0
    else
      var before := hits[..|hits| - 1];
      TotalLeaked(l, before) + Leaked(l, hits[|hits| - 1].now - After(l, before).time)
  }

  /** The bucket has room for what was let through and has not leaked; the leakage counted is
      exactly what the virtual time since the first hit allows. */
  ghost predicate Accounted(l: Limit, b: Bucket, start: real, now: real, leaked: int, allowed: nat) {
    && b.hits <= l.maxHits && b.time <= now && allowed <= b.hits + leaked
    && (b.time - start) * l.maxHits as real == leaked as real * l.windowSeconds as real
  }

  lemma {:induction false} HitIsAccounted(l: Limit, b: Bucket, start: real, before: real, leaked: int, allowed: nat, now: real, weight: nat)
    requires ValidLimit(l) && Accounted(l, b, start, before, leaked, allowed) && before <= now
    ensures var (c, ok) := AddHit(l, b, now, weight);
            Accounted(l, c, start, now, leaked + Leaked(l, now - b.time), allowed + if ok then weight else 0)
  {
    LeakMovesTime(l, b.time, now);
    hide NewTime, Leaked;
    var n := Leaked(l, now - b.time);
    var time := NewTime(l, b.time, now - b.time);
    var m, w := l.maxHits as real, l.windowSeconds as real;
    Distribute(b.time - start, time - b.time, m);
    assert (b.time - start) + (time - b.time) == time - start;
    Distribute(leaked as real, n as real, w);
    assert (leaked + n) as real == leaked as real + n as real;
  }

  lemma {:induction false} BucketInvariant(l: Limit, hits: seq<Hit>)
    requires ValidLimit(l) && hits != [] && IsRun(hits) && hits[0].weight <= l.maxHits
    ensures Accounted(l, After(l, hits), hits[0].now, hits[|hits| - 1].now, TotalLeaked(l, hits), Allowed(l, hits))
    decreases |hits|
  {
    if |hits| == 1 {
      assert Allowed(l, hits[..0]) == 0;
    } else {
      hide AddHit, Accounted, Leaked;
      var before, last := hits[..|hits| - 1], hits[|hits| - 1];
      assert IsRun(before) && before[|before| - 1] == hits[|hits| - 2] && before[0] == hits[0];
      BucketInvariant(l, before);
      HitIsAccounted(l, After(l, before), hits[0].now, before[|before| - 1].now, TotalLeaked(l, before), Allowed(l, before), last.now, last.weight);
    }
  }

  lemma {:induction false} Distribute(x: real, y: real, m: real)
    ensures (x + y) * m == x * m + y * m
  {
  }

  function FullBucketAndLeak(l: Limit, seconds: real): real
    requires ValidLimit(l)
  {
    l.maxHits as real + l.maxHits as real * seconds / l.windowSeconds as real
  }

  /** However the hits are spread, no more weight gets through up to any time than one full
      bucket and what leaked since the first hit. */
  lemma {:induction false} AllowedIsBounded(l: Limit, hits: seq<Hit>, t: real)
    requires ValidLimit(l) && hits != [] && IsRun(hits) && hits[0].weight <= l.maxHits && hits[|hits| - 1].now <= t
    ensures Allowed(l, hits) as real <= FullBucketAndLeak(l, t - hits[0].now)
  {
    hide *;
    BucketInvariant(l, hits);
    AccountedIsBounded(l, After(l, hits), hits[0].now, hits[|hits| - 1].now, TotalLeaked(l, hits), Allowed(l, hits), t);
  }

  ghost predicate BoundedUpTo(l: Limit, hits: seq<Hit>, n: nat)
    requires ValidLimit(l) && 0 < n <= |hits|
  {
    Allowed(l, hits[..n]) as real <= FullBucketAndLeak(l, hits[n - 1].now - hits[0].now)
  }

  /** The first hit is let through whatever its weight: the bound holds all along a run exactly
      when the first weight fits the bucket. */
  lemma {:induction false} BoundedIffFirstFits(l: Limit, hits: seq<Hit>)
    requires ValidLimit(l) && hits != [] && IsRun(hits)
    ensures (forall n | 0 < n <= |hits| :: BoundedUpTo(l, hits, n)) <==> hits[0].weight <= l.maxHits
  {
    if hits[0].weight <= l.maxHits {
      hide FullBucketAndLeak;
      forall n | 0 < n <= |hits|
        ensures BoundedUpTo(l, hits, n)
      {
        assert IsRun(hits[..n]) && hits[..n][0] == hits[0] && hits[..n][n - 1] == hits[n - 1];
        AllowedIsBounded(l, hits[..n], hits[n - 1].now);
      }
    } else {
      var one := hits[..1];
      assert one[..0] == [] && Allowed(l, one) == Allowed(l, one[..0]) + hits[0].weight;
      assert FullBucketAndLeak(l, hits[0].now - hits[0].now) == l.maxHits as real by { NoLeak(l); }
      assert !BoundedUpTo(l, hits, 1);
    }
  }

  lemma {:induction false} NoLeak(l: Limit)
    requires ValidLimit(l)
    ensures FullBucketAndLeak(l, 0.0) == l.maxHits as real
  {
    assert 0.0 / l.windowSeconds as real == 0.0;
  }

  lemma {:induction false} AccountedIsBounded(l: Limit, b: Bucket, start: real, now: real, leaked: int, allowed: nat, t: real)
    requires ValidLimit(l) && Accounted(l, b, start, now, leaked, allowed) && now <= t
    ensures allowed as real <= FullBucketAndLeak(l, t - start)
  {
    LeakedInTime(l.maxHits as real, l.windowSeconds as real, b.time - start, t - start, leaked as real);
    assert allowed as real <= b.hits as real + leaked as real;
  }

  lemma {:induction false} LeakedInTime(m: real, w: real, dv: real, dt: real, n: real)
    requires m > 0.0 && w > 0.0 && dv <= dt && dv * m == n * w
    ensures n <= m * dt / w
  {
    Monotone(dv, dt, m);
    var x := m * dt;
    MulDiv(x, w);
    Monotone(n, x / w, w);
  }

  class RateLimiter {
    var keys: map<string, Limit>
    var hits: map<string, Bucket>

    constructor ()
      ensures keys == map[] && hits == map[]
    {
      keys, hits := map[], map[];
    }

    method SetLimit(key: string, maxHits: nat, windowSeconds: nat)
      requires windowSeconds > 0
      modifies `keys
      ensures keys == old(keys)[key := Limit(maxHits, windowSeconds)]
    {
      keys := keys[key := Limit(maxHits, windowSeconds)];
    }

    method Reset(key: string)
      modifies `hits
      ensures hits == old(hits) - {key}
    {
      hits := hits - {key};
    }

    method Unset(key: string)
      modifies this
      ensures keys == old(keys) - {key} && hits == old(hits) - {key}
    {
      Reset(key);
      keys := keys - {key};
    }

    /** Whether the hit is let through; `None` is the division by zero of a limit of no hits. */
    method Hit(key: string, now: real, weight: nat) returns (allowance: Option<bool>)
      requires key in keys ==> keys[key].windowSeconds > 0
      modifies `hits
      ensures key !in keys ==> allowance == Some(true) && hits == old(hits)
      ensures key in keys && key !in old(hits) ==> allowance == Some(true) && hits == old(hits)[key := Bucket(weight, now)]
      ensures key in keys && key in old(hits) && keys[key].maxHits == 0 ==> allowance == None && hits == old(hits)
      ensures key in keys && key in old(hits) && keys[key].maxHits > 0 ==>
                var (b, ok) := AddHit(keys[key], old(hits)[key], now, weight);
                allowance == Some(ok) && hits == old(hits)[key := b]
    {
      if key !in keys {
        return Some(true);
      }
      var limit := keys[key];
      if key !in hits {
        hits := hits[key := Bucket(weight, now)];
        return Some(true);
      }
      if limit.maxHits == 0 {
        return None;
      }
      var bucket := hits[key];
      var dt := now - bucket.time;
      var leaked := Leaked(limit, dt);
      var remainder := dt * limit.maxHits as real - leaked as real * limit.windowSeconds as real;
      var newTime := bucket.time + dt - remainder / limit.maxHits as real;
      assert newTime == NewTime(limit, bucket.time, dt);
      var newHits: int := bucket.hits - leaked;
      if newHits < 0 {
        newHits := 0;
      }
      newHits := newHits + weight;
      allowance := Some(true);
      if newHits > limit.maxHits {
        allowance := Some(false);
        newHits := limit.maxHits;
      }
      hits := hits[key := Bucket(newHits, newTime)];
    }
  }
}
