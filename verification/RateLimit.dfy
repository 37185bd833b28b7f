/** Fixed-window rate limiting: the in-memory limiter, whose window opens with a request,
    and the fleet-wide one, whose windows are aligned to the epoch. */
module RateLimit {
  import opened Measures
  import opened Windows
  import opened Wrappers

  datatype Bucket = Bucket(used: nat, start: int)

  datatype Decision = Allowed(limit: nat, remaining: nat, resetSecs: nat) | Denied(limit: nat, retryAfterSecs: nat)

  function Elapsed(start: int, now: int): nat { if now >= start then now - start else 0 }

  function Rolled(b: Option<Bucket>, window: int, now: int): Bucket {
    if b.None? || Elapsed(b.value.start, now) >= window then Bucket(0, now) else b.value
  }

  function MaxInt(a: int, b: int): int { if a >= b then a else b }

  /** Whole seconds until the window resets, at least one. */
  function ResetSecs(start: int, window: int, now: int): nat {
    MaxInt(1, MaxInt(0, window - Elapsed(start, now)) / SECOND)
  }

  predicate Admits(b: Option<Bucket>, cap: nat, window: int, now: int) { Rolled(b, window, now).used < cap }

  function BucketAfter(b: Option<Bucket>, cap: nat, window: int, now: int): Bucket {
    var r := Rolled(b, window, now);
    if r.used < cap then r.(used := r.used + 1) else r
  }

  class RateLimiter {
    var buckets: map<string, Bucket>
    const window: nat

    constructor (window: nat)
      ensures buckets == map[] && this.window == window
    {
      buckets := map[];
      this.window := window;
    }

    function BucketOf(id: string): Option<Bucket>
      reads this
    {
      if id in buckets then Some(buckets[id]) else None
    }

    method CheckAt(id: string, cap: nat, now: int) returns (d: Decision)
      modifies this
      ensures BucketOf(id) == Some(BucketAfter(old(BucketOf(id)), cap, window, now))
      ensures forall k | k != id :: BucketOf(k) == old(BucketOf(k))
      ensures d.Allowed? <==> Admits(old(BucketOf(id)), cap, window, now)
      ensures d.limit == cap
      ensures d.Allowed? ==>
                d.remaining == cap - buckets[id].used && d.resetSecs == ResetSecs(buckets[id].start, window, now)
      ensures d.Denied? ==> d.retryAfterSecs == ResetSecs(buckets[id].start, window, now)
      ensures id in buckets
      ensures var open := id in old(buckets) && Elapsed(old(buckets)[id].start, now) < window;
              var used := if open then old(buckets)[id].used else 0;
              (d.Allowed? <==> used < cap)
              && buckets[id] == Bucket(if d.Allowed? then used + 1 else used,
                                       if open then old(buckets)[id].start else now)
    {
      var bucket := if id in buckets then buckets[id] else Bucket(0, now);
      if Elapsed(bucket.start, now) >= window {
        bucket := Bucket(0, now);
      }
      buckets := buckets[id := bucket];
      var resetIn := MaxInt(0, window - Elapsed(bucket.start, now));
      var resetSecs := MaxInt(1, resetIn / SECOND);
      if bucket.used >= cap { return Denied(cap, resetSecs); }
      bucket := bucket.(used := bucket.used + 1);
      buckets := buckets[id := bucket];
      d := Allowed(cap, cap - bucket.used, resetSecs);
    }
  }

  // ---- admitted requests over runs -----------------------------------------------

  ghost predicate Ordered(times: seq<int>) {
    forall i, j | 0 <= i < j < |times| :: times[i] <= times[j]
  }

  /** One caller's bucket after requests at `times`, and the requests it admitted. */
  function Admitted(cap: nat, window: int, times: seq<int>): (Option<Bucket>, seq<Entry>) {
    if times == [] then (None, [])
    else
      var (b, log) := Admitted(cap, window, times[..|times| - 1]);
      var now := times[|times| - 1];
      (Some(BucketAfter(b, cap, window, now)),
       if Admits(b, cap, window, now) then log + [Entry(now, 1, Rolled(b, window, now).start)] else log)
  }

  ghost predicate EntryOk(e: Entry, b: Option<Bucket>, window: int) {
    b.Some? && e.window <= e.at < e.window + window && e.window <= b.value.start
    && (e.window < b.value.start ==> b.value.start >= e.window + window)
  }

  ghost predicate BucketOk(b: Option<Bucket>, log: seq<Entry>, cap: nat, window: int, last: int) {
    (b.Some? ==> b.value.used <= cap && b.value.start <= last && Sum(log, InWindow(b.value.start)) == b.value.used)
    && (forall e <- log :: EntryOk(e, b, window))
    && (forall x, y | x in log && y in log && x.window < y.window :: y.window >= x.window + window)
    && CappedPerWindow(log, cap)
  }

  lemma RolledOk(b: Option<Bucket>, log: seq<Entry>, cap: nat, window: int, last: int, now: int)
    requires BucketOk(b, log, cap, window, last) && last <= now && window > 0
    ensures BucketOk(Some(Rolled(b, window, now)), log, cap, window, now)
    ensures now < Rolled(b, window, now).start + window
  {
    var r := Rolled(b, window, now);
    forall e | e in log ensures EntryOk(e, Some(r), window) && (b != Some(r) ==> e.window != now) {
      assert EntryOk(e, b, window);
    }
    if b != Some(r) { SumOfNone(log, InWindow(now)); }
  }

  lemma AdmitOk(r: Bucket, log: seq<Entry>, cap: nat, window: int, now: int)
    requires BucketOk(Some(r), log, cap, window, now) && r.used < cap && now < r.start + window
    ensures BucketOk(Some(r.(used := r.used + 1)), log + [Entry(now, 1, r.start)], cap, window, now)
  {
    var e := Entry(now, 1, r.start);
    forall w ensures Sum(log + [e], InWindow(w)) == Sum(log, InWindow(w)) + (if w == r.start then 1 else 0) {
      SumAppend(log, e, InWindow(w));
    }
    forall x | x in log + [e] ensures EntryOk(x, Some(r.(used := r.used + 1)), window) {
      if x in log { assert EntryOk(x, Some(r), window); }
    }
  }

  lemma {:induction false} RunOk(cap: nat, window: int, times: seq<int>)
    requires window > 0 && Ordered(times)
    ensures var (b, log) := Admitted(cap, window, times);
            (times == [] ==> b == None && log == [])
            && (times != [] ==> BucketOk(b, log, cap, window, times[|times| - 1]))
  {
    if times != [] {
      var before, now := times[..|times| - 1], times[|times| - 1];
      RunOk(cap, window, before);
      var (b, log) := Admitted(cap, window, before);
      if before == [] { assert forall w :: Sum([], InWindow(w)) == 0; }
      assert BucketOk(b, log, cap, window, if before == [] then now else before[|before| - 1]);
      RolledOk(b, log, cap, window, if before == [] then now else before[|before| - 1], now);
      if Admits(b, cap, window, now) { AdmitOk(Rolled(b, window, now), log, cap, window, now); }
    }
  }

  /** No window admits more than the capacity, and no interval of one window length, its
      ends included, admits more than twice that. */
  lemma AdmissionBound(cap: nat, window: int, times: seq<int>, from: int)
    requires window > 0 && Ordered(times)
    ensures var log := Admitted(cap, window, times).1;
            CappedPerWindow(log, cap) && Sum(log, During(from, from + window)) <= 2 * cap
  {
    RunOk(cap, window, times);
    var (b, log) := Admitted(cap, window, times);
    if times == [] { assert forall w :: Sum([], InWindow(w)) == 0; }
    assert WellSpaced(log, window) by {
      forall x, y, z | x in log && y in log && z in log && x.window < y.window < z.window
        ensures z.at > x.at + window
      {
        assert EntryOk(x, b, window) && EntryOk(z, b, window);
      }
    }
    TwoWindowBound(log, window, cap, from);
  }

  /** Nothing under the capacity is turned away: over any requests, one is admitted exactly
      when its window, the one still open or one that opens with it, has admitted fewer than
      the capacity so far. */
  lemma AdmittedIff(cap: nat, window: int, times: seq<int>, now: int)
    requires window > 0 && Ordered(times + [now])
    ensures var (b, log) := Admitted(cap, window, times);
            var open := b.Some? && now - b.value.start < window;
            var start := if open then b.value.start else now;
            Admitted(cap, window, times + [now]).1
              == if (if open then Sum(log, InWindow(start)) else 0) < cap then log + [Entry(now, 1, start)] else log
  {
    assert (times + [now])[..|times|] == times;
    assert Ordered(times) by {
      forall i, j | 0 <= i < j < |times| ensures times[i] <= times[j] {
        assert (times + [now])[i] <= (times + [now])[j];
      }
    }
    if times != [] { assert (times + [now])[|times| - 1] <= (times + [now])[|times|]; }
    RunOk(cap, window, times);
  }

  // ---- the promised retry time ---------------------------------------------------

  /** A denied caller that waits the promised seconds finds a new window exactly when the
      time left was a whole number of seconds, or under one: the promise is rounded down. */
  lemma RetryAfterIsKept(b: Bucket, cap: nat, window: int, now: int)
    requires cap > 0 && b.start <= now < b.start + window && b.used >= cap
    ensures var left, retry := b.start + window - now, now + ResetSecs(b.start, window, now) * SECOND;
            !Admits(Some(b), cap, window, now)
            && (Admits(Some(b), cap, window, retry) <==> left % SECOND == 0 || left < SECOND)
  {
    var left := b.start + window - now;
    assert left == left / SECOND * SECOND + left % SECOND;
  }

  /** With half a second's remainder the promised second is too short. */
  lemma RetryTooEarly()
    ensures var b := Bucket(1, 0);
            ResetSecs(0, 60 * SECOND, 58_500_000_000) == 1
            && !Admits(Some(b), 1, 60 * SECOND, 58_500_000_000 + SECOND)
  {
  }

  // ---- epoch-aligned windows across the fleet ------------------------------------

  /** The counter of one caller in the current aligned window, with its index. */
  datatype Counter = Counter(index: int, count: nat)

  function CountAfter(c: Counter, windowSecs: int, now: int): Counter
    requires windowSecs > 0
  {
    var index := now / windowSecs;
    if c.index == index then c.(count := c.count + 1) else Counter(index, 1)
  }

  /** Every request increments the shared counter first; it is admitted if the count, its
      own included, is within the capacity. */
  function AdmittedAligned(cap: nat, windowSecs: int, times: seq<int>): (Counter, seq<Entry>)
    requires windowSecs > 0
  {
    if times == [] then (Counter(-1, 0), [])
    else
      var (c, log) := AdmittedAligned(cap, windowSecs, times[..|times| - 1]);
      var now := times[|times| - 1];
      var d := CountAfter(c, windowSecs, now);
      (d, if d.count <= cap then log + [Entry(now, 1, d.index)] else log)
  }

  ghost predicate NonNegative(times: seq<int>) { forall i | 0 <= i < |times| :: times[i] >= 0 }

  ghost predicate AlignedInv(c: Counter, log: seq<Entry>, cap: nat) {
    CappedPerWindow(log, cap)
    && Sum(log, InWindow(c.index)) <= c.count
    && (forall e <- log :: e.window <= c.index)
  }

  lemma AlignedStep(c: Counter, log: seq<Entry>, cap: nat, d: Counter, now: int)
    requires AlignedInv(c, log, cap) && c.index <= d.index
    requires d.count == (if c.index == d.index then c.count + 1 else 1)
    ensures AlignedInv(d, if d.count <= cap then log + [Entry(now, 1, d.index)] else log, cap)
  {
    if c.index < d.index { SumOfNone(log, InWindow(d.index)); }
    if d.count <= cap {
      var e := Entry(now, 1, d.index);
      forall w ensures Sum(log + [e], InWindow(w)) == Sum(log, InWindow(w)) + (if w == d.index then 1 else 0) {
        SumAppend(log, e, InWindow(w));
      }
    }
  }

  lemma {:induction false} AlignedOk(cap: nat, windowSecs: int, times: seq<int>)
    requires windowSecs > 0 && Ordered(times) && NonNegative(times)
    ensures var (c, log) := AdmittedAligned(cap, windowSecs, times);
            AlignedInv(c, log, cap)
            && c.index == (if times == [] then -1 else times[|times| - 1] / windowSecs)
            && (forall e <- log :: e.window == e.at / windowSecs)
  {
    if times == [] {
      assert forall w :: Sum([], InWindow(w)) == 0;
    } else {
      var before, now := times[..|times| - 1], times[|times| - 1];
      AlignedOk(cap, windowSecs, before);
      var (c, log) := AdmittedAligned(cap, windowSecs, before);
      IndexMonotone(if before == [] then 0 else before[|before| - 1], now, windowSecs);
      AlignedStep(c, log, cap, CountAfter(c, windowSecs, now), now);
    }
  }

  lemma MoreMultiples(p: int, q: int, n: int)
    requires n > 0
    ensures p > q ==> p * n >= q * n + n
  {
    if p > q {
      assert (p - q - 1) * n >= 0;
      assert p * n == q * n + n + (p - q - 1) * n;
    }
  }

  lemma QuotientMonotone(a: int, b: int, n: int, p: int, q: int)
    requires n > 0 && p * n <= a <= b < q * n + n
    ensures p <= q
  {
    MoreMultiples(p, q, n);
  }

  lemma IndexMonotone(a: int, b: int, n: int)
    requires n > 0 && 0 <= a <= b
    ensures 0 <= a / n <= b / n
  {
    QuotientMonotone(a, b, n, a / n, b / n);
    QuotientMonotone(0, a, n, 0, a / n);
  }

  lemma WindowApart(x: int, z: int, n: int)
    requires n > 0 && z / n >= x / n + 2
    ensures z > x + n
  {
    assert x == x / n * n + x % n && z == z / n * n + z % n;
    assert z / n * n >= (x / n + 2) * n;
  }

  /** The requests among `times` that fall in aligned window `index`. */
  function RequestsIn(times: seq<int>, windowSecs: int, index: int): nat
    requires windowSecs > 0
  {
    if times == [] then 0
    else
      var before := RequestsIn(times[..|times| - 1], windowSecs, index);
      if times[|times| - 1] / windowSecs == index then before + 1 else before
  }

  lemma {:induction false} CounterCounts(cap: nat, windowSecs: int, times: seq<int>)
    requires windowSecs > 0 && Ordered(times) && NonNegative(times)
    ensures var c := AdmittedAligned(cap, windowSecs, times).0;
            c.count == RequestsIn(times, windowSecs, c.index)
            && forall w | w > c.index :: RequestsIn(times, windowSecs, w) == 0
    ensures times != [] ==> AdmittedAligned(cap, windowSecs, times).0.index == times[|times| - 1] / windowSecs
  {
    if times != [] {
      var before, now := times[..|times| - 1], times[|times| - 1];
      CounterCounts(cap, windowSecs, before);
      IndexMonotone(if before == [] then 0 else before[|before| - 1], now, windowSecs);
    }
  }

  /** The fleet's counter admits exactly the first requests of each aligned window, as many as
      the capacity; a refused request counts too. */
  lemma AlignedIff(cap: nat, windowSecs: int, times: seq<int>, now: int)
    requires windowSecs > 0 && Ordered(times + [now]) && NonNegative(times + [now])
    ensures var log, w := AdmittedAligned(cap, windowSecs, times).1, now / windowSecs;
            AdmittedAligned(cap, windowSecs, times + [now]).1
              == if RequestsIn(times, windowSecs, w) < cap then log + [Entry(now, 1, w)] else log
  {
    var all := times + [now];
    assert all[..|times|] == times;
    CounterCounts(cap, windowSecs, all);
  }

  /** The same bounds hold for the whole fleet sharing one counter. */
  lemma AlignedBound(cap: nat, windowSecs: int, times: seq<int>, from: int)
    requires windowSecs > 0 && Ordered(times) && NonNegative(times)
    ensures var log := AdmittedAligned(cap, windowSecs, times).1;
            CappedPerWindow(log, cap) && Sum(log, During(from, from + windowSecs)) <= 2 * cap
  {
    AlignedOk(cap, windowSecs, times);
    var log := AdmittedAligned(cap, windowSecs, times).1;
    forall x, y, z | x in log && y in log && z in log && x.window < y.window < z.window
      ensures z.at > x.at + windowSecs
    {
      WindowApart(x.at, z.at, windowSecs);
    }
    TwoWindowBound(log, windowSecs, cap, from);
  }
}
