/** A bot's statistics: the fast forms (one sort, one scan with two pointers, one index) against what
    they are meant to compute. Times are nanoseconds. */
module Stats {
  import opened Sorting

  // ---- Counting ----

  datatype Range = Between(lo: int, hi: int) | UpTo(hi: int)

  predicate Within(r: Range, x: int) { x <= r.hi && (r.Between? ==> r.lo <= x) }

  /** How many of the numbers lie in the range. */
  function Count(s: seq<int>, r: Range): nat {
    if s == [] then 0 else (if Within(r, s[0]) then 1 else 0) + Count(s[1..], r)
  }

  lemma {:induction false} CountConcat(a: seq<int>, b: seq<int>, r: Range)
    ensures Count(a + b, r) == Count(a, r) + Count(b, r)
  {
    if a == [] {
      assert a + b == b;
    } else {
      assert (a + b)[1..] == a[1..] + b;
      CountConcat(a[1..], b, r);
    }
  }

  lemma {:induction false} CountNone(s: seq<int>, r: Range)
    requires forall i :: 0 <= i < |s| ==> !Within(r, s[i])
    ensures Count(s, r) == 0
  {
    if s != [] { CountNone(s[1..], r); }
  }

  lemma {:induction false} CountAll(s: seq<int>, r: Range)
    requires forall i :: 0 <= i < |s| ==> Within(r, s[i])
    ensures Count(s, r) == |s|
  {
    if s != [] { CountAll(s[1..], r); }
  }

  lemma {:induction false} CountAtMostAll(s: seq<int>, r: Range)
    ensures Count(s, r) <= |s|
  {
    if s != [] { CountAtMostAll(s[1..], r); }
  }

  /** The members of the range stand between two positions, so there are at most that many. */
  lemma CountInside(s: seq<int>, r: Range, lo: nat, hi: nat)
    requires lo <= hi <= |s|
    requires forall i :: 0 <= i < |s| && Within(r, s[i]) ==> lo <= i < hi
    ensures Count(s, r) <= hi - lo
  {
    assert s == s[..lo] + s[lo..hi] + s[hi..];
    CountConcat(s[..lo] + s[lo..hi], s[hi..], r);
    CountConcat(s[..lo], s[lo..hi], r);
    CountNone(s[..lo], r);
    CountNone(s[hi..], r);
    CountAtMostAll(s[lo..hi], r);
  }

  /** Everything between two positions is in the range, so there are at least that many. */
  lemma CountCovers(s: seq<int>, r: Range, lo: nat, hi: nat)
    requires lo <= hi <= |s|
    requires forall i :: lo <= i < hi ==> Within(r, s[i])
    ensures Count(s, r) >= hi - lo
  {
    assert s == s[..lo] + s[lo..hi] + s[hi..];
    CountConcat(s[..lo] + s[lo..hi], s[hi..], r);
    CountConcat(s[..lo], s[lo..hi], r);
    CountAll(s[lo..hi], r);
  }

  lemma {:induction false} CountPermuted(a: seq<int>, b: seq<int>, r: Range)
    requires multiset(a) == multiset(b)
    ensures Count(a, r) == Count(b, r)
  {
    if a == [] {
      assert |multiset(b)| == 0;
    } else {
      assert a[0] in multiset(b);
      var i :| 0 <= i < |b| && b[i] == a[0];
      RemovedFromBoth(a, b, i);
      assert b == b[..i] + [b[i]] + b[i + 1..];
      CountPermuted(a[1..], b[..i] + b[i + 1..], r);
      CountConcat(b[..i], b[i + 1..], r);
      CountConcat(b[..i] + [b[i]], b[i + 1..], r);
      CountConcat(b[..i], [b[i]], r);
    }
  }

  // ---- Sorting numbers ----

  function Less(): (int, int) -> bool { (a: int, b: int) => a < b }

  function SortNumbers(s: seq<int>): seq<int> { Sort(Less(), s) }

  ghost predicate Ascending(s: seq<int>) {
    forall i, j :: 0 <= i < j < |s| ==> s[i] <= s[j]
  }

  lemma SortedNumbers(s: seq<int>)
    ensures Ascending(SortNumbers(s)) && multiset(SortNumbers(s)) == multiset(s) && |SortNumbers(s)| == |s|
  {
    assert StrictWeakOrder(Less());
    SortMultiset(Less(), s);
    SortSorted(Less(), s);
    var t := SortNumbers(s);
    forall i, j | 0 <= i < j < |t| ensures t[i] <= t[j] { assert !Less()(t[j], t[i]); }
  }

  // ---- The busiest 100 ms ----

  const WINDOW := 100_000_000

  /** The closed interval of 100 ms that starts at `t`. */
  function Window(t: int): Range { Between(t, t + 100_000_000) }

  /** The most sends any closed interval of 100 ms holds. */
  ghost predicate IsPeak(s: seq<int>, m: int) {
    && (forall t :: Count(s, Window(t)) <= m)
    && (if s == [] then m == 0 else exists t :: Count(s, Window(t)) == m)
  }

  lemma PeakPermuted(a: seq<int>, b: seq<int>, m: int)
    requires multiset(a) == multiset(b) && IsPeak(a, m)
    ensures IsPeak(b, m)
  {
    assert |multiset(a)| == |a| && |multiset(b)| == |b|;
    forall t ensures Count(b, Window(t)) == Count(a, Window(t)) { CountPermuted(a, b, Window(t)); }
  }

  /** `left` is the first position whose send lies at most 100 ms before that at `right`. */
  ghost predicate FirstWithin(s: seq<int>, left: nat, right: nat) {
    && left <= right < |s| && s[right] - s[left] <= WINDOW
    && forall i :: 0 <= i < left ==> s[right] - s[i] > WINDOW
  }

  /** What the scan has seen before position `n`: its best is reached, and no position's own window
      holds more. */
  ghost predicate Scanned(s: seq<int>, n: nat, best: int) {
    && n <= |s| && best >= 0 && (n == 0 ==> best == 0)
    && (forall l: nat, r: nat :: r < n && FirstWithin(s, l, r) ==> r - l + 1 <= best)
    && (n > 0 ==> exists l: nat, r: nat :: r < n && FirstWithin(s, l, r) && r - l + 1 == best)
  }

  lemma {:induction false} LastIn(s: seq<int>, r: Range, n: nat) returns (k: nat)
    requires n <= |s| && exists i :: 0 <= i < n && Within(r, s[i])
    ensures k < n && Within(r, s[k]) && forall i :: k < i < n ==> !Within(r, s[i])
  {
    if Within(r, s[n - 1]) { k := n - 1; } else { k := LastIn(s, r, n - 1); }
  }

  lemma {:induction false} FirstBefore(s: seq<int>, right: nat, n: nat) returns (l: nat)
    requires Ascending(s) && n <= right < |s| && s[right] - s[n] <= WINDOW
    ensures FirstWithin(s, l, right) && l <= n
  {
    if n == 0 || s[right] - s[n - 1] > WINDOW {
      l := n;
    } else {
      l := FirstBefore(s, right, n - 1);
    }
  }

  /** Any window is no fuller than the one that ends at its last send. */
  lemma WindowFits(s: seq<int>, best: int, t: int)
    requires Ascending(s) && Scanned(s, |s|, best)
    ensures Count(s, Window(t)) <= best
  {
    if exists i :: 0 <= i < |s| && Within(Window(t), s[i]) {
      var r := LastIn(s, Window(t), |s|);
      var l := FirstBefore(s, r, r);
      forall i | 0 <= i < |s| && Within(Window(t), s[i]) ensures l <= i < r + 1 {
        assert s[r] - s[i] <= WINDOW;
      }
      CountInside(s, Window(t), l, r + 1);
    } else {
      CountNone(s, Window(t));
    }
  }

  lemma ScanFindsPeak(s: seq<int>, best: int)
    requires Ascending(s) && s != [] && Scanned(s, |s|, best)
    ensures IsPeak(s, best)
  {
    forall t ensures Count(s, Window(t)) <= best { WindowFits(s, best, t); }
    var l: nat, r: nat :| r < |s| && FirstWithin(s, l, r) && r - l + 1 == best;
    CountCovers(s, Window(s[l]), l, r + 1);
    assert Count(s, Window(s[l])) == best;
  }

  /** Sorts the array in place, as the library does. */
  method SortInPlace(a: array<int>)
    modifies a
    ensures a[..] == SortNumbers(old(a[..]))
  {
    var s := SortNumbers(a[..]);
    SortedNumbers(a[..]);
    forall i | 0 <= i < a.Length { a[i] := s[i]; }
    assert a[..] == s;
  }

  lemma NoSendsNoPeak(s: seq<int>)
    requires s == []
    ensures IsPeak(s, 0)
  {
    forall t ensures Count(s, Window(t)) <= 0 { CountNone(s, Window(t)); }
  }

  /** The two-pointer scan. The rate it returns is ten times the most sends in any closed interval of
      100 ms; over the whole scan the left pointer moves fewer times than there are sends. */
  method ComputeMaxTps(sentAts: array<int>) returns (tps: int, ghost moves: nat)
    modifies sentAts
    ensures exists m :: IsPeak(old(sentAts[..]), m) && tps == 10 * m
    ensures sentAts[..] == SortNumbers(old(sentAts[..]))
    ensures moves == 0 || moves < sentAts.Length
  {
    ghost var s0 := sentAts[..];
    SortedNumbers(s0);
    moves := 0;
    if sentAts.Length == 0 {
      NoSendsNoPeak(s0);
      return 0, 0;
    }
    SortInPlace(sentAts);
    ghost var s := sentAts[..];
    var maxCount, left, right := 0, 0, 0;
    while right < sentAts.Length
      invariant right <= sentAts.Length && sentAts[..] == s
      invariant 0 <= left <= right && (right < |s| ==> forall i :: 0 <= i < left ==> s[right] - s[i] > WINDOW)
      invariant moves == left && (left == 0 || left < |s|)
      invariant Scanned(s, right, maxCount)
    {
      while sentAts[right] - sentAts[left] > WINDOW
        invariant 0 <= left <= right && moves == left
        invariant forall i :: 0 <= i < left ==> s[right] - s[i] > WINDOW
        decreases right - left
      {
        left := left + 1;
        moves := moves + 1;
      }
      var count := right - left + 1;
      ScanStep(s, right, left, maxCount);
      if count > maxCount {
        maxCount := count;
      }
      right := right + 1;
    }
    ScanFindsPeak(s, maxCount);
    PeakPermuted(s, s0, maxCount);
    tps := maxCount * 10;
  }

  lemma OnlyFirst(s: seq<int>, l: nat, m: nat, right: nat)
    requires FirstWithin(s, l, right) && FirstWithin(s, m, right)
    ensures l == m
  {
  }

  lemma ScanStep(s: seq<int>, right: nat, left: nat, best: int)
    requires Ascending(s) && Scanned(s, right, best) && FirstWithin(s, left, right)
    ensures Scanned(s, right + 1, if right - left + 1 > best then right - left + 1 else best)
  {
    forall l: nat | FirstWithin(s, l, right) ensures l == left { OnlyFirst(s, l, left, right); }
    if right > 0 && right - left + 1 <= best {
      var l: nat, r: nat :| r < right && FirstWithin(s, l, r) && r - l + 1 == best;
      assert r < right + 1 && FirstWithin(s, l, r);
    }
  }

  // ---- Percentiles by nearest rank ----

  /** The value at rank `ceil(pct/100 * n)`, the rank clamped to 1..n. */
  function PercentileValue(sorted: seq<int>, pct: int): int
    requires sorted != []
  {
    var n := |sorted|;
    if n == 1 then sorted[0]
    else
      var rank := (pct * n + 99) / 100;
      var low := if rank < 1 then 1 else rank;
      sorted[(if low > n then n else low) - 1]
  }

  /** The least sample with at least `pct` percent of the samples at or below it. */
  ghost predicate IsPercentile(s: seq<int>, pct: int, v: int) {
    && v in s && 100 * Count(s, UpTo(v)) >= pct * |s|
    && forall x :: x in s && 100 * Count(s, UpTo(x)) >= pct * |s| ==> v <= x
  }

  /** What is at or below a sample of lower rank is too little. */
  lemma FewBelow(s: seq<int>, k: nat, x: int)
    requires Ascending(s) && k < |s| && x < s[k]
    ensures Count(s, UpTo(x)) <= k
  {
    CountInside(s, UpTo(x), 0, k);
  }

  lemma FirstIsLeast(s: seq<int>, x: int)
    requires Ascending(s) && x in s
    ensures s[0] <= x
  {
    var i :| 0 <= i < |s| && s[i] == x;
    assert i > 0 ==> s[0] <= s[i];
  }

  lemma ManyUpTo(s: seq<int>, k: nat)
    requires Ascending(s) && k < |s|
    ensures Count(s, UpTo(s[k])) >= k + 1
  {
    forall i | 0 <= i < k + 1 ensures Within(UpTo(s[k]), s[i]) {}
    CountCovers(s, UpTo(s[k]), 0, k + 1);
  }

  lemma RankBounds(n: int, pct: int)
    requires n > 0 && 0 <= pct <= 100
    ensures
      var rank := (pct * n + 99) / 100;
      0 <= rank <= n && 100 * rank >= pct * n && (rank == 0 || 100 * (rank - 1) < pct * n)
  {
    assert 0 <= pct * n <= 100 * n by {
      assert (100 - pct) * n >= 0;
      assert pct * n >= 0;
    }
    RankOf(n, pct * n);
  }

  lemma RankOf(n: int, x: int)
    requires 0 <= x <= 100 * n
    ensures
      var rank := (x + 99) / 100;
      0 <= rank <= n && 100 * rank >= x && (rank == 0 || 100 * (rank - 1) < x)
  {
  }

  lemma PercentileOfSorted(s: seq<int>, pct: int)
    requires Ascending(s) && s != [] && 0 <= pct <= 100
    ensures IsPercentile(s, pct, PercentileValue(s, pct))
  {
    var n := |s|;
    RankBounds(n, pct);
    var rank := (pct * n + 99) / 100;
    var k := if rank < 1 then 0 else rank - 1;
    var v := s[k];
    ManyUpTo(s, k);
    forall x | x in s && 100 * Count(s, UpTo(x)) >= pct * n ensures v <= x {
      FirstIsLeast(s, x);
      if x < v { FewBelow(s, k, x); }
    }
    assert PercentileValue(s, pct) == v;
  }

  lemma PercentilePermuted(a: seq<int>, b: seq<int>, pct: int, v: int)
    requires multiset(a) == multiset(b) && IsPercentile(a, pct, v)
    ensures IsPercentile(b, pct, v)
  {
    assert |multiset(a)| == |a| && |multiset(b)| == |b|;
    MultisetMembers(a, b);
    forall x ensures Count(b, UpTo(x)) == Count(a, UpTo(x)) { CountPermuted(a, b, UpTo(x)); }
  }

  lemma {:induction false} ScaleUp(p: int, q: int, n: nat)
    requires p <= q
    ensures p * n <= q * n
  {
    if n > 0 {
      ScaleUp(p, q, n - 1);
      assert p * n == p * (n - 1) + p && q * n == q * (n - 1) + q;
    }
  }

  /** Higher percentiles are no smaller, and all lie among the samples. */
  lemma PercentilesAreOrdered(s: seq<int>, p: int, q: int, u: int, v: int)
    requires 0 <= p <= q && IsPercentile(s, p, u) && IsPercentile(s, q, v)
    ensures u <= v
  {
    ScaleUp(p, q, |s|);
    assert v in s && 100 * Count(s, UpTo(v)) >= p * |s|;
  }

  // ---- The whole summary ----

  datatype Sample = Sample(failed: bool, latency: int, sentAt: int, ackedAt: int)

  datatype BotStats = BotStats(total: int, successful: int, errors: int,
    p50: int, p90: int, p99: int, sustainedTps: real, maxTps: int)

  const NO_STATS := BotStats(0, 0, 0, 0, 0, 0, 0.0, 0)

  function Succeeded(rs: seq<Sample>): (ok: seq<Sample>)
    ensures forall i :: 0 <= i < |ok| ==> ok[i] in rs && !ok[i].failed
  {
    if rs == [] then []
    else Succeeded(rs[..|rs| - 1]) + (if rs[|rs| - 1].failed then [] else [rs[|rs| - 1]])
  }

  /** Exactly the samples that did not fail, as often as they occur. */
  lemma {:induction false} SucceededAre(rs: seq<Sample>, r: Sample)
    ensures multiset(Succeeded(rs))[r] == if r.failed then 0 else multiset(rs)[r]
  {
    if rs != [] {
      var n := |rs| - 1;
      SucceededAre(rs[..n], r);
      assert rs == rs[..n] + [rs[n]];
      assert multiset(rs) == multiset(rs[..n]) + multiset{rs[n]};
      assert multiset(Succeeded(rs)) ==
        multiset(Succeeded(rs[..n])) + if rs[n].failed then multiset{} else multiset{rs[n]};
    }
  }

  function Latencies(rs: seq<Sample>): (ls: seq<int>)
    ensures |ls| == |rs| && forall i :: 0 <= i < |rs| ==> ls[i] == rs[i].latency
  {
    seq(|rs|, i requires 0 <= i < |rs| => rs[i].latency)
  }

  function SentAts(rs: seq<Sample>): (ts: seq<int>)
    ensures |ts| == |rs| && forall i :: 0 <= i < |rs| ==> ts[i] == rs[i].sentAt
  {
    seq(|rs|, i requires 0 <= i < |rs| => rs[i].sentAt)
  }

  /** The first send as the code tracks it, -1 standing for "none yet". */
  function FirstSent(rs: seq<Sample>): int {
    if rs == [] then -1
    else
      var first, sent := FirstSent(rs[..|rs| - 1]), rs[|rs| - 1].sentAt;
      if first == -1 || sent < first then sent else first
  }

  /** The last acknowledgement as the code tracks it, from 0 upward. */
  function LastAcked(rs: seq<Sample>): int {
    if rs == [] then 0
    else
      var last, acked := LastAcked(rs[..|rs| - 1]), rs[|rs| - 1].ackedAt;
      if acked > last then acked else last
  }

  /** With a clock past the epoch the tracked times are the earliest and the latest. */
  lemma {:induction false} TrackedTimes(rs: seq<Sample>)
    requires rs != [] && forall i :: 0 <= i < |rs| ==> rs[i].sentAt >= 0 && rs[i].ackedAt >= 0
    ensures (exists i :: 0 <= i < |rs| && rs[i].sentAt == FirstSent(rs))
    ensures (exists i :: 0 <= i < |rs| && rs[i].ackedAt == LastAcked(rs))
    ensures forall i :: 0 <= i < |rs| ==> FirstSent(rs) <= rs[i].sentAt && rs[i].ackedAt <= LastAcked(rs)
  {
    var n := |rs| - 1;
    var front := rs[..n];
    if n > 0 {
      TrackedTimes(front);
      var i :| 0 <= i < n && front[i].sentAt == FirstSent(front);
      var j :| 0 <= j < n && front[j].ackedAt == LastAcked(front);
      assert rs[i].sentAt == FirstSent(front) && rs[j].ackedAt == LastAcked(front);
      forall k | 0 <= k < |rs| ensures FirstSent(rs) <= rs[k].sentAt && rs[k].ackedAt <= LastAcked(rs) {
        if k < n { assert front[k] == rs[k]; }
      }
    }
    assert rs[n].sentAt == FirstSent(rs) || n > 0;
  }

  /** Orders per second over a time in nanoseconds, 0 if no time has passed. */
  function PerSecond(orders: int, elapsed: int): real {
    if elapsed > 0 then orders as real / (elapsed as real / 1000000000.0) else 0.0
  }

  /** At `rate` per second, `orders` take `elapsed` nanoseconds; no rate without time. */
  ghost predicate IsRate(rate: real, orders: int, elapsed: int) {
    if elapsed > 0 then rate * elapsed as real == 1000000000.0 * orders as real else rate == 0.0
  }

  lemma PerSecondIsRate(orders: int, elapsed: int)
    ensures IsRate(PerSecond(orders, elapsed), orders, elapsed)
  {
    if elapsed > 0 {
      var o, e := orders as real, elapsed as real;
      var seconds := e / 1000000000.0;
      assert o / seconds * seconds == o;
      assert e == 1000000000.0 * seconds;
      Rescaled(o / seconds, seconds, o);
    }
  }

  lemma Rescaled(rate: real, seconds: real, o: real)
    requires rate * seconds == o
    ensures rate * (1000000000.0 * seconds) == 1000000000.0 * o
  {
    assert rate * (1000000000.0 * seconds) == 1000000000.0 * (rate * seconds);
  }

  /** The figures of a bot with at least one successful order. */
  ghost predicate Measures(st: BotStats, ok: seq<Sample>) {
    && IsPercentile(Latencies(ok), 50, st.p50)
    && IsPercentile(Latencies(ok), 90, st.p90)
    && IsPercentile(Latencies(ok), 99, st.p99)
    && st.p50 <= st.p90 <= st.p99
    && IsRate(st.sustainedTps, |ok|, LastAcked(ok) - FirstSent(ok))
    && exists m :: IsPeak(SentAts(ok), m) && st.maxTps == 10 * m
  }

  /** What the statistics of a bot's results mean. */
  ghost predicate Summarizes(st: BotStats, rs: seq<Sample>) {
    var ok := Succeeded(rs);
    && st.total == |rs| && st.successful == |ok| && st.errors == |rs| - |ok|
    && if ok == [] then st == NO_STATS.(total := |rs|, errors := |rs|) else Measures(st, ok)
  }

  lemma LatencyPercentile(latencies: seq<int>, pct: int)
    requires latencies != [] && 0 <= pct <= 100
    ensures IsPercentile(latencies, pct, PercentileValue(SortNumbers(latencies), pct))
  {
    SortedNumbers(latencies);
    PercentileOfSorted(SortNumbers(latencies), pct);
    PercentilePermuted(SortNumbers(latencies), latencies, pct, PercentileValue(SortNumbers(latencies), pct));
  }

  /** Sorts the latencies and reads off the three percentiles. */
  method Percentiles(latencies: seq<int>) returns (p50: int, p90: int, p99: int)
    requires latencies != []
    ensures IsPercentile(latencies, 50, p50) && IsPercentile(latencies, 90, p90) && IsPercentile(latencies, 99, p99)
    ensures p50 <= p90 <= p99
  {
    var sorted := SortNumbers(latencies);
    SortedNumbers(latencies);
    p50, p90, p99 := PercentileValue(sorted, 50), PercentileValue(sorted, 90), PercentileValue(sorted, 99);
    LatencyPercentile(latencies, 50);
    LatencyPercentile(latencies, 90);
    LatencyPercentile(latencies, 99);
    PercentilesAreOrdered(latencies, 50, 90, p50, p90);
    PercentilesAreOrdered(latencies, 90, 99, p90, p99);
  }

  /** The loop over the results: counts, samples and the two tracked times. */
  method Collect(results: seq<Sample>)
      returns (latencies: seq<int>, sentAts: seq<int>, successful: int, errors: int, first: int, last: int)
    ensures
      var ok := Succeeded(results);
      && latencies == Latencies(ok) && sentAts == SentAts(ok)
      && successful == |ok| && errors == |results| - |ok|
      && first == FirstSent(ok) && last == LastAcked(ok)
  {
    latencies, sentAts, successful, errors, first, last := [], [], 0, 0, -1, 0;
    var i := 0;
    while i < |results|
      invariant 0 <= i <= |results| && successful == |Succeeded(results[..i])| && errors == i - successful
      invariant latencies == Latencies(Succeeded(results[..i])) && sentAts == SentAts(Succeeded(results[..i]))
      invariant first == FirstSent(Succeeded(results[..i])) && last == LastAcked(Succeeded(results[..i]))
    {
      var r := results[i];
      SucceededNext(results, i);
      i := i + 1;
      if r.failed {
        errors := errors + 1;
        continue;
      }
      successful := successful + 1;
      latencies := latencies + [r.latency];
      sentAts := sentAts + [r.sentAt];
      if first == -1 || r.sentAt < first {
        first := r.sentAt;
      }
      if r.ackedAt > last {
        last := r.ackedAt;
      }
    }
    assert results[..i] == results;
  }

  /** The figures computed from the collected samples. */
  method Measure(ghost ok: seq<Sample>, counts: BotStats, latencies: seq<int>, sentAts: seq<int>, elapsed: int)
      returns (st: BotStats)
    requires ok != [] && latencies == Latencies(ok) && sentAts == SentAts(ok)
    requires elapsed == LastAcked(ok) - FirstSent(ok) && counts.successful == |ok|
    ensures Measures(st, ok)
    ensures st.total == counts.total && st.successful == counts.successful && st.errors == counts.errors
  {
    var p50, p90, p99 := Percentiles(latencies);
    var buffer := new int[|sentAts|](k requires 0 <= k < |sentAts| => sentAts[k]);
    assert buffer[..] == sentAts;
    var tps, _ := ComputeMaxTps(buffer);
    PerSecondIsRate(counts.successful, elapsed);
    st := counts.(p50 := p50, p90 := p90, p99 := p99, sustainedTps := PerSecond(counts.successful, elapsed),
        maxTps := tps);
  }

  method ComputeStats(results: seq<Sample>) returns (st: BotStats)
    ensures Summarizes(st, results)
  {
    if |results| == 0 {
      return NO_STATS;
    }
    var latencies, sentAts, successful, errors, first, last := Collect(results);
    st := NO_STATS.(total := |results|, successful := successful, errors := errors);
    if |latencies| == 0 {
      return;
    }
    st := Measure(Succeeded(results), st, latencies, sentAts, last - first);
  }

  lemma SucceededNext(rs: seq<Sample>, i: nat)
    requires i < |rs|
    ensures
      var ok, next := Succeeded(rs[..i]), Succeeded(rs[..i + 1]);
      if rs[i].failed then next == ok
      else
        && next == ok + [rs[i]]
        && Latencies(next) == Latencies(ok) + [rs[i].latency] && SentAts(next) == SentAts(ok) + [rs[i].sentAt]
        && FirstSent(next) ==
             (if FirstSent(ok) == -1 || rs[i].sentAt < FirstSent(ok) then rs[i].sentAt else FirstSent(ok))
        && LastAcked(next) == (if rs[i].ackedAt > LastAcked(ok) then rs[i].ackedAt else LastAcked(ok))
  {
    assert rs[..i + 1][..i] == rs[..i];
    var ok := Succeeded(rs[..i]);
    if !rs[i].failed { assert (ok + [rs[i]])[..|ok|] == ok; }
  }
}
