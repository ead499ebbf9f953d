/** Scores over exact reals: the score of one profile run, and the weighted final score. */
module Scoring {
  import opened ProfileChain
  import Checker

  /** What a volatility profile demands and how it weighs it. */
  datatype Target = Target(p99: real, sustainedTps: real, latencyWeight: real, throughputWeight: real,
      correctnessWeight: real)

  /** 1 up to the target latency, falling linearly to 0 at ten times the target. */
  function NormP99(t: Target, p99: real): real {
    var worst := t.p99 * 10.0;
    if p99 <= t.p99 then 1.0
    else if p99 < worst then 1.0 - (p99 - t.p99) / (worst - t.p99)
    else 0.0
  }

  /** The share of the target rate that was sustained, at most 1. */
  function NormTps(t: Target, tps: real): real {
    if t.sustainedTps > 0.0 then
      var share := tps / t.sustainedTps;
      if share > 1.0 then 1.0 else share
    else 0.0
  }

  /** The score of a run from its normalized latency and throughput. */
  function Combine(t: Target, correctness: real, latency: real, throughput: real): real {
    correctness * (t.latencyWeight * latency + t.throughputWeight * throughput) + t.correctnessWeight * correctness
  }

  function RunScore(t: Target, correctness: real, p99: real, tps: real): real {
    Combine(t, correctness, NormP99(t, p99), NormTps(t, tps))
  }

  ghost predicate Weighted(t: Target) {
    && t.latencyWeight >= 0.0 && t.throughputWeight >= 0.0 && t.correctnessWeight >= 0.0
    && t.latencyWeight + t.throughputWeight + t.correctnessWeight == 1.0
  }

  // ---- Arithmetic ----

  lemma Products(a: real, b: real)
    requires a >= 0.0 && b >= 0.0
    ensures a * b >= 0.0
  {
  }

  lemma ScaleUp(a: real, x: real, y: real)
    requires a >= 0.0 && x <= y
    ensures a * x <= a * y
  {
    Products(a, y - x);
    assert a * (y - x) == a * y - a * x;
  }

  lemma Shrinks(a: real, x: real)
    requires a >= 0.0 && x <= 1.0
    ensures a * x <= a
  {
    ScaleUp(a, x, 1.0);
    assert a * 1.0 == a;
  }

  lemma Quotients(x: real, y: real, d: real)
    requires d > 0.0 && x <= y
    ensures x / d <= y / d
    ensures x >= 0.0 ==> x / d >= 0.0
    ensures x < d <==> x / d < 1.0
    ensures x == d <==> x / d == 1.0
    ensures x > 0.0 ==> x / d > 0.0
  {
    var p, q := x / d, y / d;
    assert p * d == x && q * d == y;
    var rise, gap := q - p, p - 1.0;
    assert rise * d == y - x;
    assert gap * d == x - d;
    Checker.SignOfProduct(rise, d);
    Checker.SignOfProduct(gap, d);
    Checker.SignOfProduct(p, d);
  }

  // ---- The normal forms ----

  /** The latency score lies between 0 and 1, never rises with p99, and is 1 exactly up to the target. */
  lemma NormP99Falls(t: Target, p: real, q: real)
    requires p <= q
    ensures 0.0 <= NormP99(t, q) <= NormP99(t, p) <= 1.0
    ensures NormP99(t, p) == 1.0 <==> p <= t.p99
  {
    var width := t.p99 * 10.0 - t.p99;
    if width > 0.0 {
      Quotients(p - t.p99, q - t.p99, width);
      Quotients(q - t.p99, q - t.p99, width);
    }
  }

  /** `l` is 1 up to the target, 0 from ten times the target on, and on the straight line in between. */
  ghost predicate LatencyScore(t: Target, p99: real, l: real) {
    if p99 <= t.p99 then l == 1.0
    else if p99 >= 10.0 * t.p99 then l == 0.0
    else l * (9.0 * t.p99) == 10.0 * t.p99 - p99
  }

  /** `s` is the part of the target rate that was sustained, no more than 1. */
  ghost predicate ThroughputScore(t: Target, tps: real, s: real) {
    if t.sustainedTps <= 0.0 then s == 0.0
    else if tps >= t.sustainedTps then s == 1.0
    else s * t.sustainedTps == tps
  }

  lemma NormP99Is(t: Target, p99: real)
    ensures LatencyScore(t, p99, NormP99(t, p99))
  {
    if t.p99 < p99 < 10.0 * t.p99 {
      var q := (p99 - t.p99) / (9.0 * t.p99);
      assert q * (9.0 * t.p99) == p99 - t.p99;
      assert NormP99(t, p99) == 1.0 - q;
      assert (1.0 - q) * (9.0 * t.p99) == 9.0 * t.p99 - q * (9.0 * t.p99);
    }
  }

  lemma NormTpsIs(t: Target, tps: real)
    ensures ThroughputScore(t, tps, NormTps(t, tps))
  {
    if t.sustainedTps > 0.0 { Quotients(tps, tps, t.sustainedTps); }
  }

  /** What a run scores: its correctness times the latency score and the throughput score, each with its own
      weight, and the weight of correctness. */
  lemma RunScoreIs(t: Target, correctness: real, p99: real, tps: real, l: real, s: real)
    requires LatencyScore(t, p99, l) && ThroughputScore(t, tps, s)
    ensures RunScore(t, correctness, p99, tps)
         == correctness * (t.latencyWeight * l + t.throughputWeight * s + t.correctnessWeight)
  {
    NormP99Is(t, p99);
    NormTpsIs(t, tps);
    assert l == NormP99(t, p99) by {
      if t.p99 < p99 < 10.0 * t.p99 { SameFactor(l, NormP99(t, p99), 9.0 * t.p99); }
    }
    assert s == NormTps(t, tps) by {
      if 0.0 < t.sustainedTps { SameFactor(s, NormTps(t, tps), t.sustainedTps); }
    }
    CombineFactors(t, correctness, l, s);
  }

  lemma SameFactor(x: real, y: real, d: real)
    requires d > 0.0
    ensures x * d == y * d ==> x == y
  {
    var gap := x - y;
    assert gap * d == x * d - y * d;
    Checker.SignOfProduct(gap, d);
  }

  /** The throughput score lies between 0 and 1 and never falls with the rate. */
  lemma NormTpsRises(t: Target, x: real, y: real)
    requires 0.0 <= x <= y
    ensures 0.0 <= NormTps(t, x) <= NormTps(t, y) <= 1.0
    ensures NormTps(t, x) == 1.0 <==> t.sustainedTps > 0.0 && x >= t.sustainedTps
  {
    if t.sustainedTps > 0.0 {
      Quotients(x, y, t.sustainedTps);
      Quotients(y, y, t.sustainedTps);
    }
  }

  // ---- One run ----

  /** What correctness multiplies, from the normalized latency and throughput. */
  function Quality(t: Target, latency: real, throughput: real): real {
    t.latencyWeight * latency + t.throughputWeight * throughput + t.correctnessWeight
  }

  lemma CombineFactors(t: Target, c: real, l: real, s: real)
    ensures Combine(t, c, l, s) == c * Quality(t, l, s)
  {
    var x, w := t.latencyWeight * l + t.throughputWeight * s, t.correctnessWeight;
    assert c * x + w * c == c * (x + w);
  }

  /** Worse latency or a lower rate is never better; the quality lies between 0 and 1. */
  lemma QualityMonotone(t: Target, l0: real, l1: real, s0: real, s1: real)
    requires Weighted(t) && 0.0 <= l0 <= l1 <= 1.0 && 0.0 <= s0 <= s1 <= 1.0
    ensures 0.0 <= Quality(t, l0, s0) <= Quality(t, l1, s1) <= 1.0
  {
    WeightedSum(t.latencyWeight, t.throughputWeight, t.correctnessWeight, l0, l1, s0, s1);
  }

  lemma WeightedSum(a: real, b: real, c: real, l0: real, l1: real, t0: real, t1: real)
    requires a >= 0.0 && b >= 0.0 && c >= 0.0 && a + b + c == 1.0
    requires 0.0 <= l0 <= l1 <= 1.0 && 0.0 <= t0 <= t1 <= 1.0
    ensures 0.0 <= a * l0 + b * t0 + c <= a * l1 + b * t1 + c <= 1.0
  {
    var x0, x1 := Portion(a, l0, l1);
    var y0, y1 := Portion(b, t0, t1);
    Total(x0, x1, y0, y1, a, b, c);
  }

  lemma Portion(a: real, x: real, y: real) returns (p: real, q: real)
    requires a >= 0.0 && 0.0 <= x <= y <= 1.0
    ensures p == a * x && q == a * y && 0.0 <= p <= q <= a
  {
    p, q := a * x, a * y;
    Products(a, x);
    ScaleUp(a, x, y);
    ScaleUp(a, y, 1.0);
  }

  lemma Total(x0: real, x1: real, y0: real, y1: real, a: real, b: real, c: real)
    requires 0.0 <= x0 <= x1 <= a && 0.0 <= y0 <= y1 <= b && c >= 0.0 && a + b + c == 1.0
    ensures 0.0 <= x0 + y0 + c <= x1 + y1 + c <= 1.0
  {
  }

  lemma ProductRises(c: real, d: real, low: real, high: real)
    requires 0.0 <= c <= d <= 1.0 && 0.0 <= low <= high <= 1.0
    ensures 0.0 <= c * low <= d * high <= 1.0
  {
    Products(c, low);
    ScaleUp(c, low, high);
    Products(d - c, high);
    assert (d - c) * high == d * high - c * high;
    Shrinks(d, high);
  }

  /** A run score lies between 0 and 1; it never falls when correctness or throughput rises, never
      rises when p99 does, and is 0 at zero correctness. */
  lemma RunScoreMonotone(t: Target, c: real, d: real, p: real, q: real, x: real, y: real)
    requires Weighted(t) && 0.0 <= c <= d <= 1.0 && p <= q && 0.0 <= x <= y
    ensures 0.0 <= RunScore(t, c, q, x) <= RunScore(t, d, p, y) <= 1.0
    ensures RunScore(t, 0.0, p, y) == 0.0
  {
    NormP99Falls(t, p, q);
    NormTpsRises(t, x, y);
    ScoreMonotone(t, c, d, NormP99(t, q), NormP99(t, p), NormTps(t, x), NormTps(t, y));
  }

  lemma ScoreMonotone(t: Target, c: real, d: real, l0: real, l1: real, s0: real, s1: real)
    requires Weighted(t) && 0.0 <= c <= d <= 1.0 && 0.0 <= l0 <= l1 <= 1.0 && 0.0 <= s0 <= s1 <= 1.0
    ensures 0.0 <= Combine(t, c, l0, s0) <= Combine(t, d, l1, s1) <= 1.0
    ensures Combine(t, 0.0, l1, s1) == 0.0
  {
    CombineFactors(t, c, l0, s0);
    CombineFactors(t, d, l1, s1);
    CombineFactors(t, 0.0, l1, s1);
    QualityMonotone(t, l0, l1, s0, s1);
    ProductRises(c, d, Quality(t, l0, s0), Quality(t, l1, s1));
  }

  lemma ProductIsOne(a: real, b: real)
    requires 0.0 <= a <= 1.0 && 0.0 <= b <= 1.0
    ensures a * b == 1.0 <==> a == 1.0 && b == 1.0
  {
    Shrinks(a, b);
    Shrinks(b, a);
    assert a * b == b * a;
  }

  lemma WeightedIsWhole(a: real, x: real)
    requires a > 0.0 && x <= 1.0
    ensures a * x <= a && (a * x == a <==> x == 1.0)
  {
    var gap := 1.0 - x;
    assert gap * a == a - a * x;
    Checker.SignOfProduct(gap, a);
  }

  /** The perfect score is reached exactly by perfect correctness within both targets. */
  lemma PerfectRun(t: Target, c: real, p99: real, tps: real)
    requires Weighted(t) && t.latencyWeight > 0.0 && t.throughputWeight > 0.0
    requires 0.0 <= c <= 1.0 && tps >= 0.0
    ensures RunScore(t, c, p99, tps) == 1.0 <==>
            c == 1.0 && p99 <= t.p99 && t.sustainedTps > 0.0 && tps >= t.sustainedTps
  {
    NormP99Falls(t, p99, p99);
    NormTpsRises(t, tps, tps);
    PerfectQuality(t, c, NormP99(t, p99), NormTps(t, tps));
  }

  lemma PerfectQuality(t: Target, c: real, l: real, s: real)
    requires Weighted(t) && t.latencyWeight > 0.0 && t.throughputWeight > 0.0
    requires 0.0 <= c <= 1.0 && 0.0 <= l <= 1.0 && 0.0 <= s <= 1.0
    ensures Combine(t, c, l, s) == 1.0 <==> c == 1.0 && l == 1.0 && s == 1.0
  {
    CombineFactors(t, c, l, s);
    QualityMonotone(t, l, l, s, s);
    ProductIsOne(c, Quality(t, l, s));
    WholeSum(t.latencyWeight, t.throughputWeight, t.correctnessWeight, l, s);
  }

  lemma WholeSum(a: real, b: real, c: real, x: real, y: real)
    requires a > 0.0 && b > 0.0 && a + b + c == 1.0 && x <= 1.0 && y <= 1.0
    ensures a * x + b * y + c == 1.0 <==> x == 1.0 && y == 1.0
  {
    WeightedIsWhole(a, x);
    WeightedIsWhole(b, y);
  }

  // ---- The final score ----

  predicate UnitScores(rs: seq<RunResult>) {
    forall i :: 0 <= i < |rs| ==> 0.0 <= rs[i].runScore <= 1.0
  }

  lemma {:induction false} SafeScoreInUnit(rs: seq<RunResult>, l: Label)
    requires UnitScores(rs)
    ensures 0.0 <= SafeScore(rs, l) <= 1.0
  {
    if rs != [] { SafeScoreInUnit(rs[1..], l); }
  }

  lemma FinalScoreInRange(rs: seq<RunResult>)
    requires UnitScores(rs)
    ensures 0.0 <= FinalScoreOf(rs) <= 100.0
  {
    SafeScoreInUnit(rs, Low);
    SafeScoreInUnit(rs, Medium);
    SafeScoreInUnit(rs, High);
  }

  // ---- Along every run of the protocol ----

  predicate UnitEnv(e: Env) { 0.0 <= e.Score() <= 1.0 }

  predicate UnitLocal(l: Local) {
    && (!l.Idle? ==> UnitEnv(l.env))
    && (l.Working? ==> UnitScores(l.sub.results))
  }

  ghost predicate UnitWorld(w: World) {
    && (forall id :: id in w.store ==> UnitScores(w.store[id].results))
    && (forall k :: 0 <= k < |w.parts| ==> UnitLocal(w.parts[k].local))
  }

  /** Fleet runs report run scores. */
  predicate UnitMove(m: Move) { m.Fetch? ==> UnitEnv(m.env) }

  lemma AdvanceKeepsUnit(st: Store, p: Partition)
    requires (forall id :: id in st ==> UnitScores(st[id].results)) && UnitLocal(p.local)
    ensures
      var (st', p') := Advance(st, p);
      (forall id :: id in st' ==> UnitScores(st'[id].results)) && UnitLocal(p'.local)
  {
    var sub := Written(st, p.local);
    assert Advance(st, p).0 == if sub.Some? then Save(st, sub.value) else st;
    assert sub.Some? ==> UnitScores(sub.value.results);
  }

  lemma NextKeepsUnit(w: World, m: Move)
    requires UnitWorld(w) && UnitMove(m)
    ensures UnitWorld(Next(w, m))
  {
    match m
    case Work(part) => if part < |w.parts| { AdvanceKeepsUnit(w.store, w.parts[part]); }
    case _ =>
  }

  lemma {:induction false} RunKeepsUnit(w: World, ms: seq<Move>)
    requires UnitWorld(w) && forall i :: 0 <= i < |ms| ==> UnitMove(ms[i])
    ensures UnitWorld(Run(w, ms))
    decreases |ms|
  {
    if ms != [] {
      NextKeepsUnit(w, ms[0]);
      RunKeepsUnit(Next(w, ms[0]), ms[1..]);
    }
  }

  /** Whatever crashes and is redelivered, a completed submission's final score lies between 0 and 100. */
  lemma CompletedScoresInRange(n: nat, ms: seq<Move>, id: string)
    requires forall i :: 0 <= i < |ms| ==> UnitMove(ms[i])
    requires id in Run(InitialWorld(n), ms).store && Run(InitialWorld(n), ms).store[id].status == Completed
    ensures 0.0 <= Run(InitialWorld(n), ms).store[id].finalScore <= 100.0
  {
    RunKeepsUnit(InitialWorld(n), ms);
    ReachableStates(n, ms);
    FinalScoreInRange(Run(InitialWorld(n), ms).store[id].results);
  }
}
