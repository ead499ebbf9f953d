/** Streaming aggregation of latency samples into 5-second windows: one open window per submission,
    flushed when an event of another bucket arrives, into a table that keeps the first row per key. */
module LatencyWindows {
  import opened Orders
  import Sorting
  import Stats

  const WINDOW := 5_000_000_000

  /** The start of the window a time belongs to. */
  function Truncate(t: int): int { t / WINDOW * WINDOW }

  /** The window of a time: it starts at a multiple of five seconds, at most five seconds before. */
  lemma WindowOfTime(t: int)
    ensures Truncate(t) <= t < Truncate(t) + 5_000_000_000 && Truncate(t) % 5_000_000_000 == 0
  {
  }

  /** What one record of the topic turns out to be. */
  datatype Record = Malformed | Heartbeat(sid: string) | Event(sid: string, time: int, latency: int)

  // ---- A row and how it is computed ----

  datatype Row = Row(sid: string, start: int, p50: int, p90: int, p99: int,
    min: int, max: int, mean: int, tps: real, n: nat)

  function Ceil(x: real): int { -(-x).Floor }

  /** Nearest rank: `ceil(p * n) - 1`, clamped. */
  function Percentile(sorted: seq<int>, p: real): int {
    var n := |sorted|;
    if n == 0 then 0
    else
      var idx := Ceil(p * n as real) - 1;
      var low := if idx < 0 then 0 else idx;
      sorted[if low >= n then n - 1 else low]
  }

  function Sum(s: seq<int>): int {
    if s == [] then 0 else Sum(s[..|s| - 1]) + s[|s| - 1]
  }

  /** Integer division as Go does it, towards zero. */
  function Quotient(a: int, b: int): int
    requires b > 0
  {
    if a >= 0 then a / b else -(-a / b)
  }

  function Summary(sid: string, start: int, samples: seq<int>): (r: Row)
    ensures r.sid == sid && r.start == start && r.n == |samples|
  {
    if samples == [] then Row(sid, start, 0, 0, 0, 0, 0, 0, 0.0, 0)
    else
      var s := Stats.SortNumbers(samples);
      Stats.SortedNumbers(samples);
      Row(sid, start, Percentile(s, 0.50), Percentile(s, 0.90), Percentile(s, 0.99),
          s[0], s[|s| - 1], Quotient(Sum(samples), |samples|), |samples| as real / 5.0, |samples|)
  }

  // ---- The consumer as a machine on values ----

  datatype Open = Open(start: int, samples: seq<int>)

  datatype State = State(windows: map<string, Open>, rows: map<(string, int), Row>)

  const START := State(map[], map[])

  /** Insert that does nothing on a conflict; rows without samples are not written. */
  function Write(rows: map<(string, int), Row>, r: Row): map<(string, int), Row> {
    if r.n == 0 || (r.sid, r.start) in rows then rows else rows[(r.sid, r.start) := r]
  }

  function Flush(st: State, sid: string): State
    requires sid in st.windows
  {
    var w := st.windows[sid];
    State(st.windows - {sid}, Write(st.rows, Summary(sid, w.start, w.samples)))
  }

  /** The submission's window for a bucket is open; one for another bucket has been flushed. */
  function Opened(st: State, sid: string, start: int): (st': State)
    ensures sid in st'.windows && st'.windows[sid].start == start
  {
    if sid in st.windows && st.windows[sid].start == start then st
    else
      var st1 := if sid in st.windows then Flush(st, sid) else st;
      st1.(windows := st1.windows[sid := Open(start, [])])
  }

  function Handle(st: State, r: Record): State {
    match r
    case Malformed => st
    case Heartbeat(_) => st
    case Event(sid, time, latency) =>
      var st1 := Opened(st, sid, Truncate(time));
      var w := st1.windows[sid];
      st1.(windows := st1.windows[sid := Open(w.start, w.samples + [latency])])
  }

  function HandleAll(rs: seq<Record>): State {
    if rs == [] then START else Handle(HandleAll(rs[..|rs| - 1]), rs[|rs| - 1])
  }

  /** All windows flushed: what shutdown leaves in the table. */
  ghost function Table(st: State): map<(string, int), Row> {
    map k: (string, int) |
        k in st.rows.Keys
          + (set sid | sid in st.windows && st.windows[sid].samples != [] :: (sid, st.windows[sid].start))
      :: if k in st.rows then st.rows[k] else Summary(k.0, k.1, st.windows[k.0].samples)
  }

  // ---- One submission at a time ----

  datatype Tick = Tick(start: int, latency: int)

  function Lat(ts: seq<Tick>): (ls: seq<int>)
    ensures |ls| == |ts|
  {
    if ts == [] then [] else Lat(ts[..|ts| - 1]) + [ts[|ts| - 1].latency]
  }

  /** The submission's own events, in order. */
  function Of(rs: seq<Record>, sid: string): seq<Tick> {
    if rs == [] then []
    else
      var front, r := Of(rs[..|rs| - 1], sid), rs[|rs| - 1];
      if r.Event? && r.sid == sid then front + [Tick(Truncate(r.time), r.latency)] else front
  }

  datatype Track = Track(open: Option<Open>, kept: map<int, seq<int>>)

  function Keep(kept: map<int, seq<int>>, w: Open): map<int, seq<int>> {
    if w.samples == [] || w.start in kept then kept else kept[w.start := w.samples]
  }

  function TrackStep(tr: Track, e: Tick): Track {
    if tr.open.None? then Track(Some(Open(e.start, [e.latency])), tr.kept)
    else if tr.open.value.start == e.start then
      Track(Some(Open(e.start, tr.open.value.samples + [e.latency])), tr.kept)
    else Track(Some(Open(e.start, [e.latency])), Keep(tr.kept, tr.open.value))
  }

  function Follow(ts: seq<Tick>): Track {
    if ts == [] then Track(None, map[]) else TrackStep(Follow(ts[..|ts| - 1]), ts[|ts| - 1])
  }

  /** The state, seen from one submission, is its own track. */
  ghost predicate Mirrors(st: State, sid: string, tr: Track) {
    && (sid in st.windows <==> tr.open.Some?)
    && (tr.open.Some? ==> st.windows[sid] == tr.open.value && tr.open.value.samples != [])
    && (forall b :: (sid, b) in st.rows <==> b in tr.kept)
    && (forall b :: b in tr.kept ==> st.rows[(sid, b)] == Summary(sid, b, tr.kept[b]))
  }

  lemma OwnEvent(st: State, tr: Track, sid: string, time: int, latency: int)
    requires Mirrors(st, sid, tr)
    ensures Mirrors(Handle(st, Event(sid, time, latency)), sid, TrackStep(tr, Tick(Truncate(time), latency)))
  {
    var start := Truncate(time);
    if tr.open.Some? && tr.open.value.start != start { FlushedMirrors(st, tr, sid); }
  }

  /** Flushing the submission's window is keeping its samples. */
  lemma FlushedMirrors(st: State, tr: Track, sid: string)
    requires Mirrors(st, sid, tr) && tr.open.Some?
    ensures
      var st', kept := Flush(st, sid), Keep(tr.kept, tr.open.value);
      && (forall b :: (sid, b) in st'.rows <==> b in kept)
      && (forall b :: b in kept ==> st'.rows[(sid, b)] == Summary(sid, b, kept[b]))
  {
  }

  lemma OtherRecord(st: State, tr: Track, sid: string, r: Record)
    requires Mirrors(st, sid, tr) && !(r.Event? && r.sid == sid)
    ensures Mirrors(Handle(st, r), sid, tr)
  {
  }

  lemma {:induction false} StateMirrorsTracks(rs: seq<Record>, sid: string)
    ensures Mirrors(HandleAll(rs), sid, Follow(Of(rs, sid)))
  {
    if rs != [] {
      var n := |rs| - 1;
      var front, r := rs[..n], rs[n];
      StateMirrorsTracks(front, sid);
      if r.Event? && r.sid == sid {
        OwnEvent(HandleAll(front), Follow(Of(front, sid)), sid, r.time, r.latency);
        var t := Tick(Truncate(r.time), r.latency);
        assert (Of(front, sid) + [t])[..|Of(front, sid)|] == Of(front, sid);
      } else {
        OtherRecord(HandleAll(front), Follow(Of(front, sid)), sid, r);
      }
    }
  }

  // ---- Which samples a row is computed from ----

  ghost predicate HasBucket(ts: seq<Tick>, b: int) {
    exists k :: 0 <= k < |ts| && ts[k].start == b
  }

  /** `ts[p..q]` is the first maximal run of consecutive events in bucket `b`. */
  ghost predicate IsFirstRun(ts: seq<Tick>, b: int, p: nat, q: nat) {
    && p < q <= |ts|
    && (forall k :: 0 <= k < p ==> ts[k].start != b)
    && (forall k :: p <= k < q ==> ts[k].start == b)
    && (q < |ts| ==> ts[q].start != b)
  }

  /** Where the last run of the events starts. */
  function LastStart(ts: seq<Tick>): (i: nat)
    ensures ts != [] ==> i < |ts|
    ensures ts == [] ==> i == 0
  {
    var n := |ts|;
    if n <= 1 then 0
    else if ts[n - 1].start == ts[n - 2].start then LastStart(ts[..n - 1])
    else n - 1
  }

  lemma {:induction false} LastRun(ts: seq<Tick>)
    requires ts != []
    ensures
      var i := LastStart(ts);
      && (forall k :: i <= k < |ts| ==> ts[k].start == ts[|ts| - 1].start)
      && (i > 0 ==> ts[i - 1].start != ts[i].start)
  {
    var n := |ts|;
    if n > 1 && ts[n - 1].start == ts[n - 2].start {
      var front := ts[..n - 1];
      LastRun(front);
      forall k | LastStart(ts) <= k < n - 1 ensures ts[k].start == ts[n - 1].start { assert front[k] == ts[k]; }
    }
  }

  ghost predicate BucketsKept(kept: map<int, seq<int>>, ts: seq<Tick>) {
    forall b :: b in kept <==> HasBucket(ts, b)
  }

  ghost predicate RunsKept(kept: map<int, seq<int>>, ts: seq<Tick>) {
    forall b, p: nat, q: nat :: IsFirstRun(ts, b, p, q) && b in kept ==> kept[b] == Lat(ts[p..q])
  }

  /** What the table holds for a submission before its last run is flushed. */
  ghost predicate KeepsFirstRuns(kept: map<int, seq<int>>, ts: seq<Tick>) {
    BucketsKept(kept, ts) && RunsKept(kept, ts)
  }

  lemma BucketsOfRuns(ts: seq<Tick>, b: int)
    requires ts != []
    ensures HasBucket(ts, b) <==> HasBucket(ts[..LastStart(ts)], b) || b == ts[|ts| - 1].start
  {
    var closed := ts[..LastStart(ts)];
    LastRun(ts);
    if HasBucket(closed, b) {
      var k :| 0 <= k < |closed| && closed[k].start == b;
      assert ts[k].start == b;
    }
    if HasBucket(ts, b) && b != ts[|ts| - 1].start {
      var k :| 0 <= k < |ts| && ts[k].start == b;
      assert closed[k].start == b;
    }
    assert ts[|ts| - 1].start == b ==> HasBucket(ts, b);
  }

  lemma ClosedBuckets(kept: map<int, seq<int>>, ts: seq<Tick>)
    requires ts != [] && BucketsKept(kept, ts[..LastStart(ts)])
    ensures BucketsKept(Keep(kept, Open(ts[|ts| - 1].start, Lat(ts[LastStart(ts)..]))), ts)
  {
    var kept' := Keep(kept, Open(ts[|ts| - 1].start, Lat(ts[LastStart(ts)..])));
    forall b ensures b in kept' <==> HasBucket(ts, b) { BucketsOfRuns(ts, b); }
  }

  lemma ClosedRuns(kept: map<int, seq<int>>, ts: seq<Tick>)
    requires ts != [] && KeepsFirstRuns(kept, ts[..LastStart(ts)])
    ensures RunsKept(Keep(kept, Open(ts[|ts| - 1].start, Lat(ts[LastStart(ts)..]))), ts)
  {
    var kept' := Keep(kept, Open(ts[|ts| - 1].start, Lat(ts[LastStart(ts)..])));
    forall b, p: nat, q: nat | IsFirstRun(ts, b, p, q) && b in kept' ensures kept'[b] == Lat(ts[p..q]) {
      FirstRunClosed(kept, ts, b, p, q);
    }
  }

  /** Closing the last run of the events. */
  lemma RunClosed(kept: map<int, seq<int>>, ts: seq<Tick>)
    requires ts != [] && KeepsFirstRuns(kept, ts[..LastStart(ts)])
    ensures KeepsFirstRuns(Keep(kept, Open(ts[|ts| - 1].start, Lat(ts[LastStart(ts)..]))), ts)
  {
    ClosedBuckets(kept, ts);
    ClosedRuns(kept, ts);
  }

  /** A first run lies in front of the last run, or is the last run. */
  lemma FirstRunWhere(ts: seq<Tick>, b: int, p: nat, q: nat)
    requires ts != [] && IsFirstRun(ts, b, p, q)
    ensures
      var i := LastStart(ts);
      if p < i then q <= i else p == i && q == |ts| && b == ts[|ts| - 1].start
  {
    var i := LastStart(ts);
    LastRun(ts);
    assert ts[p].start == b;
    if p >= i { assert ts[i].start == ts[p].start; }
  }

  /** A first run that is closed already keeps its samples. */
  lemma ClosedRunKept(kept: map<int, seq<int>>, ts: seq<Tick>, i: nat, b: int, p: nat, q: nat)
    requires i <= |ts| && KeepsFirstRuns(kept, ts[..i]) && IsFirstRun(ts, b, p, q) && q <= i
    ensures b in kept && kept[b] == Lat(ts[p..q])
  {
    FirstRunInFront(ts, i, b, p, q);
  }

  lemma LastRunNotKept(kept: map<int, seq<int>>, ts: seq<Tick>, i: nat, b: int)
    requires i < |ts| && KeepsFirstRuns(kept, ts[..i]) && IsFirstRun(ts, b, i, |ts|)
    ensures b !in kept && Lat(ts[i..|ts|]) == Lat(ts[i..])
  {
    LastRunIsNew(ts, i, b);
  }

  lemma FirstRunClosed(kept: map<int, seq<int>>, ts: seq<Tick>, b: int, p: nat, q: nat)
    requires ts != [] && KeepsFirstRuns(kept, ts[..LastStart(ts)]) && IsFirstRun(ts, b, p, q)
    ensures
      var w := Open(ts[|ts| - 1].start, Lat(ts[LastStart(ts)..]));
      b in Keep(kept, w) ==> Keep(kept, w)[b] == Lat(ts[p..q])
  {
    var i := LastStart(ts);
    FirstRunWhere(ts, b, p, q);
    var w := Open(ts[|ts| - 1].start, Lat(ts[i..]));
    if p < i {
      ClosedRunKept(kept, ts, i, b, p, q);
    } else {
      LastRunNotKept(kept, ts, i, b);
      assert w.start == b && w.samples == Lat(ts[p..q]);
    }
    KeptAt(kept, w, b, Lat(ts[p..q]));
  }

  lemma KeptAt(kept: map<int, seq<int>>, w: Open, b: int, samples: seq<int>)
    requires if b in kept then kept[b] == samples else w == Open(b, samples)
    ensures b in Keep(kept, w) ==> Keep(kept, w)[b] == samples
  {
  }

  lemma FirstRunInFront(ts: seq<Tick>, i: nat, b: int, p: nat, q: nat)
    requires i <= |ts| && IsFirstRun(ts, b, p, q) && q <= i
    ensures HasBucket(ts[..i], b) && IsFirstRun(ts[..i], b, p, q) && ts[..i][p..q] == ts[p..q]
  {
    assert ts[..i][p].start == b;
  }

  lemma LastRunIsNew(ts: seq<Tick>, i: nat, b: int)
    requires i < |ts| && IsFirstRun(ts, b, i, |ts|)
    ensures !HasBucket(ts[..i], b) && ts[i..|ts|] == ts[i..]
  {
    forall k | 0 <= k < i ensures ts[..i][k].start != b { assert ts[..i][k] == ts[k]; }
  }

  lemma SplitInFront<T>(ts: seq<T>, i: nat)
    requires i < |ts|
    ensures ts[..|ts| - 1][..i] == ts[..i] && ts[i..][..|ts| - 1 - i] == ts[..|ts| - 1][i..]
  {
  }

  lemma LatLast(ts: seq<Tick>)
    requires ts != []
    ensures Lat(ts) == Lat(ts[..|ts| - 1]) + [ts[|ts| - 1].latency]
  {
  }

  lemma SameBucket(ts: seq<Tick>)
    requires |ts| > 1 && ts[|ts| - 1].start == ts[|ts| - 2].start
    ensures
      var n, i := |ts|, LastStart(ts);
      && i == LastStart(ts[..n - 1]) && ts[..n - 1][..i] == ts[..i]
      && Lat(ts[i..]) == Lat(ts[..n - 1][i..]) + [ts[n - 1].latency]
  {
    SplitInFront(ts, LastStart(ts));
    LatLast(ts[LastStart(ts)..]);
  }

  lemma NewBucket(ts: seq<Tick>)
    requires ts != [] && (|ts| > 1 ==> ts[|ts| - 1].start != ts[|ts| - 2].start)
    ensures LastStart(ts) == |ts| - 1 && Lat(ts[|ts| - 1..]) == [ts[|ts| - 1].latency]
  {
    assert ts[|ts| - 1..] == [ts[|ts| - 1]];
    assert Lat([]) == [];
  }

  ghost predicate Tracked(tr: Track, ts: seq<Tick>) {
    && tr.open == (if ts == [] then None else Some(Open(ts[|ts| - 1].start, Lat(ts[LastStart(ts)..]))))
    && KeepsFirstRuns(tr.kept, ts[..LastStart(ts)])
  }

  lemma TrackedNext(tr: Track, ts: seq<Tick>)
    requires |ts| > 1 && Tracked(tr, ts[..|ts| - 1])
    ensures Tracked(TrackStep(tr, ts[|ts| - 1]), ts)
  {
    var n := |ts|;
    var front := ts[..n - 1];
    assert front[n - 2] == ts[n - 2];
    if ts[n - 1].start == ts[n - 2].start {
      SameBucket(ts);
    } else {
      NewBucket(ts);
      RunClosed(tr.kept, front);
    }
  }

  lemma {:induction false} TrackFacts(ts: seq<Tick>)
    ensures Tracked(Follow(ts), ts)
  {
    if |ts| == 1 {
      assert ts[..0] == [];
      NewBucket(ts);
    } else if ts != [] {
      TrackFacts(ts[..|ts| - 1]);
      TrackedNext(Follow(ts[..|ts| - 1]), ts);
    }
  }

  // ---- The table in the end ----

  lemma TableMirrors(st: State, sid: string, tr: Track, b: int)
    requires Mirrors(st, sid, tr)
    ensures
      var kept := if tr.open.Some? then Keep(tr.kept, tr.open.value) else tr.kept;
      && ((sid, b) in Table(st) <==> b in kept)
      && (b in kept ==> Table(st)[(sid, b)] == Summary(sid, b, kept[b]))
  {
  }

  /** Whatever arrives in whatever order, each submission has one row per bucket it sent events of, and
      that row is computed from exactly the first maximal run of the submission's consecutive events
      in that bucket. */
  lemma RowsAreFirstRuns(rs: seq<Record>, sid: string, b: int)
    ensures
      var ts, rows := Of(rs, sid), Table(HandleAll(rs));
      && ((sid, b) in rows <==> HasBucket(ts, b))
      && forall p: nat, q: nat :: IsFirstRun(ts, b, p, q) && (sid, b) in rows ==>
           rows[(sid, b)] == Summary(sid, b, Lat(ts[p..q]))
  {
    var ts := Of(rs, sid);
    StateMirrorsTracks(rs, sid);
    TrackFacts(ts);
    TableMirrors(HandleAll(rs), sid, Follow(ts), b);
    if ts != [] {
      RunClosed(Follow(ts).kept, ts);
    } else {
      assert ts[..LastStart(ts)] == ts;
    }
  }

  // ---- Against batch aggregation ----

  /** The samples of a bucket, wherever they stand in the stream. */
  function BatchOf(ts: seq<Tick>, b: int): seq<int> {
    if ts == [] then []
    else BatchOf(ts[..|ts| - 1], b) + if ts[|ts| - 1].start == b then [ts[|ts| - 1].latency] else []
  }

  /** No event of another bucket stands between two events of bucket `b`. */
  ghost predicate Contiguous(ts: seq<Tick>, b: int) {
    forall x, y, z :: 0 <= x < y < z < |ts| && ts[x].start == b && ts[z].start == b ==> ts[y].start == b
  }

  lemma {:induction false} BatchConcat(a: seq<Tick>, c: seq<Tick>, b: int)
    ensures BatchOf(a + c, b) == BatchOf(a, b) + BatchOf(c, b)
  {
    if c == [] {
      assert a + c == a;
    } else {
      assert (a + c)[..|a| + |c| - 1] == a + c[..|c| - 1];
      BatchConcat(a, c[..|c| - 1], b);
    }
  }

  lemma {:induction false} BatchOfOther(ts: seq<Tick>, b: int)
    ensures BatchOf(ts, b) == [] <==> !HasBucket(ts, b)
  {
    if ts != [] {
      var n := |ts| - 1;
      BatchOfOther(ts[..n], b);
      if HasBucket(ts[..n], b) {
        var k :| 0 <= k < n && ts[..n][k].start == b;
        assert ts[k].start == b;
      }
      if HasBucket(ts, b) && ts[n].start != b {
        var k :| 0 <= k < |ts| && ts[k].start == b;
        assert ts[..n][k].start == b;
      }
    }
  }

  lemma {:induction false} BatchOfSame(ts: seq<Tick>, b: int)
    requires forall k :: 0 <= k < |ts| ==> ts[k].start == b
    ensures BatchOf(ts, b) == Lat(ts)
  {
    if ts != [] { BatchOfSame(ts[..|ts| - 1], b); }
  }

  lemma {:induction false} FirstRunExists(ts: seq<Tick>, b: int) returns (p: nat, q: nat)
    requires HasBucket(ts, b)
    ensures IsFirstRun(ts, b, p, q)
  {
    p := 0;
    while ts[p].start != b
      invariant p < |ts| && forall k :: 0 <= k < p ==> ts[k].start != b
      decreases |ts| - p
    {
      var k :| 0 <= k < |ts| && ts[k].start == b;
      p := p + 1;
    }
    q := p + 1;
    while q < |ts| && ts[q].start == b
      invariant p < q <= |ts| && forall k :: p <= k < q ==> ts[k].start == b
    {
      q := q + 1;
    }
  }

  lemma BatchAroundRun(ts: seq<Tick>, b: int, p: nat, q: nat)
    requires IsFirstRun(ts, b, p, q)
    ensures BatchOf(ts, b) == Lat(ts[p..q]) + BatchOf(ts[q..], b)
  {
    assert ts == ts[..p] + (ts[p..q] + ts[q..]);
    BatchConcat(ts[..p], ts[p..q] + ts[q..], b);
    BatchConcat(ts[p..q], ts[q..], b);
    BatchOfOther(ts[..p], b);
    BatchOfSame(ts[p..q], b);
  }

  lemma NoneBehindRun(ts: seq<Tick>, b: int, p: nat, q: nat)
    requires IsFirstRun(ts, b, p, q)
    ensures Contiguous(ts, b) <==> BatchOf(ts[q..], b) == []
  {
    BatchOfOther(ts[q..], b);
    if HasBucket(ts[q..], b) {
      var k :| 0 <= k < |ts[q..]| && ts[q..][k].start == b;
      assert ts[p].start == b && ts[q].start != b && ts[q + k].start == b;
    } else {
      forall z | q <= z < |ts| ensures ts[z].start != b { assert ts[q..][z - q] == ts[z]; }
    }
  }

  /** A row is what a batch group-by computes if and only if the submission's events of that bucket
      arrive without an event of another bucket in between; otherwise it lacks samples. */
  lemma StreamingIsBatch(rs: seq<Record>, sid: string, b: int)
    requires HasBucket(Of(rs, sid), b)
    ensures
      var ts, rows := Of(rs, sid), Table(HandleAll(rs));
      && (sid, b) in rows
      && (rows[(sid, b)] == Summary(sid, b, BatchOf(ts, b)) <==> Contiguous(ts, b))
      && rows[(sid, b)].n <= |BatchOf(ts, b)|
  {
    var ts := Of(rs, sid);
    RowsAreFirstRuns(rs, sid, b);
    var p, q := FirstRunExists(ts, b);
    BatchAroundRun(ts, b, p, q);
    NoneBehindRun(ts, b, p, q);
    assert BatchOf(ts[q..], b) == [] ==> BatchOf(ts, b) == Lat(ts[p..q]);
  }

  /** The submission's timestamps never decrease. */
  ghost predicate InOrder(rs: seq<Record>, sid: string) {
    forall i, j :: 0 <= i < j < |rs| && rs[i].Event? && rs[j].Event? && rs[i].sid == sid && rs[j].sid == sid ==>
      rs[i].time <= rs[j].time
  }

  lemma TruncateMonotone(a: int, b: int)
    requires a <= b
    ensures Truncate(a) <= Truncate(b)
  {
  }

  lemma {:induction false} TicksUpTo(rs: seq<Record>, sid: string, t: int)
    requires forall i :: 0 <= i < |rs| && rs[i].Event? && rs[i].sid == sid ==> rs[i].time <= t
    ensures forall k :: 0 <= k < |Of(rs, sid)| ==> Of(rs, sid)[k].start <= Truncate(t)
  {
    if rs != [] {
      var r := rs[|rs| - 1];
      TicksUpTo(rs[..|rs| - 1], sid, t);
      if r.Event? && r.sid == sid { TruncateMonotone(r.time, t); }
    }
  }

  lemma {:induction false} TicksInOrder(rs: seq<Record>, sid: string)
    requires InOrder(rs, sid)
    ensures forall x, y :: 0 <= x < y < |Of(rs, sid)| ==> Of(rs, sid)[x].start <= Of(rs, sid)[y].start
  {
    if rs != [] {
      var n := |rs| - 1;
      TicksInOrder(rs[..n], sid);
      if rs[n].Event? && rs[n].sid == sid { TicksUpTo(rs[..n], sid, rs[n].time); }
    }
  }

  /** With timestamps in order no sample is lost: every row is the batch group-by's. */
  lemma OrderedIsBatch(rs: seq<Record>, sid: string)
    requires InOrder(rs, sid)
    ensures
      var ts, rows := Of(rs, sid), Table(HandleAll(rs));
      forall b :: if BatchOf(ts, b) == [] then (sid, b) !in rows
                  else (sid, b) in rows && rows[(sid, b)] == Summary(sid, b, BatchOf(ts, b))
  {
    var ts, rows := Of(rs, sid), Table(HandleAll(rs));
    TicksInOrder(rs, sid);
    forall b ensures if BatchOf(ts, b) == [] then (sid, b) !in rows
                     else (sid, b) in rows && rows[(sid, b)] == Summary(sid, b, BatchOf(ts, b))
    {
      RowsAreFirstRuns(rs, sid, b);
      BatchOfOther(ts, b);
      if HasBucket(ts, b) { StreamingIsBatch(rs, sid, b); }
    }
  }

  /** Three events of one submission. */
  function Three(t0: int, t1: int, t2: int): seq<Record> {
    [Event("s", t0, 7), Event("s", t1, 8), Event("s", t2, 9)]
  }

  lemma OfThree(t0: int, t1: int, t2: int)
    ensures Of(Three(t0, t1, t2), "s") == [Tick(Truncate(t0), 7), Tick(Truncate(t1), 8), Tick(Truncate(t2), 9)]
  {
    var rs := Three(t0, t1, t2);
    assert rs[..2] == [rs[0], rs[1]] && [rs[0], rs[1]][..1] == [rs[0]] && [rs[0]][..0] == [];
    assert Of([rs[0]], "s") == [Tick(Truncate(t0), 7)];
    assert Of([rs[0], rs[1]], "s") == [Tick(Truncate(t0), 7), Tick(Truncate(t1), 8)];
  }

  lemma BatchOfLate(ts: seq<Tick>)
    requires ts == [Tick(0, 7), Tick(WINDOW, 8), Tick(0, 9)]
    ensures BatchOf(ts, 0) == [7, 9] && Lat(ts[0..1]) == [7]
  {
    assert ts[..2] == [Tick(0, 7), Tick(WINDOW, 8)] && ts[..2][..1] == [Tick(0, 7)] && ts[..2][..1][..0] == [];
    assert BatchOf(ts[..2][..1], 0) == [7];
    assert BatchOf(ts[..2], 0) == [7];
    assert ts[0..1] == [Tick(0, 7)] && [Tick(0, 7)][..0] == [];
  }

  /** One late event loses its sample: its bucket was closed before, and the row is kept as it was. */
  lemma LateSampleIsLost()
    ensures
      var rs := Three(0, WINDOW, 1);
      && BatchOf(Of(rs, "s"), 0) == [7, 9]
      && ("s", 0) in Table(HandleAll(rs)) && Table(HandleAll(rs))[("s", 0)] == Summary("s", 0, [7])
  {
    var rs := Three(0, WINDOW, 1);
    OfThree(0, WINDOW, 1);
    var ts := Of(rs, "s");
    BatchOfLate(ts);
    assert IsFirstRun(ts, 0, 0, 1);
    assert ts[0].start == 0;
    RowsAreFirstRuns(rs, "s", 0);
  }

  // ---- The percentiles of a row ----

  /** Over exact reals the consumer's nearest rank is the bots' integer one. */
  lemma RanksAgree(n: nat, pct: int)
    requires n > 0 && 0 <= pct <= 100
    ensures Ceil(pct as real / 100.0 * n as real) == (pct * n + 99) / 100
  {
    var m := pct * n;
    var k := (m + 99) / 100;
    assert 100 * (k - 1) < m <= 100 * k;
    assert pct as real / 100.0 * n as real == m as real / 100.0;
    assert (k - 1) as real < m as real / 100.0 <= k as real;
  }

  lemma PercentilesAgree(s: seq<int>, pct: int)
    requires s != [] && 0 <= pct <= 100
    ensures Percentile(s, pct as real / 100.0) == Stats.PercentileValue(s, pct)
  {
    RanksAgree(|s|, pct);
    Stats.RankBounds(|s|, pct);
  }

  /** `q` is `a / b` without its fraction. */
  ghost predicate IsQuotient(a: int, b: int, q: int) {
    if a >= 0 then 0 <= q && q * b <= a < q * b + b else q <= 0 && q * b - b < a <= q * b
  }

  lemma QuotientIs(a: int, b: int)
    requires b > 0
    ensures IsQuotient(a, b, Quotient(a, b))
  {
    var x := if a >= 0 then a else -a;
    var k := x / b;
    assert x == b * k + x % b;
    QuotientFrom(a, b, k, x % b);
  }

  lemma {:induction false} NegativeProduct(b: int, k: int)
    requires b > 0
    ensures k < 0 ==> b * k <= -b
    decreases -k
  {
    if k < -1 {
      NegativeProduct(b, k + 1);
      assert b * k == b * (k + 1) - b;
    }
  }

  lemma QuotientFrom(a: int, b: int, k: int, m: int)
    requires b > 0 && 0 <= m < b && (if a >= 0 then a else -a) == b * k + m
    ensures IsQuotient(a, b, if a >= 0 then k else -k)
  {
    NegativeProduct(b, k);
    assert (-k) * b == -(b * k) && k * b == b * k;
  }

  /** A row's mean is that of its samples, without the fraction; its rate spreads them over five seconds. */
  lemma RowFigures(sid: string, start: int, samples: seq<int>)
    requires samples != []
    ensures
      var r := Summary(sid, start, samples);
      IsQuotient(Sum(samples), |samples|, r.mean) && 5.0 * r.tps == |samples| as real && r.n == |samples|
  {
    QuotientIs(Sum(samples), |samples|);
  }

  /** A row's percentiles are those of its samples, between its minimum and its maximum. */
  lemma RowIsSound(sid: string, start: int, samples: seq<int>)
    requires samples != []
    ensures
      var r := Summary(sid, start, samples);
      && Stats.IsPercentile(samples, 50, r.p50) && Stats.IsPercentile(samples, 90, r.p90)
      && Stats.IsPercentile(samples, 99, r.p99) && r.min <= r.p50 <= r.p90 <= r.p99 <= r.max
      && r.min in samples && r.max in samples && forall x :: x in samples ==> r.min <= x <= r.max
  {
    var s := Stats.SortNumbers(samples);
    Stats.SortedNumbers(samples);
    Sorting.MultisetMembers(s, samples);
    PercentilesAgree(s, 50);
    PercentilesAgree(s, 90);
    PercentilesAgree(s, 99);
    Stats.LatencyPercentile(samples, 50);
    Stats.LatencyPercentile(samples, 90);
    Stats.LatencyPercentile(samples, 99);
    var r := Summary(sid, start, samples);
    assert 0.50 == 50 as real / 100.0 && 0.90 == 90 as real / 100.0 && 0.99 == 99 as real / 100.0;
    Stats.PercentilesAreOrdered(samples, 50, 90, r.p50, r.p90);
    Stats.PercentilesAreOrdered(samples, 90, 99, r.p90, r.p99);
    forall x | x in samples ensures r.min <= x <= r.max {
      assert x in s;
      Stats.FirstIsLeast(s, x);
      LastIsGreatest(s, x);
    }
  }

  lemma LastIsGreatest(s: seq<int>, x: int)
    requires Stats.Ascending(s) && x in s
    ensures x <= s[|s| - 1]
  {
    var i :| 0 <= i < |s| && s[i] == x;
    assert i < |s| - 1 ==> s[i] <= s[|s| - 1];
  }
}
