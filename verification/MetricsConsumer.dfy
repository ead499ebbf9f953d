/** The metrics consumer as it is written: an accumulator object per open window, replaced when its
    bucket ends, and a table that rejects duplicate rows. */
module MetricsConsumer {
  import opened LatencyWindows
  import Sorting
  import Stats

  lemma {:induction false} SumConcat(a: seq<int>, b: seq<int>)
    ensures Sum(a + b) == Sum(a) + Sum(b)
  {
    if b == [] {
      assert a + b == a;
    } else {
      assert (a + b)[..|a| + |b| - 1] == a + b[..|b| - 1];
      SumConcat(a, b[..|b| - 1]);
    }
  }

  lemma {:induction false} SumPermuted(a: seq<int>, b: seq<int>)
    requires multiset(a) == multiset(b)
    ensures Sum(a) == Sum(b)
  {
    if a == [] {
      assert |multiset(b)| == 0;
    } else {
      assert a[0] in multiset(b);
      var i :| 0 <= i < |b| && b[i] == a[0];
      Sorting.RemovedFromBoth(a, b, i);
      SumPermuted(a[1..], b[..i] + b[i + 1..]);
      assert a == [a[0]] + a[1..] && b == b[..i] + ([b[i]] + b[i + 1..]);
      SumConcat([a[0]], a[1..]);
      SumConcat(b[..i], [b[i]] + b[i + 1..]);
      SumConcat([b[i]], b[i + 1..]);
      SumConcat(b[..i], b[i + 1..]);
    }
  }

  /** The arithmetic mean, as the loop computes it. */
  method Mean(samples: seq<int>) returns (m: int)
    ensures m == if samples == [] then 0 else Quotient(Sum(samples), |samples|)
  {
    if |samples| == 0 {
      return 0;
    }
    var sum, i := 0, 0;
    while i < |samples|
      invariant 0 <= i <= |samples| && sum == Sum(samples[..i])
    {
      assert samples[..i + 1][..i] == samples[..i];
      sum := sum + samples[i];
      i := i + 1;
    }
    assert samples[..i] == samples;
    m := Quotient(sum, |samples|);
  }

  class Accumulator {
    const submissionId: string
    const windowStart: int
    var samples: seq<int>

    constructor (submissionId: string, windowStart: int)
      ensures this.submissionId == submissionId && this.windowStart == windowStart && samples == []
    {
      this.submissionId, this.windowStart, samples := submissionId, windowStart, [];
    }

    method Add(latency: int)
      modifies this
      ensures samples == old(samples) + [latency]
    {
      samples := samples + [latency];
    }

    /** Sorts the samples in place and summarizes them. */
    method Compute() returns (w: Row)
      modifies this
      ensures w == Summary(submissionId, windowStart, old(samples))
      ensures samples == Stats.SortNumbers(old(samples))
    {
      Stats.SortedNumbers(samples);
      if |samples| == 0 {
        return Row(submissionId, windowStart, 0, 0, 0, 0, 0, 0, 0.0, 0);
      }
      SumPermuted(Stats.SortNumbers(samples), samples);
      samples := Stats.SortNumbers(samples);
      var mean := Mean(samples);
      w := Row(submissionId, windowStart, Percentile(samples, 0.50), Percentile(samples, 0.90),
               Percentile(samples, 0.99), samples[0], samples[|samples| - 1], mean, |samples| as real / 5.0, |samples|);
    }
  }

  datatype WindowState = WindowState(acc: Accumulator, bucketStart: int)

  class Consumer {
    var windows: map<string, WindowState>
    var rows: map<(string, int), Row>
    /** The state as plain values. */
    ghost var state: State

    ghost function Accumulators(): set<Accumulator>
      reads this
    {
      set sid | sid in windows :: windows[sid].acc
    }

    ghost predicate Valid()
      reads this, Accumulators()
    {
      && state.rows == rows && state.windows.Keys == windows.Keys
      && forall sid :: sid in windows ==>
           && windows[sid].acc.submissionId == sid && windows[sid].acc.windowStart == windows[sid].bucketStart
           && state.windows[sid] == Open(windows[sid].bucketStart, windows[sid].acc.samples)
    }

    constructor ()
      ensures Valid() && state == START && windows == map[]
    {
      windows, rows := map[], map[];
      state := START;
    }

    /** Inserts a row unless it is empty or its key is taken. */
    method WriteWindow(w: Row)
      modifies this`rows
      ensures rows == Write(old(rows), w)
    {
      if w.n == 0 {
        return;
      }
      if (w.sid, w.start) !in rows {
        rows := rows[(w.sid, w.start) := w];
      }
    }

    method FlushWindow(sid: string)
      requires Valid() && sid in windows
      modifies this, windows[sid].acc
      ensures Valid() && state == Flush(old(state), sid)
      ensures windows == old(windows) - {sid}
    {
      var w := windows[sid].acc.Compute();
      WriteWindow(w);
      windows := windows - {sid};
      state := Flush(state, sid);
    }

    /** Puts a fresh accumulator in the submission's place. */
    method OpenWindow(sid: string, bucket: int)
      requires Valid()
      modifies this`windows, this`state
      ensures Valid() && state == old(state).(windows := old(state).windows[sid := Open(bucket, [])])
      ensures sid in windows && fresh(windows[sid].acc) && windows == old(windows)[sid := windows[sid]]
      ensures rows == old(rows)
    {
      var acc := new Accumulator(sid, bucket);
      windows := windows[sid := WindowState(acc, bucket)];
      state := state.(windows := state.windows[sid := Open(bucket, [])]);
    }

    method AddSample(sid: string, latency: int)
      requires Valid() && sid in windows
      modifies this`state, windows[sid].acc
      ensures Valid()
      ensures
        var w := old(state).windows[sid];
        state == old(state).(windows := old(state).windows[sid := Open(w.start, w.samples + [latency])])
    {
      forall s | s in windows && s != sid ensures windows[s].acc != windows[sid].acc {}
      windows[sid].acc.Add(latency);
      var w := windows[sid];
      state := state.(windows := state.windows[sid := Open(w.bucketStart, w.acc.samples)]);
    }

    /** Leaves the submission with an open window for the bucket. */
    method EnsureWindow(sid: string, bucket: int)
      requires Valid()
      modifies this, Accumulators()
      ensures Valid() && state == Opened(old(state), sid, bucket) && sid in windows
      ensures forall a :: a in Accumulators() ==> a in old(Accumulators()) || fresh(a)
    {
      if sid !in windows {
        OpenWindow(sid, bucket);
      }
      if bucket != windows[sid].bucketStart {
        FlushWindow(sid);
        OpenWindow(sid, bucket);
      }
    }

    method HandleRecord(r: Record)
      requires Valid()
      modifies this, Accumulators()
      ensures Valid() && state == Handle(old(state), r)
      ensures forall a :: a in Accumulators() ==> a in old(Accumulators()) || fresh(a)
    {
      match r
      case Malformed =>
      case Heartbeat(_) =>
      case Event(sid, time, latency) =>
        EnsureWindow(sid, Truncate(time));
        AddSample(sid, latency);
    }

    /** Flushes every open window, in whatever order the map yields them. */
    method FlushAll()
      requires Valid()
      modifies this, Accumulators()
      ensures Valid() && windows == map[] && rows == Table(old(state))
    {
      ghost var table := Table(state);
      while windows.Keys != {}
        invariant Valid() && Table(state) == table
        invariant windows.Keys <= old(windows.Keys)
        invariant forall sid :: sid in windows ==> windows[sid] == old(windows)[sid]
        decreases |windows.Keys|
      {
        var sid :| sid in windows.Keys;
        FlushKeepsTable(state, sid);
        assert windows[sid].acc in old(Accumulators());
        FlushWindow(sid);
      }
      assert windows == map[];
      NothingOpen(state);
    }
  }

  lemma FlushKeepsTable(st: State, sid: string)
    requires sid in st.windows
    ensures Table(Flush(st, sid)) == Table(st)
  {
    var st' := Flush(st, sid);
    forall k ensures (k in Table(st') <==> k in Table(st)) && (k in Table(st) ==> Table(st')[k] == Table(st)[k]) {
      InTable(st, k);
      InTable(st', k);
      FlushedRow(st, sid, k);
    }
  }

  /** The row of a submission and bucket: written, or about to be. */
  ghost predicate RowAt(st: State, k: (string, int)) {
    k in st.rows || (k.0 in st.windows && st.windows[k.0].samples != [] && st.windows[k.0].start == k.1)
  }

  lemma InTable(st: State, k: (string, int))
    ensures k in Table(st) <==> RowAt(st, k)
    ensures k in Table(st) ==>
      Table(st)[k] == if k in st.rows then st.rows[k] else Summary(k.0, k.1, st.windows[k.0].samples)
  {
    assert k == (k.0, k.1);
  }

  lemma FlushedRow(st: State, sid: string, k: (string, int))
    requires sid in st.windows
    ensures
      var st' := Flush(st, sid);
      && (RowAt(st', k) <==> RowAt(st, k))
      && (RowAt(st, k) ==>
            (if k in st'.rows then st'.rows[k] else Summary(k.0, k.1, st'.windows[k.0].samples))
            == if k in st.rows then st.rows[k] else Summary(k.0, k.1, st.windows[k.0].samples))
  {
    assert k == (k.0, k.1);
  }

  lemma NothingOpen(st: State)
    requires st.windows.Keys == {}
    ensures Table(st) == st.rows
  {
  }

  /** Consumes a whole stream and shuts down: the table holds, for each submission and bucket, the
      summary of the first maximal run of that submission's events in that bucket. */
  method Consume(rs: seq<Record>) returns (rows: map<(string, int), Row>)
    ensures rows == Table(HandleAll(rs))
    ensures forall sid, b ::
      && ((sid, b) in rows <==> HasBucket(Of(rs, sid), b))
      && forall p: nat, q: nat :: IsFirstRun(Of(rs, sid), b, p, q) && (sid, b) in rows ==>
           rows[(sid, b)] == Summary(sid, b, Lat(Of(rs, sid)[p..q]))
  {
    var c := new Consumer();
    var i := 0;
    while i < |rs|
      invariant 0 <= i <= |rs| && c.Valid() && c.state == HandleAll(rs[..i]) && fresh(c)
      invariant forall a :: a in c.Accumulators() ==> fresh(a)
    {
      assert rs[..i + 1][..i] == rs[..i];
      c.HandleRecord(rs[i]);
      i := i + 1;
    }
    assert rs[..i] == rs;
    c.FlushAll();
    rows := c.rows;
    forall sid, b { RowsAreFirstRuns(rs, sid, b); }
  }
}
