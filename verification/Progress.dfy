/** Progress under crashes: which submissions come to a terminal status once the queues are drained, and
    which moves of a run decide that a submission never will. */
module Progress {
  import opened ProfileChain
  import opened CrashFreeChain
  import opened Redelivery
  import W = Worker

  /** The worker is past the guard of the submission's job and has not reached the commit. */
  predicate Handles(l: Local, sid: string) {
    l.Working? && !l.pc.Commit? && l.job.sid == sid
  }

  predicate MidRun(s: Status) { s == Deploying || s == Benchmarking }

  /** In the middle of a run that no worker is executing. */
  ghost predicate Stranded(w: World, sid: string) {
    && sid in w.store && MidRun(w.store[sid].status)
    && forall k :: 0 <= k < |w.parts| ==> !Handles(w.parts[k].local, sid)
  }

  /** Saved, and neither will it be dispatched nor was it. */
  ghost predicate Orphaned(w: World, sid: string) {
    Abandoned(w, sid) && w.store[sid].status == Pending
  }

  /** A worker crashes on the submission while it is deploying or benchmarking. */
  predicate Strikes(w: World, m: Move, sid: string) {
    && m.Crash? && m.part < |w.parts| && Handles(w.parts[m.part].local, sid)
    && sid in w.store && MidRun(w.store[sid].status)
  }

  /** The control plane dies between saving the submission and enqueueing its first job. */
  predicate Dies(w: World, m: Move, sid: string) {
    m.IngestDies? && m.sid == sid && sid in w.ingesting
  }

  // ---- What strands a submission ----

  /** A worker reaches the commit only past the write that ends the run. */
  lemma HandlerStep(st: Store, p: Partition)
    requires CanAdvance(st, p) && p.local.Working? && !p.local.pc.Commit?
    ensures
      var (st', p') := Advance(st, p);
      var sid := p.local.job.sid;
      sid in st' && (Handles(p'.local, sid) || !MidRun(st'[sid].status))
  {
    var (st', p') := Advance(st, p);
    if p.local.pc.WriteOutcome? || p.local.pc.WriteFailed? {
      assert st' == Save(st, Written(st, p.local).value);
    } else {
      AdvanceEvolves(st, p);
      assert p'.local.Working? && !p'.local.pc.Commit? && p'.local.job == p.local.job;
    }
  }

  /** A guard and a commit write nothing, and no guard lets a run in the middle go on. */
  lemma IdleStep(st: Store, p: Partition)
    requires CanAdvance(st, p) && !p.local.Idle? && (p.local.Working? ==> p.local.pc.Commit?)
    ensures
      var (st', p') := Advance(st, p);
      var sid := p.local.job.sid;
      st' == st && sid in st && (MidRun(st[sid].status) ==> !Handles(p'.local, sid))
  {
  }

  /** One worker step on the submission's own job neither strands it nor saves it. */
  lemma OwnStepStrands(st: Store, p: Partition)
    requires CanAdvance(st, p) && !p.local.Idle?
    ensures
      var (st', p') := Advance(st, p);
      var sid := p.local.job.sid;
      && sid in st' && (Handles(p.local, sid) ==> Handles(p'.local, sid) || !MidRun(st'[sid].status))
      && (!Handles(p.local, sid) ==>
            st' == st && (MidRun(st[sid].status) ==> !Handles(p'.local, sid)))
  {
    if Handles(p.local, p.local.job.sid) { HandlerStep(st, p); } else { IdleStep(st, p); }
  }

  lemma WorkStrands(w: World, part: nat, sid: string)
    requires Inv(w) && part < |w.parts|
    ensures Stranded(Next(w, Work(part)), sid) <==> Stranded(w, sid)
    ensures Stranded(w, sid) ==> Next(w, Work(part)).store[sid] == w.store[sid]
  {
    assert PartOk(w, part);
    var p, w' := w.parts[part], Next(w, Work(part));
    AdvanceEvolves(w.store, p);
    AdvanceKeepsJob(w.store, p);
    assert forall k :: 0 <= k < |w.parts| && k != part ==> w'.parts[k] == w.parts[k];
    if !p.local.Idle? && p.local.job.sid == sid {
      OwnStepStrands(w.store, p);
      assert w'.parts[part] == Advance(w.store, p).1;
    }
  }

  lemma CrashStrands(w: World, part: nat, sid: string)
    requires Inv(w) && part < |w.parts|
    ensures Stranded(Next(w, Crash(part)), sid) <==> Stranded(w, sid) || Strikes(w, Crash(part), sid)
  {
    var w' := Next(w, Crash(part));
    assert forall k :: 0 <= k < |w.parts| && k != part ==> w'.parts[k] == w.parts[k];
    if Strikes(w, Crash(part), sid) {
      assert PartOk(w, part);
      forall k | 0 <= k < |w'.parts| ensures !Handles(w'.parts[k].local, sid) {
        if k != part { assert PartOk(w, k); }
      }
    }
  }

  lemma OthersStrand(w: World, m: Move, sid: string)
    requires Inv(w) && !m.Work? && !m.Crash?
    ensures Stranded(Next(w, m), sid) <==> Stranded(w, sid)
    ensures Stranded(w, sid) ==> Next(w, m).store[sid] == w.store[sid]
  {
    var w' := Next(w, m);
    assert forall k :: 0 <= k < |w.parts| ==> Handles(w'.parts[k].local, sid) == Handles(w.parts[k].local, sid);
  }

  /** Of all moves exactly such a crash strands a submission, nothing brings it back, and nothing changes it
      any more. */
  lemma StrandedStep(w: World, m: Move, sid: string)
    requires Inv(w)
    ensures Stranded(Next(w, m), sid) <==> Stranded(w, sid) || Strikes(w, m, sid)
    ensures Stranded(w, sid) ==> Next(w, m).store[sid] == w.store[sid]
  {
    match m
    case Work(part) => if part < |w.parts| { WorkStrands(w, part, sid); }
    case Crash(part) => if part < |w.parts| { CrashStrands(w, part, sid); }
    case _ => OthersStrand(w, m, sid);
  }

  /** Some crash of the run struck the submission while it was deploying or benchmarking. */
  ghost predicate Struck(w: World, ms: seq<Move>, sid: string)
    decreases |ms|
  {
    ms != [] && (Strikes(w, ms[0], sid) || Struck(Next(w, ms[0]), ms[1..], sid))
  }

  lemma {:induction false} StrandedIffStruck(w: World, ms: seq<Move>, sid: string)
    requires Inv(w)
    ensures Stranded(Run(w, ms), sid) <==> Stranded(w, sid) || Struck(w, ms, sid)
    ensures Stranded(w, sid) ==> Run(w, ms).store[sid] == w.store[sid]
    decreases |ms|
  {
    if ms != [] {
      NextKeepsInv(w, ms[0]);
      StrandedStep(w, ms[0], sid);
      StrandedIffStruck(Next(w, ms[0]), ms[1..], sid);
    }
  }

  // ---- Where the next job is ----

  /** A job of the submission waits behind the one being worked on. */
  ghost predicate Follows(p: Partition, sid: string) {
    exists i :: 0 <= p.committed < i < |p.log| && p.log[i].sid == sid
  }

  /** A worker that is about to leave its submission running, or has done so, enqueued the next job. */
  ghost predicate ChainGoesOn(st: Store, p: Partition) {
    p.local.Working? && p.local.job.sid in st
    && (if p.local.pc.Commit? then st[p.local.job.sid].status == Running
        else p.local.pc.WriteOutcome? && p.local.job.remaining != [])
    ==> Follows(p, p.local.job.sid)
  }

  /** A submission between two profiles has a job waiting for it. */
  ghost predicate RunningWaits(w: World, sid: string) {
    sid in w.store && w.store[sid].status == Running ==>
      exists k :: 0 <= k < |w.parts| && !NoneWaiting(w.parts[k], sid)
  }

  ghost predicate Alive(w: World) {
    && Inv(w)
    && (forall k :: 0 <= k < |w.parts| ==> ChainGoesOn(w.store, w.parts[k]))
    && forall sid :: sid in w.store ==> RunningWaits(w, sid)
  }

  lemma EnqueueFollows(st: Store, p: Partition)
    requires CanAdvance(st, p) && Enqueues(p.local)
    ensures Follows(Advance(st, p).1, p.local.job.sid)
  {
    assert Advance(st, p).1.log[|p.log|].sid == p.local.job.sid;
  }

  lemma StepGoesOn(st: Store, p: Partition)
    requires CanAdvance(st, p) && ChainGoesOn(st, p)
    ensures ChainGoesOn(Advance(st, p).0, Advance(st, p).1)
  {
    if Enqueues(p.local) { EnqueueFollows(st, p); }
  }

  /** As long as a worker's submission is pending or running, one of its jobs waits. */
  lemma StepWaits(st: Store, p: Partition)
    requires CanAdvance(st, p) && ChainGoesOn(st, p) && !p.local.Idle?
    ensures
      var (st', p') := Advance(st, p);
      var sid := p.local.job.sid;
      sid in st' && (st'[sid].status == Pending || st'[sid].status == Running ==> !NoneWaiting(p', sid))
  {
    AdvanceEvolves(st, p);
    var p', sid := Advance(st, p).1, p.local.job.sid;
    if p.local.Working? && p.local.pc.Commit? {
      if st[sid].status == Running {
        var i :| p.committed < i < |p.log| && p.log[i].sid == sid;
        assert p'.log[i].sid == sid && p'.committed <= i;
      }
    } else {
      assert p'.committed == p.committed && p'.log[p.committed] == p.log[p.committed];
    }
  }

  lemma WorkStaysAlive(w: World, part: nat)
    requires Alive(w) && part < |w.parts|
    ensures Alive(Next(w, Work(part)))
  {
    assert PartOk(w, part);
    var p, w' := w.parts[part], Next(w, Work(part));
    WorkKeepsInv(w, part);
    AdvanceEvolves(w.store, p);
    StepGoesOn(w.store, p);
    forall k | 0 <= k < |w'.parts| ensures ChainGoesOn(w'.store, w'.parts[k]) {
      if k != part { assert PartOk(w, k) && w'.parts[k] == w.parts[k] && ChainGoesOn(w.store, w.parts[k]); }
    }
    forall sid | sid in w'.store ensures RunningWaits(w', sid) {
      RunningWaitsOn(w, part, sid);
    }
  }

  lemma RunningWaitsOn(w: World, part: nat, sid: string)
    requires Alive(w) && part < |w.parts| && sid in w.store
    ensures RunningWaits(Next(w, Work(part)), sid)
  {
    assert PartOk(w, part);
    var p, w' := w.parts[part], Next(w, Work(part));
    AdvanceEvolves(w.store, p);
    if !p.local.Idle? && p.local.job.sid == sid {
      StepWaits(w.store, p);
      assert w'.parts[part] == Advance(w.store, p).1;
    } else if w.store[sid].status == Running {
      assert RunningWaits(w, sid);
      var k :| 0 <= k < |w.parts| && !NoneWaiting(w.parts[k], sid);
      if k == part { OthersWaitOn(w.store, p, sid); } else { assert w'.parts[k] == w.parts[k]; }
      assert !NoneWaiting(w'.parts[k], sid);
    }
  }

  /** A step on another submission's job takes no job of `sid` out of the log, and puts none in. */
  lemma OthersWaitOn(st: Store, p: Partition, sid: string)
    requires p.committed <= |p.log|
    requires !p.local.Idle? ==> p.committed < |p.log| && p.local.job == p.log[p.committed] && p.local.job.sid != sid
    ensures NoneWaiting(Advance(st, p).1, sid) <==> NoneWaiting(p, sid)
  {
    var p' := Advance(st, p).1;
    assert p.log <= p'.log && p.committed <= p'.committed <= p.committed + 1;
    assert p'.committed == p.committed + 1 ==> p.log[p.committed].sid != sid;
    forall i | p.committed <= i < |p.log| && p.log[i].sid == sid ensures p'.committed <= i && p'.log[i].sid == sid {
    }
    forall i | p'.committed <= i < |p'.log| && p'.log[i].sid == sid ensures i < |p.log| && p.log[i].sid == sid {
    }
  }

  /** A log that only grew still holds the jobs it held. */
  lemma GrownLog(p: Partition, q: Partition, sid: string)
    requires q.committed == p.committed && p.log <= q.log
    ensures NoneWaiting(q, sid) ==> NoneWaiting(p, sid)
    ensures Follows(p, sid) ==> Follows(q, sid)
  {
    forall i | p.committed <= i < |p.log| ensures p.log[i] == q.log[i] {}
  }

  /** Apart from a worker's steps, logs only grow and no submission starts to run. */
  lemma OthersKeepLogs(w: World, m: Move)
    requires Inv(w) && !m.Work?
    ensures
      var w' := Next(w, m);
      && |w'.parts| == |w.parts| && w.store.Keys <= w'.store.Keys
      && (forall k :: 0 <= k < |w.parts| ==>
            var p, q := w.parts[k], w'.parts[k];
            q.committed == p.committed && p.log <= q.log && (q.local == p.local || !q.local.Working?))
      && (forall sid :: sid in w'.store && w'.store[sid].status == Running ==>
            sid in w.store && w.store[sid].status == Running)
  {
  }

  lemma OthersStayAlive(w: World, m: Move)
    requires Alive(w) && !m.Work?
    ensures Alive(Next(w, m))
  {
    NextKeepsInv(w, m);
    OthersKeepLogs(w, m);
    var w' := Next(w, m);
    forall k | 0 <= k < |w'.parts| ensures ChainGoesOn(w'.store, w'.parts[k]) {
      GoesOnUnchanged(w, w', k);
    }
    forall sid | sid in w'.store ensures RunningWaits(w', sid) {
      WaitsUnchanged(w, w', sid);
    }
  }

  lemma GoesOnUnchanged(w: World, w': World, k: nat)
    requires Alive(w) && k < |w.parts| == |w'.parts|
    requires w'.parts[k].committed == w.parts[k].committed && w.parts[k].log <= w'.parts[k].log
    requires w'.parts[k].local == w.parts[k].local || !w'.parts[k].local.Working?
    requires forall sid :: sid in w'.store && w'.store[sid].status == Running ==>
               sid in w.store && w.store[sid].status == Running
    ensures ChainGoesOn(w'.store, w'.parts[k])
  {
    assert PartOk(w, k) && ChainGoesOn(w.store, w.parts[k]);
    var p, q := w.parts[k], w'.parts[k];
    if q.local.Working? { GrownLog(p, q, q.local.job.sid); }
  }

  lemma WaitsUnchanged(w: World, w': World, sid: string)
    requires Alive(w) && |w.parts| == |w'.parts|
    requires forall k :: 0 <= k < |w.parts| ==>
               w'.parts[k].committed == w.parts[k].committed && w.parts[k].log <= w'.parts[k].log
    requires sid in w'.store && w'.store[sid].status == Running ==> sid in w.store && w.store[sid].status == Running
    ensures RunningWaits(w', sid)
  {
    if sid in w'.store && w'.store[sid].status == Running {
      assert RunningWaits(w, sid);
      var k :| 0 <= k < |w.parts| && !NoneWaiting(w.parts[k], sid);
      GrownLog(w.parts[k], w'.parts[k], sid);
      assert !NoneWaiting(w'.parts[k], sid);
    }
  }

  lemma NextStaysAlive(w: World, m: Move)
    requires Alive(w)
    ensures Alive(Next(w, m))
  {
    match m
    case Work(part) => if part < |w.parts| { WorkStaysAlive(w, part); }
    case _ => OthersStayAlive(w, m);
  }

  lemma {:induction false} RunStaysAlive(w: World, ms: seq<Move>)
    requires Alive(w)
    ensures Alive(Run(w, ms))
    decreases |ms|
  {
    if ms != [] {
      NextStaysAlive(w, ms[0]);
      RunStaysAlive(Next(w, ms[0]), ms[1..]);
    }
  }

  // ---- What orphans a submission ----

  /** No worker step takes the last job of a pending submission out of the log. */
  lemma WorkOrphans(w: World, part: nat, sid: string)
    requires Alive(w) && part < |w.parts|
    ensures Orphaned(Next(w, Work(part)), sid) <==> Orphaned(w, sid)
  {
    assert PartOk(w, part);
    var p, w' := w.parts[part], Next(w, Work(part));
    assert w'.parts[part] == Advance(w.store, p).1;
    AdvanceEvolves(w.store, p);
    if Orphaned(w, sid) { AbandonedByWork(w, sid, part); }
    if Orphaned(w', sid) {
      assert ChainGoesOn(w.store, p) && NoneWaiting(w'.parts[part], sid);
      if !p.local.Idle? { StepWaits(w.store, p); }
      OthersWaitOn(w.store, p, sid);
      forall k | 0 <= k < |w.parts| ensures NoneWaiting(w.parts[k], sid) {
        if k != part { assert w'.parts[k] == w.parts[k] && NoneWaiting(w'.parts[k], sid); }
      }
    }
  }

  /** A control plane that dies between the save and the enqueue of a submission orphans it: the submission
      stays pending, and no job of it exists or ever will. */
  lemma DyingIngestOrphans(w: World, sid: string)
    requires Inv(w) && sid in w.ingesting
    ensures Orphaned(Next(w, IngestDies(sid)), sid)
  {
    forall k | 0 <= k < |w.parts| ensures NoneWaiting(w.parts[k], sid) { assert PartOk(w, k); }
  }

  lemma DispatchWaits(w: World, sid: string)
    requires Inv(w) && Next(w, Dispatch(sid)) != w
    ensures !Abandoned(Next(w, Dispatch(sid)), sid)
  {
    var h, w' := w.home[sid], Next(w, Dispatch(sid));
    assert PartOk(w, h);
    assert w'.parts[h].log[|w.parts[h].log|].sid == sid;
    assert !NoneWaiting(w'.parts[h], sid);
  }

  lemma OthersOrphan(w: World, m: Move, sid: string)
    requires Inv(w) && !m.Work?
    ensures Orphaned(Next(w, m), sid) <==> Orphaned(w, sid) || Dies(w, m, sid)
  {
    var w' := Next(w, m);
    OthersKeepLogs(w, m);
    if Orphaned(w, sid) { AbandonedByOthers(w, sid, m); }
    if Dies(w, m, sid) { DyingIngestOrphans(w, sid); }
    if Orphaned(w', sid) && !Dies(w, m, sid) {
      if m.Dispatch? && m.sid == sid && w' != w { DispatchWaits(w, sid); }
      forall k | 0 <= k < |w.parts| ensures NoneWaiting(w.parts[k], sid) {
        GrownLog(w.parts[k], w'.parts[k], sid);
      }
    }
  }

  /** Of all moves exactly the death of its ingest orphans a submission, and nothing brings it back. */
  lemma OrphanedStep(w: World, m: Move, sid: string)
    requires Alive(w)
    ensures Orphaned(Next(w, m), sid) <==> Orphaned(w, sid) || Dies(w, m, sid)
  {
    match m
    case Work(part) => if part < |w.parts| { WorkOrphans(w, part, sid); }
    case _ => OthersOrphan(w, m, sid);
  }

  /** The control plane died in the run between saving the submission and enqueueing its first job. */
  ghost predicate IngestDied(w: World, ms: seq<Move>, sid: string)
    decreases |ms|
  {
    ms != [] && (Dies(w, ms[0], sid) || IngestDied(Next(w, ms[0]), ms[1..], sid))
  }

  lemma {:induction false} OrphanedIffDied(w: World, ms: seq<Move>, sid: string)
    requires Alive(w)
    ensures Orphaned(Run(w, ms), sid) <==> Orphaned(w, sid) || IngestDied(w, ms, sid)
    decreases |ms|
  {
    if ms != [] {
      NextStaysAlive(w, ms[0]);
      OrphanedStep(w, ms[0], sid);
      OrphanedIffDied(Next(w, ms[0]), ms[1..], sid);
    }
  }

  // ---- Progress ----

  /** A submission for which no job is left is terminal, stranded or orphaned. */
  lemma NoJobLeft(w: World, sid: string)
    requires Alive(w) && Abandoned(w, sid)
    ensures MidRun(w.store[sid].status) <==> Stranded(w, sid)
    ensures w.store[sid].status == Pending <==> Orphaned(w, sid)
    ensures !IsTerminal(w.store[sid].status) <==> Stranded(w, sid) || Orphaned(w, sid)
  {
    assert RunningWaits(w, sid);
    forall k | 0 <= k < |w.parts| ensures !Handles(w.parts[k].local, sid) {
      assert PartOk(w, k) && NoneWaiting(w.parts[k], sid);
    }
  }

  /** Whatever crashes, dies and is redelivered: a submission for which no job is left, and in particular
      every one past its ingest once the queues are drained, is terminal unless a crash struck it while it
      was deploying or benchmarking, or its ingest died before the enqueue; and then it is not. */
  lemma TerminalUnlessLost(n: nat, ms: seq<Move>, sid: string)
    requires Abandoned(Run(InitialWorld(n), ms), sid)
    ensures
      var w0 := InitialWorld(n);
      var status := Run(w0, ms).store[sid].status;
      && (MidRun(status) <==> Struck(w0, ms, sid))
      && (status == Pending <==> IngestDied(w0, ms, sid))
      && (IsTerminal(status) <==> !Struck(w0, ms, sid) && !IngestDied(w0, ms, sid))
  {
    RunStaysAlive(InitialWorld(n), ms);
    StrandedIffStruck(InitialWorld(n), ms, sid);
    OrphanedIffDied(InitialWorld(n), ms, sid);
    NoJobLeft(Run(InitialWorld(n), ms), sid);
  }

  lemma {:induction false} NoneDied(w: World, ms: seq<Move>, sid: string)
    requires forall i :: 0 <= i < |ms| ==> !ms[i].IngestDies?
    ensures !IngestDied(w, ms, sid)
    decreases |ms|
  {
    if ms != [] { NoneDied(Next(w, ms[0]), ms[1..], sid); }
  }

  /** While no control plane dies, a drained queue leaves a submission that is not terminal deploying or
      benchmarking, and only if a crash struck it then. */
  lemma DrainedUnderCrashes(n: nat, ms: seq<Move>, sid: string)
    requires forall i :: 0 <= i < |ms| ==> !ms[i].IngestDies?
    requires
      var w := Run(InitialWorld(n), ms);
      Drained(w) && sid in w.store && sid !in w.ingesting
    ensures
      var status := Run(InitialWorld(n), ms).store[sid].status;
      && (!IsTerminal(status) <==> MidRun(status))
      && (!IsTerminal(status) <==> Struck(InitialWorld(n), ms, sid))
  {
    DrainedIsAbandoned(Run(InitialWorld(n), ms), sid);
    TerminalUnlessLost(n, ms, sid);
    NoneDied(InitialWorld(n), ms, sid);
  }

  /** Losing a submission is for good, long before the queues are drained: whatever follows, it keeps its
      status, and its team never gets past the guard of the contest again. */
  lemma LostForever(n: nat, ms: seq<Move>, sid: string, after: seq<Move>, id: string)
    requires Struck(InitialWorld(n), ms, sid) || IngestDied(InitialWorld(n), ms, sid)
    ensures
      var w := Run(InitialWorld(n), ms);
      var w' := Run(w, after);
      && sid in w.store && !IsTerminal(w.store[sid].status)
      && sid in w'.store && w'.store[sid] == w.store[sid]
      && Next(w', Admit(Request(id, w.store[sid].team, w.store[sid].contest))) == w'
  {
    var w := Run(InitialWorld(n), ms);
    RunStaysAlive(InitialWorld(n), ms);
    StrandedIffStruck(InitialWorld(n), ms, sid);
    OrphanedIffDied(InitialWorld(n), ms, sid);
    RunKeepsInv(w, after);
    StrandedIffStruck(w, after, sid);
    if Orphaned(w, sid) { AbandonedForever(w, sid, after); }
  }

  // ---- The last job of a submission ----

  /** Undisturbed, a worker past the guard leaves its submission terminal, or running with a job waiting. */
  lemma {:induction false} FinishSettles(st: Store, p: Partition)
    requires CanAdvance(st, p) && ChainGoesOn(st, p) && p.local.Working?
    requires p.local.pc.Commit? ==> !MidRun(st[p.local.job.sid].status)
    ensures
      var (st', p') := W.Finish(st, p);
      var sid := p.local.job.sid;
      && sid in st'
      && (IsTerminal(st'[sid].status) || !NoneWaiting(p', sid))
    decreases W.StepsLeft(p.local)
  {
    var (st1, p1) := Advance(st, p);
    W.FinishStep(st, p);
    OwnStepStrands(st, p);
    AdvanceKeepsJob(st, p);
    StepGoesOn(st, p);
    AdvanceKeepsCan(st, p);
    if p1.local.Working? { FinishSettles(st1, p1); } else { StepWaits(st, p); }
  }

  /** A job that the guard passes over is committed without a write. */
  lemma FinishSkipped(st: Store, p: Partition)
    requires CanAdvance(st, p) && p.local.Fetched?
    requires st[p.local.job.sid].status != Pending && st[p.local.job.sid].status != Running
    ensures W.Finish(st, p) == (st, p.(committed := p.committed + 1, local := Idle))
  {
    var p1 := Advance(st, p).1;
    W.FinishStep(st, p);
    W.FinishStep(st, p1);
  }

  lemma FinishPassed(st: Store, p: Partition)
    requires CanAdvance(st, p) && p.local.Fetched?
    requires st[p.local.job.sid].status == Pending || st[p.local.job.sid].status == Running
    ensures
      var (st', p') := W.Finish(st, p);
      var sid := p.local.job.sid;
      sid in st' && (IsTerminal(st'[sid].status) || !NoneWaiting(p', sid))
  {
    W.FinishStep(st, p);
    AdvanceKeepsCan(st, p);
    FinishSettles(Advance(st, p).0, Advance(st, p).1);
  }

  /** A job picked up that is its submission's last, worked off undisturbed, leaves the submission behind,
      without a job and not terminal, if and only if it found it in none of pending, running, completed
      and failed. */
  lemma LastJobLosesIff(w: World, part: nat)
    requires Inv(w) && part < |w.parts| && w.parts[part].local.Fetched?
    requires
      var p := w.parts[part];
      forall i :: p.committed < i < |p.log| ==> p.log[i].sid != p.local.job.sid
    ensures
      var sid := w.parts[part].local.job.sid;
      var w' := W.FinishWorld(w, part);
      sid in w.store && sid in w'.store
      && (Abandoned(w', sid) && !IsTerminal(w'.store[sid].status) <==>
            w.store[sid].status !in {Pending, Running, Completed, Failed})
  {
    assert PartOk(w, part);
    var p, w' := w.parts[part], W.FinishWorld(w, part);
    var sid := p.local.job.sid;
    if w.store[sid].status == Pending || w.store[sid].status == Running {
      FinishPassed(w.store, p);
      assert w'.parts[part] == W.Finish(w.store, p).1;
    } else {
      FinishSkipped(w.store, p);
      forall k | 0 <= k < |w'.parts| ensures NoneWaiting(w'.parts[k], sid) {
        if k != part { assert PartOk(w, k) && w'.parts[k] == w.parts[k]; }
      }
    }
  }
}
