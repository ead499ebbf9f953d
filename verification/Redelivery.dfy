/** What a crash can cost: profiles executed twice, and submissions that no worker will ever touch again. */
module Redelivery {
  import opened ProfileChain
  import opened CrashFreeChain
  import W = Worker

  // ---- Which picked-up jobs repeat a profile ----

  /** A job in a world in which everything outside succeeds, its fleet run scored. */
  predicate Smooth(env: Env) {
    env.deployed && env.healthy && !env.preflight.Rejected? && env.fleet.Some?
  }

  predicate BeforeAppend(pc: Pc) {
    || pc.WriteDeploying? || pc.Deploy? || pc.WriteContainer? || pc.WriteDryRun?
    || pc.WriteBenchmarking? || pc.AppendResult?
  }

  /** A worker in such a world; it records a validator's verdict only if there is a validator. */
  predicate SmoothLocal(l: Local) {
    l.Working? && Smooth(l.env) && (l.pc.WriteDryRun? ==> l.env.preflight.Passed?)
  }

  lemma AdvanceKeepsCan(st: Store, p: Partition)
    requires CanAdvance(st, p) && !p.local.Idle?
    ensures Advance(st, p).1.local.Idle? || CanAdvance(Advance(st, p).0, Advance(st, p).1)
  {
    AdvanceKeepsSubs(st, p);
    AdvanceKeepsLocal(st, p);
    AdvanceEvolves(st, p);
    JobOkEvolves(st, Advance(st, p).0, p.local.job);
  }

  /** The results of the worker's submission after one step of smooth processing. */
  lemma SmoothStep(st: Store, p: Partition)
    requires CanAdvance(st, p) && SmoothLocal(p.local)
    ensures
      var (st', p') := Advance(st, p);
      var sid := p.local.job.sid;
      && sid in st'
      && st'[sid].results == st[sid].results +
           (if p.local.pc.AppendResult? then [RunResult(p.local.job.profile, p.local.env.Score())] else [])
      && (if p'.local.Working?
          then SmoothLocal(p'.local) && p'.local.job == p.local.job
               && (BeforeAppend(p.local.pc) && !p.local.pc.AppendResult? <==> BeforeAppend(p'.local.pc))
          else p.local.pc.Commit? && p'.local.Idle?)
  {
    AdvanceEvolves(st, p);
  }

  /** Smooth processing to the end records the job's profile exactly once. */
  lemma {:induction false} SmoothRecords(st: Store, p: Partition)
    requires CanAdvance(st, p) && SmoothLocal(p.local)
    ensures
      var sid := p.local.job.sid;
      var (st', _) := W.Finish(st, p);
      && sid in st'
      && LabelsOf(st'[sid].results) ==
           LabelsOf(st[sid].results) + if BeforeAppend(p.local.pc) then [p.local.job.profile] else []
    decreases W.StepsLeft(p.local)
  {
    var (st1, p1) := Advance(st, p);
    W.FinishStep(st, p);
    SmoothStep(st, p);
    AdvanceKeepsCan(st, p);
    if p1.local.Working? { SmoothRecords(st1, p1); }
  }

  /** Processed smoothly to the end, the picked-up job records a label that was recorded before. */
  ghost predicate Repeats(w: World, part: nat)
    requires part < |w.parts| && !w.parts[part].local.Idle?
  {
    var job := w.parts[part].local.job;
    var after := W.FinishWorld(w, part).store;
    && job.sid in w.store && job.sid in after && job.profile in LabelsOf(w.store[job.sid].results)
    && LabelsOf(after[job.sid].results) == LabelsOf(w.store[job.sid].results) + [job.profile]
  }

  /** In every reachable world, whatever crashed and was redelivered: a job picked up repeats a recorded
      profile if and only if its submission is running and already has a result for the job's profile. */
  lemma RepeatsIff(w: World, part: nat)
    requires Inv(w) && part < |w.parts| && w.parts[part].local.Fetched? && Smooth(w.parts[part].local.env)
    ensures
      var job := w.parts[part].local.job;
      && job.sid in w.store
      && (Repeats(w, part) <==>
            w.store[job.sid].status == Running && job.profile in LabelsOf(w.store[job.sid].results))
  {
    assert PartOk(w, part);
    var p := w.parts[part];
    var job, sub := p.local.job, w.store[p.local.job.sid];
    assert JobOk(w.store, p.log[p.committed]);
    var p1 := Advance(w.store, p).1;
    W.FinishStep(w.store, p);
    assert CanAdvance(w.store, p);
    AdvanceKeepsCan(w.store, p);
    SmoothRecords(w.store, p1);
    assert |LabelsOf(sub.results)| < |LabelsOf(sub.results) + [job.profile]|;
  }

  // ---- Submissions left behind ----

  /** No job of the submission waits in the partition. */
  ghost predicate NoneWaiting(p: Partition, sid: string) {
    forall i :: 0 <= p.committed <= i < |p.log| ==> p.log[i].sid != sid
  }

  /** Past its ingest, and no job of it waits or is held anywhere. */
  ghost predicate Abandoned(w: World, sid: string) {
    && sid in w.store && sid !in w.ingesting
    && forall k :: 0 <= k < |w.parts| ==> NoneWaiting(w.parts[k], sid)
  }

  /** A step on another submission's job puts no job of `sid` into the log. */
  lemma StepKeepsNoneWaiting(st: Store, p: Partition, sid: string)
    requires NoneWaiting(p, sid)
    requires !p.local.Idle? ==> p.committed < |p.log| && p.local.job == p.log[p.committed]
    ensures NoneWaiting(Advance(st, p).1, sid)
  {
    if !p.local.Idle? { assert p.log[p.committed].sid != sid; }
  }

  lemma AbandonedByWork(w: World, sid: string, part: nat)
    requires Inv(w) && Abandoned(w, sid) && part < |w.parts|
    ensures Abandoned(Next(w, Work(part)), sid) && Next(w, Work(part)).store[sid] == w.store[sid]
  {
    assert PartOk(w, part);
    var p := w.parts[part];
    assert NoneWaiting(p, sid);
    if !p.local.Idle? { assert p.log[p.committed].sid != sid; }
    AdvanceEvolves(w.store, p);
    StepKeepsNoneWaiting(w.store, p, sid);
  }

  lemma AbandonedByOthers(w: World, sid: string, m: Move)
    requires Inv(w) && Abandoned(w, sid) && !m.Work?
    ensures Abandoned(Next(w, m), sid) && Next(w, m).store[sid] == w.store[sid]
  {
  }

  /** An abandoned submission never changes again, whatever happens. */
  lemma {:induction false} AbandonedForever(w: World, sid: string, ms: seq<Move>)
    requires Inv(w) && Abandoned(w, sid)
    ensures Abandoned(Run(w, ms), sid) && Run(w, ms).store[sid] == w.store[sid]
    decreases |ms|
  {
    if ms != [] {
      NextKeepsInv(w, ms[0]);
      match ms[0] {
        case Work(part) => if part < |w.parts| { AbandonedByWork(w, sid, part); }
        case _ => AbandonedByOthers(w, sid, ms[0]);
      }
      AbandonedForever(Next(w, ms[0]), sid, ms[1..]);
    }
  }

  /** While it is not terminal, its team can never again get past the guard of the contest. */
  lemma AbandonedBlocksTeam(w: World, sid: string, ms: seq<Move>, id: string)
    requires Inv(w) && Abandoned(w, sid) && !IsTerminal(w.store[sid].status)
    ensures Next(Run(w, ms), Admit(Request(id, w.store[sid].team, w.store[sid].contest))) == Run(w, ms)
  {
    AbandonedForever(w, sid, ms);
    assert Run(w, ms).store[sid] == w.store[sid];
  }

  /** In a drained world every submission past its ingest is abandoned. */
  lemma DrainedIsAbandoned(w: World, sid: string)
    requires Drained(w) && sid in w.store && sid !in w.ingesting
    ensures Abandoned(w, sid)
  {
  }
}
