/** Without crashes each submission runs its profiles in order, each at most once, and comes to rest
    in a terminal status. With crashes the work is still bounded. */
module CrashFreeChain {
  import opened Orders
  import opened ProfileChain

  predicate CrashFree(m: Move) { !m.Crash? && !m.IngestDies? }

  /** The jobs of one submission, in log order. */
  function JobsOf(log: seq<Job>, sid: string): seq<Job> {
    if log == [] then [] else (if log[0].sid == sid then [log[0]] else []) + JobsOf(log[1..], sid)
  }

  function Uncommitted(p: Partition): seq<Job>
    requires p.committed <= |p.log|
  {
    p.log[p.committed..]
  }

  function FollowUp(j: Job): Job
    requires j.remaining != []
  {
    Job(j.sid, j.remaining[0], j.remaining[1..])
  }

  /** The submission stands exactly where its next job expects it. */
  ghost predicate ReadyFor(s: Submission, j: Job) {
    && j.remaining == After(j.profile)
    && LabelsOf(s.results) == Before(j.profile)
    && s.status == (if j.profile.Low? then Pending else Running)
  }

  ghost predicate Settled(s: Submission) {
    && IsTerminal(s.status) && LabelsOf(s.results) <= CHAIN
    && (s.status == Completed ==> LabelsOf(s.results) == CHAIN)
  }

  /** No worker holds the submission: it is settled, or exactly one job is waiting for it. */
  ghost predicate Waiting(s: Submission, js: seq<Job>) {
    if IsTerminal(s.status) then Settled(s) && js == []
    else |js| == 1 && ReadyFor(s, js[0])
  }

  /** A worker holds the submission at step `pc` of `job`. */
  ghost predicate AtWork(pc: Pc, job: Job, s: Submission, js: seq<Job>) {
    && job.remaining == After(job.profile)
    && match pc
       case Enqueue => js == [job] && LabelsOf(s.results) == Before(job.profile) + [job.profile]
       case WriteScore => js == [job] && LabelsOf(s.results) == Before(job.profile) + [job.profile]
       case MarkFailed => js == [job] && LabelsOf(s.results) <= CHAIN
       case WriteFailed => js == [job] && LabelsOf(s.results) <= CHAIN
       case WriteOutcome =>
         && LabelsOf(s.results) == Before(job.profile) + [job.profile]
         && js == if job.remaining == [] then [job] else [job, FollowUp(job)]
       case Commit =>
         || (js == [job] && Settled(s))
         || (job.remaining != [] && js == [job, FollowUp(job)] && ReadyFor(s, FollowUp(job)))
       case _ => js == [job] && LabelsOf(s.results) == Before(job.profile)
  }

  ghost predicate CleanOne(w: World, sid: string)
    requires sid in w.store
  {
    && sid in w.home && w.home[sid] < |w.parts|
    && var p := w.parts[w.home[sid]];
    && p.committed <= |p.log|
    && var js := JobsOf(Uncommitted(p), sid);
    if sid in w.ingesting then js == []
    else if p.local.Working? && p.local.job.sid == sid then AtWork(p.local.pc, p.local.job, w.store[sid], js)
    else Waiting(w.store[sid], js)
  }

  ghost predicate Clean(w: World) {
    Inv(w) && forall sid :: sid in w.store ==> CleanOne(w, sid)
  }

  // ---- Lists of jobs ----

  lemma {:induction false} JobsOfAppend(log: seq<Job>, j: Job, sid: string)
    ensures JobsOf(log + [j], sid) == JobsOf(log, sid) + (if j.sid == sid then [j] else [])
  {
    if log == [] {
      assert (log + [j])[1..] == [];
    } else {
      assert (log + [j])[1..] == log[1..] + [j];
      JobsOfAppend(log[1..], j, sid);
      var head, more := if log[0].sid == sid then [log[0]] else [], if j.sid == sid then [j] else [];
      assert head + (JobsOf(log[1..], sid) + more) == head + JobsOf(log[1..], sid) + more;
    }
  }

  lemma {:induction false} NoJobs(log: seq<Job>, sid: string)
    requires forall i :: 0 <= i < |log| ==> log[i].sid != sid
    ensures JobsOf(log, sid) == []
  {
    if log != [] { NoJobs(log[1..], sid); }
  }

  // ---- A worker step ----

  predicate Enqueues(l: Local) {
    l.Working? && l.pc.Enqueue? && l.env.queueOk && l.job.remaining != []
  }

  /** What a step does to the jobs not yet committed. */
  lemma UncommittedAfter(st: Store, p: Partition)
    requires p.committed <= |p.log| && (p.local.Working? ==> p.committed < |p.log|)
    ensures
      var p' := Advance(st, p).1;
      && p'.committed <= |p'.log|
      && Uncommitted(p') ==
           if Enqueues(p.local) then Uncommitted(p) + [FollowUp(p.local.job)]
           else if p.local.Working? && p.local.pc.Commit? then Uncommitted(p)[1..]
           else Uncommitted(p)
  {
    var p' := Advance(st, p).1;
    if Enqueues(p.local) {
      assert p'.log == p.log + [FollowUp(p.local.job)] && p'.committed == p.committed;
      SliceOfAppend(p.log, p.committed, FollowUp(p.local.job));
    } else if p.local.Working? && p.local.pc.Commit? {
      assert p'.log == p.log && p'.committed == p.committed + 1;
      SliceOfTail(p.log, p.committed);
    } else {
      assert p'.log == p.log && p'.committed == p.committed;
    }
  }

  lemma SliceOfAppend<T>(s: seq<T>, c: nat, x: T)
    requires c <= |s|
    ensures (s + [x])[c..] == s[c..] + [x]
  {
  }

  lemma SliceOfTail<T>(s: seq<T>, c: nat)
    requires c < |s|
    ensures s[c + 1..] == s[c..][1..]
  {
  }

  /** What a step does to the waiting jobs of the worker's submission. */
  lemma JobsAfter(st: Store, p: Partition, js: seq<Job>)
    requires p.local.Working? && p.committed < |p.log| && p.log[p.committed] == p.local.job
    requires js == JobsOf(Uncommitted(p), p.local.job.sid)
    ensures
      var p' := Advance(st, p).1;
      var job := p.local.job;
      p'.committed <= |p'.log| &&
      JobsOf(Uncommitted(p'), job.sid) ==
        if Enqueues(p.local) then js + [FollowUp(job)]
        else if p.local.pc.Commit? then js[1..]
        else js
  {
    var job := p.local.job;
    UncommittedAfter(st, p);
    if Enqueues(p.local) { JobsOfAppend(Uncommitted(p), FollowUp(job), job.sid); }
  }

  lemma ChainFacts(l: Label)
    ensures Before(l) <= CHAIN && Before(l) + [l] <= CHAIN && (l == High ==> Before(l) + [l] == CHAIN)
    ensures After(l) != [] ==> Before(After(l)[0]) == Before(l) + [l] && After(After(l)[0]) == After(l)[1..]
    ensures After(l) != [] ==> !After(l)[0].Low?
    ensures After(l) == [] <==> l == High
  {
  }

  lemma CommitOnOwn(st: Store, p: Partition)
    requires CanAdvance(st, p) && p.local.Working? && p.local.pc.Commit?
    requires AtWork(Commit, p.local.job, st[p.local.job.sid], JobsOf(Uncommitted(p), p.local.job.sid))
    ensures Advance(st, p).1.committed <= |p.log| == |Advance(st, p).1.log|
    ensures Waiting(st[p.local.job.sid], JobsOf(Uncommitted(Advance(st, p).1), p.local.job.sid))
  {
    var js := JobsOf(Uncommitted(p), p.local.job.sid);
    JobsAfter(st, p, js);
    ChainFacts(p.local.job.profile);
    if |js| == 2 {
      assert js[1..] == [FollowUp(p.local.job)];
    } else {
      assert js[1..] == [];
    }
  }

  /** The worker's own submission after the next job was enqueued, or refused by the queue. */
  lemma EnqueueOnOwn(st: Store, p: Partition, js: seq<Job>)
    requires CanAdvance(st, p) && p.local.Working? && p.local.pc.Enqueue?
    requires AtWork(p.local.pc, p.local.job, st[p.local.job.sid], js)
    ensures
      var (st', p') := Advance(st, p);
      var sid := p.local.job.sid;
      && sid in st' && p'.local.Working? && p'.local.job == p.local.job
      && AtWork(p'.local.pc, p'.local.job, st'[sid], if Enqueues(p.local) then js + [FollowUp(p.local.job)] else js)
  {
    ChainFacts(p.local.job.profile);
    assert Advance(st, p).0 == st;
    if Enqueues(p.local) { assert js + [FollowUp(p.local.job)] == [p.local.job, FollowUp(p.local.job)]; }
  }

  /** The worker's own submission after a step that neither appends a result nor enqueues a job. */
  lemma StepOnOwn(st: Store, p: Partition, js: seq<Job>)
    requires CanAdvance(st, p) && p.local.Working?
    requires !p.local.pc.Commit? && !p.local.pc.AppendResult? && !p.local.pc.Enqueue?
    requires AtWork(p.local.pc, p.local.job, st[p.local.job.sid], js)
    ensures
      var (st', p') := Advance(st, p);
      var sid := p.local.job.sid;
      && sid in st' && p'.local.Working? && p'.local.job == p.local.job
      && AtWork(p'.local.pc, p'.local.job, st'[sid], js)
  {
    ChainFacts(p.local.job.profile);
  }

  lemma AppendOnOwn(st: Store, p: Partition, js: seq<Job>)
    requires CanAdvance(st, p) && p.local.Working? && p.local.pc.AppendResult?
    requires AtWork(p.local.pc, p.local.job, st[p.local.job.sid], js)
    ensures
      var (st', p') := Advance(st, p);
      var sid := p.local.job.sid;
      && sid in st' && p'.local.Working? && p'.local.job == p.local.job
      && AtWork(p'.local.pc, p'.local.job, st'[sid], js)
  {
    LabelAppended(st[p.local.job.sid].results, RunResult(p.local.job.profile, p.local.env.Score()));
  }

  /** The worker's own submission, before the commit. */
  lemma WorkOnOwn(st: Store, p: Partition)
    requires CanAdvance(st, p) && p.local.Working? && !p.local.pc.Commit?
    requires AtWork(p.local.pc, p.local.job, st[p.local.job.sid], JobsOf(Uncommitted(p), p.local.job.sid))
    ensures
      var (st', p') := Advance(st, p);
      var sid := p.local.job.sid;
      p'.committed <= |p'.log| && sid in st' && p'.local.Working? && p'.local.job == p.local.job
      && AtWork(p'.local.pc, p'.local.job, st'[sid], JobsOf(Uncommitted(p'), sid))
  {
    var js := JobsOf(Uncommitted(p), p.local.job.sid);
    JobsAfter(st, p, js);
    if p.local.pc.AppendResult? { AppendOnOwn(st, p, js); }
    else if p.local.pc.Enqueue? { EnqueueOnOwn(st, p, js); }
    else { StepOnOwn(st, p, js); }
  }

  /** A fetched job finds its submission ready, passes the guard and is the submission's only job. */
  lemma FetchedIsReady(w: World, part: nat)
    requires Clean(w) && part < |w.parts| && w.parts[part].local.Fetched?
    ensures
      var p := w.parts[part];
      var job := p.local.job;
      && job.sid in w.store && job.sid in w.home && w.home[job.sid] == part
      && ReadyFor(w.store[job.sid], job)
      && JobsOf(Uncommitted(p), job.sid) == [job]
      && Guard(w.store, job, p.local.env) == Working(WriteDeploying, job, p.local.env, w.store[job.sid])
  {
    assert PartOk(w, part);
    var p := w.parts[part];
    var job := p.local.job;
    assert CleanOne(w, job.sid);
    assert Uncommitted(p)[0] == job;
  }

  lemma OwnAfterFetch(w: World, part: nat)
    requires Clean(w) && part < |w.parts| && w.parts[part].local.Fetched?
    ensures w.parts[part].local.job.sid in Next(w, Work(part)).store
    ensures CleanOne(Next(w, Work(part)), w.parts[part].local.job.sid)
  {
    FetchedIsReady(w, part);
    assert PartOk(w, part);
    assert Uncommitted(Next(w, Work(part)).parts[part]) == Uncommitted(w.parts[part]);
  }

  lemma OwnStaysClean(w: World, w': World, part: nat, sid: string)
    requires part < |w.parts| == |w'.parts| && w'.home == w.home && w'.ingesting == w.ingesting
    requires sid in w.home && w.home[sid] == part && sid !in w.ingesting && sid in w'.store
    requires
      var p' := w'.parts[part];
      && p'.committed <= |p'.log|
      && var js := JobsOf(Uncommitted(p'), sid);
      if p'.local.Working? then p'.local.job.sid == sid && AtWork(p'.local.pc, p'.local.job, w'.store[sid], js)
      else Waiting(w'.store[sid], js)
    ensures CleanOne(w', sid)
  {
  }

  lemma CommitIs(st: Store, p: Partition)
    requires p.local.Working? && p.local.pc.Commit?
    ensures Advance(st, p) == (st, p.(committed := p.committed + 1, local := Idle))
  {
  }

  /** A world whose worker has committed its job. */
  lemma CommittedIsClean(w: World, w': World, part: nat)
    requires Clean(w) && part < |w.parts| == |w'.parts|
    requires w.parts[part].local.Working? && w.parts[part].local.pc.Commit?
    requires w'.store == w.store && w'.home == w.home && w'.ingesting == w.ingesting
    requires w'.parts[part] == Advance(w.store, w.parts[part]).1
    ensures w.parts[part].local.job.sid in w'.store && CleanOne(w', w.parts[part].local.job.sid)
  {
    assert PartOk(w, part);
    var p := w.parts[part];
    assert CleanOne(w, p.local.job.sid);
    CommitOnOwn(w.store, p);
    CommitIs(w.store, p);
    OwnStaysClean(w, w', part, p.local.job.sid);
  }

  lemma OwnAfterCommit(w: World, part: nat)
    requires Clean(w) && part < |w.parts| && w.parts[part].local.Working? && w.parts[part].local.pc.Commit?
    ensures w.parts[part].local.job.sid in Next(w, Work(part)).store
    ensures CleanOne(Next(w, Work(part)), w.parts[part].local.job.sid)
  {
    CommitIs(w.store, w.parts[part]);
    CommittedIsClean(w, Next(w, Work(part)), part);
  }

  lemma OwnAfterWork(w: World, part: nat)
    requires Clean(w) && part < |w.parts| && w.parts[part].local.Working? && !w.parts[part].local.pc.Commit?
    ensures w.parts[part].local.job.sid in Next(w, Work(part)).store
    ensures CleanOne(Next(w, Work(part)), w.parts[part].local.job.sid)
  {
    assert PartOk(w, part);
    var p := w.parts[part];
    assert CleanOne(w, p.local.job.sid);
    WorkOnOwn(w.store, p);
    OwnStaysClean(w, Next(w, Work(part)), part, p.local.job.sid);
  }

  /** A step on another submission's job does not change the waiting jobs of `sid`. */
  lemma OtherJobs(st: Store, p: Partition, sid: string)
    requires p.local.Idle? || (p.committed < |p.log| && p.log[p.committed] == p.local.job && p.local.job.sid != sid)
    requires p.committed <= |p.log|
    ensures Advance(st, p).1.committed <= |Advance(st, p).1.log|
    ensures JobsOf(Uncommitted(Advance(st, p).1), sid) == JobsOf(Uncommitted(p), sid)
  {
    UncommittedAfter(st, p);
    if Enqueues(p.local) { JobsOfAppend(Uncommitted(p), FollowUp(p.local.job), sid); }
  }

  lemma AdvanceKeepsJob(st: Store, p: Partition)
    ensures p.local.Idle? ==> Advance(st, p) == (st, p)
    ensures !p.local.Idle? ==> Advance(st, p).1.local.Idle? || Advance(st, p).1.local.job == p.local.job
  {
  }

  lemma OtherStaysClean(w: World, w': World, part: nat, sid: string)
    requires part < |w.parts| && sid in w.store && CleanOne(w, sid)
    requires |w'.parts| == |w.parts| && w'.home == w.home && w'.ingesting == w.ingesting
    requires sid in w'.store && w'.store[sid] == w.store[sid]
    requires forall k :: 0 <= k < |w.parts| && k != part ==> w'.parts[k] == w.parts[k]
    requires w.home[sid] == part ==>
      var p, p' := w.parts[part], w'.parts[part];
      && (p.local.Working? ==> p.local.job.sid != sid) && (p'.local.Working? ==> p'.local.job.sid != sid)
      && p'.committed <= |p'.log| && JobsOf(Uncommitted(p'), sid) == JobsOf(Uncommitted(p), sid)
    ensures CleanOne(w', sid)
  {
  }

  /** Seen from another submission, a worker step changes nothing. */
  lemma OtherStep(st: Store, p: Partition, sid: string)
    requires CanAdvance(st, p) && p.committed <= |p.log| && sid in st
    requires !p.local.Idle? ==> p.local.job.sid != sid
    ensures
      var (st', p') := Advance(st, p);
      && sid in st' && st'[sid] == st[sid]
      && (p'.local.Working? ==> p'.local.job.sid != sid)
      && p'.committed <= |p'.log| && JobsOf(Uncommitted(p'), sid) == JobsOf(Uncommitted(p), sid)
  {
    AdvanceEvolves(st, p);
    AdvanceKeepsJob(st, p);
    OtherJobs(st, p, sid);
  }

  lemma OtherWorked(w: World, w': World, part: nat, sid: string)
    requires part < |w.parts| == |w'.parts| && sid in w.store && CleanOne(w, sid)
    requires CanAdvance(w.store, w.parts[part]) && w.parts[part].committed <= |w.parts[part].log|
    requires !w.parts[part].local.Idle? ==> w.parts[part].local.job.sid != sid
    requires w'.store == Advance(w.store, w.parts[part]).0 && w'.parts[part] == Advance(w.store, w.parts[part]).1
    requires w'.home == w.home && w'.ingesting == w.ingesting
    requires forall k :: 0 <= k < |w.parts| && k != part ==> w'.parts[k] == w.parts[k]
    ensures sid in w'.store && CleanOne(w', sid)
  {
    OtherStep(w.store, w.parts[part], sid);
    OtherStaysClean(w, w', part, sid);
  }

  lemma WorkKeepsOther(w: World, part: nat, sid: string)
    requires Clean(w) && part < |w.parts| && sid in w.store
    requires !w.parts[part].local.Idle? ==> w.parts[part].local.job.sid != sid
    ensures sid in Next(w, Work(part)).store && CleanOne(Next(w, Work(part)), sid)
  {
    assert PartOk(w, part) && CleanOne(w, sid);
    NextWork(w, part);
    OtherWorked(w, Next(w, Work(part)), part, sid);
  }

  /** A worker's step, field by field. */
  lemma NextWork(w: World, part: nat)
    requires part < |w.parts|
    ensures
      var w' := Next(w, Work(part));
      && w'.store == Advance(w.store, w.parts[part]).0 && w'.home == w.home && w'.ingesting == w.ingesting
      && |w'.parts| == |w.parts| && w'.parts[part] == Advance(w.store, w.parts[part]).1
      && forall k :: 0 <= k < |w.parts| && k != part ==> w'.parts[k] == w.parts[k]
  {
  }

  lemma WorkKeepsClean(w: World, part: nat)
    requires Clean(w) && part < |w.parts|
    ensures Clean(Next(w, Work(part)))
  {
    assert PartOk(w, part);
    WorkKeepsInv(w, part);
    AdvanceEvolves(w.store, w.parts[part]);
    var w' := Next(w, Work(part));
    forall sid | sid in w'.store ensures CleanOne(w', sid) {
      if !w.parts[part].local.Idle? && w.parts[part].local.job.sid == sid {
        if w.parts[part].local.Fetched? { OwnAfterFetch(w, part); }
        else if w.parts[part].local.pc.Commit? { OwnAfterCommit(w, part); }
        else { OwnAfterWork(w, part); }
      } else {
        WorkKeepsOther(w, part, sid);
      }
    }
  }

  lemma AdmitKeepsClean(w: World, r: Request)
    requires Clean(w)
    ensures Clean(Next(w, Admit(r)))
  {
    var w' := Next(w, Admit(r));
    OtherMovesKeepInv(w, Admit(r));
    forall id | id in w'.store ensures CleanOne(w', id) {
      assert CleanOne(w, id);
    }
  }

  lemma IngestKeepsClean(w: World, r: Request, part: nat)
    requires Clean(w)
    ensures Clean(Next(w, Ingest(r, part)))
  {
    var w' := Next(w, Ingest(r, part));
    IngestKeepsInv(w, r, part);
    forall id | id in w'.store ensures CleanOne(w', id) {
      if id in w.store {
        assert CleanOne(w, id);
      } else {
        assert PartOk(w, part);
        NoJobs(Uncommitted(w.parts[part]), r.sid);
      }
    }
  }

  lemma DispatchJobs(p: Partition, sid: string, id: string)
    requires p.committed <= |p.log|
    ensures
      var job := Job(sid, Low, After(Low));
      JobsOf(Uncommitted(p.(log := p.log + [job])), id)
        == JobsOf(Uncommitted(p), id) + if id == sid then [job] else []
  {
    var job := Job(sid, Low, After(Low));
    assert Uncommitted(p.(log := p.log + [job])) == Uncommitted(p) + [job];
    JobsOfAppend(Uncommitted(p), job, id);
  }

  lemma DispatchedIsClean(w: World, w': World, h: nat, sid: string, id: string)
    requires id in w.store && CleanOne(w, id) && h < |w.parts| == |w'.parts|
    requires w'.store == w.store && w'.home == w.home && w'.ingesting == w.ingesting - {sid}
    requires forall k :: 0 <= k < |w.parts| && k != h ==> w'.parts[k] == w.parts[k]
    requires
      var p, p' := w.parts[h], w'.parts[h];
      && p'.local == p.local && p.committed <= |p.log| && p'.committed <= |p'.log|
      && JobsOf(Uncommitted(p'), id)
           == JobsOf(Uncommitted(p), id) + if id == sid then [Job(sid, Low, After(Low))] else []
    requires id == sid ==>
      && w.home[id] == h && sid in w.ingesting && w.store[sid].status == Pending && w.store[sid].results == []
      && (w.parts[h].local.Working? ==> w.parts[h].local.job.sid != sid)
    ensures CleanOne(w', id)
  {
    if id != sid {
      assert JobsOf(Uncommitted(w'.parts[h]), id) == JobsOf(Uncommitted(w.parts[h]), id);
    }
  }

  lemma DispatchKeepsClean(w: World, sid: string)
    requires Clean(w)
    ensures Clean(Next(w, Dispatch(sid)))
  {
    var w' := Next(w, Dispatch(sid));
    DispatchKeepsInv(w, sid);
    if w' != w {
      var h := w.home[sid];
      assert PartOk(w, h);
      forall id | id in w'.store ensures CleanOne(w', id) {
        DispatchJobs(w.parts[h], sid, id);
        DispatchedIsClean(w, w', h, sid, id);
      }
    }
  }

  lemma FailedIsClean(w: World, w': World, sid: string, id: string)
    requires id in w.store && CleanOne(w, id) && sid in w.store && sid in w.ingesting
    requires w'.parts == w.parts && w'.home == w.home && w'.ingesting == w.ingesting - {sid}
    requires id in w'.store && (id != sid ==> w'.store[id] == w.store[id])
    requires w'.store.Keys == w.store.Keys
    requires sid in w'.store && w'.store[sid].status == Failed && w'.store[sid].results == []
    requires
      var local := w.parts[w.home[id]].local;
      id == sid && local.Working? ==> local.job.sid != sid
    ensures CleanOne(w', id)
  {
  }

  lemma DispatchFailsKeepsClean(w: World, sid: string)
    requires Clean(w)
    ensures Clean(Next(w, DispatchFails(sid)))
  {
    var w' := Next(w, DispatchFails(sid));
    DispatchFailsKeepsInv(w, sid);
    if w' != w {
      forall id | id in w'.store ensures CleanOne(w', id) {
        assert CleanOne(w, id) && PartOk(w, w.home[id]);
        FailedIsClean(w, w', sid, id);
      }
    }
  }

  lemma FetchKeepsClean(w: World, part: nat, env: Env)
    requires Clean(w)
    ensures Clean(Next(w, Fetch(part, env)))
  {
    var w' := Next(w, Fetch(part, env));
    OtherMovesKeepInv(w, Fetch(part, env));
    if w' != w {
      forall id | id in w'.store ensures CleanOne(w', id) {
        assert CleanOne(w, id);
        assert w.home[id] == part ==> Uncommitted(w'.parts[part]) == Uncommitted(w.parts[part]);
      }
    }
  }

  lemma NextKeepsClean(w: World, m: Move)
    requires Clean(w) && CrashFree(m)
    ensures Clean(Next(w, m))
  {
    match m
    case Admit(r) => AdmitKeepsClean(w, r);
    case Ingest(r, part) => IngestKeepsClean(w, r, part);
    case Dispatch(sid) => DispatchKeepsClean(w, sid);
    case DispatchFails(sid) => DispatchFailsKeepsClean(w, sid);
    case Fetch(part, env) => FetchKeepsClean(w, part, env);
    case Work(part) => if part < |w.parts| { WorkKeepsClean(w, part); }
  }

  lemma {:induction false} RunKeepsClean(w: World, ms: seq<Move>)
    requires Clean(w) && forall i :: 0 <= i < |ms| ==> CrashFree(ms[i])
    ensures Clean(Run(w, ms))
    decreases |ms|
  {
    if ms != [] {
      NextKeepsClean(w, ms[0]);
      RunKeepsClean(Next(w, ms[0]), ms[1..]);
    }
  }

  // ---- What a crash-free run promises ----

  lemma CleanLabels(w: World, sid: string)
    requires Clean(w) && sid in w.store
    ensures LabelsOf(w.store[sid].results) <= CHAIN
    ensures w.store[sid].status == Completed ==> LabelsOf(w.store[sid].results) == CHAIN
  {
    assert CleanOne(w, sid);
    var p := w.parts[w.home[sid]];
    assert PartOk(w, w.home[sid]);
    if p.local.Working? && p.local.job.sid == sid {
      ChainFacts(p.local.job.profile);
      if p.local.job.remaining != [] { ChainFacts(p.local.job.remaining[0]); }
    } else if sid !in w.ingesting && !IsTerminal(w.store[sid].status) {
      ChainFacts(JobsOf(Uncommitted(p), sid)[0].profile);
    }
  }

  ghost predicate Reachable(w: World, n: nat, ms: seq<Move>) {
    (forall i :: 0 <= i < |ms| ==> CrashFree(ms[i])) && w == Run(InitialWorld(n), ms)
  }

  lemma ReachableIsClean(w: World, n: nat, ms: seq<Move>)
    requires Reachable(w, n, ms)
    ensures Clean(w)
  {
    RunKeepsClean(InitialWorld(n), ms);
  }

  /** In every state reached without crashes, the recorded labels spell a prefix of low, medium, high:
      a submission runs at most three profiles and none twice, and a completed one ran all three. */
  lemma LabelsSpellTheChain(w: World, n: nat, ms: seq<Move>, sid: string)
    requires Reachable(w, n, ms) && sid in w.store
    ensures LabelsOf(w.store[sid].results) <= CHAIN
    ensures w.store[sid].status == Completed ==> LabelsOf(w.store[sid].results) == CHAIN
  {
    ReachableIsClean(w, n, ms);
    CleanLabels(w, sid);
  }

  /** Whenever a job is picked up, the recorded labels, the job's own and those it still carries spell
      the chain, and its submission passes the guard. */
  lemma PickedUpJobIsExact(w: World, n: nat, ms: seq<Move>, part: nat)
    requires Reachable(w, n, ms) && part < |w.parts| && w.parts[part].local.Fetched?
    ensures
      var job := w.parts[part].local.job;
      && job.sid in w.store
      && LabelsOf(w.store[job.sid].results) + [job.profile] + job.remaining == CHAIN
      && Guard(w.store, job, w.parts[part].local.env)
           == Working(WriteDeploying, job, w.parts[part].local.env, w.store[job.sid])
  {
    ReachableIsClean(w, n, ms);
    FetchedIsReady(w, part);
    ChainFacts(w.parts[part].local.job.profile);
  }

  ghost predicate Drained(w: World) {
    forall k :: 0 <= k < |w.parts| ==> w.parts[k].local.Idle? && w.parts[k].committed == |w.parts[k].log|
  }

  lemma DrainedSettles(w: World, sid: string)
    requires Clean(w) && Drained(w) && sid in w.store && sid !in w.ingesting
    ensures Settled(w.store[sid])
  {
    assert CleanOne(w, sid);
    assert Uncommitted(w.parts[w.home[sid]]) == [];
  }

  /** Once the queues are drained, every dispatched submission is terminal. */
  lemma DrainedIsSettled(w: World, n: nat, ms: seq<Move>, sid: string)
    requires Reachable(w, n, ms) && Drained(w) && sid in w.store && sid !in w.ingesting
    ensures Settled(w.store[sid])
  {
    ReachableIsClean(w, n, ms);
    DrainedSettles(w, sid);
  }

  // ---- Every run comes to rest ----

  function Weight(j: Job): nat { 20 * (1 + |j.remaining|) }

  function TotalWeight(js: seq<Job>): nat {
    if js == [] then 0 else Weight(js[0]) + TotalWeight(js[1..])
  }

  /** What the job at the head of a partition still has to do. */
  function HeadRank(l: Local, j: Job): nat {
    match l
    case Idle => Weight(j)
    case Fetched(_, _) => Weight(j) - 1
    case Working(pc, _, _, _) =>
      match pc
      case WriteDeploying => Weight(j) - 2
      case Deploy => Weight(j) - 3
      case WriteContainer => Weight(j) - 4
      case WriteDryRun => Weight(j) - 5
      case WriteBenchmarking => Weight(j) - 6
      case AppendResult => Weight(j) - 7
      case Enqueue => Weight(j) - 8
      case WriteScore => Weight(j) - 8
      case MarkFailed => Weight(j) - 9
      case WriteOutcome => 2
      case WriteFailed => 2
      case Commit => 1
  }

  /** A measure of the work left in a partition: 20 units per profile still to run, less what the
      worker has already done of the current one. */
  function Rank(p: Partition): nat {
    if p.committed >= |p.log| then 0
    else HeadRank(p.local, p.log[p.committed]) + TotalWeight(p.log[p.committed + 1..])
  }

  lemma {:induction false} WeightAppend(js: seq<Job>, j: Job)
    ensures TotalWeight(js + [j]) == TotalWeight(js) + Weight(j)
  {
    if js == [] {
      assert (js + [j])[1..] == [];
    } else {
      assert (js + [j])[1..] == js[1..] + [j];
      WeightAppend(js[1..], j);
    }
  }

  lemma EnqueueDecreasesRank(st: Store, p: Partition)
    requires Enqueues(p.local) && p.committed < |p.log| && p.log[p.committed] == p.local.job
    ensures Rank(Advance(st, p).1) < Rank(p)
  {
    var p', rest := Advance(st, p).1, p.log[p.committed + 1..];
    assert p'.log[p'.committed + 1..] == rest + [FollowUp(p.local.job)];
    assert p'.log[p'.committed] == p.local.job;
    WeightAppend(rest, FollowUp(p.local.job));
  }

  lemma CommitDecreasesRank(st: Store, p: Partition)
    requires p.local.Working? && p.committed < |p.log| && p.local.pc.Commit?
    ensures Rank(Advance(st, p).1) < Rank(p)
  {
    var p', rest := Advance(st, p).1, p.log[p.committed + 1..];
    if rest != [] {
      assert p'.log[p'.committed..] == rest;
      assert p'.log[p'.committed + 1..] == rest[1..];
    }
  }

  lemma StepDecreasesRank(st: Store, p: Partition)
    requires !p.local.Idle? && p.committed < |p.log| && p.log[p.committed] == p.local.job && p.local.job.sid in st
    requires p.local.Working? ==> !p.local.pc.Commit?
    requires !Enqueues(p.local)
    ensures Rank(Advance(st, p).1) < Rank(p)
  {
    var p' := Advance(st, p).1;
    assert p'.log == p.log && p'.committed == p.committed;
    assert HeadRank(p'.local, p.local.job) < HeadRank(p.local, p.local.job);
  }

  /** Every step of a worker brings its partition strictly closer to rest. */
  lemma WorkDecreasesRank(w: World, part: nat)
    requires Inv(w) && part < |w.parts| && !w.parts[part].local.Idle?
    ensures Rank(Next(w, Work(part)).parts[part]) < Rank(w.parts[part])
    ensures forall k :: 0 <= k < |w.parts| && k != part ==> Next(w, Work(part)).parts[k] == w.parts[k]
  {
    assert PartOk(w, part);
    var p := w.parts[part];
    if Enqueues(p.local) {
      EnqueueDecreasesRank(w.store, p);
    } else if p.local.Working? && p.local.pc.Commit? {
      CommitDecreasesRank(w.store, p);
    } else {
      StepDecreasesRank(w.store, p);
    }
  }

  lemma FetchDecreasesRank(w: World, part: nat, env: Env)
    requires part < |w.parts| && w.parts[part].local.Idle? && w.parts[part].committed < |w.parts[part].log|
    ensures Rank(Next(w, Fetch(part, env)).parts[part]) == Rank(w.parts[part]) - 1
    ensures forall k :: 0 <= k < |w.parts| && k != part ==> Next(w, Fetch(part, env)).parts[k] == w.parts[k]
  {
  }

  lemma AppendAddsRank(p: Partition, job: Job)
    requires p.committed <= |p.log| && (p.committed == |p.log| ==> p.local.Idle?)
    ensures Rank(p.(log := p.log + [job])) == Rank(p) + Weight(job)
  {
    var p' := p.(log := p.log + [job]);
    if p.committed < |p.log| {
      assert p'.log[p'.committed + 1..] == p.log[p.committed + 1..] + [job];
      WeightAppend(p.log[p.committed + 1..], job);
    } else {
      assert p'.log[p'.committed + 1..] == [];
    }
  }

  /** Dispatching a submission adds the work of three profiles. */
  lemma DispatchAddsRank(w: World, sid: string)
    requires Inv(w) && Next(w, Dispatch(sid)) != w
    ensures Rank(Next(w, Dispatch(sid)).parts[w.home[sid]]) <= Rank(w.parts[w.home[sid]]) + 60
    ensures forall k :: 0 <= k < |w.parts| && k != w.home[sid] ==> Next(w, Dispatch(sid)).parts[k] == w.parts[k]
  {
    assert PartOk(w, w.home[sid]);
    AppendAddsRank(w.parts[w.home[sid]], Job(sid, Low, After(Low)));
  }

  function SumRanks(ps: seq<Partition>): nat {
    if ps == [] then 0 else Rank(ps[0]) + SumRanks(ps[1..])
  }

  lemma {:induction false} SumRanksUpdate(ps: seq<Partition>, qs: seq<Partition>, k: nat)
    requires |ps| == |qs| && k < |ps| && forall i :: 0 <= i < |ps| && i != k ==> qs[i] == ps[i]
    ensures SumRanks(qs) - SumRanks(ps) == Rank(qs[k]) - Rank(ps[k])
  {
    if k == 0 {
      assert qs[1..] == ps[1..];
    } else {
      SumRanksUpdate(ps[1..], qs[1..], k - 1);
    }
  }

  predicate WorkerMove(m: Move) { m.Fetch? || m.Work? }

  /** Worker moves of the run that did something. */
  ghost function Busy(w: World, ms: seq<Move>): nat
    decreases |ms|
  {
    if ms == [] then 0
    else (if WorkerMove(ms[0]) && Next(w, ms[0]) != w then 1 else 0) + Busy(Next(w, ms[0]), ms[1..])
  }

  /** Dispatches and crashes of the run that did something. */
  ghost function Dealt(w: World, ms: seq<Move>): nat
    decreases |ms|
  {
    if ms == [] then 0
    else (if (ms[0].Dispatch? || ms[0].Crash?) && Next(w, ms[0]) != w then 1 else 0) + Dealt(Next(w, ms[0]), ms[1..])
  }

  lemma IdleDoesNothing(w: World, part: nat)
    ensures part < |w.parts| && w.parts[part].local.Idle? ==> Next(w, Work(part)) == w
  {
    if part < |w.parts| { assert w.parts[part := w.parts[part]] == w.parts; }
  }

  /** A crash gives back at most the work of one job. */
  lemma CrashAddsRank(w: World, part: nat)
    requires Inv(w) && part < |w.parts|
    ensures Rank(Next(w, Crash(part)).parts[part]) <= Rank(w.parts[part]) + 60
    ensures forall k :: 0 <= k < |w.parts| && k != part ==> Next(w, Crash(part)).parts[k] == w.parts[k]
  {
    assert PartOk(w, part);
    var p := w.parts[part];
    if p.committed < |p.log| {
      assert JobOk(w.store, p.log[p.committed]);
      assert Weight(p.log[p.committed]) <= 60;
    }
  }

  lemma MoveChangesRank(w: World, m: Move)
    requires Inv(w)
    ensures
      SumRanks(Next(w, m).parts) + (if WorkerMove(m) && Next(w, m) != w then 1 else 0)
      <= SumRanks(w.parts) + (if (m.Dispatch? || m.Crash?) && Next(w, m) != w then 60 else 0)
  {
    if Next(w, m) != w {
      match m
      case Dispatch(sid) =>
        DispatchAddsRank(w, sid);
        SumRanksUpdate(w.parts, Next(w, m).parts, w.home[sid]);
      case Fetch(part, env) =>
        FetchDecreasesRank(w, part, env);
        SumRanksUpdate(w.parts, Next(w, m).parts, part);
      case Work(part) =>
        IdleDoesNothing(w, part);
        WorkDecreasesRank(w, part);
        SumRanksUpdate(w.parts, Next(w, m).parts, part);
      case Crash(part) =>
        CrashAddsRank(w, part);
        SumRanksUpdate(w.parts, Next(w, m).parts, part);
      case _ =>
    }
  }

  /** The workers take at most 60 steps per dispatched submission and 60 more per crash, whatever the
      interleaving: every run with finitely many of both comes to rest. */
  lemma {:induction false} WorkIsBounded(w: World, ms: seq<Move>)
    requires Inv(w)
    ensures Busy(w, ms) + SumRanks(Run(w, ms).parts) <= SumRanks(w.parts) + 60 * Dealt(w, ms)
    decreases |ms|
  {
    if ms != [] {
      NextKeepsInv(w, ms[0]);
      MoveChangesRank(w, ms[0]);
      WorkIsBounded(Next(w, ms[0]), ms[1..]);
    }
  }

  /** And at rest means drained: as long as a job waits or is held, some worker move does something. */
  lemma RestIsDrained(w: World)
    requires Inv(w) && forall part: nat :: Next(w, Work(part)) == w
    requires forall part: nat, env :: Next(w, Fetch(part, env)) == w
    ensures Drained(w)
  {
    forall k | 0 <= k < |w.parts| ensures w.parts[k].local.Idle? && w.parts[k].committed == |w.parts[k].log| {
      assert PartOk(w, k);
      if !w.parts[k].local.Idle? {
        assert Next(w, Work(k)) == w;
        WorkDecreasesRank(w, k);
      } else if w.parts[k].committed < |w.parts[k].log| {
        var env := Env(false, "", false, NotConfigured, None, false);
        assert Next(w, Fetch(k, env)) == w;
        FetchDecreasesRank(w, k, env);
      }
    }
  }
}
