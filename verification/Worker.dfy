/** The worker as it is written: one job after another, from guard to commit. Running it undisturbed
    is running the steps of the protocol machine one after another. */
module Worker {
  import opened Orders
  import opened ProfileChain
  import opened Outcomes
  import C = CrashFreeChain

  function StepsLeft(l: Local): nat {
    match l
    case Idle => 0
    case Fetched(_, _) => 13
    case Working(pc, _, _, _) =>
      match pc
      case WriteDeploying => 12
      case Deploy => 11
      case WriteContainer => 10
      case WriteDryRun => 9
      case WriteBenchmarking => 8
      case AppendResult => 7
      case Enqueue => 6
      case WriteScore => 6
      case MarkFailed => 5
      case WriteOutcome => 4
      case WriteFailed => 4
      case Commit => 3
  }

  /** The machine run from a worker's local state until it is idle. */
  function Finish(st: Store, p: Partition): (Store, Partition)
    decreases StepsLeft(p.local)
  {
    if p.local.Idle? then (st, p) else var (st', p') := Advance(st, p); Finish(st', p')
  }

  lemma FinishStep(st: Store, p: Partition)
    requires !p.local.Idle?
    ensures Finish(st, p) == Finish(Advance(st, p).0, Advance(st, p).1)
  {
  }

  // ---- What a job comes to ----

  /** A worker at `pc` whose copy is the stored submission. */
  function Standing(st: Store, log: seq<Job>, c: nat, pc: Pc, job: Job, env: Env): Partition
    requires job.sid in st
  {
    Partition(log, c, Working(pc, job, env, st[job.sid]))
  }

  /** Its submission as it should be, the log, and the job committed. */
  function Done(st: Store, log: seq<Job>, c: nat, t: Submission): (Store, Partition) {
    (Save(st, t), Partition(log, c + 1, Idle))
  }

  lemma EndsFailed(st: Store, log: seq<Job>, c: nat, job: Job, env: Env, sub: Submission)
    requires job.sid in st && st[job.sid].id == job.sid && sub.id == job.sid
    ensures Finish(st, Partition(log, c, Working(WriteFailed, job, env, sub)))
         == Done(st, log, c, st[job.sid].(status := Failed))
  {
    var p := Partition(log, c, Working(WriteFailed, job, env, sub));
    FinishStep(st, p);
    FinishStep(Advance(st, p).0, Advance(st, p).1);
  }

  lemma EndsRun(st: Store, log: seq<Job>, c: nat, job: Job, env: Env, sub: Submission)
    requires job.sid in st && st[job.sid].id == job.sid && sub.id == job.sid
    ensures Finish(st, Partition(log, c, Working(WriteOutcome, job, env, sub)))
         == Done(st, log, c, st[job.sid].(status := if job.remaining == [] then Completed else Running))
  {
    var p := Partition(log, c, Working(WriteOutcome, job, env, sub));
    FinishStep(st, p);
    FinishStep(Advance(st, p).0, Advance(st, p).1);
  }

  lemma EndsMarked(st: Store, log: seq<Job>, c: nat, job: Job, env: Env)
    requires job.sid in st && st[job.sid].id == job.sid
    ensures Finish(st, Standing(st, log, c, MarkFailed, job, env))
         == Done(st, log, c, st[job.sid].(status := Failed))
  {
    var s := st[job.sid];
    var st1 := Save(st, s.(status := Failed));
    FinishStep(st, Standing(st, log, c, MarkFailed, job, env));
    EndsFailed(st1, log, c, job, env, s);
    assert Save(st1, s.(status := Failed)) == st1;
  }

  lemma SavedTwice(st: Store, a: Submission, b: Submission)
    requires a.id == b.id
    ensures Save(Save(st, a), b) == Save(st, b)
  {
  }

  /** The submission after a result that was recorded: the chain goes on, is cut, or is closed. */
  ghost predicate AfterResult(job: Job, env: Env, s: Submission, t: Submission, enqueued: seq<Job>) {
    if job.remaining == [] then
      t == s.(status := Completed, finalScore := t.finalScore) && Weighs(s.results, t.finalScore) && enqueued == []
    else if env.queueOk then
      t == s.(status := Running) && enqueued == [Job(job.sid, job.remaining[0], job.remaining[1..])]
    else t == s.(status := Failed) && enqueued == []
  }

  lemma EndsChain(st: Store, log: seq<Job>, c: nat, job: Job, env: Env) returns (t: Submission, enqueued: seq<Job>)
    requires job.sid in st && st[job.sid].id == job.sid
    ensures AfterResult(job, env, st[job.sid], t, enqueued)
    ensures Finish(st, Standing(st, log, c, if job.remaining != [] then Enqueue else WriteScore, job, env))
         == Done(st, log + enqueued, c, t)
  {
    var s := st[job.sid];
    if job.remaining == [] {
      var scored := s.(finalScore := FinalScoreOf(s.results));
      var st1 := Save(st, scored);
      t, enqueued := scored.(status := Completed), [];
      FinishStep(st, Standing(st, log, c, WriteScore, job, env));
      EndsRun(st1, log, c, job, env, s);
      SavedTwice(st, scored, t);
      FinalScoreWeighs(s.results);
      assert log + enqueued == log;
    } else if env.queueOk {
      t, enqueued := s.(status := Running), [Job(job.sid, job.remaining[0], job.remaining[1..])];
      FinishStep(st, Standing(st, log, c, Enqueue, job, env));
      EndsRun(st, log + enqueued, c, job, env, s);
    } else {
      t, enqueued := s.(status := Failed), [];
      FinishStep(st, Standing(st, log, c, Enqueue, job, env));
      EndsMarked(st, log, c, job, env);
      assert log + enqueued == log;
    }
  }

  /** From the start of the fleet. */
  lemma EndsFleet(st: Store, log: seq<Job>, c: nat, job: Job, env: Env) returns (t: Submission, enqueued: seq<Job>)
    requires job.sid in st && st[job.sid].id == job.sid
    ensures
      var s := st[job.sid];
      if env.fleet.None? then t == s.(status := Failed) && enqueued == []
      else
        var r := s.(status := Benchmarking, results := s.results + [RunResult(job.profile, env.fleet.value)]);
        AfterResult(job, env, r, t, enqueued)
    ensures t.id == job.sid
    ensures Finish(st, Standing(st, log, c, WriteBenchmarking, job, env)) == Done(st, log + enqueued, c, t)
  {
    var s := st[job.sid];
    var s1 := s.(status := Benchmarking);
    var st1 := Save(st, s1);
    FinishStep(st, Standing(st, log, c, WriteBenchmarking, job, env));
    if env.fleet.None? {
      t, enqueued := s.(status := Failed), [];
      EndsFailed(st1, log, c, job, env, s1);
      SavedTwice(st, s1, t);
      assert log + enqueued == log;
    } else {
      var s2 := s1.(results := s1.results + [RunResult(job.profile, env.fleet.value)]);
      var st2 := Save(st1, s2);
      FinishStep(st1, Standing(st1, log, c, AppendResult, job, env));
      t, enqueued := EndsChain(st2, log, c, job, env);
      SavedTwice(st, s1, s2);
      SavedTwice(st, s2, t);
    }
  }

  /** From the validator's gate. */
  lemma EndsGate(st: Store, log: seq<Job>, c: nat, job: Job, env: Env, sub: Submission)
      returns (t: Submission, enqueued: seq<Job>)
    requires job.sid in st && st[job.sid].id == job.sid && sub == st[job.sid] && env.deployed && env.healthy
    requires env.container == sub.container
    ensures Closes(job, env, sub, t, enqueued)
    ensures
      var gate := if job.profile.Low? && !env.preflight.NotConfigured? then WriteDryRun else WriteBenchmarking;
      Finish(st, Standing(st, log, c, gate, job, env)) == Done(st, log + enqueued, c, t)
  {
    if !Validated(job, env) {
      t, enqueued := EndsFleet(st, log, c, job, env);
    } else {
      var s1 := sub.(dryRun := Some(env.preflight.Passed?));
      var st1 := Save(st, s1);
      FinishStep(st, Standing(st, log, c, WriteDryRun, job, env));
      if env.preflight.Rejected? {
        t, enqueued := s1.(status := Failed), [];
        EndsMarked(st1, log, c, job, env);
        assert log + enqueued == log;
      } else {
        t, enqueued := EndsFleet(st1, log, c, job, env);
      }
      SavedTwice(st, s1, t);
    }
  }

  /** From the first write of a guarded job. */
  lemma EndsWork(st: Store, log: seq<Job>, c: nat, job: Job, env: Env) returns (t: Submission, enqueued: seq<Job>)
    requires job.sid in st && st[job.sid].id == job.sid
    ensures Closes(job, env, st[job.sid], t, enqueued)
    ensures Finish(st, Standing(st, log, c, WriteDeploying, job, env)) == Done(st, log + enqueued, c, t)
  {
    var s := st[job.sid];
    var s1 := s.(status := Deploying);
    var st1 := Save(st, s1);
    FinishStep(st, Standing(st, log, c, WriteDeploying, job, env));
    FinishStep(st1, Partition(log, c, Working(Deploy, job, env, s)));
    if !env.deployed {
      t, enqueued := s.(status := Failed), [];
      EndsFailed(st1, log, c, job, env, s1);
      SavedTwice(st, s1, t);
      assert log + enqueued == log;
    } else {
      var s2 := s1.(container := env.container);
      var st2 := Save(st1, s2);
      FinishStep(st1, Standing(st1, log, c, WriteContainer, job, env));
      SavedTwice(st, s1, s2);
      if !env.healthy {
        t, enqueued := s2.(status := Failed), [];
        EndsFailed(st2, log, c, job, env, s2);
        assert log + enqueued == log;
      } else {
        t, enqueued := EndsGate(st2, log, c, job, env, s2);
      }
      SavedTwice(st, s2, t);
    }
  }

  /** A job picked up and worked off undisturbed does what the source promises, whatever its submission's
      status and whatever the outside world answers. */
  lemma JobIsHandled(st: Store, p: Partition)
    requires p.local.Fetched? && forall id :: id in st ==> st[id].id == id
    ensures Handled(st, p, p.local.job, p.local.env, Finish(st, p).0, Finish(st, p).1)
  {
    var job, env := p.local.job, p.local.env;
    FinishStep(st, p);
    if job.sid in st {
      var s := st[job.sid];
      if s.status == Pending || s.status == Running {
        var t, enqueued := EndsWork(st, p.log, p.committed, job, env);
        assert (p.log + enqueued)[|p.log|..] == enqueued;
      } else {
        FinishStep(st, p.(local := Working(Commit, job, env, s)));
      }
    }
  }

  class Worker {
    var store: Store
    var log: seq<Job>
    var committed: nat

    constructor (store: Store, log: seq<Job>)
      ensures this.store == store && this.log == log && committed == 0
    {
      this.store, this.log, committed := store, log, 0;
    }

    ghost function At(l: Local): Partition
      reads this
    {
      Partition(log, committed, l)
    }

    method SetStatus(sub: Submission, status: Status)
      modifies this`store
      ensures store == Save(old(store), sub.(status := status))
    {
      store := store[sub.id := sub.(status := status)];
    }

    /** Appends a result to a fresh copy of the submission and hands that copy back. */
    method AppendProfileResult(sub: Submission, result: RunResult) returns (mine: Submission)
      modifies this`store
      ensures
        var cur := Fresh(old(store), sub);
        mine == cur.(results := cur.results + [result]) && store == Save(old(store), mine)
    {
      mine := if sub.id in store then store[sub.id] else sub;
      mine := mine.(results := mine.results + [result]);
      store := store[mine.id := mine];
    }

    /** Enqueues the next profile, or marks the submission failed when the queue refuses. */
    method EnqueueNextProfile(sub: Submission, job: Job, queueOk: bool) returns (ok: bool)
      requires job.remaining != []
      modifies this`store, this`log
      ensures ok == queueOk
      ensures ok ==> store == old(store) && log == old(log) + [Job(job.sid, job.remaining[0], job.remaining[1..])]
      ensures !ok ==> store == Save(old(store), sub.(status := Failed)) && log == old(log)
    {
      if !queueOk {
        SetStatus(sub, Failed);
        return false;
      }
      log := log + [Job(job.sid, job.remaining[0], job.remaining[1..])];
      return true;
    }

    method ComputeAndWriteFinalScore(sub: Submission)
      modifies this`store
      ensures store == if sub.id in old(store)
        then Save(old(store), old(store)[sub.id].(finalScore := FinalScoreOf(old(store)[sub.id].results)))
        else old(store)
      ensures sub.id in old(store) ==>
        var cur := old(store)[sub.id];
        cur.id in store && store[cur.id].results == cur.results && Weighs(cur.results, store[cur.id].finalScore)
    {
      if sub.id !in store {
        return;
      }
      var cur := store[sub.id];
      FinalScoreWeighs(cur.results);
      store := store[cur.id := cur.(finalScore := FinalScoreOf(cur.results))];
    }

    /** The validator gate of low-profile jobs: records its verdict, and fails the submission when
        the validator rejects it. */
    method RunPreflight(job: Job, env: Env, sub: Submission) returns (ok: bool, mine: Submission)
      requires sub.id == job.sid && job.sid in store && store[job.sid].id == job.sid
      modifies this`store
      ensures
        var gate := if job.profile.Low? && !env.preflight.NotConfigured? then WriteDryRun else WriteBenchmarking;
        Finish(store, At(Working(if ok then WriteBenchmarking else WriteFailed, job, env, mine)))
          == old(Finish(store, At(Working(gate, job, env, sub))))
      ensures mine.id == job.sid && job.sid in store && store[job.sid].id == job.sid
      ensures ok <==> !(job.profile.Low? && env.preflight.Rejected?)
      ensures
        var cur := old(store)[job.sid];
        store ==
          if !job.profile.Low? || env.preflight.NotConfigured? then old(store)
          else if env.preflight.Passed? then old(store)[job.sid := cur.(dryRun := Some(true))]
          else old(store)[job.sid := cur.(dryRun := Some(false), status := Failed)]
    {
      if !job.profile.Low? || env.preflight.NotConfigured? {
        return true, sub;
      }
      FinishStep(store, At(Working(WriteDryRun, job, env, sub)));
      mine := store[sub.id].(dryRun := Some(env.preflight.Passed?));
      store := store[mine.id := mine];
      if !env.preflight.Passed? {
        FinishStep(store, At(Working(MarkFailed, job, env, mine)));
        SetStatus(mine, Failed);
        return false, mine;
      }
      return true, mine;
    }

    /** Records the result of the fleet run, then passes the chain on or closes it with the score. */
    method PersistAndDispatch(job: Job, env: Env, sub: Submission) returns (ok: bool, mine: Submission)
      requires sub.id == job.sid && job.sid in store && store[job.sid].id == job.sid && env.fleet.Some?
      modifies this`store, this`log
      ensures Finish(store, At(Working(if ok then WriteOutcome else WriteFailed, job, env, mine)))
           == old(Finish(store, At(Working(AppendResult, job, env, sub))))
      ensures mine.id == job.sid && job.sid in store && store[job.sid].id == job.sid
    {
      FinishStep(store, At(Working(AppendResult, job, env, sub)));
      mine := AppendProfileResult(sub, RunResult(job.profile, env.fleet.value));
      if |job.remaining| > 0 {
        FinishStep(store, At(Working(Enqueue, job, env, mine)));
        if !env.queueOk { FinishStep(store, At(Working(MarkFailed, job, env, mine))); }
        ok := EnqueueNextProfile(mine, job, env.queueOk);
        return ok, mine;
      }
      FinishStep(store, At(Working(WriteScore, job, env, mine)));
      ComputeAndWriteFinalScore(mine);
      return true, mine;
    }

    /** Runs one profile; `sub0` is the caller's copy, `sub` leaves as the executor's. */
    method Execute(job: Job, env: Env, ghost sub0: Submission) returns (ok: bool, sub: Submission)
      requires sub0.id == job.sid && job.sid in store && store[job.sid].id == job.sid
      modifies this`store, this`log
      ensures Finish(store, At(Working(if ok then WriteOutcome else WriteFailed, job, env, sub)))
           == old(Finish(store, At(Working(Deploy, job, env, sub0))))
      ensures sub.id == job.sid && job.sid in store && store[job.sid].id == job.sid
    {
      FinishStep(store, At(Working(Deploy, job, env, sub0)));
      sub := store[job.sid];
      if !env.deployed {
        return false, sub;
      }
      FinishStep(store, At(Working(WriteContainer, job, env, sub)));
      sub := sub.(container := env.container);
      store := store[sub.id := sub];
      if !env.healthy {
        return false, sub;
      }
      ok, sub := RunPreflight(job, env, sub);
      if !ok {
        return false, sub;
      }
      FinishStep(store, At(Working(WriteBenchmarking, job, env, sub)));
      sub := sub.(status := Benchmarking);
      store := store[sub.id := sub];
      if env.fleet.None? {
        return false, sub;
      }
      ok, sub := PersistAndDispatch(job, env, sub);
    }

    /** From the first write of a guarded job to its commit. */
    method RunGuarded(job: Job, env: Env, sub0: Submission)
      requires sub0.id == job.sid && job.sid in store && store[job.sid].id == job.sid
      modifies this
      ensures (store, At(Idle)) == old(Finish(store, At(Working(WriteDeploying, job, env, sub0))))
    {
      FinishStep(store, At(Working(WriteDeploying, job, env, sub0)));
      SetStatus(sub0, Deploying);
      var ok, last := Execute(job, env, sub0);
      FinishStep(store, At(Working(if ok then WriteOutcome else WriteFailed, job, env, last)));
      var sub := store[job.sid];
      if !ok {
        SetStatus(sub, Failed);
      } else if |job.remaining| == 0 {
        SetStatus(sub, Completed);
      } else {
        SetStatus(sub, Running);
      }
      FinishStep(store, At(Working(Commit, job, env, last)));
      committed := committed + 1;
    }

    /** Handles the job at the head of the log, whatever state its submission is in. */
    method ProcessJob(env: Env)
      requires committed < |log|
      requires forall id :: id in store ==> store[id].id == id
      modifies this
      ensures (store, At(Idle)) == old(Finish(store, At(Fetched(log[committed], env))))
      ensures Handled(old(store), old(At(Idle)), old(log[committed]), env, store, At(Idle))
    {
      JobIsHandled(store, At(Fetched(log[committed], env)));
      var job := log[committed];
      FinishStep(store, At(Fetched(job, env)));
      if job.sid !in store {
        return;
      }
      var sub := store[job.sid];
      if Guard(store, job, env).pc.Commit? { FinishStep(store, At(Working(Commit, job, env, sub))); }
      if IsTerminal(sub.status) {
        committed := committed + 1;
        return;
      }
      if sub.status != Pending && sub.status != Running {
        committed := committed + 1;
        return;
      }
      RunGuarded(job, env, sub);
    }

    /** The fields are what the only partition of world `w` shows. */
    ghost predicate Shows(w: World)
      reads this
    {
      w.store == store && w.parts == [At(Idle)]
    }

    /** One turn of the poll loop. */
    method Poll(ghost w: World, env: Env) returns (ghost end: World)
      requires C.Clean(w) && Shows(w) && committed < |log|
      modifies this
      ensures C.Clean(end) && Shows(end) && committed <= |log|
      ensures end.store.Keys == w.store.Keys && end.ingesting == w.ingesting
      ensures C.Rank(At(Idle)) < old(C.Rank(At(Idle)))
    {
      assert w.parts[0] == At(Idle);
      WellKept(w);
      UndisturbedJob(w, 0, env);
      end := AfterJob(w, 0, env);
      ProcessJob(env);
      WellKept(end);
      assert end.parts[0] == At(Idle);
    }

    /** The poll loop, until the queue is empty: it comes to an end, and it leaves every dispatched
        submission terminal, completed ones with their three profiles run in order. */
    method Drain(ghost w: World) returns (ghost end: World)
      requires C.Clean(w) && Shows(w)
      modifies this
      ensures C.Clean(end) && Shows(end) && committed == |log|
      ensures end.store.Keys == w.store.Keys && end.ingesting == w.ingesting
      ensures forall id :: id in end.store && id !in end.ingesting ==> C.Settled(end.store[id])
    {
      end := w;
      WellKept(end);
      assert end.parts[0] == At(Idle);
      while committed < |log|
        invariant C.Clean(end) && Shows(end) && committed <= |log|
        invariant end.store.Keys == w.store.Keys && end.ingesting == w.ingesting
        decreases C.Rank(At(Idle))
      {
        var env: Env := *;
        end := Poll(end, env);
      }
      AllSettled(end, At(Idle));
    }
  }

  lemma AllSettled(w: World, p: Partition)
    requires C.Clean(w) && w.parts == [p] && p.local.Idle? && p.committed == |p.log|
    ensures forall id :: id in w.store && id !in w.ingesting ==> C.Settled(w.store[id])
  {
    assert w.parts[0] == p;
    forall id | id in w.store && id !in w.ingesting ensures C.Settled(w.store[id]) {
      C.DrainedSettles(w, id);
    }
  }

  lemma WellKept(w: World)
    requires C.Clean(w)
    ensures forall id :: id in w.store ==> w.store[id].id == id
    ensures forall k :: 0 <= k < |w.parts| ==> w.parts[k].committed <= |w.parts[k].log|
  {
    forall k | 0 <= k < |w.parts| ensures w.parts[k].committed <= |w.parts[k].log| { assert PartOk(w, k); }
  }

  // ---- Undisturbed processing is a run of the protocol machine ----

  ghost function FinishWorld(w: World, part: nat): World
    requires part < |w.parts|
  {
    var (st, p) := Finish(w.store, w.parts[part]);
    w.(store := st, parts := w.parts[part := p])
  }

  function Works(part: nat, k: nat): seq<Move> { seq(k, _ => Work(part)) }

  lemma {:induction false} FinishIsWork(w: World, part: nat) returns (k: nat)
    requires part < |w.parts|
    ensures Run(w, Works(part, k)) == FinishWorld(w, part)
    ensures w.parts[part].local.Idle? ==> k == 0
    decreases StepsLeft(w.parts[part].local)
  {
    if w.parts[part].local.Idle? {
      k := 0;
      assert w.parts[part := w.parts[part]] == w.parts;
    } else {
      var w1 := Next(w, Work(part));
      var j := FinishIsWork(w1, part);
      k := j + 1;
      assert Works(part, k)[1..] == Works(part, j);
      assert w1.parts[part := FinishWorld(w1, part).parts[part]] == w.parts[part := FinishWorld(w1, part).parts[part]];
    }
  }

  /** The world after the next job of a partition was fetched and worked off. */
  ghost function AfterJob(w: World, part: nat, env: Env): World
    requires part < |w.parts| && w.parts[part].committed < |w.parts[part].log|
  {
    var p := w.parts[part];
    var (st, p') := Finish(w.store, p.(local := Fetched(p.log[p.committed], env)));
    w.(store := st, parts := w.parts[part := p'])
  }

  lemma {:induction false} WorksRank(w: World, part: nat, k: nat)
    requires C.Clean(w) && part < |w.parts|
    ensures C.Clean(Run(w, Works(part, k))) && |Run(w, Works(part, k)).parts| == |w.parts|
    ensures C.Rank(Run(w, Works(part, k)).parts[part]) <= C.Rank(w.parts[part])
    ensures Run(w, Works(part, k)).store.Keys == w.store.Keys
    decreases k
  {
    if k > 0 {
      assert Works(part, k)[1..] == Works(part, k - 1);
      assert PartOk(w, part);
      C.WorkKeepsClean(w, part);
      AdvanceEvolves(w.store, w.parts[part]);
      if !w.parts[part].local.Idle? { C.WorkDecreasesRank(w, part); }
      WorksRank(Next(w, Work(part)), part, k - 1);
    }
  }

  /** Fetching the next job and working it off undisturbed. */
  lemma UndisturbedJob(w: World, part: nat, env: Env)
    requires C.Clean(w) && part < |w.parts|
    requires w.parts[part].local.Idle? && w.parts[part].committed < |w.parts[part].log|
    ensures
      var w' := AfterJob(w, part, env);
      C.Clean(w') && C.Rank(w'.parts[part]) < C.Rank(w.parts[part]) && w'.store.Keys == w.store.Keys
  {
    var w1 := Next(w, Fetch(part, env));
    C.FetchKeepsClean(w, part, env);
    C.FetchDecreasesRank(w, part, env);
    var k := FinishIsWork(w1, part);
    WorksRank(w1, part, k);
    assert FinishWorld(w1, part).parts == AfterJob(w, part, env).parts;
  }
}
