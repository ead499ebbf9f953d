/** Runs from the initial world, one crash in each: a submission whose profiles were executed twice and that
    completed nevertheless, and one that is left behind for good. */
module RedeliveryRuns {
  import opened Orders
  import opened ProfileChain
  import opened CrashFreeChain
  import opened Redelivery
  import W = Worker

  /** A world of one partition and one submission past its ingest. */
  function One(sub: Submission, p: Partition): World {
    World(map[sub.id := sub], [p], map[sub.id := 0], {}, {})
  }

  function EnvOf(score: real): Env {
    Env(true, "c", true, NotConfigured, Some(score), true)
  }

  // ---- Runs, put together step by step ----

  lemma {:induction false} RunConcat(w: World, a: seq<Move>, b: seq<Move>)
    ensures Run(w, a + b) == Run(Run(w, a), b)
    decreases |a|
  {
    if a == [] {
      assert a + b == b;
    } else {
      assert (a + b)[1..] == a[1..] + b;
      RunConcat(Next(w, a[0]), a[1..], b);
    }
  }

  lemma RunOne(w: World, m: Move)
    ensures Run(w, [m]) == Next(w, m)
  {
    assert [m][1..] == [];
    assert Run(Next(w, m), []) == Next(w, m);
  }

  lemma RunTwo(w: World, a: Move, b: Move)
    ensures Run(w, [a, b]) == Next(Next(w, a), b)
  {
    assert [a, b][1..] == [b] && [b][1..] == [];
    var w2 := Next(Next(w, a), b);
    assert Run(w2, []) == w2;
    assert Run(Next(w, a), [b]) == w2;
  }

  lemma NextWrite(sub: Submission, p: Partition, sub': Submission, p': Partition)
    requires Advance(map[sub.id := sub], p) == (Save(map[sub.id := sub], sub'), p') && sub'.id == sub.id
    ensures Next(One(sub, p), Work(0)) == One(sub', p')
  {
    assert Save(map[sub.id := sub], sub') == map[sub'.id := sub'];
  }

  lemma NextRead(sub: Submission, p: Partition, p': Partition)
    requires Advance(map[sub.id := sub], p) == (map[sub.id := sub], p')
    ensures Next(One(sub, p), Work(0)) == One(sub, p')
  {
  }

  lemma RunWorks(w: World, k: nat, w1: World, end: World)
    requires Next(w, Work(0)) == w1 && Run(w1, W.Works(0, k)) == end
    ensures Run(w, W.Works(0, k + 1)) == end
  {
    assert W.Works(0, k + 1)[1..] == W.Works(0, k);
  }

  lemma RunNoWorks(w: World)
    ensures Run(w, W.Works(0, 0)) == w
  {
  }

  // ---- One job, processed without trouble ----

  /** The submission when its result has been recorded. */
  function Recorded(sub: Submission, profile: Label, score: real): Submission {
    sub.(status := Benchmarking, container := "c", results := sub.results + [RunResult(profile, score)])
  }

  function At(log: seq<Job>, c: nat, pc: Pc, score: real, sub: Submission): Partition
    requires c < |log|
  {
    Partition(log, c, Working(pc, log[c], EnvOf(score), sub))
  }

  predicate Ready(sub: Submission, log: seq<Job>, c: nat) {
    c < |log| && log[c].sid == sub.id && (sub.status == Pending || sub.status == Running)
  }

  /** From the fetched job to the recorded result, followed by `k` more steps that end in `end`. */
  lemma Records(sub: Submission, log: seq<Job>, c: nat, score: real, k: nat, end: World)
    requires Ready(sub, log, c)
    requires
      var next := if log[c].remaining != [] then Enqueue else WriteScore;
      var mine := Recorded(sub, log[c].profile, score);
      Run(One(mine, At(log, c, next, score, mine)), W.Works(0, k)) == end
    ensures Run(One(sub, Partition(log, c, Fetched(log[c], EnvOf(score)))), W.Works(0, k + 6)) == end
  {
    var job := log[c];
    var s1 := sub.(status := Deploying);
    var s2 := s1.(container := "c");
    var s3 := s2.(status := Benchmarking);
    var s4 := Recorded(sub, job.profile, score);
    var p0 := Partition(log, c, Fetched(job, EnvOf(score)));
    var p1, p2 := At(log, c, WriteDeploying, score, sub), At(log, c, Deploy, score, sub);
    var p3, p4 := At(log, c, WriteContainer, score, s1), At(log, c, WriteBenchmarking, score, s2);
    var p5 := At(log, c, AppendResult, score, s3);
    var p6 := At(log, c, if job.remaining != [] then Enqueue else WriteScore, score, s4);
    NextWrite(s3, p5, s4, p6);
    RunWorks(One(s3, p5), k, One(s4, p6), end);
    NextWrite(s2, p4, s3, p5);
    RunWorks(One(s2, p4), k + 1, One(s3, p5), end);
    NextWrite(s1, p3, s2, p4);
    RunWorks(One(s1, p3), k + 2, One(s2, p4), end);
    NextRead(s1, p2, p3);
    RunWorks(One(s1, p2), k + 3, One(s1, p3), end);
    NextWrite(sub, p1, s1, p2);
    RunWorks(One(sub, p1), k + 4, One(s1, p2), end);
    NextRead(sub, p0, p1);
    RunWorks(One(sub, p0), k + 5, One(sub, p1), end);
  }

  /** The submission after a job that is not the last, and after the last. */
  function Ran(sub: Submission, profile: Label, score: real): Submission {
    Recorded(sub, profile, score).(status := Running)
  }

  function Closed(sub: Submission, profile: Label, score: real): Submission {
    var mine := Recorded(sub, profile, score);
    mine.(finalScore := FinalScoreOf(mine.results), status := Completed)
  }

  /** A job is fetched, and its worker takes `k` steps. */
  function JobMoves(score: real, k: nat): seq<Move> { [Fetch(0, EnvOf(score))] + W.Works(0, k) }

  lemma FetchThen(sub: Submission, log: seq<Job>, c: nat, score: real, k: nat, end: World)
    requires c < |log|
    requires Run(One(sub, Partition(log, c, Fetched(log[c], EnvOf(score)))), W.Works(0, k)) == end
    ensures Run(One(sub, Partition(log, c, Idle)), JobMoves(score, k)) == end
  {
    assert JobMoves(score, k)[1..] == W.Works(0, k);
    assert Next(One(sub, Partition(log, c, Idle)), Fetch(0, EnvOf(score)))
        == One(sub, Partition(log, c, Fetched(log[c], EnvOf(score))));
  }

  /** A job that is not the last, up to its commit, followed by `k` more steps. */
  lemma MiddleJob(sub: Submission, log: seq<Job>, c: nat, score: real, k: nat, end: World)
    requires Ready(sub, log, c) && log[c].remaining != []
    requires
      var log' := log + [FollowUp(log[c])];
      var mine := Recorded(sub, log[c].profile, score);
      Run(One(Ran(sub, log[c].profile, score), At(log', c, Commit, score, mine)), W.Works(0, k)) == end
    ensures Run(One(sub, Partition(log, c, Idle)), JobMoves(score, k + 8)) == end
  {
    var log' := log + [FollowUp(log[c])];
    var mine, ran := Recorded(sub, log[c].profile, score), Ran(sub, log[c].profile, score);
    var p6, p7 := At(log, c, Enqueue, score, mine), At(log', c, WriteOutcome, score, mine);
    var p8 := At(log', c, Commit, score, mine);
    NextWrite(mine, p7, ran, p8);
    RunWorks(One(mine, p7), k, One(ran, p8), end);
    NextRead(mine, p6, p7);
    RunWorks(One(mine, p6), k + 1, One(mine, p7), end);
    Records(sub, log, c, score, k + 2, end);
    FetchThen(sub, log, c, score, k + 8, end);
  }

  /** Its worker crashes before the commit: the job waits again, and so does the one it enqueued. */
  lemma CrashedJob(sub: Submission, log: seq<Job>, c: nat, score: real)
    requires Ready(sub, log, c) && log[c].remaining != []
    ensures Run(One(sub, Partition(log, c, Idle)), JobMoves(score, 8) + [Crash(0)])
         == One(Ran(sub, log[c].profile, score), Partition(log + [FollowUp(log[c])], c, Idle))
  {
    var log' := log + [FollowUp(log[c])];
    var ran := Ran(sub, log[c].profile, score);
    var w := One(ran, At(log', c, Commit, score, Recorded(sub, log[c].profile, score)));
    RunNoWorks(w);
    MiddleJob(sub, log, c, score, 0, w);
    RunConcat(One(sub, Partition(log, c, Idle)), JobMoves(score, 8), [Crash(0)]);
    RunOne(w, Crash(0));
    assert Next(w, Crash(0)) == One(ran, Partition(log', c, Idle));
  }

  lemma CommittedJob(sub: Submission, log: seq<Job>, c: nat, score: real)
    requires Ready(sub, log, c) && log[c].remaining != []
    ensures Run(One(sub, Partition(log, c, Idle)), JobMoves(score, 9))
         == One(Ran(sub, log[c].profile, score), Partition(log + [FollowUp(log[c])], c + 1, Idle))
  {
    var log' := log + [FollowUp(log[c])];
    var ran, mine := Ran(sub, log[c].profile, score), Recorded(sub, log[c].profile, score);
    var p8, p9 := At(log', c, Commit, score, mine), Partition(log', c + 1, Idle);
    NextRead(ran, p8, p9);
    RunNoWorks(One(ran, p9));
    RunWorks(One(ran, p8), 0, One(ran, p9), One(ran, p9));
    MiddleJob(sub, log, c, score, 1, One(ran, p9));
  }

  lemma LastJob(sub: Submission, log: seq<Job>, c: nat, score: real)
    requires Ready(sub, log, c) && log[c].remaining == []
    ensures Run(One(sub, Partition(log, c, Idle)), JobMoves(score, 9))
         == One(Closed(sub, log[c].profile, score), Partition(log, c + 1, Idle))
  {
    var mine, closed := Recorded(sub, log[c].profile, score), Closed(sub, log[c].profile, score);
    var scored := mine.(finalScore := FinalScoreOf(mine.results));
    var p6, p7 := At(log, c, WriteScore, score, mine), At(log, c, WriteOutcome, score, mine);
    var p8, p9 := At(log, c, Commit, score, mine), Partition(log, c + 1, Idle);
    var end := One(closed, p9);
    RunNoWorks(end);
    NextRead(closed, p8, p9);
    RunWorks(One(closed, p8), 0, end, end);
    NextWrite(scored, p7, closed, p8);
    RunWorks(One(scored, p7), 1, One(closed, p8), end);
    NextWrite(mine, p6, scored, p7);
    RunWorks(One(mine, p6), 2, One(scored, p7), end);
    Records(sub, log, c, score, 3, end);
    FetchThen(sub, log, c, score, 9, end);
  }

  // ---- From the initial world ----

  const REQUEST := Request("s", "team", "contest")
  const NEW := NewSubmission(REQUEST)
  const LOW_JOB := Job("s", Low, [Medium, High])
  const MEDIUM_JOB := Job("s", Medium, [High])
  const HIGH_JOB := Job("s", High, [])

  const START: seq<Move> := [Admit(REQUEST), Ingest(REQUEST, 0), Dispatch("s")]

  /** The submission saved, its ingest about to enqueue the first job. */
  function Ingesting(): World {
    World(map["s" := NEW], [Partition([], 0, Idle)], map["s" := 0], {}, {"s"})
  }

  lemma Ingested(m: Move)
    ensures Run(InitialWorld(1), [Admit(REQUEST), Ingest(REQUEST, 0), m]) == Next(Ingesting(), m)
  {
    var w0 := InitialWorld(1);
    var w1 := w0.(admitted := {REQUEST});
    assert Next(w0, Admit(REQUEST)) == w1;
    assert w1.parts == Ingesting().parts && {REQUEST} - {REQUEST} == {};
    assert Next(w1, Ingest(REQUEST, 0)) == Ingesting();
    assert [Admit(REQUEST), Ingest(REQUEST, 0), m][1..] == [Ingest(REQUEST, 0), m];
    RunTwo(w1, Ingest(REQUEST, 0), m);
  }

  lemma Started()
    ensures Run(InitialWorld(1), START) == One(NEW, Partition([LOW_JOB], 0, Idle))
  {
    Ingested(Dispatch("s"));
    assert [] + [LOW_JOB] == [LOW_JOB] && {"s"} - {"s"} == {};
    assert Ingesting().parts[0 := Partition([LOW_JOB], 0, Idle)] == [Partition([LOW_JOB], 0, Idle)];
    assert Next(Ingesting(), Dispatch("s")) == One(NEW, Partition([LOW_JOB], 0, Idle));
  }

  function Crashes(ms: seq<Move>): nat {
    if ms == [] then 0 else (if ms[0].Crash? then 1 else 0) + Crashes(ms[1..])
  }

  lemma {:induction false} CrashesConcat(a: seq<Move>, b: seq<Move>)
    ensures Crashes(a + b) == Crashes(a) + Crashes(b)
  {
    if a == [] {
      assert a + b == b;
    } else {
      assert (a + b)[1..] == a[1..] + b;
      CrashesConcat(a[1..], b);
    }
  }

  lemma {:induction false} NoCrashes(ms: seq<Move>)
    requires forall i :: 0 <= i < |ms| ==> !ms[i].Crash?
    ensures Crashes(ms) == 0
  {
    if ms != [] { NoCrashes(ms[1..]); }
  }

  lemma JobMovesDoNotCrash(score: real, k: nat)
    ensures Crashes(JobMoves(score, k)) == 0
  {
    NoCrashes(JobMoves(score, k));
  }

  /** The low profile crashes once before its commit and is executed again; everything else is smooth. */
  function RepeatedRun(a: real, b: real): seq<Move> {
    (START + (JobMoves(a, 8) + [Crash(0)])) + JobMoves(b, 9) + JobMoves(b, 9) + JobMoves(b, 9) + JobMoves(b, 9)
  }

  lemma AfterCrash(a: real)
    ensures Run(InitialWorld(1), START + (JobMoves(a, 8) + [Crash(0)]))
         == One(Ran(NEW, Low, a), Partition([LOW_JOB, MEDIUM_JOB], 0, Idle))
  {
    Started();
    RunConcat(InitialWorld(1), START, JobMoves(a, 8) + [Crash(0)]);
    CrashedJob(NEW, [LOW_JOB], 0, a);
    assert [LOW_JOB] + [MEDIUM_JOB] == [LOW_JOB, MEDIUM_JOB];
  }

  lemma CommittedAppends(sub: Submission, log: seq<Job>, c: nat, score: real, next: Job)
    requires Ready(sub, log, c) && log[c].remaining != [] && next == FollowUp(log[c])
    ensures Run(One(sub, Partition(log, c, Idle)), JobMoves(score, 9))
         == One(Ran(sub, log[c].profile, score), Partition(log + [next], c + 1, Idle))
  {
    CommittedJob(sub, log, c, score);
  }

  /** The submission at the end of that run. */
  function Repeated(a: real, b: real): Submission {
    Closed(Ran(Ran(Ran(Ran(NEW, Low, a), Low, b), Medium, b), Medium, b), High, b)
  }

  lemma AfterLow(a: real, b: real)
    ensures Run(InitialWorld(1), (START + (JobMoves(a, 8) + [Crash(0)])) + JobMoves(b, 9))
         == One(Ran(Ran(NEW, Low, a), Low, b), Partition([LOW_JOB, MEDIUM_JOB, MEDIUM_JOB], 1, Idle))
  {
    AfterCrash(a);
    CommittedAppends(Ran(NEW, Low, a), [LOW_JOB, MEDIUM_JOB], 0, b, MEDIUM_JOB);
    assert [LOW_JOB, MEDIUM_JOB] + [MEDIUM_JOB] == [LOW_JOB, MEDIUM_JOB, MEDIUM_JOB];
    RunConcat(InitialWorld(1), START + (JobMoves(a, 8) + [Crash(0)]), JobMoves(b, 9));
  }

  lemma AfterMedium(a: real, b: real)
    ensures Run(InitialWorld(1), (START + (JobMoves(a, 8) + [Crash(0)])) + JobMoves(b, 9) + JobMoves(b, 9))
         == One(Ran(Ran(Ran(NEW, Low, a), Low, b), Medium, b),
                Partition([LOW_JOB, MEDIUM_JOB, MEDIUM_JOB] + [HIGH_JOB], 2, Idle))
  {
    AfterLow(a, b);
    CommittedAppends(Ran(Ran(NEW, Low, a), Low, b), [LOW_JOB, MEDIUM_JOB, MEDIUM_JOB], 1, b, HIGH_JOB);
    RunConcat(InitialWorld(1), (START + (JobMoves(a, 8) + [Crash(0)])) + JobMoves(b, 9), JobMoves(b, 9));
  }

  lemma RepeatedRunEnds(a: real, b: real)
    ensures exists p :: Run(InitialWorld(1), RepeatedRun(a, b)) == One(Repeated(a, b), p)
  {
    var job, m3 := JobMoves(b, 9), (START + (JobMoves(a, 8) + [Crash(0)])) + JobMoves(b, 9) + JobMoves(b, 9);
    var l4 := [LOW_JOB, MEDIUM_JOB, MEDIUM_JOB] + [HIGH_JOB];
    var s3 := Ran(Ran(Ran(NEW, Low, a), Low, b), Medium, b);
    AfterMedium(a, b);
    CommittedAppends(s3, l4, 2, b, HIGH_JOB);
    LastJob(Ran(s3, Medium, b), l4 + [HIGH_JOB], 3, b);
    RunConcat(InitialWorld(1), m3, job);
    RunConcat(InitialWorld(1), m3 + job, job);
    assert Run(InitialWorld(1), RepeatedRun(a, b)) == One(Repeated(a, b), Partition(l4 + [HIGH_JOB], 4, Idle));
  }

  /** One crash, at the low job's commit: low is recorded twice. So is medium, whose second job no crash
      ever touched. The submission completes all the same. */
  lemma ProfilesRepeat(a: real, b: real)
    ensures
      var ms := RepeatedRun(a, b);
      var w := Run(InitialWorld(1), ms);
      && Crashes(ms) == 1 && "s" in w.store && w.store["s"].status == Completed
      && w.store["s"].results ==
           [RunResult(Low, a), RunResult(Low, b), RunResult(Medium, b), RunResult(Medium, b), RunResult(High, b)]
  {
    RepeatedRunEnds(a, b);
    CountRepeated(a, b);
  }

  lemma CountRepeated(a: real, b: real)
    ensures Crashes(RepeatedRun(a, b)) == 1
  {
    var job := JobMoves(b, 9);
    var m1 := START + (JobMoves(a, 8) + [Crash(0)]);
    JobMovesDoNotCrash(a, 8);
    JobMovesDoNotCrash(b, 9);
    NoCrashes(START);
    assert [Crash(0)][1..] == [];
    CrashesConcat(JobMoves(a, 8), [Crash(0)]);
    CrashesConcat(START, JobMoves(a, 8) + [Crash(0)]);
    CrashesConcat(m1, job);
    CrashesConcat(m1 + job, job);
    CrashesConcat(m1 + job + job, job);
    CrashesConcat(m1 + job + job + job, job);
  }

  // ---- Left behind ----

  /** A worker writes `deploying` and crashes; the redelivered job is fetched, passed over and committed. */
  function LostRun(): seq<Move> {
    START + (JobMoves(1.0, 2) + [Crash(0)]) + JobMoves(1.0, 2)
  }

  lemma LostBeforeCrash()
    ensures Run(One(NEW, Partition([LOW_JOB], 0, Idle)), JobMoves(1.0, 2) + [Crash(0)])
         == One(NEW.(status := Deploying), Partition([LOW_JOB], 0, Idle))
  {
    var log := [LOW_JOB];
    var s1 := NEW.(status := Deploying);
    var p0, p1 := Partition(log, 0, Fetched(LOW_JOB, EnvOf(1.0))), At(log, 0, WriteDeploying, 1.0, NEW);
    var p2 := At(log, 0, Deploy, 1.0, NEW);
    NextWrite(NEW, p1, s1, p2);
    NextRead(NEW, p0, p1);
    RunNoWorks(One(s1, p2));
    RunWorks(One(NEW, p1), 0, One(s1, p2), One(s1, p2));
    RunWorks(One(NEW, p0), 1, One(NEW, p1), One(s1, p2));
    FetchThen(NEW, log, 0, 1.0, 2, One(s1, p2));
    RunConcat(One(NEW, Partition(log, 0, Idle)), JobMoves(1.0, 2), [Crash(0)]);
    RunOne(One(s1, p2), Crash(0));
    assert Next(One(s1, p2), Crash(0)) == One(s1, Partition(log, 0, Idle));
  }

  lemma LostAfterCrash()
    ensures Run(One(NEW.(status := Deploying), Partition([LOW_JOB], 0, Idle)), JobMoves(1.0, 2))
         == One(NEW.(status := Deploying), Partition([LOW_JOB], 1, Idle))
  {
    var log := [LOW_JOB];
    var s1 := NEW.(status := Deploying);
    var p0, p1 := Partition(log, 0, Fetched(LOW_JOB, EnvOf(1.0))), At(log, 0, Commit, 1.0, s1);
    var p2 := Partition(log, 1, Idle);
    NextRead(s1, p1, p2);
    NextRead(s1, p0, p1);
    RunNoWorks(One(s1, p2));
    RunWorks(One(s1, p1), 0, One(s1, p2), One(s1, p2));
    RunWorks(One(s1, p0), 1, One(s1, p1), One(s1, p2));
    FetchThen(s1, log, 0, 1.0, 2, One(s1, p2));
  }

  /** One crash right after a worker has written `deploying`: the queues drain, the submission stays in
      deploying whatever happens afterwards, and its team cannot submit to the contest again. */
  lemma SubmissionIsLost(after: seq<Move>, id: string)
    ensures
      var w := Run(InitialWorld(1), LostRun());
      && Drained(w) && "s" in w.store && w.store["s"].status == Deploying && Abandoned(w, "s")
      && "s" in Run(w, after).store && Run(w, after).store["s"].status == Deploying
      && Next(Run(w, after), Admit(Request(id, "team", "contest"))) == Run(w, after)
  {
    var w := One(NEW.(status := Deploying), Partition([LOW_JOB], 1, Idle));
    Started();
    LostBeforeCrash();
    LostAfterCrash();
    RunConcat(InitialWorld(1), START, JobMoves(1.0, 2) + [Crash(0)]);
    RunConcat(InitialWorld(1), START + (JobMoves(1.0, 2) + [Crash(0)]), JobMoves(1.0, 2));
    RunKeepsInv(InitialWorld(1), LostRun());
    assert Run(InitialWorld(1), LostRun()) == w;
    DrainedIsAbandoned(w, "s");
    AbandonedForever(w, "s", after);
    AbandonedBlocksTeam(w, "s", after, id);
  }

  /** A control plane that dies right after its save, without any worker's crash: no job was ever enqueued,
      the submission stays pending, and its team cannot submit to the contest again. */
  lemma SubmissionIsOrphaned(after: seq<Move>, id: string)
    ensures
      var w := Run(InitialWorld(1), [Admit(REQUEST), Ingest(REQUEST, 0), IngestDies("s")]);
      && Drained(w) && "s" in w.store && w.store["s"].status == Pending && Abandoned(w, "s")
      && "s" in Run(w, after).store && Run(w, after).store["s"].status == Pending
      && Next(Run(w, after), Admit(Request(id, "team", "contest"))) == Run(w, after)
  {
    var ms := [Admit(REQUEST), Ingest(REQUEST, 0), IngestDies("s")];
    var w := One(NEW, Partition([], 0, Idle));
    Ingested(IngestDies("s"));
    assert {"s"} - {"s"} == {};
    assert Next(Ingesting(), IngestDies("s")) == w;
    RunKeepsInv(InitialWorld(1), ms);
    assert Run(InitialWorld(1), ms) == w;
    DrainedIsAbandoned(w, "s");
    AbandonedForever(w, "s", after);
    AbandonedBlocksTeam(w, "s", after, id);
  }
}
