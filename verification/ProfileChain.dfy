/** The benchmark protocol of contest submissions as a state machine: ingests, an at-least-once job
    log per partition, one worker per partition whose every store or queue write is one step, and
    crashes between any two of them. */
module ProfileChain {
  import opened Orders

  datatype Label = Low | Medium | High

  datatype Status = Pending | Building | Deploying | Running | Benchmarking | Completed | Failed

  predicate IsTerminal(s: Status) { s == Completed || s == Failed }

  datatype RunResult = RunResult(profile: Label, runScore: real)

  datatype Submission = Submission(id: string, team: string, contest: string, status: Status,
    container: string, dryRun: Option<bool>, results: seq<RunResult>, finalScore: real)

  datatype Job = Job(sid: string, profile: Label, remaining: seq<Label>)

  const CHAIN := [Low, Medium, High]

  function Before(l: Label): seq<Label> {
    match l case Low => [] case Medium => [Low] case High => [Low, Medium]
  }

  function After(l: Label): seq<Label> {
    match l case Low => [Medium, High] case Medium => [High] case High => []
  }

  function LabelsOf(rs: seq<RunResult>): (ls: seq<Label>)
    ensures |ls| == |rs| && forall i :: 0 <= i < |rs| ==> ls[i] == rs[i].profile
  {
    seq(|rs|, i requires 0 <= i < |rs| => rs[i].profile)
  }

  /** The score recorded for a label: the first result that carries it, 0 without one. */
  function SafeScore(rs: seq<RunResult>, l: Label): real {
    if rs == [] then 0.0 else if rs[0].profile == l then rs[0].runScore else SafeScore(rs[1..], l)
  }

  function FinalScoreOf(rs: seq<RunResult>): real {
    (0.20 * SafeScore(rs, Low) + 0.35 * SafeScore(rs, Medium) + 0.45 * SafeScore(rs, High)) * 100.0
  }

  /** Result `i` is the first one of its label. */
  ghost predicate FirstResult(rs: seq<RunResult>, l: Label, i: int) {
    0 <= i < |rs| && rs[i].profile == l && forall j :: 0 <= j < i ==> rs[j].profile != l
  }

  /** What a label counts: the score of its first result, 0 if it has none. */
  ghost predicate Counts(rs: seq<RunResult>, l: Label, x: real) {
    if l in LabelsOf(rs) then exists i :: FirstResult(rs, l, i) && x == rs[i].runScore else x == 0.0
  }

  /** A hundredfold weighted mean: 20 percent low, 35 percent medium, 45 percent high. */
  ghost predicate Weighs(rs: seq<RunResult>, final: real) {
    exists a, b, c ::
      Counts(rs, Low, a) && Counts(rs, Medium, b) && Counts(rs, High, c) && final == 20.0 * a + 35.0 * b + 45.0 * c
  }

  /** A result of another label in front changes nothing. */
  lemma CountsBehind(r: RunResult, rest: seq<RunResult>, l: Label, x: real)
    requires r.profile != l && Counts(rest, l, x)
    ensures Counts([r] + rest, l, x)
  {
    var rs := [r] + rest;
    assert LabelsOf(rs) == [r.profile] + LabelsOf(rest);
    if l in LabelsOf(rest) {
      var i :| FirstResult(rest, l, i) && x == rest[i].runScore;
      assert FirstResult(rs, l, i + 1) && x == rs[i + 1].runScore;
    }
  }

  lemma {:induction false} SafeScoreCounts(rs: seq<RunResult>, l: Label)
    ensures Counts(rs, l, SafeScore(rs, l))
  {
    if rs != [] {
      if rs[0].profile == l {
        assert FirstResult(rs, l, 0) && LabelsOf(rs)[0] == l;
      } else {
        SafeScoreCounts(rs[1..], l);
        CountsBehind(rs[0], rs[1..], l, SafeScore(rs[1..], l));
        assert rs == [rs[0]] + rs[1..];
      }
    }
  }

  lemma FinalScoreWeighs(rs: seq<RunResult>)
    ensures Weighs(rs, FinalScoreOf(rs))
  {
    SafeScoreCounts(rs, Low);
    SafeScoreCounts(rs, Medium);
    SafeScoreCounts(rs, High);
    var a, b, c := SafeScore(rs, Low), SafeScore(rs, Medium), SafeScore(rs, High);
    assert FinalScoreOf(rs) == 20.0 * a + 35.0 * b + 45.0 * c;
  }

  /** With a result for every label, the weighted scores are those of the three first results. */
  lemma WeighsFirstResults(rs: seq<RunResult>, final: real)
    requires Weighs(rs, final) && forall l :: l in CHAIN ==> l in LabelsOf(rs)
    ensures exists i, j, k :: WeighedAt(rs, final, i, j, k)
  {
    var a, b, c :|
      Counts(rs, Low, a) && Counts(rs, Medium, b) && Counts(rs, High, c) && final == 20.0 * a + 35.0 * b + 45.0 * c;
    assert Low in CHAIN && Medium in CHAIN && High in CHAIN;
    var i, j, k := CountedAt(rs, Low, a), CountedAt(rs, Medium, b), CountedAt(rs, High, c);
    assert WeighedAt(rs, final, i, j, k);
  }

  /** Results `i`, `j` and `k` are the first of their labels, and their scores make the final one. */
  ghost predicate WeighedAt(rs: seq<RunResult>, final: real, i: int, j: int, k: int) {
    && FirstResult(rs, Low, i) && FirstResult(rs, Medium, j) && FirstResult(rs, High, k)
    && final == 20.0 * rs[i].runScore + 35.0 * rs[j].runScore + 45.0 * rs[k].runScore
  }

  ghost function CountedAt(rs: seq<RunResult>, l: Label, x: real): (i: int)
    requires l in LabelsOf(rs) && Counts(rs, l, x)
    ensures FirstResult(rs, l, i) && x == rs[i].runScore
  {
    var i :| FirstResult(rs, l, i) && x == rs[i].runScore;
    i
  }

  // ---- Worker ----

  datatype Preflight = NotConfigured | Passed | Rejected

  /** What the outside world will answer while one job is processed. */
  datatype Env = Env(deployed: bool, container: string, healthy: bool, preflight: Preflight,
    fleet: Option<real>, queueOk: bool)
  {
    /** The run score of the fleet run; a failed run has none. */
    function Score(): real { if fleet.Some? then fleet.value else 0.0 }
  }

  /** The next write, or read that decides, of a worker. */
  datatype Pc =
    | WriteDeploying | Deploy | WriteContainer | WriteDryRun | WriteBenchmarking
    | AppendResult | Enqueue | MarkFailed | WriteScore | WriteOutcome | WriteFailed | Commit

  /** `sub` is the copy of the submission the worker holds; it is lost in a crash. */
  datatype Local =
    | Idle
    | Fetched(job: Job, env: Env)
    | Working(pc: Pc, job: Job, env: Env, sub: Submission)

  datatype Partition = Partition(log: seq<Job>, committed: nat, local: Local)

  type Store = map<string, Submission>

  /** A read of the store that falls back on the copy in hand. */
  function Fresh(st: Store, sub: Submission): Submission {
    if sub.id in st then st[sub.id] else sub
  }

  function Save(st: Store, sub: Submission): Store { st[sub.id := sub] }

  /** The guard of a redelivered job: only pending and running submissions are worked on. */
  function Guard(st: Store, job: Job, env: Env): Local {
    if job.sid !in st then Idle
    else
      var sub := st[job.sid];
      if IsTerminal(sub.status) then Working(Commit, job, env, sub)
      else if sub.status != Pending && sub.status != Running then Working(Commit, job, env, sub)
      else Working(WriteDeploying, job, env, sub)
  }

  /** One step of a worker: at most one write. */
  function Advance(st: Store, p: Partition): (Store, Partition) {
    match p.local
    case Idle => (st, p)
    case Fetched(job, env) => (st, p.(local := Guard(st, job, env)))
    case Working(pc, job, env, sub) =>
      match pc
      case WriteDeploying =>
        (Save(st, sub.(status := Deploying)), p.(local := Working(Deploy, job, env, sub)))
      case Deploy =>
        var mine := Fresh(st, sub);
        var next := if job.sid in st && env.deployed then WriteContainer else WriteFailed;
        (st, p.(local := Working(next, job, env, mine)))
      case WriteContainer =>
        var mine := sub.(container := env.container);
        var next := if !env.healthy then WriteFailed
                    else if job.profile.Low? && !env.preflight.NotConfigured? then WriteDryRun
                    else WriteBenchmarking;
        (Save(st, mine), p.(local := Working(next, job, env, mine)))
      case WriteDryRun =>
        var mine := Fresh(st, sub).(dryRun := Some(env.preflight.Passed?));
        var next := if env.preflight.Passed? then WriteBenchmarking else MarkFailed;
        (Save(st, mine), p.(local := Working(next, job, env, mine)))
      case WriteBenchmarking =>
        var mine := sub.(status := Benchmarking);
        (Save(st, mine), p.(local := Working(if env.fleet.Some? then AppendResult else WriteFailed, job, env, mine)))
      case AppendResult =>
        var cur := Fresh(st, sub);
        var mine := cur.(results := cur.results + [RunResult(job.profile, env.Score())]);
        (Save(st, mine), p.(local := Working(if job.remaining != [] then Enqueue else WriteScore, job, env, mine)))
      case Enqueue =>
        if env.queueOk && job.remaining != [] then
          (st, p.(log := p.log + [Job(job.sid, job.remaining[0], job.remaining[1..])],
                  local := Working(WriteOutcome, job, env, sub)))
        else (st, p.(local := Working(MarkFailed, job, env, sub)))
      case MarkFailed =>
        (Save(st, sub.(status := Failed)), p.(local := Working(WriteFailed, job, env, sub)))
      case WriteScore =>
        (if sub.id in st then Save(st, st[sub.id].(finalScore := FinalScoreOf(st[sub.id].results))) else st,
         p.(local := Working(WriteOutcome, job, env, sub)))
      case WriteOutcome =>
        (Save(st, Fresh(st, sub).(status := if job.remaining == [] then Completed else Running)),
         p.(local := Working(Commit, job, env, sub)))
      case WriteFailed =>
        (Save(st, Fresh(st, sub).(status := Failed)), p.(local := Working(Commit, job, env, sub)))
      case Commit =>
        (st, p.(committed := p.committed + 1, local := Idle))
  }

  // ---- The whole system ----

  datatype Request = Request(sid: string, team: string, contest: string)

  /** `home` records the partition a submission's key maps to; `admitted` holds the requests an ingest
      has let past its guard; `ingesting` holds the submissions saved by an ingest that has not yet
      tried to enqueue their first job. */
  datatype World = World(store: Store, parts: seq<Partition>, home: map<string, nat>,
    admitted: set<Request>, ingesting: set<string>)

  function InitialWorld(n: nat): World {
    World(map[], seq(n, _ => Partition([], 0, Idle)), map[], {}, {})
  }

  datatype Move =
    | Admit(request: Request)
    | Ingest(request: Request, part: nat)
    | Dispatch(sid: string)
    | DispatchFails(sid: string)
    | IngestDies(sid: string)
    | Fetch(part: nat, env: Env)
    | Work(part: nat)
    | Crash(part: nat)

  predicate NoActive(st: Store, team: string, contest: string) {
    forall id :: id in st && st[id].team == team && st[id].contest == contest ==> IsTerminal(st[id].status)
  }

  function NewSubmission(r: Request): Submission {
    Submission(r.sid, r.team, r.contest, Pending, "", None, [], 0.0)
  }

  /** The save of an admitted request, whose id is new. */
  predicate Saves(w: World, r: Request, part: nat) {
    r in w.admitted && r.sid !in w.store && r.sid !in w.home && part < |w.parts|
  }

  /** One move; a move that is not enabled changes nothing. */
  ghost function Next(w: World, m: Move): World {
    match m
    case Admit(r) =>
      if NoActive(w.store, r.team, r.contest) then w.(admitted := w.admitted + {r}) else w
    case Ingest(r, part) =>
      if Saves(w, r, part) then
        w.(store := Save(w.store, NewSubmission(r)), home := w.home[r.sid := part],
           admitted := w.admitted - {r}, ingesting := w.ingesting + {r.sid})
      else w
    case Dispatch(sid) =>
      if sid in w.ingesting && sid in w.home && w.home[sid] < |w.parts| then
        var h := w.home[sid];
        w.(parts := w.parts[h := w.parts[h].(log := w.parts[h].log + [Job(sid, Low, After(Low))])],
           ingesting := w.ingesting - {sid})
      else w
    case DispatchFails(sid) =>
      if sid in w.ingesting && sid in w.store then
        var sub := NewSubmission(Request(sid, w.store[sid].team, w.store[sid].contest));
        w.(store := Save(w.store, sub.(status := Failed)), ingesting := w.ingesting - {sid})
      else w
    case IngestDies(sid) => w.(ingesting := w.ingesting - {sid})
    case Fetch(part, env) =>
      if part < |w.parts| && w.parts[part].local.Idle? && w.parts[part].committed < |w.parts[part].log| then
        var p := w.parts[part];
        w.(parts := w.parts[part := p.(local := Fetched(p.log[p.committed], env))])
      else w
    case Work(part) =>
      if part < |w.parts| then
        var (st, p) := Advance(w.store, w.parts[part]);
        w.(store := st, parts := w.parts[part := p])
      else w
    case Crash(part) =>
      if part < |w.parts| then w.(parts := w.parts[part := w.parts[part].(local := Idle)]) else w
  }

  ghost function Run(w: World, ms: seq<Move>): World
    decreases |ms|
  {
    if ms == [] then w else Run(Next(w, ms[0]), ms[1..])
  }

  // ---- Invariant under crashes and redeliveries ----

  /** Every profile ahead of the job's own has a recorded result. */
  ghost predicate JobOk(st: Store, job: Job) {
    && job.sid in st
    && job.remaining == After(job.profile)
    && forall l :: l in Before(job.profile) ==> l in LabelsOf(st[job.sid].results)
  }

  ghost predicate SubOk(id: string, s: Submission) {
    && s.id == id && s.status != Building
    && (s.status == Pending ==> s.results == [])
    && (s.status == Completed ==>
        (forall l :: l in CHAIN ==> l in LabelsOf(s.results)) && s.finalScore == FinalScoreOf(s.results))
  }

  /** What a worker about to take step `pc` knows of its copy `sub` and of the stored submission
      `cur`; in particular a copy is never stale when it is written back. */
  ghost predicate KnownAt(pc: Pc, job: Job, sub: Submission, cur: Submission) {
    match pc
    case WriteDeploying => sub == cur && (cur.status == Pending || cur.status == Running)
    case Deploy => cur.status == Deploying
    case WriteContainer => sub == cur && cur.status == Deploying
    case WriteDryRun => sub == cur && cur.status == Deploying
    case WriteBenchmarking => sub == cur && cur.status == Deploying
    case AppendResult => cur.status == Benchmarking
    case Enqueue => sub == cur && cur.status == Benchmarking && job.profile in LabelsOf(cur.results)
    case MarkFailed => sub == cur && (cur.status == Deploying || cur.status == Benchmarking)
    case WriteScore => cur.status == Benchmarking && job.profile in LabelsOf(cur.results) && job.remaining == []
    case WriteOutcome =>
      && cur.status == Benchmarking && job.profile in LabelsOf(cur.results)
      && (job.remaining == [] ==> cur.finalScore == FinalScoreOf(cur.results))
    case WriteFailed => cur.status == Deploying || cur.status == Benchmarking || cur.status == Failed
    case Commit => cur.status != Pending
  }

  ghost predicate LocalOk(st: Store, local: Local) {
    local.Working? ==>
      && JobOk(st, local.job) && local.sub.id == local.job.sid
      && KnownAt(local.pc, local.job, local.sub, st[local.job.sid])
  }

  ghost predicate PartOk(w: World, k: nat)
    requires k < |w.parts|
  {
    var p := w.parts[k];
    && p.committed <= |p.log|
    && (forall i :: 0 <= i < |p.log| ==>
          JobOk(w.store, p.log[i]) && p.log[i].sid in w.home && w.home[p.log[i].sid] == k
          && p.log[i].sid !in w.ingesting)
    && (!p.local.Idle? ==> p.committed < |p.log| && p.local.job == p.log[p.committed])
    && LocalOk(w.store, p.local)
  }

  ghost predicate Inv(w: World) {
    && (forall id :: id in w.store ==> SubOk(id, w.store[id]) && id in w.home && w.home[id] < |w.parts|)
    && (forall k :: 0 <= k < |w.parts| ==> PartOk(w, k))
    && (forall id :: id in w.ingesting ==>
          id in w.store && w.store[id] == NewSubmission(Request(id, w.store[id].team, w.store[id].contest)))
  }

  /** A store in which one submission moved on: its identity kept, its results only extended, and
      nothing at all changed once it was terminal. */
  ghost predicate Evolves(s: Submission, t: Submission) {
    && t.id == s.id && t.team == s.team && t.contest == s.contest
    && s.results <= t.results
    && (IsTerminal(s.status) ==> t == s)
  }

  ghost predicate StoreEvolves(st: Store, st': Store) {
    forall id :: id in st ==> id in st' && Evolves(st[id], st'[id])
  }

  lemma JobOkEvolves(st: Store, st': Store, job: Job)
    requires JobOk(st, job) && StoreEvolves(st, st')
    ensures JobOk(st', job)
  {
    var s, t := st[job.sid], st'[job.sid];
    forall l | l in LabelsOf(s.results) ensures l in LabelsOf(t.results) {
      var i :| 0 <= i < |s.results| && LabelsOf(s.results)[i] == l;
      assert t.results[i] == s.results[i] && LabelsOf(t.results)[i] == l;
    }
  }

  lemma AllLabels(job: Job, rs: seq<RunResult>)
    requires job.remaining == [] && job.remaining == After(job.profile)
    requires forall l :: l in Before(job.profile) ==> l in LabelsOf(rs)
    requires job.profile in LabelsOf(rs)
    ensures forall l :: l in CHAIN ==> l in LabelsOf(rs)
  {
    assert job.profile == High;
    assert Low in Before(High) && Medium in Before(High);
  }

  lemma LabelAppended(rs: seq<RunResult>, r: RunResult)
    ensures LabelsOf(rs + [r]) == LabelsOf(rs) + [r.profile]
  {
  }

  /** What a worker may rely on before a step. */
  ghost predicate CanAdvance(st: Store, p: Partition) {
    && LocalOk(st, p.local)
    && (forall id :: id in st ==> SubOk(id, st[id]))
    && (!p.local.Idle? ==> p.committed < |p.log| && p.local.job == p.log[p.committed] && JobOk(st, p.local.job))
  }

  ghost predicate OnlyTouches(st: Store, st': Store, local: Local) {
    && st'.Keys == st.Keys
    && forall id :: id in st && (local.Idle? || id != local.job.sid) ==> st'[id] == st[id]
  }

  lemma SaveEvolves(st: Store, sub: Submission, local: Local)
    requires sub.id in st && Evolves(st[sub.id], sub) && !local.Idle? && local.job.sid == sub.id
    ensures StoreEvolves(st, Save(st, sub)) && OnlyTouches(st, Save(st, sub), local)
  {
  }

  /** The submission a worker step writes, if it writes one. */
  function Written(st: Store, local: Local): Option<Submission> {
    if !local.Working? then None
    else
      match local.pc
      case WriteDeploying => Some(local.sub.(status := Deploying))
      case WriteContainer => Some(local.sub.(container := local.env.container))
      case WriteDryRun => Some(Fresh(st, local.sub).(dryRun := Some(local.env.preflight.Passed?)))
      case WriteBenchmarking => Some(local.sub.(status := Benchmarking))
      case AppendResult =>
        var cur := Fresh(st, local.sub);
        Some(cur.(results := cur.results + [RunResult(local.job.profile, local.env.Score())]))
      case MarkFailed => Some(local.sub.(status := Failed))
      case WriteScore =>
        if local.sub.id !in st then None
        else Some(st[local.sub.id].(finalScore := FinalScoreOf(st[local.sub.id].results)))
      case WriteOutcome =>
        Some(Fresh(st, local.sub).(status := if local.job.remaining == [] then Completed else Running))
      case WriteFailed => Some(Fresh(st, local.sub).(status := Failed))
      case _ => None
  }

  /** One worker step changes only its own submission, extends its results, and leaves a terminal
      one alone. */
  lemma AdvanceEvolves(st: Store, p: Partition)
    requires CanAdvance(st, p)
    ensures StoreEvolves(st, Advance(st, p).0) && OnlyTouches(st, Advance(st, p).0, p.local)
  {
    var sub := Written(st, p.local);
    assert Advance(st, p).0 == if sub.Some? then Save(st, sub.value) else st;
    if sub.Some? {
      assert sub.value.id == p.local.job.sid && Evolves(st[p.local.job.sid], sub.value);
      SaveEvolves(st, sub.value, p.local);
    }
  }

  lemma AdvanceKeepsSubs(st: Store, p: Partition)
    requires CanAdvance(st, p)
    ensures forall id :: id in Advance(st, p).0 ==> SubOk(id, Advance(st, p).0[id])
  {
    AdvanceEvolves(st, p);
    if p.local.Working? && p.local.pc.WriteOutcome? && p.local.job.remaining == [] {
      AllLabels(p.local.job, st[p.local.job.sid].results);
    }
  }

  predicate BeforeFleet(local: Local) {
    local.Working? &&
    (local.pc.WriteDeploying? || local.pc.Deploy? || local.pc.WriteContainer? || local.pc.WriteDryRun?)
  }

  /** After a step the worker knows what the next step relies on. */
  lemma AdvanceKeepsKnown(st: Store, p: Partition)
    requires CanAdvance(st, p) && p.local.Working? && Advance(st, p).1.local.Working?
    ensures
      var local := Advance(st, p).1.local;
      local.sub.id == local.job.sid && KnownAt(local.pc, local.job, local.sub, Advance(st, p).0[local.job.sid])
  {
    if BeforeFleet(p.local) {
    } else if p.local.pc.AppendResult? {
      LabelAppended(st[p.local.job.sid].results, RunResult(p.local.job.profile, p.local.env.Score()));
    } else {
    }
  }

  lemma AdvanceKeepsLocal(st: Store, p: Partition)
    requires CanAdvance(st, p)
    ensures LocalOk(Advance(st, p).0, Advance(st, p).1.local)
  {
    if p.local.Working? && Advance(st, p).1.local.Working? {
      AdvanceEvolves(st, p);
      JobOkEvolves(st, Advance(st, p).0, p.local.job);
      AdvanceKeepsKnown(st, p);
    }
  }

  /** The job a worker enqueues is as good as the one it is working on. */
  lemma NextJobOk(st: Store, job: Job)
    requires JobOk(st, job) && job.profile in LabelsOf(st[job.sid].results) && job.remaining != []
    ensures JobOk(st, Job(job.sid, job.remaining[0], job.remaining[1..]))
  {
    assert job.profile == Low || job.profile == Medium;
    if job.profile == Medium { assert Low in Before(Medium); }
  }

  lemma OtherLocal(st: Store, st': Store, local: Local, mine: Local)
    requires LocalOk(st, local) && StoreEvolves(st, st') && OnlyTouches(st, st', mine)
    requires !local.Idle? && !mine.Idle? ==> local.job.sid != mine.job.sid
    ensures LocalOk(st', local)
  {
    if local.Working? { JobOkEvolves(st, st', local.job); }
  }

  /** The log of a partition after a step of its own worker. */
  lemma AdvanceKeepsLog(st: Store, p: Partition)
    requires CanAdvance(st, p) && forall i :: 0 <= i < |p.log| ==> JobOk(st, p.log[i])
    ensures
      var (st', p') := Advance(st, p);
      && p.log <= p'.log && (forall i :: 0 <= i < |p'.log| ==> JobOk(st', p'.log[i]))
      && (forall i :: |p.log| <= i < |p'.log| ==> !p.local.Idle? && p'.log[i].sid == p.local.job.sid)
      && (p.committed <= |p.log| ==> p'.committed <= |p'.log|)
      && (!p'.local.Idle? ==> p'.committed == p.committed && p'.local.job == p.local.job)
  {
    var (st', p') := Advance(st, p);
    AdvanceEvolves(st, p);
    forall i | 0 <= i < |p.log| ensures JobOk(st', p.log[i]) {
      JobOkEvolves(st, st', p.log[i]);
    }
    if p.local.Working? && p.local.pc.Enqueue? && p.local.env.queueOk && p.local.job.remaining != [] {
      NextJobOk(st, p.local.job);
    }
  }

  lemma WorkKeepsOwnPart(w: World, part: nat)
    requires Inv(w) && part < |w.parts|
    ensures PartOk(Next(w, Work(part)), part)
  {
    var p := w.parts[part];
    assert PartOk(w, part);
    AdvanceKeepsLocal(w.store, p);
    AdvanceKeepsLog(w.store, p);
  }

  lemma WorkKeepsOtherPart(w: World, part: nat, k: nat)
    requires Inv(w) && part < |w.parts| && k < |w.parts| && k != part
    ensures PartOk(Next(w, Work(part)), k)
  {
    var p, st' := w.parts[part], Next(w, Work(part)).store;
    assert PartOk(w, part) && PartOk(w, k);
    AdvanceEvolves(w.store, p);
    forall i | 0 <= i < |w.parts[k].log| ensures JobOk(st', w.parts[k].log[i]) {
      JobOkEvolves(w.store, st', w.parts[k].log[i]);
    }
    OtherLocal(w.store, st', w.parts[k].local, p.local);
  }

  lemma WorkKeepsInv(w: World, part: nat)
    requires Inv(w) && part < |w.parts|
    ensures Inv(Next(w, Work(part))) && StoreEvolves(w.store, Next(w, Work(part)).store)
  {
    assert PartOk(w, part);
    AdvanceEvolves(w.store, w.parts[part]);
    AdvanceKeepsSubs(w.store, w.parts[part]);
    forall k | 0 <= k < |w.parts| ensures PartOk(Next(w, Work(part)), k) {
      if k == part { WorkKeepsOwnPart(w, part); } else { WorkKeepsOtherPart(w, part, k); }
    }
  }

  lemma IngestKeepsInv(w: World, r: Request, part: nat)
    requires Inv(w)
    ensures Inv(Next(w, Ingest(r, part))) && StoreEvolves(w.store, Next(w, Ingest(r, part)).store)
  {
    var w' := Next(w, Ingest(r, part));
    forall k | 0 <= k < |w.parts| ensures PartOk(w', k) {
      assert PartOk(w, k);
    }
  }

  lemma DispatchKeepsInv(w: World, sid: string)
    requires Inv(w)
    ensures Inv(Next(w, Dispatch(sid))) && Next(w, Dispatch(sid)).store == w.store
  {
    var w' := Next(w, Dispatch(sid));
    forall k | 0 <= k < |w.parts| ensures PartOk(w', k) {
      assert PartOk(w, k);
    }
  }

  lemma DispatchFailsKeepsInv(w: World, sid: string)
    requires Inv(w)
    ensures Inv(Next(w, DispatchFails(sid))) && StoreEvolves(w.store, Next(w, DispatchFails(sid)).store)
  {
    var w' := Next(w, DispatchFails(sid));
    forall k | 0 <= k < |w.parts| ensures PartOk(w', k) {
      assert PartOk(w, k);
      forall i | 0 <= i < |w.parts[k].log| ensures w.parts[k].log[i].sid !in w.ingesting {}
    }
  }

  lemma OtherMovesKeepInv(w: World, m: Move)
    requires Inv(w) && (m.Admit? || m.IngestDies? || m.Fetch? || m.Crash?)
    ensures Inv(Next(w, m)) && Next(w, m).store == w.store
  {
    forall k | 0 <= k < |w.parts| ensures PartOk(Next(w, m), k) {
      assert PartOk(w, k);
    }
  }

  /** Every move, crashes and redeliveries included, keeps the invariant; recorded results never
      shrink, and a terminal submission never changes again in any field. */
  lemma NextKeepsInv(w: World, m: Move)
    requires Inv(w)
    ensures Inv(Next(w, m)) && StoreEvolves(w.store, Next(w, m).store)
  {
    match m
    case Ingest(r, part) => IngestKeepsInv(w, r, part);
    case Dispatch(sid) => DispatchKeepsInv(w, sid);
    case DispatchFails(sid) => DispatchFailsKeepsInv(w, sid);
    case Work(part) => if part < |w.parts| { WorkKeepsInv(w, part); }
    case _ => OtherMovesKeepInv(w, m);
  }

  lemma {:induction false} RunKeepsInv(w: World, ms: seq<Move>)
    requires Inv(w)
    ensures Inv(Run(w, ms)) && StoreEvolves(w.store, Run(w, ms).store)
    decreases |ms|
  {
    if ms != [] {
      NextKeepsInv(w, ms[0]);
      RunKeepsInv(Next(w, ms[0]), ms[1..]);
    }
  }

  /** What holds in every state the system can reach, whatever crashes and is redelivered. */
  lemma ReachableStates(n: nat, ms: seq<Move>)
    ensures
      var w := Run(InitialWorld(n), ms);
      && (forall k, i :: 0 <= k < |w.parts| && 0 <= i < |w.parts[k].log| ==> JobOk(w.store, w.parts[k].log[i]))
      && (forall id :: id in w.store && w.store[id].status == Completed ==>
            var rs := w.store[id].results;
            && (forall l :: l in CHAIN ==> l in LabelsOf(rs))
            && w.store[id].finalScore == FinalScoreOf(rs)
            && exists i, j, k :: WeighedAt(rs, w.store[id].finalScore, i, j, k))
  {
    RunKeepsInv(InitialWorld(n), ms);
    var w := Run(InitialWorld(n), ms);
    forall k, i | 0 <= k < |w.parts| && 0 <= i < |w.parts[k].log| ensures JobOk(w.store, w.parts[k].log[i]) {
      assert PartOk(w, k);
    }
    forall id | id in w.store && w.store[id].status == Completed
      ensures exists i, j, k :: WeighedAt(w.store[id].results, w.store[id].finalScore, i, j, k)
    {
      assert SubOk(id, w.store[id]);
      FinalScoreWeighs(w.store[id].results);
      WeighsFirstResults(w.store[id].results, w.store[id].finalScore);
    }
  }

  /** Between any two moments of a run, results only grow and terminal submissions are frozen. */
  lemma HistoryIsKept(n: nat, before: seq<Move>, after: seq<Move>)
    ensures StoreEvolves(Run(InitialWorld(n), before).store, Run(Run(InitialWorld(n), before), after).store)
  {
    RunKeepsInv(InitialWorld(n), before);
    RunKeepsInv(Run(InitialWorld(n), before), after);
  }

  /** A crash hands the job out again. The guard lets it through if and only if the crash found its
      submission pending, or running after an outcome that was not yet committed; in every other status
      the next step is the commit. */
  lemma RedeliveredJob(w: World, part: nat, env: Env)
    requires Inv(w) && part < |w.parts| && !w.parts[part].local.Idle?
    ensures
      var job := w.parts[part].local.job;
      var w' := Next(Next(w, Crash(part)), Fetch(part, env));
      && w'.store == w.store && w'.parts[part].local == Fetched(job, env) && job.sid in w.store
      && var status := w.store[job.sid].status;
         Guard(w'.store, job, env) ==
           Working(if status == Pending || status == Running then WriteDeploying else Commit,
                   job, env, w.store[job.sid])
  {
    assert PartOk(w, part);
    var p := w.parts[part];
    assert Next(w, Crash(part)).parts[part] == p.(local := Idle);
  }
}
