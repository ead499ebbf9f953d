/** What the source promises of one job, said of the states before and after it and of what the outside
    world answered, without the steps in between. */
module Outcomes {
  import opened Orders
  import opened ProfileChain

  /** The validator looks at this run: only at low profiles, and only if one is configured. */
  predicate Validated(job: Job, env: Env) {
    job.profile.Low? && env.deployed && env.healthy && !env.preflight.NotConfigured?
  }

  /** The fleet does not run to its end: no container, an unhealthy one, a contestant the validator
      rejects, or a fleet that fails. */
  predicate Unbenchmarked(job: Job, env: Env) {
    !env.deployed || !env.healthy || (job.profile.Low? && env.preflight.Rejected?) || env.fleet.None?
  }

  /** What becomes of the submission of a job that was worked on. */
  ghost predicate Closes(job: Job, env: Env, s: Submission, t: Submission, enqueued: seq<Job>) {
    && t.id == s.id && t.team == s.team && t.contest == s.contest
    && t.container == (if env.deployed then env.container else s.container)
    && t.dryRun == (if Validated(job, env) then Some(!env.preflight.Rejected?) else s.dryRun)
    && if Unbenchmarked(job, env) then
         t.status == Failed && t.results == s.results && t.finalScore == s.finalScore && enqueued == []
       else
         && t.results == s.results + [RunResult(job.profile, env.fleet.value)]
         && if job.remaining == [] then
              t.status == Completed && Weighs(t.results, t.finalScore) && enqueued == []
            else
              && t.finalScore == s.finalScore
              && if env.queueOk then
                   t.status == Running && enqueued == [Job(job.sid, job.remaining[0], job.remaining[1..])]
                 else t.status == Failed && enqueued == []
  }

  /** What one processed job leaves behind. Without a submission it stays uncommitted; a submission that is
      neither pending nor running is left alone. */
  ghost predicate Handled(st: Store, p: Partition, job: Job, env: Env, st': Store, p': Partition) {
    && p'.local.Idle?
    && if job.sid !in st then st' == st && p'.log == p.log && p'.committed == p.committed
       else
         && p'.committed == p.committed + 1 && st'.Keys == st.Keys
         && (forall id :: id in st && id != job.sid ==> st'[id] == st[id])
         && var s := st[job.sid];
            if s.status == Pending || s.status == Running then
              p.log <= p'.log && Closes(job, env, s, st'[job.sid], p'.log[|p.log|..])
            else st' == st && p'.log == p.log
  }
}
