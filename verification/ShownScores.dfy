/** The profile scores the leaderboard shows against those the final score is made of: the last result of
    a profile against the first. */
module ShownScores {
  import opened ProfileChain
  import CrashFreeChain
  import L = Leaderboard
  import RedeliveryRuns

  function Name(l: Label): string {
    match l case Low => "low" case Medium => "medium" case High => "high"
  }

  /** The leaderboard's view of a submission's results. */
  ghost predicate Views(rs: seq<RunResult>, ss: seq<L.RunSummary>) {
    && |ss| == |rs|
    && forall i :: 0 <= i < |rs| ==>
         && ss[i].runScore == rs[i].runScore
         && (rs[i].profile.Low? ==> ss[i].profile == "low")
         && (rs[i].profile.Medium? ==> ss[i].profile == "medium")
         && (rs[i].profile.High? ==> ss[i].profile == "high")
  }

  /** The position of the first result that carries a label, -1 if there is none. */
  function FirstAt(rs: seq<RunResult>, l: Label): (i: int)
    ensures -1 <= i < |rs|
  {
    if rs == [] then -1
    else if rs[0].profile == l then 0
    else
      var i := FirstAt(rs[1..], l);
      if i < 0 then -1 else i + 1
  }

  /** The position of the last one. */
  function LastAt(rs: seq<RunResult>, l: Label): (i: int)
    ensures -1 <= i < |rs| && (i >= 0 ==> rs[i].profile == l)
    ensures forall k :: i < k < |rs| ==> rs[k].profile != l
  {
    if rs == [] then -1
    else if rs[|rs| - 1].profile == l then |rs| - 1
    else LastAt(rs[..|rs| - 1], l)
  }

  lemma {:induction false} FirstIsScored(rs: seq<RunResult>, l: Label)
    ensures var i := FirstAt(rs, l);
      && SafeScore(rs, l) == (if i >= 0 then rs[i].runScore else 0.0)
      && (i >= 0 ==> rs[i].profile == l) && forall k :: 0 <= k < (if i >= 0 then i else |rs|) ==> rs[k].profile != l
  {
    if rs != [] { FirstIsScored(rs[1..], l); }
  }

  lemma LastIsShown(rs: seq<RunResult>, ss: seq<L.RunSummary>, l: Label)
    requires Views(rs, ss)
    ensures var i := LastAt(rs, l);
      L.ScoreFor(L.GatherAll(ss), Name(l)) == if i >= 0 then rs[i].runScore else 0.0
  {
    L.GatheredScores(ss, Name(l), LastAt(rs, l));
  }

  /** The score shown for a profile is the one the final score counts if and only if the profile's first
      and last results carry the same score. */
  lemma ShownIffScored(rs: seq<RunResult>, ss: seq<L.RunSummary>, l: Label)
    requires Views(rs, ss)
    ensures var i, j := FirstAt(rs, l), LastAt(rs, l);
      && (i >= 0 <==> j >= 0)
      && (L.ScoreFor(L.GatherAll(ss), Name(l)) == SafeScore(rs, l) <==> i < 0 || rs[i].runScore == rs[j].runScore)
  {
    FirstIsScored(rs, l);
    LastIsShown(rs, ss, l);
  }

  lemma OneResultPerLabel(rs: seq<RunResult>, l: Label)
    requires LabelsOf(rs) <= CHAIN
    ensures FirstAt(rs, l) == LastAt(rs, l)
  {
    FirstIsScored(rs, l);
    var i, j := FirstAt(rs, l), LastAt(rs, l);
    if i >= 0 && j >= 0 {
      assert LabelsOf(rs)[i] == CHAIN[i] && LabelsOf(rs)[j] == CHAIN[j];
    }
  }

  /** Without crashes the two always agree. */
  lemma CrashFreeShowsScored(w: World, n: nat, ms: seq<Move>, sid: string, ss: seq<L.RunSummary>, l: Label)
    requires CrashFreeChain.Reachable(w, n, ms) && sid in w.store && Views(w.store[sid].results, ss)
    ensures L.ScoreFor(L.GatherAll(ss), Name(l)) == SafeScore(w.store[sid].results, l)
  {
    CrashFreeChain.LabelsSpellTheChain(w, n, ms, sid);
    OneResultPerLabel(w.store[sid].results, l);
    ShownIffScored(w.store[sid].results, ss, l);
  }

  /** One crash is enough to part them: the completed submission's final score counts `a` for low, the
      leaderboard shows `b`. */
  lemma RedeliveryShowsAnother(a: real, b: real, ss: seq<L.RunSummary>)
    requires
      var rs := [RunResult(Low, a), RunResult(Low, b), RunResult(Medium, b), RunResult(Medium, b), RunResult(High, b)];
      Views(rs, ss)
    ensures
      var w := Run(InitialWorld(1), RedeliveryRuns.RepeatedRun(a, b));
      && RedeliveryRuns.Crashes(RedeliveryRuns.RepeatedRun(a, b)) == 1
      && "s" in w.store && w.store["s"].status == Completed && Views(w.store["s"].results, ss)
      && SafeScore(w.store["s"].results, Low) == a && L.ScoreFor(L.GatherAll(ss), "low") == b
  {
    RedeliveryRuns.ProfilesRepeat(a, b);
    var rs := Run(InitialWorld(1), RedeliveryRuns.RepeatedRun(a, b)).store["s"].results;
    FirstIsScored(rs, Low);
    LastIsShown(rs, ss, Low);
    assert rs[0].profile == Low && rs[1].profile == Low;
    assert rs[2].profile != Low && rs[3].profile != Low && rs[4].profile != Low;
    assert FirstAt(rs, Low) == 0 && LastAt(rs, Low) == 1;
  }
}
