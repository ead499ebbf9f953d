/** The leaderboard: the best completed submission of each team, ranked. Scores are exact reals. */
module Leaderboard {
  import opened Orders
  import opened Sorting

  datatype RunSummary = RunSummary(profile: string, runScore: real, p99: real, sustainedTps: real, correctness: real)

  datatype Summary = Summary(p99: real, maxTps: real, correctness: real, composite: real)

  datatype Submission = Submission(id: string, team: string, completed: bool, finalScore: real,
    results: Option<Summary>, all: seq<RunSummary>)

  datatype LeaderboardEntry = LeaderboardEntry(sid: string, team: string, score: real, finalScore: real,
    p99: real, maxTps: real, correctness: real, low: real, medium: real, high: real, bestP99: real, peakTps: real,
    avgCorrectness: real, rank: int)

  /** The score a submission is ranked by. */
  function Effective(s: Submission): real {
    if s.finalScore == 0.0 && s.results.Some? then s.results.value.composite else s.finalScore
  }

  function GetCorrectness(e: LeaderboardEntry): real {
    if e.avgCorrectness > 0.0 then e.avgCorrectness else e.correctness
  }

  // ---- One entry ----

  /** What the loop over a submission's profile runs has gathered. */
  datatype Digest = Digest(low: real, medium: real, high: real, bestP99: real, peakTps: real, sum: real)

  function Gather(d: Digest, r: RunSummary): Digest {
    Digest(if r.profile == "low" then r.runScore else d.low,
           if r.profile == "medium" then r.runScore else d.medium,
           if r.profile == "high" then r.runScore else d.high,
           if r.p99 > 0.0 && (d.bestP99 == 0.0 || r.p99 < d.bestP99) then r.p99 else d.bestP99,
           if r.sustainedTps > d.peakTps then r.sustainedTps else d.peakTps,
           d.sum + r.correctness)
  }

  function GatherAll(rs: seq<RunSummary>): Digest {
    if rs == [] then Digest(0.0, 0.0, 0.0, 0.0, 0.0, 0.0) else Gather(GatherAll(rs[..|rs| - 1]), rs[|rs| - 1])
  }

  function EntryOf(s: Submission, score: real): LeaderboardEntry {
    var d := GatherAll(s.all);
    var r := if s.results.Some? then s.results.value else Summary(0.0, 0.0, 0.0, 0.0);
    LeaderboardEntry(s.id, s.team, score, s.finalScore, r.p99, r.maxTps, r.correctness, d.low, d.medium, d.high,
          d.bestP99, d.peakTps,
          if s.all == [] then 0.0 else d.sum / |s.all| as real, 0)
  }

  /** The best p99 is the least positive one of any run, 0 if there is none; the peak is the greatest
      sustained rate of any run. */
  lemma {:induction false} GatheredExtremes(rs: seq<RunSummary>)
    ensures Extremes(rs, GatherAll(rs).bestP99, GatherAll(rs).peakTps)
  {
    if rs != [] {
      var n := |rs| - 1;
      var front := rs[..n];
      GatheredExtremes(front);
      var d := GatherAll(front);
      forall i | 0 <= i < n ensures rs[i] == front[i] {}
      if d.bestP99 != 0.0 {
        var i :| 0 <= i < |front| && front[i].p99 == d.bestP99 > 0.0;
        assert rs[i].p99 == d.bestP99;
      }
      if d.peakTps != 0.0 {
        var i :| 0 <= i < |front| && front[i].sustainedTps == d.peakTps > 0.0;
        assert rs[i].sustainedTps == d.peakTps;
      }
      assert rs[n].p99 == rs[n].p99 && rs[n].sustainedTps == rs[n].sustainedTps;
    }
  }

  function ScoreFor(d: Digest, profile: string): real {
    if profile == "low" then d.low else if profile == "medium" then d.medium else d.high
  }

  /** Position `i` is that of a profile's last run, or -1 if it has none. */
  ghost predicate IsLastRun(rs: seq<RunSummary>, profile: string, i: int) {
    -1 <= i < |rs| && (i >= 0 ==> rs[i].profile == profile) && forall k :: i < k < |rs| ==> rs[k].profile != profile
  }

  /** The score shown for a profile is that of its last run, 0 if there is none. */
  lemma {:induction false} GatheredScores(rs: seq<RunSummary>, profile: string, i: int)
    requires profile == "low" || profile == "medium" || profile == "high"
    requires IsLastRun(rs, profile, i)
    ensures ScoreFor(GatherAll(rs), profile) == if i >= 0 then rs[i].runScore else 0.0
  {
    if i < |rs| - 1 { GatheredScores(rs[..|rs| - 1], profile, i); }
  }

  // ---- What an entry shows ----

  function CorrectnessSum(rs: seq<RunSummary>): real {
    if rs == [] then 0.0 else CorrectnessSum(rs[..|rs| - 1]) + rs[|rs| - 1].correctness
  }

  ghost predicate LastScore(rs: seq<RunSummary>, profile: string, x: real) {
    exists i :: IsLastRun(rs, profile, i) && x == if i >= 0 then rs[i].runScore else 0.0
  }

  /** The least positive p99 and the greatest positive rate of the runs, 0 if there is none. */
  ghost predicate Extremes(rs: seq<RunSummary>, p99: real, tps: real) {
    && (forall i :: 0 <= i < |rs| && rs[i].p99 > 0.0 ==> 0.0 < p99 <= rs[i].p99)
    && (p99 == 0.0 || exists i :: 0 <= i < |rs| && rs[i].p99 == p99 > 0.0)
    && (forall i :: 0 <= i < |rs| ==> rs[i].sustainedTps <= tps)
    && (tps == 0.0 || exists i :: 0 <= i < |rs| && rs[i].sustainedTps == tps > 0.0)
  }

  /** Every field of an entry, from its submission: the figures of the single legacy run, the last score of
      each profile, the extremes and the mean correctness of all profile runs. */
  ghost predicate Shows(e: LeaderboardEntry, s: Submission, score: real) {
    && e.sid == s.id && e.team == s.team && e.score == score && e.finalScore == s.finalScore && e.rank == 0
    && (if s.results.Some? then
          var r := s.results.value;
          e.p99 == r.p99 && e.maxTps == r.maxTps && e.correctness == r.correctness
        else e.p99 == 0.0 && e.maxTps == 0.0 && e.correctness == 0.0)
    && LastScore(s.all, "low", e.low) && LastScore(s.all, "medium", e.medium) && LastScore(s.all, "high", e.high)
    && Extremes(s.all, e.bestP99, e.peakTps)
    && (if s.all == [] then e.avgCorrectness == 0.0
        else e.avgCorrectness * |s.all| as real == CorrectnessSum(s.all))
  }

  lemma {:induction false} LastRunExists(rs: seq<RunSummary>, profile: string) returns (i: int)
    ensures IsLastRun(rs, profile, i)
  {
    if rs == [] {
      i := -1;
    } else if rs[|rs| - 1].profile == profile {
      i := |rs| - 1;
    } else {
      i := LastRunExists(rs[..|rs| - 1], profile);
    }
  }

  lemma LastScoreGathered(rs: seq<RunSummary>, profile: string)
    requires profile == "low" || profile == "medium" || profile == "high"
    ensures LastScore(rs, profile, ScoreFor(GatherAll(rs), profile))
  {
    var i := LastRunExists(rs, profile);
    GatheredScores(rs, profile, i);
  }

  lemma {:induction false} SumGathered(rs: seq<RunSummary>)
    ensures GatherAll(rs).sum == CorrectnessSum(rs)
  {
    if rs != [] { SumGathered(rs[..|rs| - 1]); }
  }

  lemma MeanTimes(sum: real, n: int)
    requires n > 0
    ensures sum / n as real * n as real == sum
  {
  }

  lemma EntryShows(s: Submission, score: real)
    ensures Shows(EntryOf(s, score), s, score)
  {
    LastScoreGathered(s.all, "low");
    LastScoreGathered(s.all, "medium");
    LastScoreGathered(s.all, "high");
    GatheredExtremes(s.all);
    SumGathered(s.all);
    if s.all != [] { MeanTimes(GatherAll(s.all).sum, |s.all|); }
  }

  method BuildEntry(s: Submission, score: real) returns (e: LeaderboardEntry)
    ensures e == EntryOf(s, score)
    ensures Shows(e, s, score)
  {
    EntryShows(s, score);
    e := LeaderboardEntry(s.id, s.team, score, s.finalScore, 0.0, 0.0, 0.0, 0.0, 0.0, 0.0, 0.0, 0.0, 0.0, 0);
    if s.results.Some? {
      var r := s.results.value;
      e := e.(p99 := r.p99, maxTps := r.maxTps, correctness := r.correctness);
    }
    if |s.all| > 0 {
      var low, medium, high, best, peak, sum, count := 0.0, 0.0, 0.0, 0.0, 0.0, 0.0, 0;
      for i := 0 to |s.all|
        invariant GatherAll(s.all[..i]) == Digest(low, medium, high, best, peak, sum) && count == i
      {
        var r := s.all[i];
        assert s.all[..i + 1][..i] == s.all[..i];
        if r.profile == "low" {
          low := r.runScore;
        } else if r.profile == "medium" {
          medium := r.runScore;
        } else if r.profile == "high" {
          high := r.runScore;
        }
        if r.p99 > 0.0 && (best == 0.0 || r.p99 < best) {
          best := r.p99;
        }
        if r.sustainedTps > peak {
          peak := r.sustainedTps;
        }
        sum := sum + r.correctness;
        count := count + 1;
      }
      assert s.all[..|s.all|] == s.all;
      e := e.(low := low, medium := medium, high := high, bestP99 := best, peakTps := peak,
              avgCorrectness := sum / count as real);
    }
  }

  // ---- The ranking ----

  datatype Key = Key(score: real, correctness: real)

  predicate Better(a: Key, b: Key) {
    a.score > b.score || (a.score == b.score && a.correctness > b.correctness)
  }

  function KeyOf(e: LeaderboardEntry): Key { Key(e.score, GetCorrectness(e)) }

  function EntryFor(s: Submission): LeaderboardEntry { EntryOf(s, Effective(s)) }

  /** The entry is that of a best completed submission of its team. */
  ghost predicate IsBest(subs: seq<Submission>, e: LeaderboardEntry) {
    && (exists i :: 0 <= i < |subs| && subs[i].completed && e == EntryFor(subs[i]))
    && forall j :: 0 <= j < |subs| && subs[j].completed && subs[j].team == e.team ==>
        !Better(KeyOf(EntryFor(subs[j])), KeyOf(e))
  }

  ghost predicate HasCompleted(subs: seq<Submission>, team: string) {
    exists i :: 0 <= i < |subs| && subs[i].completed && subs[i].team == team
  }

  /** The map holds exactly the teams with a completed submission, each with a best entry. */
  ghost predicate BestByTeam(subs: seq<Submission>, best: map<string, LeaderboardEntry>) {
    && (forall t :: t in best <==> HasCompleted(subs, t))
    && (forall t :: t in best ==> best[t].team == t && IsBest(subs, best[t]))
  }

  ghost predicate Covers(subs: seq<Submission>, ranked: seq<LeaderboardEntry>) {
    && (forall t :: HasCompleted(subs, t) <==> exists i :: 0 <= i < |ranked| && ranked[i].team == t)
    && (forall i, j :: 0 <= i < j < |ranked| ==> ranked[i].team != ranked[j].team)
  }

  ghost predicate AllBest(subs: seq<Submission>, ranked: seq<LeaderboardEntry>) {
    forall i :: 0 <= i < |ranked| ==> ranked[i].rank == i + 1 && IsBest(subs, ranked[i].(rank := 0))
  }

  ghost predicate Descending(ranked: seq<LeaderboardEntry>) {
    forall i, j :: 0 <= i < j < |ranked| ==> !Better(KeyOf(ranked[j]), KeyOf(ranked[i]))
  }

  /** What a leaderboard is: every team with a completed submission once, with a best entry, in
      descending order, ranked from 1. */
  ghost predicate IsLeaderboard(subs: seq<Submission>, ranked: seq<LeaderboardEntry>) {
    Covers(subs, ranked) && AllBest(subs, ranked) && Descending(ranked)
  }

  lemma NotCompleted(subs: seq<Submission>, s: Submission, best: map<string, LeaderboardEntry>)
    requires BestByTeam(subs, best) && !s.completed
    ensures BestByTeam(subs + [s], best)
  {
    forall t ensures HasCompleted(subs + [s], t) <==> HasCompleted(subs, t) { CompletedNext(subs, s, t); }
    forall t | t in best ensures IsBest(subs + [s], best[t]) { BestKept(subs, s, best[t]); }
  }

  lemma CompletedNext(subs: seq<Submission>, s: Submission, t: string)
    ensures HasCompleted(subs + [s], t) <==> HasCompleted(subs, t) || (s.completed && s.team == t)
  {
    var all := subs + [s];
    if HasCompleted(subs, t) {
      var i :| 0 <= i < |subs| && subs[i].completed && subs[i].team == t;
      assert all[i] == subs[i];
    }
    assert all[|subs|] == s;
  }

  lemma BestKept(subs: seq<Submission>, s: Submission, e: LeaderboardEntry)
    requires IsBest(subs, e)
    requires s.completed && s.team == e.team ==> !Better(KeyOf(EntryFor(s)), KeyOf(e))
    ensures IsBest(subs + [s], e)
  {
    var all := subs + [s];
    var i :| 0 <= i < |subs| && subs[i].completed && e == EntryFor(subs[i]);
    assert all[i] == subs[i];
  }

  lemma BestReplaced(subs: seq<Submission>, s: Submission, former: Option<LeaderboardEntry>)
    requires s.completed
    requires former.Some? ==> IsBest(subs, former.value) && former.value.team == s.team
    requires former.Some? ==> Better(KeyOf(EntryFor(s)), KeyOf(former.value))
    requires former.None? ==> !HasCompleted(subs, s.team)
    ensures IsBest(subs + [s], EntryFor(s))
  {
    var all := subs + [s];
    assert all[|subs|] == s;
    forall j | 0 <= j < |all| && all[j].completed && all[j].team == s.team
      ensures !Better(KeyOf(EntryFor(all[j])), KeyOf(EntryFor(s)))
    {
      if j < |subs| { assert all[j] == subs[j] && HasCompleted(subs, s.team); }
    }
  }

  lemma TeamKept(subs: seq<Submission>, s: Submission, best: map<string, LeaderboardEntry>)
    requires BestByTeam(subs, best) && s.completed && s.team in best
    requires !Better(KeyOf(EntryFor(s)), KeyOf(best[s.team]))
    ensures BestByTeam(subs + [s], best)
  {
    forall t ensures HasCompleted(subs + [s], t) <==> t in best { CompletedNext(subs, s, t); }
    forall t | t in best ensures IsBest(subs + [s], best[t]) { BestKept(subs, s, best[t]); }
  }

  lemma TeamReplaced(subs: seq<Submission>, s: Submission, best: map<string, LeaderboardEntry>)
    requires BestByTeam(subs, best) && s.completed
    requires s.team in best ==> Better(KeyOf(EntryFor(s)), KeyOf(best[s.team]))
    ensures BestByTeam(subs + [s], best[s.team := EntryFor(s)])
  {
    var best' := best[s.team := EntryFor(s)];
    forall t ensures HasCompleted(subs + [s], t) <==> t in best' { CompletedNext(subs, s, t); }
    BestReplaced(subs, s, if s.team in best then Some(best[s.team]) else None);
    forall t | t in best' && t != s.team ensures IsBest(subs + [s], best'[t]) { BestKept(subs, s, best[t]); }
  }

  /** A completed submission's entry replaces its team's if there is none or it is better. */
  lemma TeamStep(subs: seq<Submission>, s: Submission, former: map<string, LeaderboardEntry>,
      best: map<string, LeaderboardEntry>, entry: LeaderboardEntry)
    requires BestByTeam(subs, former) && s.completed && entry == EntryFor(s)
    requires
      if s.team !in former || Better(KeyOf(entry), KeyOf(former[s.team])) then best == former[s.team := entry]
      else best == former
    ensures BestByTeam(subs + [s], best)
  {
    if s.team in former && !Better(KeyOf(entry), KeyOf(former[s.team])) {
      TeamKept(subs, s, former);
    } else {
      TeamReplaced(subs, s, former);
    }
  }

  function Above(): (LeaderboardEntry, LeaderboardEntry) -> bool {
    (a: LeaderboardEntry, b: LeaderboardEntry) => Better(KeyOf(a), KeyOf(b))
  }

  /** The loop over the submissions. */
  method PickBest(subs: seq<Submission>) returns (best: map<string, LeaderboardEntry>)
    ensures BestByTeam(subs, best)
  {
    best := map[];
    var i := 0;
    ghost var seen: seq<Submission> := [];
    while i < |subs|
      invariant 0 <= i <= |subs| && seen == subs[..i] && BestByTeam(seen, best)
    {
      var sub := subs[i];
      ghost var before, former := seen, best;
      seen := seen + [sub];
      i := i + 1;
      if !sub.completed {
        NotCompleted(before, sub, best);
        continue;
      }
      var score := sub.finalScore;
      if score == 0.0 && sub.results.Some? {
        score := sub.results.value.composite;
      }
      var entry := BuildEntry(sub, score);
      if sub.team !in best || score > best[sub.team].score
         || (score == best[sub.team].score && GetCorrectness(entry) > GetCorrectness(best[sub.team])) {
        best := best[sub.team := entry];
      }
      TeamStep(before, sub, former, best, entry);
    }
    assert seen == subs;
  }

  /** The entries of the map, in whatever order it yields them. */
  ghost predicate Lists(best: map<string, LeaderboardEntry>, es: seq<LeaderboardEntry>) {
    && (forall i :: 0 <= i < |es| ==> es[i].team in best && best[es[i].team] == es[i])
    && (forall t :: t in best ==> best[t] in es)
    && (forall i, j :: 0 <= i < j < |es| ==> es[i].team != es[j].team)
  }

  lemma ListsNext(best: map<string, LeaderboardEntry>, es: seq<LeaderboardEntry>, e: LeaderboardEntry)
    requires Lists(best, es) && e.team !in best
    ensures Lists(best[e.team := e], es + [e])
  {
    var best', es' := best[e.team := e], es + [e];
    assert es'[|es|] == e;
    forall t | t in best' ensures best'[t] in es' {
      if t != e.team {
        assert best[t] in es;
        var i :| 0 <= i < |es| && es[i] == best[t];
        assert es'[i] == best[t];
      }
    }
  }

  method Collect(best: map<string, LeaderboardEntry>) returns (es: seq<LeaderboardEntry>)
    requires forall t :: t in best ==> best[t].team == t
    ensures Lists(best, es)
  {
    es := [];
    var left := best;
    while left.Keys != {}
      invariant left.Keys <= best.Keys && forall t :: t in left ==> left[t] == best[t]
      invariant Lists(best - left.Keys, es)
      decreases |left.Keys|
    {
      var t :| t in left.Keys;
      ghost var done := best - left.Keys;
      ListsNext(done, es, left[t]);
      es := es + [left[t]];
      left := left - {t};
      assert best - left.Keys == done[t := best[t]];
    }
    assert best - left.Keys == best;
  }

  lemma AboveIsStrictWeakOrder()
    ensures StrictWeakOrder(Above())
  {
  }

  /** Sorting keeps what is listed and puts the best first. */
  lemma SortedLists(best: map<string, LeaderboardEntry>, es: seq<LeaderboardEntry>)
    requires Lists(best, es)
    ensures Lists(best, Sort(Above(), es))
    ensures Descending(Sort(Above(), es))
  {
    var s := Sort(Above(), es);
    AboveIsStrictWeakOrder();
    SortMultiset(Above(), es);
    SortSorted(Above(), es);
    MultisetMembers(s, es);
    forall i, j | 0 <= i < j < |s| ensures !Better(KeyOf(s[j]), KeyOf(s[i])) { assert !Above()(s[j], s[i]); }
    forall i, j | 0 <= i < j < |s| ensures s[i].team != s[j].team { SortedTeamsDiffer(best, es, s, i, j); }
    forall i | 0 <= i < |s| ensures s[i].team in best && best[s[i].team] == s[i] { assert s[i] in es; }
  }

  lemma {:induction false} NoneTwice(es: seq<LeaderboardEntry>, e: LeaderboardEntry)
    requires forall i, j :: 0 <= i < j < |es| ==> es[i].team != es[j].team
    ensures multiset(es)[e] <= 1
  {
    if es != [] {
      assert es == [es[0]] + es[1..];
      NoneTwice(es[1..], e);
      if e == es[0] { assert e !in es[1..]; }
    }
  }

  lemma SortedTeamsDiffer(best: map<string, LeaderboardEntry>, es: seq<LeaderboardEntry>, s: seq<LeaderboardEntry>,
      i: nat, j: nat)
    requires Lists(best, es) && multiset(s) == multiset(es) && i < j < |s|
    ensures s[i].team != s[j].team
  {
    MultisetMembers(s, es);
    assert s[i] in es && s[j] in es;
    NoneTwice(es, s[i]);
    if s[i] == s[j] { Twice(s, i, j); }
  }

  ghost predicate Ranked(s: seq<LeaderboardEntry>, ranked: seq<LeaderboardEntry>) {
    |ranked| == |s| && forall i :: 0 <= i < |s| ==> ranked[i] == s[i].(rank := i + 1)
  }

  lemma RankedTeams(best: map<string, LeaderboardEntry>, s: seq<LeaderboardEntry>, ranked: seq<LeaderboardEntry>,
      t: string)
    requires Lists(best, s) && Ranked(s, ranked) && (forall t :: t in best ==> best[t].team == t)
    ensures t in best <==> exists i :: 0 <= i < |ranked| && ranked[i].team == t
  {
    if t in best {
      assert best[t] in s;
      var i :| 0 <= i < |s| && s[i] == best[t];
      assert ranked[i].team == t;
    }
    if i :| 0 <= i < |ranked| && ranked[i].team == t { assert s[i].team == t; }
  }

  lemma RankedCovers(subs: seq<Submission>, best: map<string, LeaderboardEntry>, s: seq<LeaderboardEntry>,
      ranked: seq<LeaderboardEntry>)
    requires BestByTeam(subs, best) && Lists(best, s) && Ranked(s, ranked)
    ensures Covers(subs, ranked)
  {
    forall t ensures HasCompleted(subs, t) <==> exists i :: 0 <= i < |ranked| && ranked[i].team == t {
      RankedTeams(best, s, ranked, t);
    }
  }

  lemma RankedBest(subs: seq<Submission>, best: map<string, LeaderboardEntry>, s: seq<LeaderboardEntry>,
      ranked: seq<LeaderboardEntry>, i: nat)
    requires BestByTeam(subs, best) && Lists(best, s) && Ranked(s, ranked) && i < |ranked|
    ensures ranked[i].rank == i + 1 && IsBest(subs, ranked[i].(rank := 0))
  {
    assert s[i].rank == 0;
    assert ranked[i].(rank := 0) == s[i];
  }

  lemma RankedIsLeaderboard(subs: seq<Submission>, best: map<string, LeaderboardEntry>, s: seq<LeaderboardEntry>,
      ranked: seq<LeaderboardEntry>)
    requires BestByTeam(subs, best) && Lists(best, s) && Ranked(s, ranked) && Descending(s)
    ensures IsLeaderboard(subs, ranked)
  {
    RankedCovers(subs, best, s, ranked);
    forall i | 0 <= i < |ranked| ensures ranked[i].rank == i + 1 && IsBest(subs, ranked[i].(rank := 0)) {
      RankedBest(subs, best, s, ranked, i);
    }
    RankedDescending(s, ranked);
  }

  lemma RankedDescending(s: seq<LeaderboardEntry>, ranked: seq<LeaderboardEntry>)
    requires Ranked(s, ranked) && Descending(s)
    ensures Descending(ranked)
  {
    forall i | 0 <= i < |s| ensures KeyOf(ranked[i]) == KeyOf(s[i]) {}
  }

  /** The score that counts for a submission: its final score, or else that of its legacy run. */
  ghost predicate Counted(s: Submission, x: real) {
    && (s.finalScore != 0.0 ==> x == s.finalScore)
    && (s.finalScore == 0.0 ==> x == if s.results.Some? then s.results.value.composite else 0.0)
  }

  /** The correctness an entry is ranked by: the mean of its profile runs, or else that of its legacy run. */
  ghost predicate RankedBy(e: LeaderboardEntry, c: real) {
    (e.avgCorrectness > 0.0 ==> c == e.avgCorrectness) && (e.avgCorrectness <= 0.0 ==> c == e.correctness)
  }

  /** A line shows the submission, which is completed, under the score that counts. */
  ghost predicate Line(e: LeaderboardEntry, s: Submission) {
    s.completed && Counted(s, e.score) && Shows(e.(rank := 0), s, e.score)
  }

  ghost predicate HasLine(subs: seq<Submission>, e: LeaderboardEntry) {
    exists s :: s in subs && Line(e, s)
  }

  /** Each line shows a completed submission of its team, and no line is behind a lower score, or behind
      the same score with lower correctness. */
  ghost predicate Lines(subs: seq<Submission>, ranked: seq<LeaderboardEntry>) {
    && (forall i :: 0 <= i < |ranked| ==> HasLine(subs, ranked[i]))
    && (forall i, j, c, d :: 0 <= i < j < |ranked| && RankedBy(ranked[i], c) && RankedBy(ranked[j], d) ==>
          ranked[i].score > ranked[j].score || (ranked[i].score == ranked[j].score && c >= d))
  }

  lemma LineOf(e: LeaderboardEntry, s: Submission)
    requires s.completed && e.(rank := 0) == EntryFor(s)
    ensures Line(e, s)
  {
    EntryShows(s, Effective(s));
    assert e.score == Effective(s);
  }

  lemma LeaderboardLines(subs: seq<Submission>, ranked: seq<LeaderboardEntry>)
    requires IsLeaderboard(subs, ranked)
    ensures Lines(subs, ranked)
  {
    forall i | 0 <= i < |ranked| ensures HasLine(subs, ranked[i]) {
      var e := ranked[i].(rank := 0);
      assert IsBest(subs, e);
      var j :| 0 <= j < |subs| && subs[j].completed && e == EntryFor(subs[j]);
      LineOf(ranked[i], subs[j]);
    }
    forall i, j, c, d | 0 <= i < j < |ranked| && RankedBy(ranked[i], c) && RankedBy(ranked[j], d)
      ensures ranked[i].score > ranked[j].score || (ranked[i].score == ranked[j].score && c >= d)
    {
      assert !Better(KeyOf(ranked[j]), KeyOf(ranked[i]));
    }
  }

  /** Each team once, with its best completed submission, best first, ranked from 1. */
  method BuildDedupedLeaderboard(subs: seq<Submission>) returns (ranked: seq<LeaderboardEntry>)
    ensures IsLeaderboard(subs, ranked)
    ensures Lines(subs, ranked)
  {
    var best := PickBest(subs);
    var es := Collect(best);
    SortedLists(best, es);
    var s := Sort(Above(), es);
    ranked := s;
    for i := 0 to |ranked|
      invariant |ranked| == |s|
      invariant forall k :: 0 <= k < |s| ==> ranked[k] == if k < i then s[k].(rank := k + 1) else s[k]
    {
      ranked := ranked[i := ranked[i].(rank := i + 1)];
    }
    RankedIsLeaderboard(subs, best, s, ranked);
    LeaderboardLines(subs, ranked);
  }

  // ---- The order of the input does not matter ----

  datatype Standing = Standing(team: string, key: Key)

  function Standings(ranked: seq<LeaderboardEntry>): (s: seq<Standing>)
    ensures |s| == |ranked| && forall i :: 0 <= i < |ranked| ==> s[i] == Standing(ranked[i].team, KeyOf(ranked[i]))
  {
    seq(|ranked|, i requires 0 <= i < |ranked| => Standing(ranked[i].team, KeyOf(ranked[i])))
  }

  lemma CompletedPermuted(a: seq<Submission>, b: seq<Submission>, t: string)
    requires multiset(a) == multiset(b)
    ensures HasCompleted(a, t) ==> HasCompleted(b, t)
  {
    MultisetMembers(a, b);
    if HasCompleted(a, t) {
      var i :| 0 <= i < |a| && a[i].completed && a[i].team == t;
      assert a[i] in b;
      var j :| 0 <= j < |b| && b[j] == a[i];
    }
  }

  /** Two best entries of a team tie, whatever the order of the submissions. */
  lemma BestTie(a: seq<Submission>, b: seq<Submission>, e: LeaderboardEntry, f: LeaderboardEntry)
    requires multiset(a) == multiset(b) && IsBest(a, e) && IsBest(b, f) && e.team == f.team
    ensures KeyOf(e) == KeyOf(f)
  {
    MultisetMembers(a, b);
    var i :| 0 <= i < |a| && a[i].completed && e == EntryFor(a[i]);
    var j :| 0 <= j < |b| && b[j].completed && f == EntryFor(b[j]);
    assert a[i] in b && b[j] in a;
    var i' :| 0 <= i' < |b| && b[i'] == a[i];
    var j' :| 0 <= j' < |a| && a[j'] == b[j];
    assert !Better(KeyOf(EntryFor(b[i'])), KeyOf(f)) && !Better(KeyOf(EntryFor(a[j'])), KeyOf(e));
  }

  lemma StandingsInclude(a: seq<Submission>, b: seq<Submission>, ra: seq<LeaderboardEntry>,
      rb: seq<LeaderboardEntry>, i: nat)
    requires multiset(a) == multiset(b) && IsLeaderboard(a, ra) && IsLeaderboard(b, rb) && i < |ra|
    ensures Standings(ra)[i] in Standings(rb)
  {
    var t := ra[i].team;
    CompletedPermuted(a, b, t);
    var j :| 0 <= j < |rb| && rb[j].team == t;
    BestTie(a, b, ra[i].(rank := 0), rb[j].(rank := 0));
    assert Standings(rb)[j] == Standings(ra)[i];
  }

  lemma {:induction false} OncePerTeam(s: seq<Standing>, x: Standing)
    requires forall i, j :: 0 <= i < j < |s| ==> s[i].team != s[j].team
    ensures multiset(s)[x] == if x in s then 1 else 0
  {
    if s != [] {
      assert s == [s[0]] + s[1..];
      OncePerTeam(s[1..], x);
      if x == s[0] { assert x !in s[1..]; }
    }
  }

  /** Every permutation of the submissions gives the same teams with the same scores and correctness. */
  lemma OrderIsIrrelevant(a: seq<Submission>, b: seq<Submission>, ra: seq<LeaderboardEntry>, rb: seq<LeaderboardEntry>)
    requires multiset(a) == multiset(b) && IsLeaderboard(a, ra) && IsLeaderboard(b, rb)
    ensures multiset(Standings(ra)) == multiset(Standings(rb))
  {
    var sa, sb := Standings(ra), Standings(rb);
    forall i | 0 <= i < |sa| ensures sa[i] in sb { StandingsInclude(a, b, ra, rb, i); }
    forall i | 0 <= i < |sb| ensures sb[i] in sa { StandingsInclude(b, a, rb, ra, i); }
    forall x ensures multiset(sa)[x] == multiset(sb)[x] {
      OncePerTeam(sa, x);
      OncePerTeam(sb, x);
    }
  }

  function Keys(s: seq<Standing>): seq<Key> {
    if s == [] then [] else [s[0].key] + Keys(s[1..])
  }

  lemma {:induction false} KeysAt(s: seq<Standing>)
    ensures |Keys(s)| == |s| && forall i :: 0 <= i < |s| ==> Keys(s)[i] == s[i].key
  {
    if s != [] { KeysAt(s[1..]); }
  }

  lemma {:induction false} KeysConcat(a: seq<Standing>, b: seq<Standing>)
    ensures Keys(a + b) == Keys(a) + Keys(b)
  {
    if a == [] {
      assert a + b == b;
    } else {
      assert (a + b)[1..] == a[1..] + b;
      KeysConcat(a[1..], b);
    }
  }

  lemma KeysWithout(b: seq<Standing>, i: nat)
    requires i < |b|
    ensures multiset(Keys(b)) == multiset(Keys(b[..i] + b[i + 1..])) + multiset{b[i].key}
  {
    var tail := [b[i]] + b[i + 1..];
    assert b == b[..i] + tail && tail[1..] == b[i + 1..];
    KeysConcat(b[..i], b[i + 1..]);
    KeysConcat(b[..i], tail);
  }

  lemma {:induction false} KeysPermuted(a: seq<Standing>, b: seq<Standing>)
    requires multiset(a) == multiset(b)
    ensures multiset(Keys(a)) == multiset(Keys(b))
  {
    if a == [] {
      assert |multiset(b)| == 0;
    } else {
      assert a[0] in multiset(b);
      var i :| 0 <= i < |b| && b[i] == a[0];
      RemovedFromBoth(a, b, i);
      KeysPermuted(a[1..], b[..i] + b[i + 1..]);
      KeysWithout(b, i);
    }
  }

  function Higher(): (Key, Key) -> bool { (a: Key, b: Key) => Better(a, b) }

  lemma HigherIsOrder()
    ensures StrictWeakOrder(Higher())
    ensures forall x, y :: !Higher()(x, y) && !Higher()(y, x) ==> x == y
  {
  }

  lemma KeysSorted(a: seq<Submission>, ra: seq<LeaderboardEntry>)
    requires IsLeaderboard(a, ra)
    ensures Sorted(Higher(), Keys(Standings(ra)))
  {
    KeysAt(Standings(ra));
  }

  /** Rank by rank the score and correctness are the same, too. */
  lemma RanksAreDetermined(a: seq<Submission>, b: seq<Submission>, ra: seq<LeaderboardEntry>, rb: seq<LeaderboardEntry>)
    requires multiset(a) == multiset(b) && IsLeaderboard(a, ra) && IsLeaderboard(b, rb)
    ensures |ra| == |rb| && forall i :: 0 <= i < |ra| ==> KeyOf(ra[i]) == KeyOf(rb[i])
  {
    var ka, kb := Keys(Standings(ra)), Keys(Standings(rb));
    OrderIsIrrelevant(a, b, ra, rb);
    KeysPermuted(Standings(ra), Standings(rb));
    KeysAt(Standings(ra));
    KeysAt(Standings(rb));
    HigherIsOrder();
    KeysSorted(a, ra);
    KeysSorted(b, rb);
    SortedIsUnique(Higher(), ka, kb);
    forall i | 0 <= i < |ra| ensures KeyOf(ra[i]) == KeyOf(rb[i]) { assert ka[i] == kb[i]; }
  }
}
