/** Scoring a contestant's fills against the golden ones. */
module Checker {
  import opened Orders
  import opened GoldenEngine
  import EngineRuns
  import G = GoldenOrderbook

  datatype CorrectnessResult = CorrectnessResult(score: real, totalFills: int, correctFills: int, incorrectFills: int)

  function FillIds(fills: seq<Fill>): set<string> {
    set i | 0 <= i < |fills| :: fills[i].orderId
  }

  /** The fill that counts for an id: the first one. */
  function First(fills: seq<Fill>, id: string): (f: Fill)
    requires id in FillIds(fills)
    ensures f in fills && f.orderId == id
  {
    if fills[0].orderId == id then fills[0]
    else
      assert exists i :: 0 <= i < |fills[1..]| && fills[1..][i].orderId == id by {
        var i :| 0 <= i < |fills| && fills[i].orderId == id;
        assert fills[1..][i - 1].orderId == id;
      }
      First(fills[1..], id)
  }

  /** No fill before it carries the id. */
  lemma {:induction false} FirstIsFirst(fills: seq<Fill>, id: string) returns (i: nat)
    requires id in FillIds(fills)
    ensures i < |fills| && fills[i] == First(fills, id) && forall j :: 0 <= j < i ==> fills[j].orderId != id
  {
    if fills[0].orderId == id {
      i := 0;
    } else {
      var k :| 0 <= k < |fills| && fills[k].orderId == id;
      assert fills[1..][k - 1].orderId == id;
      i := FirstIsFirst(fills[1..], id);
      i := i + 1;
    }
  }

  predicate FillsMatch(c: Fill, g: Fill) {
    c.accepted == g.accepted && c.executedPrice == g.executedPrice && c.executedQty == g.executedQty
  }

  /** Under one id, fills match if and only if they are the same fill. */
  lemma MatchIsEquality(c: Fill, g: Fill)
    requires c.orderId == g.orderId
    ensures FillsMatch(c, g) <==> c == g
  {
  }

  /** The ids to which the contestant's first answer is the first golden one. */
  ghost function CorrectIds(contestant: seq<Fill>, golden: seq<Fill>): set<string> {
    set id | id in FillIds(contestant) && id in FillIds(golden) && First(contestant, id) == First(golden, id)
  }

  /** What a verdict means: one correct fill per agreed id; one fill counted per contestant fill and
      per golden id never answered. */
  ghost function Verdict(contestant: seq<Fill>, golden: seq<Fill>): CorrectnessResult {
    Totals(|CorrectIds(contestant, golden)|, |contestant| + |FillIds(golden) - FillIds(contestant)|)
  }

  function Totals(correct: int, total: int): CorrectnessResult {
    CorrectnessResult(Fraction(correct, total), total, correct, total - correct)
  }

  function Fraction(correct: int, total: int): real {
    if total > 0 then correct as real / total as real else 0.0
  }

  lemma FractionFacts(correct: int, total: int)
    requires 0 <= correct <= total
    ensures 0.0 <= Fraction(correct, total) <= 1.0
    ensures total > 0 ==> (Fraction(correct, total) == 1.0 <==> correct == total)
  {
    if total > 0 { QuotientFacts(correct as real, total as real); }
  }

  lemma QuotientFacts(c: real, t: real)
    requires 0.0 <= c <= t && t > 0.0
    ensures 0.0 <= c / t <= 1.0 && (c / t == 1.0 <==> c == t)
  {
    var q := c / t;
    assert q * t == c;
    SignOfProduct(q, t);
    SignOfProduct(q - 1.0, t);
    assert (q - 1.0) * t == c - t;
  }

  lemma SignOfProduct(x: real, t: real)
    requires t > 0.0
    ensures x > 0.0 <==> x * t > 0.0
    ensures x < 0.0 <==> x * t < 0.0
  {
  }

  lemma IdsAppend(fills: seq<Fill>, f: Fill)
    ensures FillIds(fills + [f]) == FillIds(fills) + {f.orderId}
  {
    var t := fills + [f];
    assert t[|fills|] == f;
    forall id | id in FillIds(fills) ensures id in FillIds(t) {
      var i :| 0 <= i < |fills| && fills[i].orderId == id;
      assert t[i].orderId == id;
    }
  }

  lemma {:induction false} FirstAppend(fills: seq<Fill>, f: Fill, id: string)
    requires id in FillIds(fills) || id == f.orderId
    ensures id in FillIds(fills + [f])
    ensures First(fills + [f], id) == if id in FillIds(fills) then First(fills, id) else f
  {
    IdsAppend(fills, f);
    var t := fills + [f];
    if fills != [] {
      assert t[0] == fills[0] && t[1..] == fills[1..] + [f];
      if fills[0].orderId != id {
        if id in FillIds(fills) {
          var i :| 0 <= i < |fills| && fills[i].orderId == id;
          assert fills[1..][i - 1].orderId == id;
        } else {
          assert forall i :: 0 <= i < |fills[1..]| ==> fills[1..][i] == fills[i + 1];
          assert id !in FillIds(fills[1..]);
        }
        FirstAppend(fills[1..], f, id);
      }
    }
  }

  /** Appending `f` to the contestant's fills makes one more id correct. */
  ghost predicate NewlyCorrect(contestant: seq<Fill>, f: Fill, golden: seq<Fill>) {
    f.orderId in FillIds(golden) && f.orderId !in FillIds(contestant) && f == First(golden, f.orderId)
  }

  lemma CorrectAppendAt(contestant: seq<Fill>, f: Fill, golden: seq<Fill>, id: string)
    ensures id in CorrectIds(contestant + [f], golden) <==>
            id in CorrectIds(contestant, golden) || (id == f.orderId && NewlyCorrect(contestant, f, golden))
  {
    IdsAppend(contestant, f);
    if id in FillIds(contestant) || id == f.orderId { FirstAppend(contestant, f, id); }
  }

  lemma CorrectAppend(contestant: seq<Fill>, f: Fill, golden: seq<Fill>)
    ensures |CorrectIds(contestant + [f], golden)| ==
            |CorrectIds(contestant, golden)| + if NewlyCorrect(contestant, f, golden) then 1 else 0
  {
    var before, after := CorrectIds(contestant, golden), CorrectIds(contestant + [f], golden);
    forall id ensures id in after <==> id in before || (id == f.orderId && NewlyCorrect(contestant, f, golden)) {
      CorrectAppendAt(contestant, f, golden, id);
    }
    assert after == if NewlyCorrect(contestant, f, golden) then before + {f.orderId} else before;
  }

  lemma VerdictFromCounts(contestant: seq<Fill>, golden: seq<Fill>, matched: set<string>,
      correct: int, total: int)
    requires matched == FillIds(contestant) * FillIds(golden)
    requires correct == |CorrectIds(contestant, golden)|
    requires total == |contestant| + |FillIds(golden) - matched|
    ensures Verdict(contestant, golden) == Totals(correct, total)
  {
    assert FillIds(golden) - matched == FillIds(golden) - FillIds(contestant);
  }

  lemma EmptyVerdict()
    ensures Verdict([], []) == CorrectnessResult(0.0, 0, 0, 0)
  {
    assert CorrectIds([], []) == {};
    assert FillIds([]) - FillIds([]) == {};
  }

  /** The golden fills by id, the first occurrence winning. */
  method IndexFirst(golden: seq<Fill>) returns (byId: map<string, Fill>)
    ensures byId.Keys == FillIds(golden)
    ensures forall id :: id in byId ==> byId[id] == First(golden, id)
  {
    byId := map[];
    for i := 0 to |golden|
      invariant byId.Keys == FillIds(golden[..i])
      invariant forall id :: id in byId ==> byId[id] == First(golden[..i], id)
    {
      assert golden[..i + 1] == golden[..i] + [golden[i]];
      IdsAppend(golden[..i], golden[i]);
      forall id | id in FillIds(golden[..i + 1]) { FirstAppend(golden[..i], golden[i], id); }
      if golden[i].orderId !in byId {
        byId := byId[golden[i].orderId := golden[i]];
      }
    }
    assert golden[..|golden|] == golden;
  }

  /** Golden ids never matched, counted one by one. */
  method CountUnmatched(ids: set<string>, matched: set<string>) returns (n: nat)
    ensures n == |ids - matched|
  {
    n := 0;
    var left := ids;
    while left != {}
      invariant left <= ids && n == |(ids - left) - matched|
      decreases |left|
    {
      var id :| id in left;
      ghost var before := (ids - left) - matched;
      left := left - {id};
      if id !in matched {
        assert (ids - left) - matched == before + {id};
        n := n + 1;
      } else {
        assert (ids - left) - matched == before;
      }
    }
    assert ids - left == ids;
  }

  /** What one more contestant fill does to the loop's set and count. */
  lemma MatchStep(before: seq<Fill>, cf: Fill, byId: map<string, Fill>, golden: seq<Fill>, matched: set<string>)
    requires byId.Keys == FillIds(golden) && forall id :: id in byId ==> byId[id] == First(golden, id)
    requires matched == FillIds(before) * FillIds(golden)
    ensures
      var counts := cf.orderId in byId && cf.orderId !in matched;
      && FillIds(before + [cf]) * FillIds(golden) == (if counts then matched + {cf.orderId} else matched)
      && |CorrectIds(before + [cf], golden)| ==
           |CorrectIds(before, golden)| + if counts && FillsMatch(cf, byId[cf.orderId]) then 1 else 0
  {
    IdsAppend(before, cf);
    CorrectAppend(before, cf, golden);
    if cf.orderId in byId { MatchIsEquality(cf, byId[cf.orderId]); }
  }

  lemma PrefixNext<T>(s: seq<T>, i: nat)
    requires i < |s|
    ensures s[..i + 1] == s[..i] + [s[i]]
  {
  }

  /** Compares the contestant's fills one by one; an id counts the first time it is answered. */
  method MatchFills(contestant: seq<Fill>, goldenById: map<string, Fill>, ghost golden: seq<Fill>)
    returns (correct: nat, incorrect: nat, matched: set<string>)
    requires goldenById.Keys == FillIds(golden)
    requires forall id :: id in goldenById ==> goldenById[id] == First(golden, id)
    ensures correct == |CorrectIds(contestant, golden)| && correct + incorrect == |contestant|
    ensures matched == FillIds(contestant) * FillIds(golden)
  {
    correct, incorrect, matched := 0, 0, {};
    ghost var seen: seq<Fill> := [];
    for i := 0 to |contestant|
      invariant seen == contestant[..i] && matched == FillIds(seen) * FillIds(golden)
      invariant correct == |CorrectIds(seen, golden)| && correct + incorrect == i
    {
      var cf := contestant[i];
      MatchStep(seen, cf, goldenById, golden, matched);
      PrefixNext(contestant, i);
      seen := seen + [cf];
      if cf.orderId !in goldenById || cf.orderId in matched {
        incorrect := incorrect + 1;
      } else {
        matched := matched + {cf.orderId};
        if FillsMatch(cf, goldenById[cf.orderId]) {
          correct := correct + 1;
        } else {
          incorrect := incorrect + 1;
        }
      }
    }
    assert seen == contestant;
  }

  /** The verdict's four figures. */
  ghost predicate Figures(v: CorrectnessResult, correct: int, total: int) {
    && v.correctFills == correct && v.totalFills == total && v.incorrectFills == total - correct
    && (if total > 0 then v.score * total as real == correct as real else v.score == 0.0)
  }

  lemma TotalsFigures(correct: int, total: int)
    requires total >= 0
    ensures Figures(Totals(correct, total), correct, total)
  {
    if total > 0 { QuotientTimes(correct as real, total as real); }
  }

  lemma VerdictFigures(contestant: seq<Fill>, golden: seq<Fill>)
    ensures Figures(Verdict(contestant, golden), |CorrectIds(contestant, golden)|,
                    |contestant| + |FillIds(golden) - FillIds(contestant)|)
  {
    TotalsFigures(|CorrectIds(contestant, golden)|, |contestant| + |FillIds(golden) - FillIds(contestant)|);
  }

  lemma QuotientTimes(c: real, t: real)
    requires t > 0.0
    ensures c / t * t == c
  {
  }

  method Check(contestant: seq<Fill>, golden: seq<Fill>) returns (v: CorrectnessResult)
    ensures v == Verdict(contestant, golden)
    ensures Figures(v, |CorrectIds(contestant, golden)|, |contestant| + |FillIds(golden) - FillIds(contestant)|)
  {
    VerdictFigures(contestant, golden);
    if |golden| == 0 && |contestant| == 0 {
      EmptyVerdict();
      return CorrectnessResult(0.0, 0, 0, 0);
    }
    var goldenById := IndexFirst(golden);
    var correct, incorrect, matched := MatchFills(contestant, goldenById, golden);
    var unanswered := CountUnmatched(goldenById.Keys, matched);
    incorrect := incorrect + unanswered;
    var total := correct + incorrect;
    VerdictFromCounts(contestant, golden, matched, correct, total);
    return Totals(correct, total);
  }

  // ---- What the verdict promises ----

  ghost predicate DistinctFills(fills: seq<Fill>) {
    forall i, j :: 0 <= i < j < |fills| ==> fills[i].orderId != fills[j].orderId
  }

  lemma OnlyFill(fills: seq<Fill>, f: Fill)
    requires DistinctFills(fills) && f in fills
    ensures f.orderId in FillIds(fills) && First(fills, f.orderId) == f
  {
    var i :| 0 <= i < |fills| && fills[i] == f;
    assert fills[i].orderId in FillIds(fills);
    var j :| 0 <= j < |fills| && fills[j] == First(fills, f.orderId);
    if i < j { assert fills[i].orderId != fills[j].orderId; }
    if j < i { assert fills[j].orderId != fills[i].orderId; }
  }

  lemma SameFills(a: seq<Fill>, b: seq<Fill>)
    requires multiset(a) == multiset(b) && DistinctFills(a) && DistinctFills(b)
    ensures FillIds(a) == FillIds(b)
    ensures forall id :: id in FillIds(a) ==> First(a, id) == First(b, id)
  {
    forall f | f in a ensures f in b { assert f in multiset(a); }
    forall f | f in b ensures f in a { assert f in multiset(b); }
    forall id | id in FillIds(a) ensures id in FillIds(b) && First(a, id) == First(b, id) {
      OnlyFill(b, First(a, id));
    }
    forall id | id in FillIds(b) ensures id in FillIds(a) {
      OnlyFill(a, First(b, id));
    }
  }

  /** When no id repeats on either side, the verdict does not depend on the order of the slices. */
  lemma OrderIsIrrelevant(c1: seq<Fill>, c2: seq<Fill>, g1: seq<Fill>, g2: seq<Fill>)
    requires multiset(c1) == multiset(c2) && DistinctFills(c1) && DistinctFills(c2)
    requires multiset(g1) == multiset(g2) && DistinctFills(g1) && DistinctFills(g2)
    ensures Verdict(c1, g1) == Verdict(c2, g2)
  {
    SameCorrectIds(c1, c2, g1, g2);
    SameLength(c1, c2);
    var correct, total := |CorrectIds(c1, g1)|, |c1| + |FillIds(g1) - FillIds(c1)|;
    assert FillIds(g1) - FillIds(c1) * FillIds(g1) == FillIds(g1) - FillIds(c1);
    VerdictFromCounts(c1, g1, FillIds(c1) * FillIds(g1), correct, total);
    VerdictFromCounts(c2, g2, FillIds(c2) * FillIds(g2), correct, total);
  }

  lemma SameLength<T>(a: seq<T>, b: seq<T>)
    requires multiset(a) == multiset(b)
    ensures |a| == |b|
  {
    assert |multiset(a)| == |a| && |multiset(b)| == |b|;
  }

  lemma SameCorrectIds(c1: seq<Fill>, c2: seq<Fill>, g1: seq<Fill>, g2: seq<Fill>)
    requires multiset(c1) == multiset(c2) && DistinctFills(c1) && DistinctFills(c2)
    requires multiset(g1) == multiset(g2) && DistinctFills(g1) && DistinctFills(g2)
    ensures CorrectIds(c1, g1) == CorrectIds(c2, g2)
    ensures FillIds(g1) == FillIds(g2) && FillIds(c1) == FillIds(c2)
  {
    SameFills(c1, c2);
    SameFills(g1, g2);
  }

  lemma {:induction false} FewerIdsThanFills(fills: seq<Fill>)
    ensures |FillIds(fills)| <= |fills|
    ensures |FillIds(fills)| == |fills| <==> DistinctFills(fills)
  {
    if fills == [] {
      assert FillIds(fills) == {};
    } else {
      var n := |fills| - 1;
      FewerIdsThanFills(fills[..n]);
      assert fills == fills[..n] + [fills[n]];
      IdsAppend(fills[..n], fills[n]);
      if fills[n].orderId in FillIds(fills[..n]) {
        var i :| 0 <= i < n && fills[..n][i].orderId == fills[n].orderId;
        assert fills[i].orderId == fills[n].orderId;
      } else {
        forall i | 0 <= i < n ensures fills[i].orderId != fills[n].orderId {
          assert fills[..n][i].orderId in FillIds(fills[..n]);
        }
        if DistinctFills(fills[..n]) {
          forall i, j | 0 <= i < j < |fills| ensures fills[i].orderId != fills[j].orderId {
            if j < n { assert fills[..n][i].orderId != fills[..n][j].orderId; }
          }
        }
        if DistinctFills(fills) {
          forall i, j | 0 <= i < j < n ensures fills[..n][i].orderId != fills[..n][j].orderId {
            assert fills[i].orderId != fills[j].orderId;
          }
        }
      }
    }
  }

  /** A contestant that answers exactly the golden fills gets one correct fill per distinct id, the
      repeats counted as duplicates; so it scores 1 if and only if no id repeats. */
  lemma PerfectEcho(golden: seq<Fill>)
    requires golden != []
    ensures Verdict(golden, golden).correctFills == |FillIds(golden)|
    ensures Verdict(golden, golden).totalFills == |golden|
    ensures Verdict(golden, golden).score == 1.0 <==> DistinctFills(golden)
  {
    assert CorrectIds(golden, golden) == FillIds(golden);
    assert FillIds(golden) - FillIds(golden) == {};
    FewerIdsThanFills(golden);
    FractionFacts(|FillIds(golden)|, |golden|);
  }

  /** Every contestant fill is the first golden fill of its id. */
  ghost predicate AllMatch(contestant: seq<Fill>, golden: seq<Fill>) {
    forall i :: 0 <= i < |contestant| && contestant[i].orderId in FillIds(golden) ==>
      contestant[i] == First(golden, contestant[i].orderId)
  }

  lemma AllCorrect(contestant: seq<Fill>, golden: seq<Fill>)
    requires DistinctFills(contestant) && FillIds(contestant) <= FillIds(golden)
    ensures CorrectIds(contestant, golden) == FillIds(contestant) <==> AllMatch(contestant, golden)
  {
    forall i | 0 <= i < |contestant|
      ensures contestant[i].orderId in FillIds(contestant) && First(contestant, contestant[i].orderId) == contestant[i]
    {
      OnlyFill(contestant, contestant[i]);
    }
    if CorrectIds(contestant, golden) == FillIds(contestant) {
      forall i | 0 <= i < |contestant| && contestant[i].orderId in FillIds(golden)
        ensures contestant[i] == First(golden, contestant[i].orderId)
      {
        assert contestant[i].orderId in CorrectIds(contestant, golden);
      }
    }
  }

  lemma {:induction false} FullSubset<T>(a: set<T>, b: set<T>)
    requires a <= b && |a| == |b|
    ensures a == b
  {
    if x :| x in b && x !in a { SubsetSize(a, b - {x}); }
  }

  /** A contestant scores 1 if and only if it answers exactly the golden ids, each once, and each as the
      first golden fill of that id says. */
  lemma PerfectScore(contestant: seq<Fill>, golden: seq<Fill>)
    ensures Verdict(contestant, golden).score == 1.0 <==>
      && contestant != [] && DistinctFills(contestant)
      && FillIds(contestant) == FillIds(golden) && AllMatch(contestant, golden)
  {
    var correct, ids, missing := CorrectIds(contestant, golden), FillIds(contestant),
        FillIds(golden) - FillIds(contestant);
    FewerIdsThanFills(contestant);
    SubsetSize(correct, ids);
    FractionFacts(|correct|, |contestant| + |missing|);
    if Verdict(contestant, golden).score == 1.0 {
      FullSubset(correct, ids);
      assert missing == {};
      AllCorrect(contestant, golden);
    }
    if DistinctFills(contestant) && ids == FillIds(golden) && AllMatch(contestant, golden) {
      AllCorrect(contestant, golden);
      assert missing == {};
    }
  }

  /** The score is a fraction. */
  lemma ScoreIsFraction(contestant: seq<Fill>, golden: seq<Fill>)
    ensures
      var v := Verdict(contestant, golden);
      0 <= v.correctFills <= v.totalFills && 0.0 <= v.score <= 1.0
  {
    FewerIdsThanFills(contestant);
    assert CorrectIds(contestant, golden) <= FillIds(contestant);
    SubsetSize(CorrectIds(contestant, golden), FillIds(contestant));
    FractionFacts(Verdict(contestant, golden).correctFills, Verdict(contestant, golden).totalFills);
  }

  lemma {:induction false} SubsetSize<T>(a: set<T>, b: set<T>)
    requires a <= b
    ensures |a| <= |b|
  {
    if a != {} {
      var x :| x in a;
      SubsetSize(a - {x}, b - {x});
    }
  }

  // ---- Scoring a fleet run ----

  /** One order sent by a bot, the contestant's answer, and whether the transport failed. */
  datatype OrderResult = OrderResult(order: Order, fill: Fill, failed: bool)

  function OrdersOf(rs: seq<OrderResult>): (os: seq<Order>)
    ensures |os| == |rs|
  {
    if rs == [] then [] else [rs[0].order] + OrdersOf(rs[1..])
  }

  /** The golden fills: the book's answers, those it refused as malformed left out. */
  function Answered(answers: seq<Result<Fill, OrderError>>): seq<Fill> {
    if answers == [] then []
    else (if answers[0].Ok? then [answers[0].value] else []) + Answered(answers[1..])
  }

  /** The contestant's fills that are compared: not those of failed calls, nor of malformed orders. */
  function Compared(rs: seq<OrderResult>, answers: seq<Result<Fill, OrderError>>): seq<Fill>
    requires |rs| == |answers|
  {
    if rs == [] then []
    else (if answers[0].Ok? && !rs[0].failed then [rs[0].fill] else []) + Compared(rs[1..], answers[1..])
  }

  /** One more order at the end of a run: its fills are compared unless the golden book refused the order or
      the call failed; the golden answer counts even then. */
  lemma {:induction false} OneMoreOrder(rs: seq<OrderResult>, answers: seq<Result<Fill, OrderError>>,
      r: OrderResult, a: Result<Fill, OrderError>)
    requires |rs| == |answers|
    ensures Compared(rs + [r], answers + [a]) ==
            if a.Err? || r.failed then Compared(rs, answers) else Compared(rs, answers) + [r.fill]
    ensures Answered(answers + [a]) == if a.Err? then Answered(answers) else Answered(answers) + [a.value]
  {
    if rs == [] {
      assert (rs + [r])[1..] == [] && (answers + [a])[1..] == [];
    } else {
      assert (rs + [r])[1..] == rs[1..] + [r] && (answers + [a])[1..] == answers[1..] + [a];
      OneMoreOrder(rs[1..], answers[1..], r, a);
    }
  }

  /** The executor's loop: replays every order of the run on a new golden book. */
  method CollectFills(results: seq<OrderResult>) returns (golden: seq<Fill>, contestant: seq<Fill>)
    ensures golden == Answered(Replay(EMPTY_ENGINE, OrdersOf(results)).1)
    ensures contestant == Compared(results, Replay(EMPTY_ENGINE, OrdersOf(results)).1)
  {
    var book := new G.GoldenOrderbook();
    golden, contestant := [], [];
    ghost var answers := Replay(EMPTY_ENGINE, OrdersOf(results)).1;
    assert results[0..] == results && answers[0..] == answers;
    for i := 0 to |results|
      invariant fresh(book) && fresh(set e | e in book.buys) && fresh(set e | e in book.sells)
      invariant book.Valid()
      invariant answers[i..] == Replay(book.state, OrdersOf(results[i..])).1
      invariant golden + Answered(answers[i..]) == Answered(answers)
      invariant contestant + Compared(results[i..], answers[i..]) == Compared(results, answers)
    {
      ReplayHead(book.state, results[i..], answers[i..]);
      CollectOne(golden, contestant, results[i..], answers[i..]);
      assert results[i..][1..] == results[i + 1..] && answers[i..][1..] == answers[i + 1..];
      var r := book.Apply(results[i].order);
      if r.Ok? {
        golden := golden + [r.value];
        if !results[i].failed {
          contestant := contestant + [results[i].fill];
        }
      }
    }
    assert results[|results|..] == [] && answers[|results|..] == [];
  }

  lemma ReplayHead(m: Engine, rs: seq<OrderResult>, answers: seq<Result<Fill, OrderError>>)
    requires rs != [] && answers == Replay(m, OrdersOf(rs)).1
    ensures answers[0] == Step(m, rs[0].order).1
    ensures answers[1..] == Replay(Step(m, rs[0].order).0, OrdersOf(rs[1..])).1
  {
    assert OrdersOf(rs)[0] == rs[0].order && OrdersOf(rs)[1..] == OrdersOf(rs[1..]);
  }

  lemma CollectOne(golden: seq<Fill>, contestant: seq<Fill>, rs: seq<OrderResult>,
      answers: seq<Result<Fill, OrderError>>)
    requires rs != [] && |answers| == |rs|
    ensures golden + Answered(answers) ==
            (if answers[0].Ok? then golden + [answers[0].value] else golden) + Answered(answers[1..])
    ensures contestant + Compared(rs, answers) ==
            (if answers[0].Ok? && !rs[0].failed then contestant + [rs[0].fill] else contestant) +
                Compared(rs[1..], answers[1..])
  {
    var g, c := Answered(answers[1..]), Compared(rs[1..], answers[1..]);
    assert [] + g == g && [] + c == c;
    if answers[0].Ok? {
      assert golden + ([answers[0].value] + g) == golden + [answers[0].value] + g;
      assert contestant + ([rs[0].fill] + c) == contestant + [rs[0].fill] + c;
    }
  }

  method CheckCorrectness(results: seq<OrderResult>) returns (v: CorrectnessResult)
    ensures
      var answers := Replay(EMPTY_ENGINE, OrdersOf(results)).1;
      v == Verdict(Compared(results, answers), Answered(answers))
  {
    var golden, contestant := CollectFills(results);
    v := Check(contestant, golden);
  }

  /** The documentation calls 1.0 "all correct". An engine that answers an order and later the cancel of
      that order, both under the order's id, stays below it, however correct both answers are. */
  lemma CancelCostsPerfectScore(rs: seq<OrderResult>, i: nat, j: nat)
    requires i < j < |rs| && rs[i].order.id != "" && rs[j].order.id != ""
    requires !rs[i].order.kind.UnknownKind? && !rs[j].order.kind.UnknownKind?
    requires !rs[i].failed && !rs[j].failed && rs[i].fill.orderId == rs[j].fill.orderId
    ensures
      var answers := Replay(EMPTY_ENGINE, OrdersOf(rs)).1;
      Verdict(Compared(rs, answers), Answered(answers)).score < 1.0
  {
    var answers := Replay(EMPTY_ENGINE, OrdersOf(rs)).1;
    ComparedTwice(EMPTY_ENGINE, rs, i, j, Compared(rs, answers));
    PerfectScore(Compared(rs, answers), Answered(answers));
    ScoreIsFraction(Compared(rs, answers), Answered(answers));
  }

  /** The cancel has to be answered: if its call fails, its golden fill counts as answered by the fill of
      the order it cancels, and the score can be 1. */
  lemma FailedCancelKeepsPerfectScore(lost: Fill)
    ensures
      var a, c := Order("a", Limit, Buy, 10, 1), Order("a", Cancel, Buy, 0, 0);
      var rs := [OrderResult(a, Fill("a", 0, 0, true), false), OrderResult(c, lost, true)];
      var answers := Replay(EMPTY_ENGINE, OrdersOf(rs)).1;
      Verdict(Compared(rs, answers), Answered(answers)).score == 1.0
  {
    var a, c, f := Order("a", Limit, Buy, 10, 1), Order("a", Cancel, Buy, 0, 0), Fill("a", 0, 0, true);
    var first, second := OrderResult(a, f, false), OrderResult(c, lost, true);
    EngineRuns.BuyRestsOnEmptyAsks(EMPTY_ENGINE, a);
    var m := Step(EMPTY_ENGINE, a).0;
    assert Step(m, c).1 == Ok(f);
    assert Step(EMPTY_ENGINE, a).1 == Ok(f) by { EngineRuns.LimitClosedForm(EMPTY_ENGINE, a); }
    ReplayOfTwo(first, second, m, f, f);
    var contestant, golden := [f], [f, f];
    assert golden[0].orderId == "a" && contestant[0].orderId == "a";
    assert FillIds(golden) == {"a"} && FillIds(contestant) == {"a"};
    PerfectScore(contestant, golden);
  }

  lemma ReplayOfTwo(r0: OrderResult, r1: OrderResult, m: Engine, f0: Fill, f1: Fill)
    requires Step(EMPTY_ENGINE, r0.order) == (m, Ok(f0)) && Step(m, r1.order).1 == Ok(f1)
    requires !r0.failed && r1.failed
    ensures
      var answers := Replay(EMPTY_ENGINE, OrdersOf([r0, r1])).1;
      Compared([r0, r1], answers) == [r0.fill] && Answered(answers) == [f0, f1]
  {
    var m2 := Step(m, r1.order).0;
    assert [r0, r1][1..] == [r1] && [r1][1..] == [];
    assert OrdersOf([r1]) == [r1.order] && OrdersOf([r0, r1]) == [r0.order, r1.order];
    assert [r0.order, r1.order][1..] == [r1.order] && [r1.order][1..] == [];
    assert Replay(m2, []) == (m2, []);
    var last: seq<Result<Fill, OrderError>> := [Ok(f1)];
    assert last + [] == last && Replay(m, [r1.order]).1 == last;
    var answers := [Ok(f0)] + last;
    assert Replay(EMPTY_ENGINE, [r0.order, r1.order]).1 == answers && answers[1..] == last && last[1..] == [];
    var only: seq<Fill> := [f1];
    assert only + [] == only && Answered([]) == [] && Compared([], []) == [];
    assert Compared([r1], last) == [] && Answered(last) == only;
  }

  lemma AnswerOfStep(m: Engine, o: Order)
    requires o.id != "" && !o.kind.UnknownKind?
    ensures Step(m, o).1.Ok? && Step(m, o).1.value.orderId == o.id
  {
  }

  /** The compared fills of a run: that of its first result, if it counts, and those of the others. */
  lemma ComparedCons(m: Engine, rs: seq<OrderResult>)
    requires rs != []
    ensures
      var (m1, r) := Step(m, rs[0].order);
      var rest := Compared(rs[1..], Replay(m1, OrdersOf(rs[1..])).1);
      Compared(rs, Replay(m, OrdersOf(rs)).1) == if r.Ok? && !rs[0].failed then [rs[0].fill] + rest else rest
  {
    ReplayHead(m, rs, Replay(m, OrdersOf(rs)).1);
  }

  lemma IdsCons(f: Fill, fills: seq<Fill>)
    ensures FillIds([f] + fills) == {f.orderId} + FillIds(fills)
  {
    var all := [f] + fills;
    assert all[0].orderId == f.orderId;
    forall i | 0 <= i < |fills| ensures fills[i].orderId in FillIds(all) { assert all[i + 1] == fills[i]; }
  }

  lemma {:induction false} ComparedOnce(m: Engine, rs: seq<OrderResult>, i: nat, all: seq<Fill>)
    requires i < |rs| && rs[i].order.id != "" && !rs[i].order.kind.UnknownKind? && !rs[i].failed
    requires all == Compared(rs, Replay(m, OrdersOf(rs)).1)
    ensures rs[i].fill.orderId in FillIds(all)
    decreases |rs|
  {
    var (m1, r) := Step(m, rs[0].order);
    var rest := Compared(rs[1..], Replay(m1, OrdersOf(rs[1..])).1);
    assert all == if r.Ok? && !rs[0].failed then [rs[0].fill] + rest else rest by { ComparedCons(m, rs); }
    IdsCons(rs[0].fill, rest);
    if i == 0 {
      assert r.Ok? by { AnswerOfStep(m, rs[0].order); }
    } else {
      assert rs[1..][i - 1] == rs[i];
      ComparedOnce(m1, rs[1..], i - 1, rest);
    }
  }

  lemma {:induction false} ComparedTwice(m: Engine, rs: seq<OrderResult>, i: nat, j: nat, all: seq<Fill>)
    requires i < j < |rs| && rs[i].order.id != "" && rs[j].order.id != ""
    requires !rs[i].order.kind.UnknownKind? && !rs[j].order.kind.UnknownKind?
    requires !rs[i].failed && !rs[j].failed && rs[i].fill.orderId == rs[j].fill.orderId
    requires all == Compared(rs, Replay(m, OrdersOf(rs)).1)
    ensures !DistinctFills(all)
    decreases |rs|
  {
    var (m1, r) := Step(m, rs[0].order);
    var rest := Compared(rs[1..], Replay(m1, OrdersOf(rs[1..])).1);
    assert all == if r.Ok? && !rs[0].failed then [rs[0].fill] + rest else rest by { ComparedCons(m, rs); }
    assert rs[1..][j - 1] == rs[j];
    if i == 0 {
      assert r.Ok? by { AnswerOfStep(m, rs[0].order); }
      ComparedOnce(m1, rs[1..], j - 1, rest);
    } else {
      assert rs[1..][i - 1] == rs[i];
      ComparedTwice(m1, rs[1..], i - 1, j - 1, rest);
    }
    StillTwice(rs[0].fill, rest, r.Ok? && !rs[0].failed, all);
  }

  lemma StillTwice(f: Fill, rest: seq<Fill>, counts: bool, all: seq<Fill>)
    requires all == if counts then [f] + rest else rest
    requires (counts && f.orderId in FillIds(rest)) || !DistinctFills(rest)
    ensures !DistinctFills(all)
  {
    if counts { NotDistinct(f, rest); }
  }

  lemma NotDistinct(f: Fill, fills: seq<Fill>)
    requires f.orderId in FillIds(fills) || !DistinctFills(fills)
    ensures !DistinctFills([f] + fills)
  {
    var all := [f] + fills;
    if f.orderId in FillIds(fills) {
      var k :| 0 <= k < |fills| && fills[k].orderId == f.orderId;
      assert all[0] == f && all[k + 1] == fills[k];
    } else {
      var a, b :| 0 <= a < b < |fills| && fills[a].orderId == fills[b].orderId;
      assert all[a + 1] == fills[a] && all[b + 1] == fills[b];
    }
  }
}
