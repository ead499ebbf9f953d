/** Exactly when cancelling works: cancels work in every state along a run if and only if no order of the
    run comes to rest under an id still resting; and then the index is exact at the end. */
module Cancels {
  import opened Orders
  import opened Sorting
  import opened PriceTimeBook
  import opened GoldenEngine
  import opened EngineRefinesBook
  import EngineRuns

  ghost predicate Rests(m: Engine, id: string) {
    id in Ids(m.buys) + Ids(m.sells)
  }

  /** The cancel is accepted exactly when its order rests, and nothing rests under that id afterwards. */
  ghost predicate CancelWorks(m: Engine, c: Order) {
    Step(m, c).1 == Ok(Fill(c.id, 0, 0, Rests(m, c.id))) && !Rests(Step(m, c).0, c.id)
  }

  ghost predicate CancelsWork(m: Engine) {
    forall c: Order :: c.kind.Cancel? && c.id != "" ==> CancelWorks(m, c)
  }

  lemma {:induction false} SecondStays(es: seq<Slot>, e: Slot)
    requires e.id in Ids(es)
    ensures e.id in Ids(RemoveId(es + [e], e.id))
  {
    var i :| 0 <= i < |es| && es[i].id == e.id;
    assert (es + [e])[1..] == es[1..] + [e];
    if es[0].id == e.id {
      assert (es[1..] + [e])[|es| - 1] == e;
    } else {
      assert es[1..][i - 1].id == e.id;
      SecondStays(es[1..], e);
      var t := RemoveId(es[1..] + [e], e.id);
      IdsConcat([es[0]], t);
    }
  }

  /** Removing one of the two sides' entries under an id leaves the other. */
  lemma CancelBid(m: Engine, c: Order)
    requires c.kind.Cancel? && c.id != "" && c.id in m.index && m.index[c.id].Buy?
    ensures
      var (m', r) := Step(m, c);
      && r == Ok(Fill(c.id, 0, 0, true)) && m'.buys == RemoveId(m.buys, c.id) && m'.sells == m.sells
      && Step(m', c).1 == Ok(Rejected(c.id))
  {
  }

  lemma CancelAsk(m: Engine, c: Order)
    requires c.kind.Cancel? && c.id != "" && c.id in m.index && !m.index[c.id].Buy?
    ensures
      var (m', r) := Step(m, c);
      && r == Ok(Fill(c.id, 0, 0, true)) && m'.sells == RemoveId(m.sells, c.id) && m'.buys == m.buys
      && Step(m', c).1 == Ok(Rejected(c.id))
  {
  }

  lemma BuyClashLosesCancel(m: Engine, o: Order, c: Order)
    requires Clashes(m, o) && o.side.Buy? && c.kind.Cancel? && c.id == o.id
    ensures
      var m1 := Step(m, o).0;
      var (m2, r) := Step(m1, c);
      r == Ok(Fill(o.id, 0, 0, true)) && Rests(m2, o.id) && Step(m2, c).1 == Ok(Rejected(o.id))
  {
    var r := Sweep(false, Sort(Before(false), m.sells), Some(o.price), o.quantity);
    var e := Remainder(o, r.executed, m.clock + 1);
    BuyOnEngine(m, o, r.left, r.executed, r.price);
    BuyClash(m, o, r.left, r.executed, r.price);
    CancelBid(StepLimit(m, o).0, c);
    if o.id in Ids(m.buys) { SecondStays(m.buys, e); }
  }

  lemma SellClashLosesCancel(m: Engine, o: Order, c: Order)
    requires Clashes(m, o) && !o.side.Buy? && c.kind.Cancel? && c.id == o.id
    ensures
      var m1 := Step(m, o).0;
      var (m2, r) := Step(m1, c);
      r == Ok(Fill(o.id, 0, 0, true)) && Rests(m2, o.id) && Step(m2, c).1 == Ok(Rejected(o.id))
  {
    var r := Sweep(true, Sort(Before(true), m.buys), Some(o.price), o.quantity);
    var e := Remainder(o, r.executed, m.clock + 1);
    SellOnEngine(m, o, r.left, r.executed, r.price);
    SellClash(m, o, r.left, r.executed, r.price);
    CancelAsk(StepLimit(m, o).0, c);
    if o.id in Ids(m.sells) { SecondStays(m.sells, e); }
  }

  /** Every clash, in any state at all, loses a cancel: the first cancel of the id is accepted, an order
      still rests under it, and cancelling that one is rejected. */
  lemma ClashLosesCancel(m: Engine, o: Order, c: Order)
    requires Clashes(m, o) && c.kind.Cancel? && c.id == o.id
    ensures
      var m1 := Step(m, o).0;
      var (m2, r) := Step(m1, c);
      r == Ok(Fill(o.id, 0, 0, true)) && Rests(m2, o.id) && Step(m2, c).1 == Ok(Rejected(o.id))
  {
    if o.side.Buy? { BuyClashLosesCancel(m, o, c); } else { SellClashLosesCancel(m, o, c); }
  }

  lemma IndexedCancelsWork(m: Engine)
    requires Indexed(m)
    ensures CancelsWork(m)
  {
    forall c: Order | c.kind.Cancel? && c.id != "" ensures CancelWorks(m, c) {
      EngineRuns.CancelAcceptedIffResting(m, c);
    }
  }

  /** From an exact index, cancels work after an order if and only if the order does not come to rest
      under an id still resting. */
  lemma CancelsWorkIffNoClash(m: Engine, o: Order)
    requires Indexed(m)
    ensures CancelsWork(Step(m, o).0) <==> !Clashes(m, o)
  {
    if Clashes(m, o) {
      var c := Order(o.id, Cancel, UnknownSide(""), 0, 0);
      ClashLosesCancel(m, o, c);
      assert !CancelWorks(Step(m, o).0, c);
    } else {
      StepIndexed(m, o);
      IndexedCancelsWork(Step(m, o).0);
    }
  }

  const TWICE := Order("a", Limit, Buy, 10, 1)
  const FIRST: Slot := Entry("a", Buy, 10, 1, 1, 1)
  const SECOND: Slot := Entry("a", Buy, 10, 1, 1, 2)

  function OneResting(): Engine { Engine([FIRST], [], map["a" := Buy], 1) }

  function TwoResting(): Engine { Engine([FIRST, SECOND], [], map["a" := Buy], 2) }

  /** Two limits under one id. */
  lemma PlacedTwice()
    ensures Step(EMPTY_ENGINE, TWICE).0 == OneResting() && Step(OneResting(), TWICE).0 == TwoResting()
    ensures Indexed(OneResting()) && Clashes(OneResting(), TWICE)
  {
    EngineRuns.BuyRestsOnEmptyAsks(EMPTY_ENGINE, TWICE);
    EngineRuns.BuyRestsOnEmptyAsks(OneResting(), TWICE);
    assert map["a" := Buy]["a" := Buy] == map["a" := Buy];
    assert OneResting().buys[0].id in Ids(OneResting().buys);
  }

  /** A market order sweeps both entries away. */
  lemma BothSwept(b: Order)
    requires b.id != "" && b.kind.Market? && b.side.Sell? && b.quantity == 2
    ensures Step(TwoResting(), b).0 == Engine([], [], map[], 3)
  {
    var s := [FIRST, SECOND];
    SortOfSorted(Before(true), s);
    assert s[1..] == [SECOND] && [SECOND][1..] == [];
    assert Sweep<nat>(true, [], None, 0).left == [];
    assert Sweep(true, [SECOND], None, 1).left == [];
    assert Sweep(true, s, None, 2).left == [];
    assert s[..2] == s && s[0].id in Ids(s) && Ids(s) == {"a"};
    assert map["a" := Buy] - {"a"} == map[];
  }

  /** But a clash need not break cancels for good: trades can remove all entries of the id, and the index is
      exact again. */
  lemma TradesMendClash(b: Order)
    requires b.id != "" && b.kind.Market? && b.side.Sell? && b.quantity == 2
    ensures
      var m1 := Step(EMPTY_ENGINE, TWICE).0;
      var m2 := Step(m1, TWICE).0;
      Clashes(m1, TWICE) && !CancelsWork(m2) && Indexed(Step(m2, b).0) && CancelsWork(Step(m2, b).0)
  {
    PlacedTwice();
    CancelsWorkIffNoClash(OneResting(), TWICE);
    BothSwept(b);
    IndexedCancelsWork(Step(TwoResting(), b).0);
  }

  /** Cancels work in every state of the run. */
  ghost predicate CancelsWorkThroughout(m: Engine, os: seq<Order>)
    decreases |os|
  {
    CancelsWork(m) && (os != [] ==> CancelsWorkThroughout(Step(m, os[0]).0, os[1..]))
  }

  /** No order of the run comes to rest under an id still resting. */
  ghost predicate NoClashes(m: Engine, os: seq<Order>)
    decreases |os|
  {
    os != [] ==> !Clashes(m, os[0]) && NoClashes(Step(m, os[0]).0, os[1..])
  }

  lemma {:induction false} RunCancelsWork(m: Engine, os: seq<Order>)
    requires Indexed(m)
    ensures CancelsWorkThroughout(m, os) <==> NoClashes(m, os)
    ensures NoClashes(m, os) ==> Indexed(Replay(m, os).0)
    decreases |os|
  {
    IndexedCancelsWork(m);
    if os != [] {
      CancelsWorkIffNoClash(m, os[0]);
      if !Clashes(m, os[0]) {
        StepIndexed(m, os[0]);
        RunCancelsWork(Step(m, os[0]).0, os[1..]);
      }
    }
  }

  /** With fresh limit ids no order comes to rest under an id still resting. */
  lemma {:induction false} FreshIsClashFree(m: Engine, os: seq<Order>)
    requires Indexed(m) && EngineRuns.FreshFor(m, os)
    ensures NoClashes(m, os)
    decreases |os|
  {
    if os != [] {
      EngineRuns.FreshDoesNotClash(m, os[0]);
      EngineRuns.FreshTail(m, os);
      FreshIsClashFree(Step(m, os[0]).0, os[1..]);
    }
  }

  /** On a run from the empty book cancels work throughout if and only if no id is reused while it rests. */
  lemma CancelsWorkIffNoReuse(os: seq<Order>)
    ensures CancelsWorkThroughout(EMPTY_ENGINE, os) <==> NoClashes(EMPTY_ENGINE, os)
  {
    EngineRuns.EmptyEngine();
    RunCancelsWork(EMPTY_ENGINE, os);
  }
}
