/** What the golden order book promises over whole runs. */
module EngineRuns {
  import opened Orders
  import opened Sorting
  import opened PriceTimeBook
  import opened GoldenEngine
  import opened EngineRefinesBook

  const EMPTY_BOOK := Book([], [])

  /** No limit of the sequence reuses an id, neither of another limit nor of a resting entry. */
  ghost predicate FreshFor(m: Engine, os: seq<Order>) {
    FreshLimitIds(os) && forall i :: 0 <= i < |os| && os[i].kind.Limit? ==> os[i].id !in m.index
  }

  lemma FreshDoesNotClash(m: Engine, o: Order)
    requires Indexed(m) && (o.kind.Limit? ==> o.id !in m.index)
    ensures !Clashes(m, o)
  {
    if GoodLimit(o) {
      if o.side.Buy? {
        SweptIds(false, m.sells, Some(o.price), o.quantity);
      } else {
        SweptIds(true, m.buys, Some(o.price), o.quantity);
      }
    }
  }

  /** Only a limit order can add an id to the index, and only its own. */
  lemma StepAddsOwnId(m: Engine, o: Order)
    ensures Step(m, o).0.index.Keys <= m.index.Keys + (if o.kind.Limit? then {o.id} else {})
  {
  }

  lemma FreshTail(m: Engine, os: seq<Order>)
    requires Indexed(m) && FreshFor(m, os) && os != []
    ensures Indexed(Step(m, os[0]).0) && FreshFor(Step(m, os[0]).0, os[1..])
  {
    FreshDoesNotClash(m, os[0]);
    StepIndexed(m, os[0]);
    StepAddsOwnId(m, os[0]);
    forall i | 0 <= i < |os[1..]| && os[1..][i].kind.Limit? ensures os[1..][i].id !in Step(m, os[0]).0.index {
      assert os[1..][i] == os[i + 1];
    }
    forall i, j | 0 <= i < j < |os[1..]| && os[1..][i].kind.Limit? && os[1..][j].kind.Limit?
      ensures os[1..][i].id != os[1..][j].id
    {
      assert os[1..][i] == os[i + 1] && os[1..][j] == os[j + 1];
    }
  }

  /** Refinement: with fresh limit ids, the lazily sorted slices and the id index answer every
      sequence of orders exactly as the price-time book does, and end in a state that means it. */
  lemma {:induction false} ReplayRefines(m: Engine, os: seq<Order>)
    requires Sound(m) && Indexed(m) && FreshFor(m, os)
    ensures
      var (m', fills) := Replay(m, os);
      Sound(m') && Indexed(m') && Run(Meaning(m), os) == (Meaning(m'), fills)
    decreases |os|
  {
    if os != [] {
      StepRefines(m, os[0]);
      StepKeepsSound(m, os[0]);
      FreshTail(m, os);
      ReplayRefines(Step(m, os[0]).0, os[1..]);
    }
  }

  lemma EmptyEngine()
    ensures Sound(EMPTY_ENGINE) && Indexed(EMPTY_ENGINE) && Meaning(EMPTY_ENGINE) == EMPTY_BOOK
  {
  }

  lemma GoldenFillsArePriceTime(os: seq<Order>)
    requires FreshLimitIds(os)
    ensures Replay(EMPTY_ENGINE, os).1 == Run(EMPTY_BOOK, os).1
  {
    EmptyEngine();
    ReplayRefines(EMPTY_ENGINE, os);
  }

  /** While the index is exact, a cancel is accepted exactly when its order still rests. */
  lemma CancelAcceptedIffResting(m: Engine, o: Order)
    requires Indexed(m) && o.kind.Cancel? && o.id != ""
    ensures Step(m, o).1 == Ok(Fill(o.id, 0, 0, o.id in Ids(m.buys) + Ids(m.sells)))
    ensures o.id !in Ids(Step(m, o).0.buys) + Ids(Step(m, o).0.sells)
  {
    RemoveIsOthers(m.buys, o.id);
    RemoveIsOthers(m.sells, o.id);
  }

  lemma BuyRestsOnEmptyAsks(m: Engine, o: Order)
    requires m.sells == [] && GoodLimit(o) && o.side.Buy?
    ensures Step(m, o).0 == Engine(m.buys + [Entry(o.id, o.side, o.price, o.quantity, o.quantity, m.clock + 1)],
                                   [], m.index[o.id := o.side], m.clock + 1)
  {
    assert Sort(Before(false), m.sells) == [];
    assert m.index - {} == m.index;
  }

  /** With a reused id it is not: after two limits "a" and one cancel of "a", an order "a" still
      rests, yet cancelling it is rejected. */
  lemma ReusedIdLosesCancel()
    ensures
      var a := Order("a", Limit, Buy, 10, 1);
      var c := Order("a", Cancel, Buy, 0, 0);
      var m := Step(Step(Step(EMPTY_ENGINE, a).0, a).0, c).0;
      "a" in Ids(m.buys) && Step(m, c).1 == Ok(Rejected("a"))
  {
    var a := Order("a", Limit, Buy, 10, 1);
    var c := Order("a", Cancel, Buy, 0, 0);
    var e1, e2 := Entry("a", Buy, 10, 1, 1, 1), Entry("a", Buy, 10, 1, 1, 2);
    BuyRestsOnEmptyAsks(EMPTY_ENGINE, a);
    var m1 := Step(EMPTY_ENGINE, a).0;
    BuyRestsOnEmptyAsks(m1, a);
    var m2 := Step(m1, a).0;
    assert m2.buys == [e1, e2] && m2.index["a"].Buy?;
    assert RemoveId(m2.buys, "a") == [e2];
    assert Step(m2, c).0.buys[0].id == "a";
  }

  // ---- Runs, put together ----

  lemma {:induction false} ReplayConcat(m: Engine, a: seq<Order>, b: seq<Order>)
    ensures Replay(m, a + b).0 == Replay(Replay(m, a).0, b).0
    ensures Replay(m, a + b).1 == Replay(m, a).1 + Replay(Replay(m, a).0, b).1
    decreases |a|
  {
    if a == [] {
      assert a + b == b;
    } else {
      assert (a + b)[1..] == a[1..] + b;
      var m1 := Step(m, a[0]).0;
      ReplayConcat(m1, a[1..], b);
      var fa, fb := Replay(m1, a[1..]).1, Replay(Replay(m1, a[1..]).0, b).1;
      assert [Step(m, a[0]).1] + (fa + fb) == ([Step(m, a[0]).1] + fa) + fb;
    }
  }

  lemma {:induction false} RunConcat(k: Book, a: seq<Order>, b: seq<Order>)
    ensures Run(k, a + b).0 == Run(Run(k, a).0, b).0
    ensures Run(k, a + b).1 == Run(k, a).1 + Run(Run(k, a).0, b).1
    decreases |a|
  {
    if a == [] {
      assert a + b == b;
    } else {
      assert (a + b)[1..] == a[1..] + b;
      var k1 := Apply(k, a[0]).0;
      RunConcat(k1, a[1..], b);
      var fa, fb := Run(k1, a[1..]).1, Run(Run(k1, a[1..]).0, b).1;
      assert [Apply(k, a[0]).1] + (fa + fb) == ([Apply(k, a[0]).1] + fa) + fb;
    }
  }

  // ---- What one order executes, seen on the unsorted slices ----

  /** The side an order matches against. */
  function Opposite(m: Engine, o: Order): seq<Slot> {
    if o.side.Buy? then m.sells else m.buys
  }

  /** The side an order rests on. */
  function Own(m: Engine, o: Order): seq<Slot> {
    if o.side.Buy? then m.buys else m.sells
  }

  /** A sweep of a side executes what is available there and reports an acceptable price. */
  lemma SideExecutes(bids: bool, es: seq<Slot>, bound: Option<int>, qty: int)
    requires Positive(es) && qty >= 0
    ensures
      var r := Sweep(bids, Sort(Before(bids), es), bound, qty);
      && 0 <= r.executed == Min(qty, Available(bids, es, bound))
      && (if r.executed > 0 then Within(bids, r.price, bound) else r.price == 0)
  {
    var s := Sort(Before(bids), es);
    SortFacts(bids, es);
    SweptSide(bids, es, bound, qty);
    UnitsPermuted(s, es, Priced(bids, bound));
    SweepExecutes(bids, s, bound, qty);
    SweepPrice(bids, s, bound, qty);
  }

  /** A limit executes its quantity or all opposing units within its price, whichever is less, at a
      reported price never worse than its own; the rest of it, if any, rests behind all others. */
  lemma LimitClosedForm(m: Engine, o: Order)
    requires Sound(m) && GoodLimit(o)
    ensures
      var (m', f) := StepLimit(m, o);
      && f.accepted
      && f.executedQty == Min(o.quantity, Available(!o.side.Buy?, Opposite(m, o), Some(o.price)))
      && (if f.executedQty == 0 then f.executedPrice == 0
          else if o.side.Buy? then f.executedPrice <= o.price
          else o.price <= f.executedPrice)
      && (if f.executedQty == o.quantity then Own(m', o) == Own(m, o)
          else
            var rest := o.quantity - f.executedQty;
            Own(m', o) == Own(m, o) + [Entry(o.id, o.side, o.price, o.quantity, rest, m.clock + 1)])
  {
    SideExecutes(!o.side.Buy?, Opposite(m, o), Some(o.price), o.quantity);
    var r := Sweep(!o.side.Buy?, Sort(Before(!o.side.Buy?), Opposite(m, o)), Some(o.price), o.quantity);
    assert StepLimit(m, o).1 == Fill(o.id, r.price, r.executed, true);
  }

  /** A market order executes its quantity or everything opposing, and is accepted exactly when
      something rests on the other side. */
  lemma MarketClosedForm(m: Engine, o: Order)
    requires Sound(m) && o.quantity > 0
    ensures
      var f := StepMarket(m, o).1;
      && f.executedQty == Min(o.quantity, Available(!o.side.Buy?, Opposite(m, o), None))
      && (f.accepted <==> Opposite(m, o) != [])
  {
    var es := Opposite(m, o);
    SideExecutes(!o.side.Buy?, es, None, o.quantity);
    if es != [] { AvailableNonNegative(!o.side.Buy?, es[1..], None); }
  }

  /** What an order leaves on the side it matches against, and the price and quantity it reports: the price
      is that of the last entry in priority order that lost units, and it splits the side into entries
      emptied, at better prices, and entries untouched, at worse ones. */
  lemma ReportExplained(m: Engine, o: Order)
    requires Sound(m) && o.quantity > 0 && ((o.kind.Limit? && o.price > 0) || o.kind.Market?) && o.id != ""
    ensures
      var bids := !o.side.Buy?;
      var bound := if o.kind.Limit? then Some(o.price) else None;
      var (m', r) := Step(m, o);
      && r.Ok? && r.value.orderId == o.id && (o.kind.Market? ==> Own(m', o) == Own(m, o))
      && PriceExplained(bids, Sort(Before(bids), Opposite(m, o)), bound,
                        Swept(Opposite(m', o), r.value.executedQty, r.value.executedPrice))
  {
    var bids := !o.side.Buy?;
    var bound := if o.kind.Limit? then Some(o.price) else None;
    SortFacts(bids, Opposite(m, o));
    SweptSide(bids, Opposite(m, o), bound, o.quantity);
    SweepPrice(bids, Sort(Before(bids), Opposite(m, o)), bound, o.quantity);
  }

  /** Exactly which orders are errors and which are accepted; an order that is not accepted reports zeros,
      and only a market order that finds nothing leaves a trace, in the arrival counter. */
  lemma AcceptedIff(m: Engine, o: Order)
    requires Sound(m) && Indexed(m)
    ensures
      var (m', r) := Step(m, o);
      && (r.Err? <==> o.id == "" || o.kind.UnknownKind?)
      && (r.Err? ==> m' == m)
      && (r.Ok? ==>
            && r.value.orderId == o.id
            && (r.value.accepted <==>
                  match o.kind
                  case Limit => o.quantity > 0 && o.price > 0
                  case Market => o.quantity > 0 && Opposite(m, o) != []
                  case _ => o.id in Ids(m.buys) + Ids(m.sells))
            && (!r.value.accepted ==> r.value == Fill(o.id, 0, 0, false))
            && (!r.value.accepted && !(o.kind.Market? && o.quantity > 0) ==> m' == m))
  {
    if o.id != "" && o.kind.Market? && o.quantity > 0 {
      MarketClosedForm(m, o);
      SideExecutes(!o.side.Buy?, Opposite(m, o), None, o.quantity);
      AvailableNonNegative(!o.side.Buy?, Opposite(m, o), None);
    }
  }

  lemma FirstAheadIsGone(bids: bool, s: seq<Slot>, left: seq<Slot>, i: nat, j: nat)
    requires DistinctIds(s) && CutOf(left, s) && Sorted(Before(bids), s)
    requires i < |s| && j < |s| && Before(bids)(s[i], s[j])
    requires s[j] !in left
    ensures s[i].id !in Ids(left)
  {
    CutSlots(bids, s, left);
    CutIds(s, left);
    var k := |s| - |left|;
    assert forall x, y :: 0 <= x < y < |s| ==> !Before(bids)(s[y], s[x]);
    assert i < j;
    assert j <= k by {
      assert forall x :: 0 < x < |left| ==> left[x] == left[1..][x - 1] == s[k + 1..][x - 1] == s[k + x];
    }
    assert s[..k][i].id in Ids(s[..k]);
  }

  /** Price-time fairness on the slices: if an entry lost units, every entry that precedes it by
      price, then arrival, has left the book. */
  lemma MatchingIsFair(bids: bool, es: seq<Slot>, bound: Option<int>, qty: int, e: Slot, f: Slot)
    requires DistinctIds(es) && e in es && f in es && Before(bids)(e, f)
    requires f !in Sweep(bids, Sort(Before(bids), es), bound, qty).left
    ensures e.id !in Ids(Sweep(bids, Sort(Before(bids), es), bound, qty).left)
  {
    var s := Sort(Before(bids), es);
    SortFacts(bids, es);
    SameIds(s, es);
    SweepCuts(bids, s, bound, qty);
    MultisetMembers(s, es);
    var i :| 0 <= i < |s| && s[i] == e;
    var j :| 0 <= j < |s| && s[j] == f;
    FirstAheadIsGone(bids, s, Sweep(bids, s, bound, qty).left, i, j);
  }
}
