/** The golden order book's state as plain values, stepped exactly as the engine does: two slices in
    whatever order they happen to be, sorted only before matching; an id index; an arrival counter.
    Total on every order, including orders that reuse an id. */
module GoldenEngine {
  import opened Orders
  import opened Sorting
  import opened PriceTimeBook

  type Slot = Entry<nat>

  datatype Engine = Engine(buys: seq<Slot>, sells: seq<Slot>, index: map<string, Side>, clock: nat)

  const EMPTY_ENGINE := Engine([], [], map[], 0)

  /** Price first, then arrival. */
  predicate Precedes(bids: bool, p: int, n: nat, q: int, m: nat) {
    if p != q then Ahead(bids, p, q) else n < m
  }

  function Before(bids: bool): (Slot, Slot) -> bool {
    (a: Slot, b: Slot) => Precedes(bids, a.price, a.arrival, b.price, b.arrival)
  }

  /** Ids of the entries a sweep emptied. */
  function Emptied(es: seq<Slot>, left: seq<Slot>): set<string> {
    if |left| <= |es| then Ids(es[..|es| - |left|]) else {}
  }

  function StepLimit(m: Engine, o: Order): (Engine, Fill) {
    if o.quantity <= 0 || o.price <= 0 then (m, Rejected(o.id))
    else if o.side.Buy? then
      var sorted := Sort(Before(false), m.sells);
      var r := Sweep(false, sorted, Some(o.price), o.quantity);
      var rest := o.quantity - r.executed;
      var index := m.index - Emptied(sorted, r.left);
      var entry := Entry(o.id, o.side, o.price, o.quantity, rest, m.clock + 1);
      (if rest > 0 then Engine(m.buys + [entry], r.left, index[o.id := o.side], m.clock + 1)
       else Engine(m.buys, r.left, index, m.clock + 1),
       Fill(o.id, r.price, r.executed, true))
    else
      var sorted := Sort(Before(true), m.buys);
      var r := Sweep(true, sorted, Some(o.price), o.quantity);
      var rest := o.quantity - r.executed;
      var index := m.index - Emptied(sorted, r.left);
      var entry := Entry(o.id, o.side, o.price, o.quantity, rest, m.clock + 1);
      (if rest > 0 then Engine(r.left, m.sells + [entry], index[o.id := o.side], m.clock + 1)
       else Engine(r.left, m.sells, index, m.clock + 1),
       Fill(o.id, r.price, r.executed, true))
  }

  function StepMarket(m: Engine, o: Order): (Engine, Fill) {
    if o.quantity <= 0 then (m, Rejected(o.id))
    else if o.side.Buy? then
      var sorted := Sort(Before(false), m.sells);
      var r := Sweep(false, sorted, None, o.quantity);
      (Engine(m.buys, r.left, m.index - Emptied(sorted, r.left), m.clock + 1),
       Fill(o.id, r.price, r.executed, r.executed > 0))
    else
      var sorted := Sort(Before(true), m.buys);
      var r := Sweep(true, sorted, None, o.quantity);
      (Engine(r.left, m.sells, m.index - Emptied(sorted, r.left), m.clock + 1),
       Fill(o.id, r.price, r.executed, r.executed > 0))
  }

  function StepCancel(m: Engine, o: Order): (Engine, Fill) {
    if o.id !in m.index then (m, Rejected(o.id))
    else if m.index[o.id].Buy? then
      (m.(buys := RemoveId(m.buys, o.id), index := m.index - {o.id}), Fill(o.id, 0, 0, true))
    else
      (m.(sells := RemoveId(m.sells, o.id), index := m.index - {o.id}), Fill(o.id, 0, 0, true))
  }

  function Step(m: Engine, o: Order): (Engine, Result<Fill, OrderError>) {
    if o.id == "" then (m, Err(EmptyId))
    else match o.kind
      case Limit => var (m', f) := StepLimit(m, o); (m', Ok(f))
      case Market => var (m', f) := StepMarket(m, o); (m', Ok(f))
      case Cancel => var (m', f) := StepCancel(m, o); (m', Ok(f))
      case UnknownKind(k) => (m, Err(BadKind(k)))
  }

  function Replay(m: Engine, os: seq<Order>): (r: (Engine, seq<Result<Fill, OrderError>>))
    ensures |r.1| == |os|
    decreases |os|
  {
    if os == [] then (m, [])
    else
      var (m1, f) := Step(m, os[0]);
      var (m2, fs) := Replay(m1, os[1..]);
      (m2, [f] + fs)
  }

  // ---- Invariant of every run, whatever the ids ----

  ghost predicate Uncrossed<A>(bids: seq<Entry<A>>, asks: seq<Entry<A>>) {
    forall i, j :: 0 <= i < |bids| && 0 <= j < |asks| ==> bids[i].price < asks[j].price
  }

  ghost predicate Arrived(es: seq<Slot>, n: nat) {
    forall i :: 0 <= i < |es| ==> es[i].arrival <= n
  }

  /** Best bid strictly below best ask, quantities positive, arrival numbers already handed out. */
  ghost predicate Sound(m: Engine) {
    && Positive(m.buys) && Positive(m.sells)
    && Uncrossed(m.buys, m.sells)
    && Arrived(m.buys, m.clock) && Arrived(m.sells, m.clock)
  }

  lemma BeforeIsStrictWeakOrder(bids: bool)
    ensures StrictWeakOrder(Before(bids))
  {
  }

  lemma SortedByPrice(bids: bool, es: seq<Slot>)
    requires Sorted(Before(bids), es)
    ensures PriceSorted(bids, es)
  {
    forall i, j | 0 <= i < j < |es| ensures !Ahead(bids, es[j].price, es[i].price) {
      assert !Before(bids)(es[j], es[i]);
    }
  }

  lemma SortFacts(bids: bool, es: seq<Slot>)
    ensures
      var s := Sort(Before(bids), es);
      && |s| == |es| && multiset(s) == multiset(es)
      && Sorted(Before(bids), s) && PriceSorted(bids, s)
      && (forall i :: 0 <= i < |s| ==> s[i] in es)
      && (forall i :: 0 <= i < |es| ==> es[i] in s)
  {
    BeforeIsStrictWeakOrder(bids);
    SortMultiset(Before(bids), es);
    SortSorted(Before(bids), es);
    MultisetMembers(Sort(Before(bids), es), es);
    SortedByPrice(bids, Sort(Before(bids), es));
    var s := Sort(Before(bids), es);
    assert forall i :: 0 <= i < |s| ==> s[i] in s;
    assert forall i :: 0 <= i < |es| ==> es[i] in es;
  }

  /** Entry `l` is entry `e`, perhaps with fewer units remaining. */
  ghost predicate Reduced(l: Slot, e: Slot) {
    l == e.(remaining := l.remaining)
  }

  ghost predicate ReducedFrom(l: Slot, es: seq<Slot>) {
    exists j :: 0 <= j < |es| && Reduced(l, es[j])
  }

  ghost predicate GoodSweep(bids: bool, es: seq<Slot>, bound: Option<int>, qty: int, r: Swept<nat>) {
    && Positive(r.left) && Sorted(Before(bids), r.left)
    && (forall i :: 0 <= i < |r.left| ==> ReducedFrom(r.left[i], es))
    && (r.executed < qty ==> forall i :: 0 <= i < |r.left| ==> !Within(bids, r.left[i].price, bound))
    && 0 <= r.executed <= qty
  }

  /** What a sweep leaves of a side, seen from the unsorted side. */
  lemma SweptSide(bids: bool, es: seq<Slot>, bound: Option<int>, qty: int)
    requires Positive(es) && qty >= 0
    ensures GoodSweep(bids, es, bound, qty, Sweep(bids, Sort(Before(bids), es), bound, qty))
    ensures Positive(Sort(Before(bids), es))
  {
    var s := Sort(Before(bids), es);
    SortFacts(bids, es);
    SweptSorted(bids, es, s, bound, qty);
  }

  /** What is left after a taker still wanted more, position by position. */
  lemma LeftBeyondBound(bids: bool, s: seq<Slot>, bound: Option<int>, qty: int, i: nat)
    requires Positive(s) && PriceSorted(bids, s) && Sweep(bids, s, bound, qty).executed < qty
    requires i < |Sweep(bids, s, bound, qty).left|
    ensures !Within(bids, Sweep(bids, s, bound, qty).left[i].price, bound)
  {
    SweepExhausts(bids, s, bound, qty);
    assert Sweep(bids, s, bound, qty).left[i] in Sweep(bids, s, bound, qty).left;
  }

  lemma LeftIsCut(bids: bool, es: seq<Slot>, s: seq<Slot>, left: seq<Slot>)
    requires CutOf(left, s) && Sorted(Before(bids), s) && forall i :: 0 <= i < |s| ==> s[i] in es
    ensures Sorted(Before(bids), left) && forall i :: 0 <= i < |left| ==> ReducedFrom(left[i], es)
  {
    CutSlots(bids, s, left);
    CutOfPermuted(es, s, left);
  }

  lemma SweptSorted(bids: bool, es: seq<Slot>, s: seq<Slot>, bound: Option<int>, qty: int)
    requires Positive(s) && qty >= 0 && Sorted(Before(bids), s) && PriceSorted(bids, s)
    requires forall i :: 0 <= i < |s| ==> s[i] in es
    ensures GoodSweep(bids, es, bound, qty, Sweep(bids, s, bound, qty))
  {
    var r := Sweep(bids, s, bound, qty);
    assert Positive(r.left) by { SweepKeepsPositive(bids, s, bound, qty); }
    assert 0 <= r.executed <= qty by { SweepExecutes(bids, s, bound, qty); }
    assert CutOf(r.left, s) by { SweepCuts(bids, s, bound, qty); }
    LeftIsCut(bids, es, s, r.left);
    if r.executed < qty {
      forall i | 0 <= i < |r.left| ensures !Within(bids, r.left[i].price, bound) {
        LeftBeyondBound(bids, s, bound, qty, i);
      }
    }
  }

  lemma CutOfPermuted(es: seq<Slot>, s: seq<Slot>, left: seq<Slot>)
    requires |left| <= |s| && forall i :: 0 <= i < |s| ==> s[i] in es
    requires forall i :: 0 <= i < |left| ==> Reduced(left[i], s[|s| - |left| + i])
    ensures forall i :: 0 <= i < |left| ==> ReducedFrom(left[i], es)
  {
    forall i | 0 <= i < |left| ensures ReducedFrom(left[i], es) {
      assert s[|s| - |left| + i] in es;
      var j :| 0 <= j < |es| && es[j] == s[|s| - |left| + i];
      assert Reduced(left[i], es[j]);
    }
  }

  lemma CutSlots(bids: bool, s: seq<Slot>, left: seq<Slot>)
    requires CutOf(left, s) && Sorted(Before(bids), s)
    ensures forall i :: 0 <= i < |left| ==> Reduced(left[i], s[|s| - |left| + i])
    ensures Sorted(Before(bids), left)
  {
    var k := |s| - |left|;
    forall i | 0 <= i < |left| ensures Reduced(left[i], s[k + i]) {
      if i > 0 { assert left[i] == left[1..][i - 1]; }
    }
    forall i, j | 0 <= i < j < |left| ensures !Before(bids)(left[j], left[i]) {
      assert !Before(bids)(s[k + j], s[k + i]);
    }
  }

  lemma MarketKeepsSound(m: Engine, o: Order)
    requires Sound(m)
    ensures Sound(StepMarket(m, o).0)
  {
    if o.quantity > 0 {
      if o.side.Buy? {
        SweptSide(false, m.sells, None, o.quantity);
      } else {
        SweptSide(true, m.buys, None, o.quantity);
      }
    }
  }

  lemma CancelKeepsSound(m: Engine, o: Order)
    requires Sound(m)
    ensures Sound(StepCancel(m, o).0)
  {
    RemoveIdKeeps(m.buys, o.id);
    RemoveIdKeeps(m.sells, o.id);
  }

  /** Every order, even one that reuses an id, keeps the best bid below the best ask. */
  lemma StepKeepsSound(m: Engine, o: Order)
    requires Sound(m)
    ensures Sound(Step(m, o).0)
  {
    LimitKeepsSound(m, o);
    MarketKeepsSound(m, o);
    CancelKeepsSound(m, o);
  }

  lemma LimitKeepsSound(m: Engine, o: Order)
    requires Sound(m)
    ensures Sound(StepLimit(m, o).0)
  {
    if o.quantity > 0 && o.price > 0 {
      if o.side.Buy? { BuyKeepsSound(m, o); } else { SellKeepsSound(m, o); }
    }
  }

  lemma BuyKeepsSound(m: Engine, o: Order)
    requires Sound(m) && o.quantity > 0 && o.price > 0 && o.side.Buy?
    ensures Sound(StepLimit(m, o).0)
  {
    var r := Sweep(false, Sort(Before(false), m.sells), Some(o.price), o.quantity);
    assert Positive(r.left) && Arrived(r.left, m.clock + 1) && Uncrossed(m.buys, r.left)
        && 0 <= r.executed <= o.quantity
        && (r.executed < o.quantity ==> forall i :: 0 <= i < |r.left| ==> o.price < r.left[i].price) by {
      SweptSide(false, m.sells, Some(o.price), o.quantity);
    }
  }

  lemma SellKeepsSound(m: Engine, o: Order)
    requires Sound(m) && o.quantity > 0 && o.price > 0 && !o.side.Buy?
    ensures Sound(StepLimit(m, o).0)
  {
    var r := Sweep(true, Sort(Before(true), m.buys), Some(o.price), o.quantity);
    assert Positive(r.left) && Arrived(r.left, m.clock + 1) && Uncrossed(r.left, m.sells)
        && 0 <= r.executed <= o.quantity
        && (r.executed < o.quantity ==> forall i :: 0 <= i < |r.left| ==> r.left[i].price < o.price) by {
      SweptSide(true, m.buys, Some(o.price), o.quantity);
    }
  }

  lemma {:induction false} RemoveIdKeeps<A>(es: seq<Entry<A>>, id: string)
    ensures |RemoveId(es, id)| <= |es|
    ensures forall i :: 0 <= i < |RemoveId(es, id)| ==> exists j :: 0 <= j < |es| && RemoveId(es, id)[i] == es[j]
  {
    if es != [] && es[0].id != id {
      RemoveIdKeeps(es[1..], id);
      forall i | 0 <= i < |RemoveId(es, id)| ensures exists j :: 0 <= j < |es| && RemoveId(es, id)[i] == es[j] {
        if i == 0 {
          assert RemoveId(es, id)[0] == es[0];
        } else {
          var j :| 0 <= j < |es[1..]| && RemoveId(es[1..], id)[i - 1] == es[1..][j];
          assert RemoveId(es, id)[i] == es[j + 1];
        }
      }
    } else if es != [] {
      forall i | 0 <= i < |RemoveId(es, id)| ensures exists j :: 0 <= j < |es| && RemoveId(es, id)[i] == es[j] {
        assert RemoveId(es, id)[i] == es[i + 1];
      }
    }
  }

  lemma {:induction false} ReplayKeepsSound(m: Engine, os: seq<Order>)
    requires Sound(m)
    ensures Sound(Replay(m, os).0)
    decreases |os|
  {
    if os != [] {
      StepKeepsSound(m, os[0]);
      ReplayKeepsSound(Step(m, os[0]).0, os[1..]);
    }
  }
}
