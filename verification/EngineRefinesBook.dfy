/** The engine's lazily sorted slices and id index mean the price-time book. */
module EngineRefinesBook {
  import opened Orders
  import opened Sorting
  import opened PriceTimeBook
  import opened GoldenEngine

  function Bare<A>(e: Entry<A>): Quote {
    Entry(e.id, e.side, e.price, e.quantity, e.remaining, ())
  }

  /** A queue without its arrival numbers. */
  function Strip<A>(es: seq<Entry<A>>): (qs: seq<Quote>)
    ensures |qs| == |es|
  {
    if es == [] then [] else [Bare(es[0])] + Strip(es[1..])
  }

  lemma {:induction false} StripAt<A>(es: seq<Entry<A>>)
    ensures forall i :: 0 <= i < |es| ==> Strip(es)[i] == Bare(es[i])
  {
    if es != [] { StripAt(es[1..]); }
  }

  /** The price-time book an engine state stands for: each side sorted, arrival numbers dropped. */
  function Meaning(m: Engine): Book {
    Book(Strip(Sort(Before(true), m.buys)), Strip(Sort(Before(false), m.sells)))
  }

  ghost predicate DistinctIds<A>(es: seq<Entry<A>>) {
    forall i, j :: 0 <= i < j < |es| ==> es[i].id != es[j].id
  }

  /** The index holds exactly the ids of the two sides, each pointing to the side where its one
      entry rests. */
  ghost predicate IndexOf<A>(index: map<string, Side>, buys: seq<Entry<A>>, sells: seq<Entry<A>>) {
    && DistinctIds(buys) && DistinctIds(sells) && Ids(buys) !! Ids(sells)
    && index.Keys == Ids(buys) + Ids(sells)
    && (forall x :: x in Ids(buys) ==> index[x].Buy?)
    && (forall x :: x in Ids(sells) ==> !index[x].Buy?)
  }

  ghost predicate Indexed(m: Engine) {
    IndexOf(m.index, m.buys, m.sells)
  }

  /** The order is a limit that will rest under an id that still rests once it has matched. */
  predicate Clashes(m: Engine, o: Order) {
    && GoodLimit(o)
    && if o.side.Buy? then
         var r := Sweep(false, Sort(Before(false), m.sells), Some(o.price), o.quantity);
         r.executed < o.quantity && o.id in Ids(m.buys) + Ids(r.left)
       else
         var r := Sweep(true, Sort(Before(true), m.buys), Some(o.price), o.quantity);
         r.executed < o.quantity && o.id in Ids(m.sells) + Ids(r.left)
  }

  // ---- Stripping commutes with every queue operation ----

  lemma {:induction false} StripSweep<A>(bids: bool, es: seq<Entry<A>>, bound: Option<int>, qty: int)
    ensures
      var r := Sweep(bids, es, bound, qty);
      Sweep(bids, Strip(es), bound, qty) == Swept(Strip(r.left), r.executed, r.price)
    decreases |es|
  {
    if !(es == [] || qty <= 0 || !Within(bids, es[0].price, bound)) {
      if qty < es[0].remaining {
        var r := Sweep(bids, es, bound, qty);
        assert r.left[1..] == es[1..];
      } else {
        StripSweep(bids, es[1..], bound, qty - es[0].remaining);
      }
    }
  }

  /** Behind everything that arrived earlier, sorting by price and arrival is queueing by price. */
  lemma {:induction false} StripInsert(bids: bool, es: seq<Slot>, e: Slot)
    requires forall i :: 0 <= i < |es| ==> es[i].arrival < e.arrival
    ensures Strip(Insert(Before(bids), es, e)) == Insert(BetterPrice(bids), Strip(es), Bare(e))
  {
    if es != [] {
      assert Before(bids)(e, es[0]) == BetterPrice(bids)(Bare(e), Bare(es[0]));
      if Before(bids)(e, es[0]) {
        assert ([e] + es)[1..] == es;
      } else {
        StripInsert(bids, es[1..], e);
        assert ([es[0]] + Insert(Before(bids), es[1..], e))[1..] == Insert(Before(bids), es[1..], e);
      }
    }
  }

  lemma {:induction false} StripRemove<A>(es: seq<Entry<A>>, id: string)
    ensures Strip(RemoveId(es, id)) == RemoveId(Strip(es), id)
  {
    if es != [] && es[0].id != id {
      StripRemove(es[1..], id);
      assert ([es[0]] + RemoveId(es[1..], id))[1..] == RemoveId(es[1..], id);
    }
  }

  lemma StripIds<A>(es: seq<Entry<A>>)
    ensures Ids(Strip(es)) == Ids(es)
  {
    StripAt(es);
    forall x ensures x in Ids(Strip(es)) <==> x in Ids(es) {
      if x in Ids(Strip(es)) {
        var i :| 0 <= i < |Strip(es)| && Strip(es)[i].id == x;
        assert es[i].id == x;
      }
      if x in Ids(es) {
        var i :| 0 <= i < |es| && es[i].id == x;
        assert Strip(es)[i].id == x;
      }
    }
  }

  // ---- Sorting commutes with the removal of an entry ----

  lemma {:induction false} RemoveAbsent<A>(es: seq<Entry<A>>, id: string)
    requires id !in Ids(es)
    ensures RemoveId(es, id) == es
  {
    if es != [] {
      assert es[0].id in Ids(es);
      assert forall i :: 0 <= i < |es[1..]| ==> es[1..][i] == es[i + 1];
      assert Ids(es[1..]) <= Ids(es);
      RemoveAbsent(es[1..], id);
    }
  }

  lemma {:induction false} RemoveIsOthers<A>(es: seq<Entry<A>>, id: string)
    requires DistinctIds(es)
    ensures Ids(RemoveId(es, id)) == Ids(es) - {id}
    ensures DistinctIds(RemoveId(es, id))
  {
    if es != [] {
      assert es == [es[0]] + es[1..];
      IdsConcat([es[0]], es[1..]);
      assert Ids([es[0]]) == {es[0].id} by { assert [es[0]][0].id in Ids([es[0]]); }
      forall i | 0 <= i < |es[1..]| ensures es[1..][i].id != es[0].id {}
      assert es[0].id !in Ids(es[1..]);
      if es[0].id != id {
        RemoveIsOthers(es[1..], id);
        var t := RemoveId(es[1..], id);
        IdsConcat([es[0]], t);
        forall j | 0 <= j < |t| ensures t[j].id != es[0].id { assert t[j].id in Ids(t); }
      }
    }
  }

  lemma IdsConcat<A>(a: seq<Entry<A>>, b: seq<Entry<A>>)
    ensures Ids(a + b) == Ids(a) + Ids(b)
  {
    forall x | x in Ids(a) + Ids(b) ensures x in Ids(a + b) {
      if x in Ids(a) {
        var i :| 0 <= i < |a| && a[i].id == x;
        assert (a + b)[i].id == x;
      } else {
        var i :| 0 <= i < |b| && b[i].id == x;
        assert (a + b)[|a| + i].id == x;
      }
    }
  }

  lemma {:induction false} InsertRemoved<A(!new)>(less: (Entry<A>, Entry<A>) -> bool, s: seq<Entry<A>>,
      e: Entry<A>, id: string)
    requires StrictWeakOrder(less) && Sorted(less, s) && e.id != id
    ensures RemoveId(Insert(less, s, e), id) == Insert(less, RemoveId(s, id), e)
  {
    if s != [] {
      if less(e, s[0]) {
        assert Insert(less, s, e) == [e] + s;
        assert ([e] + s)[1..] == s;
        if s[0].id == id {
          if |s| > 1 {
            assert !less(s[1], s[0]);
            assert less(e, s[1]);
          }
          assert Insert(less, s[1..], e) == [e] + s[1..];
        } else {
          var t := RemoveId(s, id);
          assert t[0] == s[0];
          assert Insert(less, t, e) == [e] + t;
        }
      } else {
        var t := Insert(less, s[1..], e);
        assert Insert(less, s, e) == [s[0]] + t;
        assert ([s[0]] + t)[1..] == t;
        if s[0].id != id {
          InsertRemoved(less, s[1..], e, id);
          var u := RemoveId(s[1..], id);
          assert ([s[0]] + u)[1..] == u;
        }
      }
    }
  }

  lemma {:induction false} InsertedRemoved<T>(less: (Entry<T>, Entry<T>) -> bool, s: seq<Entry<T>>, e: Entry<T>)
    requires e.id !in Ids(s)
    ensures RemoveId(Insert(less, s, e), e.id) == s
  {
    if s != [] {
      assert s[0].id in Ids(s);
      if less(e, s[0]) {
        assert ([e] + s)[1..] == s;
      } else {
        assert forall i :: 0 <= i < |s[1..]| ==> s[1..][i] == s[i + 1];
        assert Ids(s[1..]) <= Ids(s);
        InsertedRemoved(less, s[1..], e);
        assert ([s[0]] + Insert(less, s[1..], e))[1..] == Insert(less, s[1..], e);
      }
    }
  }

  lemma {:induction false} SortRemoved(bids: bool, es: seq<Slot>, id: string)
    requires DistinctIds(es)
    ensures Sort(Before(bids), RemoveId(es, id)) == RemoveId(Sort(Before(bids), es), id)
  {
    if es != [] {
      var less, n := Before(bids), |es| - 1;
      var front, last := es[..n], es[n];
      SortRemoved(bids, front, id);
      SortFacts(bids, front);
      RemoveFromEnd(es, id);
      if last.id == id {
        forall i | 0 <= i < n ensures front[i].id != id {}
        SameIds(Sort(less, front), front);
        InsertedRemoved(less, Sort(less, front), last);
      } else {
        BeforeIsStrictWeakOrder(bids);
        InsertRemoved(less, Sort(less, front), last, id);
        var t := RemoveId(front, id);
        assert (t + [last])[..|t|] == t;
      }
    }
  }

  lemma {:induction false} RemoveFromEnd<A>(es: seq<Entry<A>>, id: string)
    requires DistinctIds(es) && es != []
    ensures
      var n := |es| - 1;
      RemoveId(es, id) == if es[n].id == id then es[..n] else RemoveId(es[..n], id) + [es[n]]
  {
    var n := |es| - 1;
    if n > 0 {
      assert es[..n][1..] == es[1..][..n - 1];
      if es[0].id == id {
        assert es[n].id != id;
        assert es[1..] == es[1..n] + [es[n]];
      } else {
        RemoveFromEnd(es[1..], id);
        assert es[..n] == [es[0]] + es[..n][1..];
      }
    }
  }

  lemma SameIds<A(!new)>(a: seq<Entry<A>>, b: seq<Entry<A>>)
    requires multiset(a) == multiset(b)
    ensures Ids(a) == Ids(b)
    ensures DistinctIds(b) ==> DistinctIds(a)
  {
    MultisetMembers(a, b);
    forall x ensures x in Ids(a) <==> x in Ids(b) {
      if x in Ids(a) {
        var i :| 0 <= i < |a| && a[i].id == x;
        assert a[i] in b;
        var j :| 0 <= j < |b| && b[j] == a[i];
      }
      if x in Ids(b) {
        var i :| 0 <= i < |b| && b[i].id == x;
        assert b[i] in a;
        var j :| 0 <= j < |a| && a[j] == b[i];
      }
    }
    if DistinctIds(b) && !DistinctIds(a) {
      var i, j :| 0 <= i < j < |a| && a[i].id == a[j].id;
      PermutedPair(a, b, i, j);
    }
  }

  lemma Once<A>(b: seq<Entry<A>>, p: nat)
    requires DistinctIds(b) && p < |b|
    ensures multiset(b)[b[p]] == 1
  {
    assert b == b[..p] + [b[p]] + b[p + 1..];
    forall k | 0 <= k < |b| && k != p ensures b[k] != b[p] {
      if k < p { assert b[k].id != b[p].id; } else { assert b[p].id != b[k].id; }
    }
    assert b[p] !in multiset(b[..p]) && b[p] !in multiset(b[p + 1..]);
  }

  lemma PermutedPair<A(!new)>(a: seq<Entry<A>>, b: seq<Entry<A>>, i: nat, j: nat)
    requires multiset(a) == multiset(b) && DistinctIds(b)
    requires i < j < |a|
    ensures a[i].id != a[j].id
  {
    MultisetMembers(a, b);
    assert a[i] in b && a[j] in b;
    var p :| 0 <= p < |b| && b[p] == a[i];
    var q :| 0 <= q < |b| && b[q] == a[j];
    Once(b, p);
    if a[i] == a[j] { Twice(a, i, j); }
    assert p != q;
    if p < q { assert b[p].id != b[q].id; } else { assert b[q].id != b[p].id; }
  }

  // ---- The refinement, one order at a time ----

  lemma CutIds(s: seq<Slot>, left: seq<Slot>)
    requires DistinctIds(s) && CutOf(left, s)
    requires forall i :: 0 <= i < |left| ==> Reduced(left[i], s[|s| - |left| + i])
    ensures DistinctIds(left) && Ids(left) == Ids(s) - Emptied(s, left)
  {
    var k := |s| - |left|;
    forall x ensures x in Ids(left) <==> x in Ids(s) && x !in Ids(s[..k]) {
      if x in Ids(left) {
        var i :| 0 <= i < |left| && left[i].id == x;
        assert s[k + i].id == x;
        forall j | 0 <= j < k ensures s[..k][j].id != x { assert s[j].id != s[k + i].id; }
      }
      if x in Ids(s) && x !in Ids(s[..k]) {
        var i :| 0 <= i < |s| && s[i].id == x;
        assert forall j :: 0 <= j < k ==> s[..k][j].id in Ids(s[..k]) && s[..k][j] == s[j];
        assert left[i - k].id == x;
      }
    }
    forall i, j | 0 <= i < j < |left| ensures left[i].id != left[j].id {
      assert s[k + i].id != s[k + j].id;
    }
  }

  /** Ids left after a sweep: those of the side without those of the entries it emptied. */
  lemma SweptIds(bids: bool, es: seq<Slot>, bound: Option<int>, qty: int)
    requires DistinctIds(es)
    ensures
      var s := Sort(Before(bids), es);
      var left := Sweep(bids, s, bound, qty).left;
      DistinctIds(left) && Ids(left) == Ids(es) - Emptied(s, left) && Emptied(s, left) <= Ids(es)
  {
    var s := Sort(Before(bids), es);
    var left := Sweep(bids, s, bound, qty).left;
    SortFacts(bids, es);
    assert DistinctIds(s) && Ids(s) == Ids(es) by { SameIds(s, es); }
    SweepCuts(bids, s, bound, qty);
    CutSlots(bids, s, left);
    CutIds(s, left);
    EmptiedIds(s, left);
  }

  lemma EmptiedIds(s: seq<Slot>, left: seq<Slot>)
    ensures Emptied(s, left) <= Ids(s)
  {
    if |left| <= |s| {
      var k := |s| - |left|;
      IdsConcat(s[..k], s[k..]);
      assert s == s[..k] + s[k..];
    }
  }

  /** A side after a sweep stands for the swept queue. */
  lemma SweptMeaning(bids: bool, es: seq<Slot>, bound: Option<int>, qty: int)
    requires Positive(es) && qty >= 0
    ensures
      var r := Sweep(bids, Sort(Before(bids), es), bound, qty);
      && Sweep(bids, Strip(Sort(Before(bids), es)), bound, qty) == Swept(Strip(r.left), r.executed, r.price)
      && Sort(Before(bids), r.left) == r.left
  {
    StripSweep(bids, Sort(Before(bids), es), bound, qty);
    SweptSide(bids, es, bound, qty);
    SortOfSorted(Before(bids), Sweep(bids, Sort(Before(bids), es), bound, qty).left);
  }

  /** A newly rested entry stands for a quote queued behind its price level. */
  lemma RestedMeaning(bids: bool, es: seq<Slot>, e: Slot)
    requires forall i :: 0 <= i < |es| ==> es[i].arrival < e.arrival
    ensures Strip(Sort(Before(bids), es + [e])) ==
            Insert(BetterPrice(bids), Strip(Sort(Before(bids), es)), Bare(e))
  {
    assert (es + [e])[..|es|] == es;
    SortFacts(bids, es);
    StripInsert(bids, Sort(Before(bids), es), e);
  }

  /** An order's unexecuted rest as an entry that arrives at time `n`. */
  function Remainder(o: Order, executed: int, n: nat): Slot {
    Entry(o.id, o.side, o.price, o.quantity, o.quantity - executed, n)
  }

  /** A side after `e` has come to rest, unless nothing of it is left. */
  function Rested(es: seq<Slot>, e: Slot): seq<Slot> {
    if e.remaining > 0 then es + [e] else es
  }

  /** The index after `e` has come to rest, unless nothing of it is left. */
  function Noted(index: map<string, Side>, e: Slot): map<string, Side> {
    if e.remaining > 0 then index[e.id := e.side] else index
  }

  lemma RestedQueues(bids: bool, es: seq<Slot>, e: Slot)
    requires forall i :: 0 <= i < |es| ==> es[i].arrival < e.arrival
    ensures Strip(Sort(Before(bids), Rested(es, e))) == Queue(bids, Strip(Sort(Before(bids), es)), Bare(e))
  {
    RestedMeaning(bids, es, e);
  }

  lemma BuyOnBook(k: Book, o: Order, left: seq<Quote>, executed: int, price: int, q: Quote)
    requires o.quantity > 0 && o.price > 0 && o.side.Buy?
    requires Sweep(false, k.asks, Some(o.price), o.quantity) == Swept(left, executed, price)
    requires q == Bare(Remainder(o, executed, 0))
    ensures ApplyLimit(k, o) == (Book(Queue(true, k.bids, q), left), Fill(o.id, price, executed, true))
  {
  }

  lemma BuyOnEngine(m: Engine, o: Order, left: seq<Slot>, executed: int, price: int)
    requires o.quantity > 0 && o.price > 0 && o.side.Buy?
    requires Sweep(false, Sort(Before(false), m.sells), Some(o.price), o.quantity) == Swept(left, executed, price)
    ensures
      var (m', f) := StepLimit(m, o);
      && m'.sells == left && m'.buys == Rested(m.buys, Remainder(o, executed, m.clock + 1))
      && m'.index == Noted(m.index - Emptied(Sort(Before(false), m.sells), left), Remainder(o, executed, m.clock + 1))
      && f == Fill(o.id, price, executed, true)
  {
  }

  lemma BuyMeaning(m: Engine, m': Engine, left: seq<Slot>, e: Slot)
    requires Arrived(m.buys, m.clock) && e.arrival == m.clock + 1 && Sort(Before(false), left) == left
    requires m'.sells == left && m'.buys == Rested(m.buys, e)
    ensures Meaning(m') == Book(Queue(true, Meaning(m).bids, Bare(e)), Strip(left))
  {
    RestedQueues(true, m.buys, e);
  }

  lemma BuyRefines(m: Engine, o: Order)
    requires Sound(m) && o.quantity > 0 && o.price > 0 && o.side.Buy?
    ensures ApplyLimit(Meaning(m), o) == (Meaning(StepLimit(m, o).0), StepLimit(m, o).1)
  {
    var r := Sweep(false, Sort(Before(false), m.sells), Some(o.price), o.quantity);
    var e := Remainder(o, r.executed, m.clock + 1);
    SweptMeaning(false, m.sells, Some(o.price), o.quantity);
    BuyOnEngine(m, o, r.left, r.executed, r.price);
    BuyMeaning(m, StepLimit(m, o).0, r.left, e);
    BuyOnBook(Meaning(m), o, Strip(r.left), r.executed, r.price, Bare(e));
  }

  lemma SellOnBook(k: Book, o: Order, left: seq<Quote>, executed: int, price: int, q: Quote)
    requires o.quantity > 0 && o.price > 0 && !o.side.Buy?
    requires Sweep(true, k.bids, Some(o.price), o.quantity) == Swept(left, executed, price)
    requires q == Bare(Remainder(o, executed, 0))
    ensures ApplyLimit(k, o) == (Book(left, Queue(false, k.asks, q)), Fill(o.id, price, executed, true))
  {
  }

  lemma SellOnEngine(m: Engine, o: Order, left: seq<Slot>, executed: int, price: int)
    requires o.quantity > 0 && o.price > 0 && !o.side.Buy?
    requires Sweep(true, Sort(Before(true), m.buys), Some(o.price), o.quantity) == Swept(left, executed, price)
    ensures
      var (m', f) := StepLimit(m, o);
      && m'.buys == left && m'.sells == Rested(m.sells, Remainder(o, executed, m.clock + 1))
      && m'.index == Noted(m.index - Emptied(Sort(Before(true), m.buys), left), Remainder(o, executed, m.clock + 1))
      && f == Fill(o.id, price, executed, true)
  {
  }

  lemma SellMeaning(m: Engine, m': Engine, left: seq<Slot>, e: Slot)
    requires Arrived(m.sells, m.clock) && e.arrival == m.clock + 1 && Sort(Before(true), left) == left
    requires m'.buys == left && m'.sells == Rested(m.sells, e)
    ensures Meaning(m') == Book(Strip(left), Queue(false, Meaning(m).asks, Bare(e)))
  {
    RestedQueues(false, m.sells, e);
  }

  lemma SellRefines(m: Engine, o: Order)
    requires Sound(m) && o.quantity > 0 && o.price > 0 && !o.side.Buy?
    ensures ApplyLimit(Meaning(m), o) == (Meaning(StepLimit(m, o).0), StepLimit(m, o).1)
  {
    var r := Sweep(true, Sort(Before(true), m.buys), Some(o.price), o.quantity);
    var e := Remainder(o, r.executed, m.clock + 1);
    SweptMeaning(true, m.buys, Some(o.price), o.quantity);
    SellOnEngine(m, o, r.left, r.executed, r.price);
    SellMeaning(m, StepLimit(m, o).0, r.left, e);
    SellOnBook(Meaning(m), o, Strip(r.left), r.executed, r.price, Bare(e));
  }

  lemma LimitRefines(m: Engine, o: Order)
    requires Sound(m)
    ensures ApplyLimit(Meaning(m), o) == (Meaning(StepLimit(m, o).0), StepLimit(m, o).1)
  {
    if o.quantity > 0 && o.price > 0 {
      if o.side.Buy? { BuyRefines(m, o); } else { SellRefines(m, o); }
    }
  }

  lemma MarketRefines(m: Engine, o: Order)
    requires Sound(m)
    ensures ApplyMarket(Meaning(m), o) == (Meaning(StepMarket(m, o).0), StepMarket(m, o).1)
  {
    if o.quantity > 0 {
      if o.side.Buy? {
        SweptMeaning(false, m.sells, None, o.quantity);
      } else {
        SweptMeaning(true, m.buys, None, o.quantity);
      }
    }
  }

  lemma MeaningIds(bids: bool, es: seq<Slot>)
    ensures Ids(Strip(Sort(Before(bids), es))) == Ids(es)
  {
    SortFacts(bids, es);
    SameIds(Sort(Before(bids), es), es);
    StripIds(Sort(Before(bids), es));
  }

  lemma RemovedMeaning(bids: bool, es: seq<Slot>, id: string)
    requires DistinctIds(es)
    ensures Strip(Sort(Before(bids), RemoveId(es, id))) == RemoveId(Strip(Sort(Before(bids), es)), id)
  {
    SortRemoved(bids, es, id);
    StripRemove(Sort(Before(bids), es), id);
  }

  lemma CancelRefines(m: Engine, o: Order)
    requires Sound(m) && Indexed(m)
    ensures ApplyCancel(Meaning(m), o) == (Meaning(StepCancel(m, o).0), StepCancel(m, o).1)
  {
    MeaningIds(true, m.buys);
    MeaningIds(false, m.sells);
    RemovedMeaning(true, m.buys, o.id);
    RemovedMeaning(false, m.sells, o.id);
    if o.id !in Ids(m.buys) { RemoveAbsent(Meaning(m).bids, o.id); }
    if o.id !in Ids(m.sells) { RemoveAbsent(Meaning(m).asks, o.id); }
  }

  /** Every order is answered as the price-time book answers it, and leaves a state that means the
      book's next state. Limits and markets need no condition on ids at all. */
  lemma StepRefines(m: Engine, o: Order)
    requires Sound(m) && (o.kind.Cancel? ==> Indexed(m))
    ensures Apply(Meaning(m), o) == (Meaning(Step(m, o).0), Step(m, o).1)
  {
    if o.id != "" {
      match o.kind
      case Limit => LimitRefines(m, o);
      case Market => MarketRefines(m, o);
      case Cancel => CancelRefines(m, o);
      case UnknownKind(_) =>
    }
  }

  lemma AppendIds<A>(es: seq<Entry<A>>, e: Entry<A>)
    ensures Ids(es + [e]) == Ids(es) + {e.id}
    ensures DistinctIds(es + [e]) <==> DistinctIds(es) && e.id !in Ids(es)
  {
    IdsConcat(es, [e]);
    assert [e][0].id in Ids([e]);
    if DistinctIds(es + [e]) {
      forall i, j | 0 <= i < j < |es| ensures es[i].id != es[j].id {
        assert (es + [e])[i].id != (es + [e])[j].id;
      }
      forall i | 0 <= i < |es| ensures es[i].id != e.id {
        assert (es + [e])[i].id != (es + [e])[|es|].id;
      }
    }
  }

  lemma IndexAfterRest(index: map<string, Side>, buys: seq<Slot>, sells: seq<Slot>, e: Slot)
    requires IndexOf(index, buys, sells)
    ensures
      var clash := e.remaining > 0 && e.id in Ids(buys) + Ids(sells);
      && (e.side.Buy? ==> (IndexOf(Noted(index, e), Rested(buys, e), sells) <==> !clash))
      && (!e.side.Buy? ==> (IndexOf(Noted(index, e), buys, Rested(sells, e)) <==> !clash))
  {
    AppendIds(buys, e);
    AppendIds(sells, e);
  }

  lemma IndexAfterSweep(bids: bool, m: Engine, bound: Option<int>, qty: int)
    requires Indexed(m)
    ensures bids ==>
      var s := Sort(Before(true), m.buys);
      var left := Sweep(true, s, bound, qty).left;
      IndexOf(m.index - Emptied(s, left), left, m.sells)
    ensures !bids ==>
      var s := Sort(Before(false), m.sells);
      var left := Sweep(false, s, bound, qty).left;
      IndexOf(m.index - Emptied(s, left), m.buys, left)
  {
    if bids { SweptIds(true, m.buys, bound, qty); } else { SweptIds(false, m.sells, bound, qty); }
  }

  lemma BuyClash(m: Engine, o: Order, left: seq<Slot>, executed: int, price: int)
    requires GoodLimit(o) && o.side.Buy?
    requires Sweep(false, Sort(Before(false), m.sells), Some(o.price), o.quantity) == Swept(left, executed, price)
    ensures Clashes(m, o) <==> executed < o.quantity && o.id in Ids(m.buys) + Ids(left)
  {
  }

  lemma BuyIndexed(m: Engine, o: Order)
    requires Indexed(m) && GoodLimit(o) && o.side.Buy?
    ensures Indexed(StepLimit(m, o).0) <==> !Clashes(m, o)
  {
    var s := Sort(Before(false), m.sells);
    var r := Sweep(false, s, Some(o.price), o.quantity);
    IndexAfterSweep(false, m, Some(o.price), o.quantity);
    IndexAfterRest(m.index - Emptied(s, r.left), m.buys, r.left, Remainder(o, r.executed, m.clock + 1));
    BuyOnEngine(m, o, r.left, r.executed, r.price);
    BuyClash(m, o, r.left, r.executed, r.price);
  }

  lemma SellClash(m: Engine, o: Order, left: seq<Slot>, executed: int, price: int)
    requires GoodLimit(o) && !o.side.Buy?
    requires Sweep(true, Sort(Before(true), m.buys), Some(o.price), o.quantity) == Swept(left, executed, price)
    ensures Clashes(m, o) <==> executed < o.quantity && o.id in Ids(left) + Ids(m.sells)
  {
  }

  lemma SellIndexed(m: Engine, o: Order)
    requires Indexed(m) && GoodLimit(o) && !o.side.Buy?
    ensures Indexed(StepLimit(m, o).0) <==> !Clashes(m, o)
  {
    var s := Sort(Before(true), m.buys);
    var r := Sweep(true, s, Some(o.price), o.quantity);
    IndexAfterSweep(true, m, Some(o.price), o.quantity);
    IndexAfterRest(m.index - Emptied(s, r.left), r.left, m.sells, Remainder(o, r.executed, m.clock + 1));
    SellOnEngine(m, o, r.left, r.executed, r.price);
    SellClash(m, o, r.left, r.executed, r.price);
  }

  lemma MarketIndexed(m: Engine, o: Order)
    requires Indexed(m)
    ensures Indexed(StepMarket(m, o).0)
  {
    IndexAfterSweep(!o.side.Buy?, m, None, o.quantity);
  }

  lemma CancelIndexed(m: Engine, o: Order)
    requires Indexed(m)
    ensures Indexed(StepCancel(m, o).0)
  {
    RemoveIsOthers(m.buys, o.id);
    RemoveIsOthers(m.sells, o.id);
  }

  /** The index stays exact if and only if the order does not rest under an id still resting. */
  lemma StepIndexed(m: Engine, o: Order)
    requires Indexed(m)
    ensures Indexed(Step(m, o).0) <==> !Clashes(m, o)
  {
    if o.id != "" {
      match o.kind
      case Limit =>
        if GoodLimit(o) {
          if o.side.Buy? { BuyIndexed(m, o); } else { SellIndexed(m, o); }
        }
      case Market => MarketIndexed(m, o);
      case Cancel => CancelIndexed(m, o);
      case UnknownKind(_) =>
    }
  }
}
