/** A limit order that is withdrawn whole leaves no trace: all other orders, those between it and its cancel
    included, are answered as if it had never been placed. */
module Withdrawals {
  import opened Orders
  import opened Sorting
  import opened PriceTimeBook
  import opened GoldenEngine
  import opened EngineRefinesBook
  import opened EngineRuns

  type Answer = Result<Fill, OrderError>

  function Resting(k: Book, bids: bool): seq<Quote> {
    if bids then k.bids else k.asks
  }

  /** `k'` is `k` with the quote `q` on one of its sides. */
  ghost predicate Extra(k': Book, k: Book, q: Quote, bids: bool) {
    && q in Resting(k', bids) && RemoveId(Resting(k', bids), q.id) == Resting(k, bids)
    && Resting(k', !bids) == Resting(k, !bids)
  }

  ghost predicate Good(k: Book) {
    && Positive(k.bids) && Positive(k.asks) && PriceSorted(true, k.bids) && PriceSorted(false, k.asks)
    && DistinctIds(k.bids) && DistinctIds(k.asks) && Ids(k.bids) !! Ids(k.asks)
  }

  // ---- One side of the book, with and without the quote ----

  lemma SweepStops<A>(bids: bool, es: seq<Entry<A>>, bound: Option<int>, qty: int)
    requires es == [] || qty <= 0 || !Within(bids, es[0].price, bound)
    ensures Sweep(bids, es, bound, qty) == Swept(es, 0, 0)
  {
  }

  /** What a sweep leaves are entries of the queue, only the first of them perhaps reduced. */
  lemma LeftFrom<A>(bids: bool, es: seq<Entry<A>>, bound: Option<int>, qty: int, i: nat)
    requires i < |Sweep(bids, es, bound, qty).left|
    ensures
      var left := Sweep(bids, es, bound, qty).left;
      var k := |es| - |left|;
      && 0 <= k && left[i] == es[k + i].(remaining := left[i].remaining) && left[i].remaining <= es[k + i].remaining
  {
    SweepCuts(bids, es, bound, qty);
    var left := Sweep(bids, es, bound, qty).left;
    if i > 0 { assert left[i] == left[1..][i - 1]; }
  }

  /** A sweep that takes anything does not leave the head whole. */
  lemma HeadTaken<A>(bids: bool, es: seq<Entry<A>>, bound: Option<int>, qty: int)
    requires DistinctIds(es) && es != [] && qty > 0 && Within(bids, es[0].price, bound) && es[0].remaining > 0
    ensures es[0] !in Sweep(bids, es, bound, qty).left
  {
    var left := Sweep(bids, es, bound, qty).left;
    forall i | 0 <= i < |left| ensures left[i] != es[0] {
      LeftFrom(bids, es, bound, qty, i);
      var k := |es| - |left|;
      if k + i > 0 {
        assert es[0].id != es[k + i].id;
      } else if qty >= es[0].remaining {
        SweepCuts(bids, es[1..], bound, qty - es[0].remaining);
      }
    }
  }

  /** A sweep that meets the quote and leaves it whole takes nothing, with it or without it. */
  lemma SweepAtQuote(bids: bool, es: seq<Quote>, bound: Option<int>, qty: int)
    requires Positive(es) && PriceSorted(bids, es) && DistinctIds(es) && es != []
    requires es[0] in Sweep(bids, es, bound, qty).left
    ensures Sweep(bids, es, bound, qty) == Swept(es, 0, 0)
    ensures Sweep(bids, es[1..], bound, qty) == Swept(es[1..], 0, 0)
  {
    if qty > 0 && Within(bids, es[0].price, bound) { HeadTaken(bids, es, bound, qty); }
    if |es| > 1 { assert !Ahead(bids, es[1].price, es[0].price); }
    SweepStops(bids, es, bound, qty);
    SweepStops(bids, es[1..], bound, qty);
  }

  /** Taking out the id's quote before a sweep or after it is the same. */
  predicate SweepSkips(bids: bool, es: seq<Quote>, id: string, bound: Option<int>, qty: int) {
    var r := Sweep(bids, es, bound, qty);
    Sweep(bids, RemoveId(es, id), bound, qty) == Swept(RemoveId(r.left, id), r.executed, r.price)
  }

  /** It is so if the sweep empties the head and it is so behind it. */
  lemma SkipsPastHead(bids: bool, es: seq<Quote>, id: string, bound: Option<int>, qty: int)
    requires es != [] && es[0].id != id && qty > 0 && Within(bids, es[0].price, bound) && qty >= es[0].remaining
    requires SweepSkips(bids, es[1..], id, bound, qty - es[0].remaining)
    ensures SweepSkips(bids, es, id, bound, qty)
  {
    var others := RemoveId(es, id);
    assert others[0] == es[0] && others[1..] == RemoveId(es[1..], id);
    SweepPastHead(bids, es, bound, qty);
    SweepPastHead(bids, others, bound, qty);
  }

  /** And if the sweep takes nothing, or part of the head. */
  lemma SkipsUnswept(bids: bool, es: seq<Quote>, id: string, bound: Option<int>, qty: int)
    requires es != [] && es[0].id != id && (qty <= 0 || !Within(bids, es[0].price, bound))
    ensures SweepSkips(bids, es, id, bound, qty)
  {
    SweepStops(bids, es, bound, qty);
    SweepStops(bids, RemoveId(es, id), bound, qty);
  }

  lemma SweepPart<A>(bids: bool, es: seq<Entry<A>>, bound: Option<int>, qty: int)
    requires es != [] && 0 < qty < es[0].remaining && Within(bids, es[0].price, bound)
    ensures Sweep(bids, es, bound, qty) ==
            Swept([es[0].(remaining := es[0].remaining - qty)] + es[1..], qty, es[0].price)
  {
  }

  lemma RemoveBehind(e: Quote, rest: seq<Quote>, id: string)
    requires e.id != id
    ensures RemoveId([e] + rest, id) == [e] + RemoveId(rest, id)
  {
    assert ([e] + rest)[1..] == rest;
  }

  lemma SkipsPart(bids: bool, es: seq<Quote>, id: string, bound: Option<int>, qty: int)
    requires es != [] && es[0].id != id && 0 < qty < es[0].remaining && Within(bids, es[0].price, bound)
    ensures SweepSkips(bids, es, id, bound, qty)
  {
    var others := RemoveId(es, id);
    assert others[0] == es[0] && others[1..] == RemoveId(es[1..], id);
    RemoveBehind(es[0].(remaining := es[0].remaining - qty), es[1..], id);
    SweepPart(bids, es, bound, qty);
    SweepPart(bids, others, bound, qty);
  }

  /** A sweep that leaves quote `i` whole takes from the others what it would take without it. */
  lemma {:induction false} SweptWithout(bids: bool, es: seq<Quote>, i: nat, bound: Option<int>, qty: int)
    requires Positive(es) && PriceSorted(bids, es) && DistinctIds(es) && i < |es|
    requires es[i] in Sweep(bids, es, bound, qty).left
    ensures SweepSkips(bids, es, es[i].id, bound, qty)
    decreases |es|
  {
    if i == 0 {
      SweepAtQuote(bids, es, bound, qty);
    } else {
      TailOf(bids, es, i);
      if qty <= 0 || !Within(bids, es[0].price, bound) {
        SkipsUnswept(bids, es, es[i].id, bound, qty);
      } else if qty < es[0].remaining {
        SkipsPart(bids, es, es[i].id, bound, qty);
      } else {
        var rest, qty1 := es[1..], qty - es[0].remaining;
        assert rest[i - 1] in Sweep(bids, rest, bound, qty1).left by { SweepPastHead(bids, es, bound, qty); }
        SweptWithout(bids, rest, i - 1, bound, qty1);
        SkipsPastHead(bids, es, es[i].id, bound, qty);
      }
    }
  }

  lemma TailOf(bids: bool, es: seq<Quote>, i: nat)
    requires Positive(es) && PriceSorted(bids, es) && DistinctIds(es) && 0 < i < |es|
    ensures es[0].id != es[i].id && es[1..][i - 1] == es[i]
    ensures Positive(es[1..]) && PriceSorted(bids, es[1..]) && DistinctIds(es[1..])
  {
    var t := es[1..];
    forall x | 0 <= x < |t| ensures 0 < t[x].remaining <= t[x].quantity { assert t[x] == es[x + 1]; }
    forall x, y | 0 <= x < y < |t| ensures !Ahead(bids, t[y].price, t[x].price) && t[x].id != t[y].id {
      assert t[x] == es[x + 1] && t[y] == es[y + 1];
    }
  }

  lemma QuoteSkipped(bids: bool, es: seq<Quote>, q: Quote, bound: Option<int>, qty: int)
    requires Positive(es) && PriceSorted(bids, es) && DistinctIds(es) && q in es
    requires q in Sweep(bids, es, bound, qty).left
    ensures SweepSkips(bids, es, q.id, bound, qty)
  {
    var i :| 0 <= i < |es| && es[i] == q;
    SweptWithout(bids, es, i, bound, qty);
  }

  lemma QueuedWithout(bids: bool, es: seq<Quote>, q: Quote, e: Quote)
    requires PriceSorted(bids, es) && e.id != q.id
    ensures RemoveId(Queue(bids, es, e), q.id) == Queue(bids, RemoveId(es, q.id), e)
  {
    assert Sorted(BetterPrice(bids), es);
    InsertRemoved(BetterPrice(bids), es, e, q.id);
  }

  lemma {:induction false} RemovedWithout(es: seq<Quote>, x: string, y: string)
    ensures RemoveId(RemoveId(es, x), y) == RemoveId(RemoveId(es, y), x)
  {
    if es != [] {
      var xs, ys := RemoveId(es[1..], x), RemoveId(es[1..], y);
      RemovedWithout(es[1..], x, y);
      assert ([es[0]] + xs)[1..] == xs && ([es[0]] + ys)[1..] == ys;
    }
  }

  lemma WholeWasThere(bids: bool, es: seq<Quote>, q: Quote, bound: Option<int>, qty: int)
    requires Positive(es) && q.remaining == q.quantity && q in Sweep(bids, es, bound, qty).left
    ensures q in es
  {
    var left := Sweep(bids, es, bound, qty).left;
    var i :| 0 <= i < |left| && left[i] == q;
    LeftFrom(bids, es, bound, qty, i);
    assert es[|es| - |left| + i] == q;
  }

  lemma QueuedWasThere(bids: bool, es: seq<Quote>, q: Quote, e: Quote)
    requires q in Queue(bids, es, e)
    ensures q in es || (q == e && e.remaining > 0)
  {
    if e.remaining > 0 {
      InsertMultiset(BetterPrice(bids), es, e);
      assert q in multiset(Insert(BetterPrice(bids), es, e));
      assert q == e || q in multiset(es);
    }
  }

  lemma {:induction false} RemovedWasThere(es: seq<Quote>, q: Quote, x: string)
    requires q in RemoveId(es, x)
    ensures q in es && (DistinctIds(es) ==> q.id != x)
  {
    if es[0].id == x {
      var i :| 0 <= i < |es[1..]| && es[1..][i] == q;
      assert es[i + 1] == q;
    } else {
      var t := RemoveId(es[1..], x);
      var i :| 0 <= i < |[es[0]] + t| && ([es[0]] + t)[i] == q;
      if i > 0 {
        assert t[i - 1] == q;
        RemovedWasThere(es[1..], q, x);
      }
    }
  }

  // ---- One order, with and without the quote ----

  /** If the quote is still whole after order `x`, the order is answered the same without it, and the books
      still differ by the quote alone. */
  ghost predicate Alike(k': Book, k: Book, x: Order, q: Quote, bids: bool) {
    q in Resting(Apply(k', x).0, bids) ==>
      Apply(k, x).1 == Apply(k', x).1 && Extra(Apply(k', x).0, Apply(k, x).0, q, bids)
  }

  lemma BuyAlike(k': Book, k: Book, x: Order, q: Quote, bids: bool)
    requires Good(k') && Extra(k', k, q, bids) && GoodLimit(x) && x.side.Buy? && x.id != q.id
    ensures Alike(k', k, x, q, bids)
  {
    var r := Sweep(false, k'.asks, Some(x.price), x.quantity);
    var e := Bare(Remainder(x, r.executed, 0));
    BuyOnBook(k', x, r.left, r.executed, r.price, e);
    if bids {
      QueuedWithout(true, k'.bids, q, e);
      BuyOnBook(k, x, r.left, r.executed, r.price, e);
    } else if q in r.left {
      QuoteSkipped(false, k'.asks, q, Some(x.price), x.quantity);
      BuyOnBook(k, x, RemoveId(r.left, q.id), r.executed, r.price, e);
    }
  }

  lemma SellAlike(k': Book, k: Book, x: Order, q: Quote, bids: bool)
    requires Good(k') && Extra(k', k, q, bids) && GoodLimit(x) && !x.side.Buy? && x.id != q.id
    ensures Alike(k', k, x, q, bids)
  {
    var r := Sweep(true, k'.bids, Some(x.price), x.quantity);
    var e := Bare(Remainder(x, r.executed, 0));
    SellOnBook(k', x, r.left, r.executed, r.price, e);
    if !bids {
      QueuedWithout(false, k'.asks, q, e);
      SellOnBook(k, x, r.left, r.executed, r.price, e);
    } else if q in r.left {
      QuoteSkipped(true, k'.bids, q, Some(x.price), x.quantity);
      SellOnBook(k, x, RemoveId(r.left, q.id), r.executed, r.price, e);
    }
  }

  lemma MarketAlike(k': Book, k: Book, x: Order, q: Quote, bids: bool)
    requires Good(k') && Extra(k', k, q, bids) && x.kind.Market?
    ensures Alike(k', k, x, q, bids)
  {
    if x.quantity > 0 && x.side.Buy? != bids && q in Sweep(bids, Resting(k', bids), None, x.quantity).left {
      QuoteSkipped(bids, Resting(k', bids), q, None, x.quantity);
    }
  }

  lemma CancelAlike(k': Book, k: Book, x: Order, q: Quote, bids: bool)
    requires Good(k') && Extra(k', k, q, bids) && x.kind.Cancel?
    ensures Alike(k', k, x, q, bids)
  {
    var es := Resting(k', bids);
    var found := x.id in Ids(k'.bids) + Ids(k'.asks);
    if x.id != "" && q in Resting(Apply(k', x).0, bids) {
      IdsWithout(es, q);
      if found { RemovedWasThere(es, q, x.id); }
      assert found <==> x.id in Ids(k.bids) + Ids(k.asks);
      RemovedWithout(es, x.id, q.id);
    }
  }

  lemma IdsWithout(es: seq<Quote>, q: Quote)
    requires DistinctIds(es) && q in es
    ensures q.id in Ids(es) && Ids(es) == Ids(RemoveId(es, q.id)) + {q.id}
  {
    var i :| 0 <= i < |es| && es[i] == q;
    RemoveIsOthers(es, q.id);
  }

  lemma StepAlike(k': Book, k: Book, x: Order, q: Quote, bids: bool)
    requires Good(k') && Extra(k', k, q, bids) && (x.kind.Limit? ==> x.id != q.id)
    ensures Alike(k', k, x, q, bids)
  {
    match x.kind
    case Limit =>
      if GoodLimit(x) {
        if x.side.Buy? { BuyAlike(k', k, x, q, bids); } else { SellAlike(k', k, x, q, bids); }
      }
    case Market => MarketAlike(k', k, x, q, bids);
    case Cancel => CancelAlike(k', k, x, q, bids);
    case UnknownKind(_) =>
  }

  /** A quote that is whole after an order was so before it, unless the order placed it. */
  lemma LimitFoundWhole(k: Book, x: Order, q: Quote, bids: bool)
    requires Good(k) && q.remaining == q.quantity && GoodLimit(x) && x.id != q.id
    requires q in Resting(ApplyLimit(k, x).0, bids)
    ensures q in Resting(k, bids)
  {
    var taken := !x.side.Buy?;
    var r := Sweep(taken, Resting(k, taken), Some(x.price), x.quantity);
    var e := Bare(Remainder(x, r.executed, 0));
    if taken { SellOnBook(k, x, r.left, r.executed, r.price, e); }
    else { BuyOnBook(k, x, r.left, r.executed, r.price, e); }
    if taken == bids {
      WholeWasThere(bids, Resting(k, bids), q, Some(x.price), x.quantity);
    } else {
      QueuedWasThere(bids, Resting(k, bids), q, e);
    }
  }

  lemma FoundWhole(k: Book, x: Order, q: Quote, bids: bool)
    requires Good(k) && q.remaining == q.quantity && (x.kind.Limit? ==> x.id != q.id)
    requires q in Resting(Apply(k, x).0, bids)
    ensures q in Resting(k, bids)
  {
    match x.kind
    case Limit => if GoodLimit(x) { LimitFoundWhole(k, x, q, bids); }
    case Market =>
      if x.id != "" && x.quantity > 0 && x.side.Buy? != bids {
        WholeWasThere(bids, Resting(k, bids), q, None, x.quantity);
      }
    case Cancel =>
      if q !in Resting(k, bids) { RemovedWasThere(Resting(k, bids), q, x.id); }
    case UnknownKind(_) =>
  }

  // ---- The orders between the limit and its cancel ----

  lemma SideGood(bids: bool, es: seq<Slot>)
    requires Positive(es) && DistinctIds(es)
    ensures
      var qs := Strip(Sort(Before(bids), es));
      Positive(qs) && PriceSorted(bids, qs) && DistinctIds(qs) && Ids(qs) == Ids(es)
  {
    SortFacts(bids, es);
    SameIds(Sort(Before(bids), es), es);
    StripAt(Sort(Before(bids), es));
    MeaningIds(bids, es);
  }

  lemma MeaningGood(m: Engine)
    requires Sound(m) && Indexed(m)
    ensures Good(Meaning(m))
  {
    SideGood(true, m.buys);
    SideGood(false, m.sells);
  }

  ghost predicate NoLimitIs(os: seq<Order>, id: string) {
    forall i :: 0 <= i < |os| && os[i].kind.Limit? ==> os[i].id != id
  }

  lemma NextEngine(m: Engine, os: seq<Order>)
    requires Sound(m) && Indexed(m) && FreshFor(m, os) && os != []
    ensures
      var m1 := Step(m, os[0]).0;
      Sound(m1) && Indexed(m1) && FreshFor(m1, os[1..]) && Meaning(m1) == Apply(Meaning(m), os[0]).0
      && Step(m, os[0]).1 == Apply(Meaning(m), os[0]).1
  {
    StepRefines(m, os[0]);
    StepKeepsSound(m, os[0]);
    FreshTail(m, os);
  }

  /** A quote that is whole at the end of a run that does not place it was whole from the start. */
  lemma {:induction false} StaysWhole(m: Engine, os: seq<Order>, q: Quote, bids: bool)
    requires Sound(m) && Indexed(m) && FreshFor(m, os) && NoLimitIs(os, q.id) && q.remaining == q.quantity
    requires q in Resting(Meaning(Replay(m, os).0), bids)
    ensures q in Resting(Meaning(m), bids)
    decreases |os|
  {
    if os != [] {
      NextEngine(m, os);
      StaysWhole(Step(m, os[0]).0, os[1..], q, bids);
      MeaningGood(m);
      FoundWhole(Meaning(m), os[0], q, bids);
    }
  }

  /** A run at whose end the quote is whole is answered the same without it. */
  lemma {:induction false} RunAlike(m: Engine, k: Book, os: seq<Order>, q: Quote, bids: bool)
    requires Sound(m) && Indexed(m) && FreshFor(m, os) && NoLimitIs(os, q.id) && q.remaining == q.quantity
    requires Extra(Meaning(m), k, q, bids) && q in Resting(Meaning(Replay(m, os).0), bids)
    ensures Replay(m, os).1 == Run(k, os).1
    ensures Extra(Meaning(Replay(m, os).0), Run(k, os).0, q, bids)
    decreases |os|
  {
    if os != [] {
      NextEngine(m, os);
      StaysWhole(Step(m, os[0]).0, os[1..], q, bids);
      MeaningGood(m);
      StepAlike(Meaning(m), k, os[0], q, bids);
      RunAlike(Step(m, os[0]).0, Apply(k, os[0]).0, os[1..], q, bids);
    }
  }

  // ---- The whole run ----

  lemma {:induction false} RunsOn(m: Engine, a: seq<Order>, b: seq<Order>)
    requires Sound(m) && Indexed(m) && FreshFor(m, a + b)
    ensures FreshFor(m, a)
    ensures
      var m1 := Replay(m, a).0;
      Sound(m1) && Indexed(m1) && FreshFor(m1, b) && Run(Meaning(m), a) == (Meaning(m1), Replay(m, a).1)
    decreases |a|
  {
    assert forall i :: 0 <= i < |a| ==> a[i] == (a + b)[i];
    ReplayRefines(m, a);
    if a == [] {
      assert a + b == b;
    } else {
      assert (a + b)[1..] == a[1..] + b && (a + b)[0] == a[0];
      NextEngine(m, a + b);
      RunsOn(Step(m, a[0]).0, a[1..], b);
    }
  }

  /** The order's entry rests with its full quantity. */
  ghost predicate RestsWhole(m: Engine, o: Order) {
    exists e :: e in Own(m, o) && e == Entry(o.id, o.side, o.price, o.quantity, o.quantity, e.arrival)
  }

  lemma RestsWholeInMeaning(m: Engine, o: Order)
    requires RestsWhole(m, o)
    ensures Bare(Remainder(o, 0, 0)) in Resting(Meaning(m), o.side.Buy?)
  {
    var bids, es := o.side.Buy?, Own(m, o);
    var e :| e in es && e == Entry(o.id, o.side, o.price, o.quantity, o.quantity, e.arrival);
    SortFacts(bids, es);
    var s := Sort(Before(bids), es);
    var i :| 0 <= i < |s| && s[i] == e;
    StripAt(s);
    assert Strip(s)[i] == Bare(Remainder(o, 0, 0));
  }

  /** A limit that executes nothing adds its quote to the book and does nothing else. */
  lemma BidPlaced(k: Book, o: Order)
    requires Positive(k.asks) && GoodLimit(o) && o.side.Buy? && o.id !in Ids(k.bids)
    requires ApplyLimit(k, o).1.executedQty == 0
    ensures ApplyLimit(k, o).1 == Fill(o.id, 0, 0, true)
    ensures Extra(ApplyLimit(k, o).0, k, Bare(Remainder(o, 0, 0)), true)
  {
    var q := Bare(Remainder(o, 0, 0));
    UntouchedHasNoPrice(false, k.asks, Some(o.price), o.quantity);
    UntouchedStays(false, k.asks, Some(o.price), o.quantity);
    BuyOnBook(k, o, k.asks, 0, 0, q);
    InsertedRemoved(BetterPrice(true), k.bids, q);
    InsertMultiset(BetterPrice(true), k.bids, q);
    assert q in multiset(ApplyLimit(k, o).0.bids);
  }

  lemma AskPlaced(k: Book, o: Order)
    requires Positive(k.bids) && GoodLimit(o) && !o.side.Buy? && o.id !in Ids(k.asks)
    requires ApplyLimit(k, o).1.executedQty == 0
    ensures ApplyLimit(k, o).1 == Fill(o.id, 0, 0, true)
    ensures Extra(ApplyLimit(k, o).0, k, Bare(Remainder(o, 0, 0)), false)
  {
    var q := Bare(Remainder(o, 0, 0));
    UntouchedHasNoPrice(true, k.bids, Some(o.price), o.quantity);
    UntouchedStays(true, k.bids, Some(o.price), o.quantity);
    SellOnBook(k, o, k.bids, 0, 0, q);
    InsertedRemoved(BetterPrice(false), k.asks, q);
    InsertMultiset(BetterPrice(false), k.asks, q);
    assert q in multiset(ApplyLimit(k, o).0.asks);
  }

  /** A limit that rests whole executed nothing. */
  lemma WholeIsUntouched(k: Book, o: Order)
    requires GoodLimit(o) && o.id !in Ids(k.bids) + Ids(k.asks)
    requires Bare(Remainder(o, 0, 0)) in Resting(ApplyLimit(k, o).0, o.side.Buy?)
    ensures ApplyLimit(k, o).1.executedQty == 0
  {
    var bids, q := o.side.Buy?, Bare(Remainder(o, 0, 0));
    var r := Sweep(!bids, Resting(k, !bids), Some(o.price), o.quantity);
    var e := Bare(Remainder(o, r.executed, 0));
    if bids { BuyOnBook(k, o, r.left, r.executed, r.price, e); }
    else { SellOnBook(k, o, r.left, r.executed, r.price, e); }
    QueuedWasThere(bids, Resting(k, bids), q, e);
    assert q !in Resting(k, bids);
  }

  lemma RunOfTwo(k: Book, k1: Book, k2: Book, a: Order, b: Order, fa: Fill, fb: Fill)
    requires Apply(k, a) == (k1, Ok(fa)) && Apply(k1, b) == (k2, Ok(fb))
    ensures Run(k, [a, b]) == (k2, [Ok(fa), Ok(fb)])
  {
    assert [a, b][1..] == [b] && [b][1..] == [];
    var second: seq<Answer> := [Ok(fb)];
    assert second + [] == second;
    assert Run(k2, []) == (k2, []);
    assert Run(k1, [b]) == (k2, second);
    assert [Ok(fa)] + second == [Ok(fa), Ok(fb)];
  }

  lemma ExtraIds(k': Book, k: Book, q: Quote, bids: bool)
    requires Extra(k', k, q, bids)
    ensures Ids(Resting(k', !bids)) == Ids(Resting(k, !bids))
  {
  }

  /** Placing a limit that executes nothing and cancelling it restores the price-time book. */
  lemma PlacedAndCancelled(k: Book, o: Order, c: Order)
    requires Positive(k.bids) && Positive(k.asks) && o.id !in Ids(k.bids) + Ids(k.asks)
    requires GoodLimit(o) && c.kind.Cancel? && c.id == o.id
    requires ApplyLimit(k, o).1.executedQty == 0
    ensures Run(k, [o, c]) == (k, [Ok(Fill(o.id, 0, 0, true)), Ok(Fill(o.id, 0, 0, true))])
  {
    var k1 := ApplyLimit(k, o).0;
    if o.side.Buy? { BidPlaced(k, o); } else { AskPlaced(k, o); }
    ExtraIds(k1, k, Bare(Remainder(o, 0, 0)), o.side.Buy?);
    WithdrawnIsGone(k1, k, c, Bare(Remainder(o, 0, 0)), o.side.Buy?);
    RunOfTwo(k, k1, k, o, c, Fill(o.id, 0, 0, true), Fill(o.id, 0, 0, true));
  }

  lemma UntouchedStays<A>(bids: bool, es: seq<Entry<A>>, bound: Option<int>, qty: int)
    requires Positive(es) && Sweep(bids, es, bound, qty).executed == 0
    ensures Sweep(bids, es, bound, qty).left == es
  {
    if !(es == [] || qty <= 0 || !Within(bids, es[0].price, bound)) {
      SweepSign(bids, es[1..], bound, qty - es[0].remaining);
    }
  }

  /** The cancel takes the quote back out. */
  lemma WithdrawnIsGone(k': Book, k: Book, c: Order, q: Quote, bids: bool)
    requires Extra(k', k, q, bids) && q.id !in Ids(Resting(k', !bids))
    requires c.kind.Cancel? && c.id == q.id && c.id != ""
    ensures Apply(k', c) == (k, Ok(Fill(c.id, 0, 0, true)))
  {
    var i :| 0 <= i < |Resting(k', bids)| && Resting(k', bids)[i] == q;
    assert q.id in Ids(Resting(k', bids));
    RemoveAbsent(Resting(k', !bids), q.id);
  }

  lemma Placed(k: Book, o: Order)
    requires Good(k) && GoodLimit(o) && o.id !in Ids(k.bids) + Ids(k.asks)
    requires Bare(Remainder(o, 0, 0)) in Resting(Apply(k, o).0, o.side.Buy?)
    ensures Apply(k, o).1 == Ok(Fill(o.id, 0, 0, true))
    ensures Extra(Apply(k, o).0, k, Bare(Remainder(o, 0, 0)), o.side.Buy?)
  {
    WholeIsUntouched(k, o);
    if o.side.Buy? { BidPlaced(k, o); } else { AskPlaced(k, o); }
  }

  lemma ReplayCons(m: Engine, x: Order, os: seq<Order>)
    ensures
      var (m1, f) := Step(m, x);
      Replay(m, [x] + os).0 == Replay(m1, os).0 && Replay(m, [x] + os).1 == [f] + Replay(m1, os).1
  {
    assert ([x] + os)[1..] == os;
  }

  lemma IdsOnOneSide(k: Book, q: Quote, bids: bool)
    requires Good(k) && q in Resting(k, bids)
    ensures q.id !in Ids(Resting(k, !bids))
  {
    IdsWithout(Resting(k, bids), q);
  }

  /** The limit rests whole when the orders after it have been processed: it did nothing but add its quote
      to the book, and the orders were answered as without it. */
  lemma PlacedAndLeftAlone(m: Engine, o: Order, mid: seq<Order>)
    requires Sound(m) && Indexed(m) && FreshFor(m, [o] + mid) && GoodLimit(o)
    requires RestsWhole(Replay(m, [o] + mid).0, o)
    ensures
      var m1, k2 := Step(m, o).0, Run(Meaning(m), mid).0;
      && Step(m, o).1 == Ok(Fill(o.id, 0, 0, true)) && Replay(m1, mid).1 == Run(Meaning(m), mid).1
      && Extra(Meaning(Replay(m1, mid).0), k2, Bare(Remainder(o, 0, 0)), o.side.Buy?)
  {
    var m1, q, bids := Step(m, o).0, Bare(Remainder(o, 0, 0)), o.side.Buy?;
    assert ([o] + mid)[1..] == mid && ([o] + mid)[0] == o;
    NextEngine(m, [o] + mid);
    ReplayCons(m, o, mid);
    RestsWholeInMeaning(Replay(m1, mid).0, o);
    assert NoLimitIs(mid, q.id) by { assert forall i :: 0 <= i < |mid| ==> mid[i] == ([o] + mid)[i + 1]; }
    StaysWhole(m1, mid, q, bids);
    MeaningGood(m);
    MeaningIds(true, m.buys);
    MeaningIds(false, m.sells);
    Placed(Meaning(m), o);
    RunAlike(m1, Meaning(m), mid, q, bids);
  }

  /** From the limit on: the answers with the pair are those without it, and the pair's own. */
  lemma PairAnswers(m: Engine, o: Order, mid: seq<Order>, c: Order, post: seq<Order>)
    requires Sound(m) && Indexed(m) && FreshFor(m, ([o] + mid) + ([c] + post))
    requires GoodLimit(o) && c.kind.Cancel? && c.id == o.id
    requires RestsWhole(Replay(m, [o] + mid).0, o)
    ensures
      var k := Meaning(m);
      var answer := Ok(Fill(o.id, 0, 0, true));
      Replay(m, ([o] + mid) + ([c] + post)).1 ==
        ([answer] + Run(k, mid).1) + ([answer] + Run(Run(k, mid).0, post).1)
  {
    RunsOn(m, [o] + mid, [c] + post);
    PlacedAndLeftAlone(m, o, mid);
    ReplayCons(m, o, mid);
    var m2, k2 := Replay(m, [o] + mid).0, Run(Meaning(m), mid).0;
    MeaningGood(m2);
    IdsOnOneSide(Meaning(m2), Bare(Remainder(o, 0, 0)), o.side.Buy?);
    WithdrawnIsGone(Meaning(m2), k2, c, Bare(Remainder(o, 0, 0)), o.side.Buy?);
    assert ([c] + post)[1..] == post && ([c] + post)[0] == c;
    NextEngine(m2, [c] + post);
    ReplayRefines(Step(m2, c).0, post);
    ReplayCons(m2, c, post);
    ReplayConcat(m, [o] + mid, [c] + post);
  }

  lemma FreshWithout(m: Engine, a: seq<Order>, x: seq<Order>, b: seq<Order>)
    requires FreshFor(m, a + (x + b))
    ensures FreshFor(m, a + b)
  {
    var all, ab := a + (x + b), a + b;
    forall i | 0 <= i < |ab| ensures exists j :: 0 <= j < |all| && all[j] == ab[i] {
      assert all[if i < |a| then i else i + |x|] == ab[i];
    }
    forall i, j | 0 <= i < j < |ab| && ab[i].kind.Limit? && ab[j].kind.Limit? ensures ab[i].id != ab[j].id {
      var i' := if i < |a| then i else i + |x|;
      var j' := if j < |a| then j else j + |x|;
      assert all[i'] == ab[i] && all[j'] == ab[j];
    }
  }

  lemma FreshWithoutPair(m: Engine, pre: seq<Order>, o: Order, mid: seq<Order>, c: Order, post: seq<Order>)
    requires FreshFor(m, pre + (([o] + mid) + ([c] + post)))
    ensures FreshFor(m, pre + (mid + post))
  {
    assert ([o] + mid) + ([c] + post) == [o] + (mid + ([c] + post));
    FreshWithout(m, pre, [o], mid + ([c] + post));
    assert pre + (mid + ([c] + post)) == (pre + mid) + ([c] + post);
    FreshWithout(m, pre + mid, [c], post);
    assert (pre + mid) + post == pre + (mid + post);
  }

  lemma ThreePieces(m: Engine, a: seq<Order>, b: seq<Order>, d: seq<Order>)
    requires Sound(m) && Indexed(m) && FreshFor(m, a + (b + d))
    ensures
      var k := Meaning(Replay(m, a).0);
      Replay(m, a + (b + d)).1 == Replay(m, a).1 + (Run(k, b).1 + Run(Run(k, b).0, d).1)
  {
    RunsOn(m, a, b + d);
    var m1 := Replay(m, a).0;
    ReplayRefines(m1, b + d);
    ReplayConcat(m, a, b + d);
    RunConcat(Meaning(m1), b, d);
  }

  lemma WholeBehind(m: Engine, pre: seq<Order>, os: seq<Order>, o: Order)
    requires RestsWhole(Replay(m, pre + os).0, o)
    ensures RestsWhole(Replay(Replay(m, pre).0, os).0, o)
  {
    ReplayConcat(m, pre, os);
  }

  lemma AnswersBehind(m: Engine, pre: seq<Order>, os: seq<Order>, answers: seq<Answer>)
    requires Replay(Replay(m, pre).0, os).1 == answers
    ensures Replay(m, pre + os).1 == Replay(m, pre).1 + answers
  {
    ReplayConcat(m, pre, os);
  }

  /** All the answers with the pair, piece by piece. */
  lemma PairPieces(m: Engine, pre: seq<Order>, o: Order, mid: seq<Order>, c: Order, post: seq<Order>)
    requires Sound(m) && Indexed(m) && FreshFor(m, pre + (([o] + mid) + ([c] + post)))
    requires GoodLimit(o) && c.kind.Cancel? && c.id == o.id
    requires RestsWhole(Replay(m, pre + ([o] + mid)).0, o)
    ensures
      var k := Meaning(Replay(m, pre).0);
      var answer := Ok(Fill(o.id, 0, 0, true));
      Replay(m, pre + (([o] + mid) + ([c] + post))).1 ==
        Replay(m, pre).1 + (([answer] + Run(k, mid).1) + ([answer] + Run(Run(k, mid).0, post).1))
  {
    var k, answer := Meaning(Replay(m, pre).0), Ok(Fill(o.id, 0, 0, true));
    RunsOn(m, pre, ([o] + mid) + ([c] + post));
    WholeBehind(m, pre, [o] + mid, o);
    PairAnswers(Replay(m, pre).0, o, mid, c, post);
    AnswersBehind(m, pre, ([o] + mid) + ([c] + post),
                  ([answer] + Run(k, mid).1) + ([answer] + Run(Run(k, mid).0, post).1));
  }

  /** All the answers without the pair, piece by piece. */
  lemma OtherPieces(m: Engine, pre: seq<Order>, o: Order, mid: seq<Order>, c: Order, post: seq<Order>)
    requires Sound(m) && Indexed(m) && FreshFor(m, pre + (([o] + mid) + ([c] + post)))
    ensures
      var k := Meaning(Replay(m, pre).0);
      Replay(m, pre + (mid + post)).1 == Replay(m, pre).1 + (Run(k, mid).1 + Run(Run(k, mid).0, post).1)
  {
    FreshWithoutPair(m, pre, o, mid, c, post);
    ThreePieces(m, pre, mid, post);
  }

  /** On any run with fresh limit ids: if a limit order still rests whole when its cancel comes, then it
      executed nothing and was cancelled, and every other order, before, between and after the two, was
      answered as on the run without the pair. */
  lemma WithdrawnLeavesNoTrace(m: Engine, pre: seq<Order>, o: Order, mid: seq<Order>, c: Order, post: seq<Order>)
    returns (before: seq<Answer>, between: seq<Answer>, behind: seq<Answer>)
    requires Sound(m) && Indexed(m) && FreshFor(m, pre + (([o] + mid) + ([c] + post)))
    requires GoodLimit(o) && c.kind.Cancel? && c.id == o.id
    requires RestsWhole(Replay(m, pre + ([o] + mid)).0, o)
    ensures |before| == |pre| && |between| == |mid| && |behind| == |post|
    ensures Replay(m, pre + (mid + post)).1 == before + (between + behind)
    ensures
      var answer := Ok(Fill(o.id, 0, 0, true));
      Replay(m, pre + (([o] + mid) + ([c] + post))).1 == before + (([answer] + between) + ([answer] + behind))
  {
    var k := Meaning(Replay(m, pre).0);
    before, between, behind := Replay(m, pre).1, Run(k, mid).1, Run(Run(k, mid).0, post).1;
    PairPieces(m, pre, o, mid, c, post);
    assert Replay(m, pre + (mid + post)).1 == before + (between + behind) by { OtherPieces(m, pre, o, mid, c, post); }
  }
}
