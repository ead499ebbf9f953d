/** The meaning of price-time priority: two queues kept in priority order at all times,
    with no arrival numbers, no id index and no sorting. */
module PriceTimeBook {
  import opened Orders
  import opened Sorting

  /** Price `p` is strictly better than `q` for an order resting on the given side. */
  predicate Ahead(bids: bool, p: int, q: int) {
    if bids then p > q else p < q
  }

  function BetterPrice<A>(bids: bool): (Entry<A>, Entry<A>) -> bool {
    (a: Entry<A>, b: Entry<A>) => Ahead(bids, a.price, b.price)
  }

  ghost predicate PriceSorted<A>(bids: bool, es: seq<Entry<A>>) {
    forall i, j :: 0 <= i < j < |es| ==> !Ahead(bids, es[j].price, es[i].price)
  }

  /** A taker with the given price bound (none for a market order) accepts price `p`. */
  predicate Within(bids: bool, p: int, bound: Option<int>) {
    bound.Some? ==> !Ahead(bids, bound.value, p)
  }

  /** What a sweep leaves, how much it executed, and the price of the last entry it touched. */
  datatype Swept<+A> = Swept(left: seq<Entry<A>>, executed: int, price: int)

  /** Executes up to `qty` units against the front of a queue. */
  function Sweep<A>(bids: bool, es: seq<Entry<A>>, bound: Option<int>, qty: int): (r: Swept<A>)
    decreases |es|
  {
    if es == [] || qty <= 0 || !Within(bids, es[0].price, bound) then
      Swept(es, 0, 0)
    else if qty < es[0].remaining then
      Swept([es[0].(remaining := es[0].remaining - qty)] + es[1..], qty, es[0].price)
    else
      var r := Sweep(bids, es[1..], bound, qty - es[0].remaining);
      Swept(r.left, es[0].remaining + r.executed, if r.executed > 0 then r.price else es[0].price)
  }

  type Quote = Entry<()>

  datatype Book = Book(bids: seq<Quote>, asks: seq<Quote>)

  function Ids<A>(es: seq<Entry<A>>): set<string> {
    set i | 0 <= i < |es| :: es[i].id
  }

  function RemoveId<A>(es: seq<Entry<A>>, id: string): seq<Entry<A>> {
    if es == [] then []
    else if es[0].id == id then es[1..]
    else [es[0]] + RemoveId(es[1..], id)
  }

  /** The quote queues behind its price level, unless nothing of it is left. */
  function Queue(bids: bool, es: seq<Quote>, q: Quote): seq<Quote> {
    if q.remaining > 0 then Insert(BetterPrice(bids), es, q) else es
  }

  /** A limit order executes what it can and queues the rest. */
  function ApplyLimit(b: Book, o: Order): (Book, Fill) {
    if o.quantity <= 0 || o.price <= 0 then (b, Rejected(o.id))
    else if o.side.Buy? then
      var r := Sweep(false, b.asks, Some(o.price), o.quantity);
      var q := Entry(o.id, o.side, o.price, o.quantity, o.quantity - r.executed, ());
      (Book(Queue(true, b.bids, q), r.left),
       Fill(o.id, r.price, r.executed, true))
    else
      var r := Sweep(true, b.bids, Some(o.price), o.quantity);
      var q := Entry(o.id, o.side, o.price, o.quantity, o.quantity - r.executed, ());
      (Book(r.left, Queue(false, b.asks, q)),
       Fill(o.id, r.price, r.executed, true))
  }

  function ApplyMarket(b: Book, o: Order): (Book, Fill) {
    if o.quantity <= 0 then (b, Rejected(o.id))
    else if o.side.Buy? then
      var r := Sweep(false, b.asks, None, o.quantity);
      (b.(asks := r.left), Fill(o.id, r.price, r.executed, r.executed > 0))
    else
      var r := Sweep(true, b.bids, None, o.quantity);
      (b.(bids := r.left), Fill(o.id, r.price, r.executed, r.executed > 0))
  }

  function ApplyCancel(b: Book, o: Order): (Book, Fill) {
    if o.id in Ids(b.bids) + Ids(b.asks) then
      (Book(RemoveId(b.bids, o.id), RemoveId(b.asks, o.id)), Fill(o.id, 0, 0, true))
    else (b, Rejected(o.id))
  }

  function Apply(b: Book, o: Order): (Book, Result<Fill, OrderError>) {
    if o.id == "" then (b, Err(EmptyId))
    else match o.kind
      case Limit => var (b', f) := ApplyLimit(b, o); (b', Ok(f))
      case Market => var (b', f) := ApplyMarket(b, o); (b', Ok(f))
      case Cancel => var (b', f) := ApplyCancel(b, o); (b', Ok(f))
      case UnknownKind(k) => (b, Err(BadKind(k)))
  }

  /** The book after a whole sequence of orders, and what it answered to each. */
  function Run(b: Book, os: seq<Order>): (r: (Book, seq<Result<Fill, OrderError>>))
    ensures |r.1| == |os|
    decreases |os|
  {
    if os == [] then (b, [])
    else
      var (b1, f) := Apply(b, os[0]);
      var (b2, fs) := Run(b1, os[1..]);
      (b2, [f] + fs)
  }

  // ---- Entries stay well formed ----

  ghost predicate Positive<A>(es: seq<Entry<A>>) {
    forall i :: 0 <= i < |es| ==> 0 < es[i].remaining <= es[i].quantity
  }

  /** What a sweep leaves is the old queue cut at the front, its first entry perhaps reduced. */
  ghost predicate CutOf<A>(left: seq<Entry<A>>, es: seq<Entry<A>>) {
    && |left| <= |es|
    && (left != [] ==>
        var k := |es| - |left|;
        && left[1..] == es[k + 1..]
        && left[0] == es[k].(remaining := left[0].remaining)
        && left[0].remaining <= es[k].remaining)
  }

  lemma {:induction false} SweepCuts<A>(bids: bool, es: seq<Entry<A>>, bound: Option<int>, qty: int)
    ensures CutOf(Sweep(bids, es, bound, qty).left, es)
    decreases |es|
  {
    if !(es == [] || qty <= 0 || !Within(bids, es[0].price, bound)) && qty >= es[0].remaining {
      SweepCuts(bids, es[1..], bound, qty - es[0].remaining);
    }
  }

  lemma {:induction false} SweepKeepsPositive<A>(bids: bool, es: seq<Entry<A>>, bound: Option<int>, qty: int)
    requires Positive(es)
    ensures Positive(Sweep(bids, es, bound, qty).left)
    decreases |es|
  {
    if !(es == [] || qty <= 0 || !Within(bids, es[0].price, bound)) && qty >= es[0].remaining {
      SweepKeepsPositive(bids, es[1..], bound, qty - es[0].remaining);
    }
  }

  // ---- Closed form of a sweep ----

  function Min(a: int, b: int): int { if a < b then a else b }

  /** Which entries a count of resting units takes in. */
  datatype Pick = Everything | Priced(bids: bool, bound: Option<int>) | Named(id: string)

  predicate Picks<A>(p: Pick, e: Entry<A>) {
    match p
    case Everything => true
    case Priced(bids, bound) => Within(bids, e.price, bound)
    case Named(id) => e.id == id
  }

  /** Resting units of the picked entries. */
  function Units<A>(es: seq<Entry<A>>, p: Pick): int {
    if es == [] then 0 else (if Picks(p, es[0]) then es[0].remaining else 0) + Units(es[1..], p)
  }

  /** Units resting at prices the bound allows, wherever they stand in the queue. */
  function Available<A>(bids: bool, es: seq<Entry<A>>, bound: Option<int>): int {
    Units(es, Priced(bids, bound))
  }

  lemma {:induction false} UnitsConcat<A>(a: seq<Entry<A>>, b: seq<Entry<A>>, p: Pick)
    ensures Units(a + b, p) == Units(a, p) + Units(b, p)
  {
    if a == [] {
      assert a + b == b;
    } else {
      assert (a + b)[1..] == a[1..] + b;
      UnitsConcat(a[1..], b, p);
    }
  }

  lemma UnitsWithout<A>(b: seq<Entry<A>>, i: nat, p: Pick)
    requires i < |b|
    ensures Units(b, p) == Units(b[..i] + b[i + 1..], p) + (if Picks(p, b[i]) then b[i].remaining else 0)
  {
    assert b == b[..i] + b[i..];
    UnitsConcat(b[..i], b[i..], p);
    UnitsConcat(b[..i], b[i + 1..], p);
  }

  /** Sorting does not change what rests. */
  lemma {:induction false} UnitsPermuted<A(!new)>(a: seq<Entry<A>>, b: seq<Entry<A>>, p: Pick)
    requires multiset(a) == multiset(b)
    ensures Units(a, p) == Units(b, p)
  {
    if a == [] {
      assert |multiset(b)| == 0;
    } else {
      assert a[0] in multiset(b);
      var i :| 0 <= i < |b| && b[i] == a[0];
      RemovedFromBoth(a, b, i);
      UnitsWithout(b, i, p);
      UnitsPermuted(a[1..], b[..i] + b[i + 1..], p);
    }
  }

  lemma {:induction false} AvailableBeyondBound<A>(bids: bool, es: seq<Entry<A>>, bound: Option<int>)
    requires forall i :: 0 <= i < |es| ==> !Within(bids, es[i].price, bound)
    ensures Available(bids, es, bound) == 0
  {
    if es != [] { AvailableBeyondBound(bids, es[1..], bound); }
  }

  lemma {:induction false} AvailableNonNegative<A>(bids: bool, es: seq<Entry<A>>, bound: Option<int>)
    requires Positive(es)
    ensures Available(bids, es, bound) >= 0
  {
    if es != [] { AvailableNonNegative(bids, es[1..], bound); }
  }

  /** A sweep executes all it wants or all there is at an acceptable price, whichever is less. */
  lemma {:induction false} SweepExecutes<A>(bids: bool, es: seq<Entry<A>>, bound: Option<int>, qty: int)
    requires Positive(es) && PriceSorted(bids, es) && qty >= 0
    ensures Sweep(bids, es, bound, qty).executed == Min(qty, Available(bids, es, bound))
    ensures 0 <= Sweep(bids, es, bound, qty).executed <= qty
    decreases |es|
  {
    AvailableNonNegative(bids, es, bound);
    if es != [] {
      if !Within(bids, es[0].price, bound) {
        AvailableBeyondBound(bids, es, bound);
      } else {
        AvailableNonNegative(bids, es[1..], bound);
        if qty >= es[0].remaining {
          SweepExecutes(bids, es[1..], bound, qty - es[0].remaining);
        }
      }
    }
  }

  ghost predicate SweepsCompose<A>(bids: bool, es: seq<Entry<A>>, bound: Option<int>, a: int, b: int) {
    var first := Sweep(bids, es, bound, a);
    var second := Sweep(bids, first.left, bound, b);
    var both := Sweep(bids, es, bound, a + b);
    && both.left == second.left
    && both.executed == first.executed + second.executed
    && both.price == if second.executed > 0 then second.price else first.price
  }

  lemma SweepsComposeInsideEntry<A>(bids: bool, es: seq<Entry<A>>, bound: Option<int>, a: int, b: int)
    requires Positive(es) && es != [] && 0 < a < es[0].remaining && b >= 0
    ensures SweepsCompose(bids, es, bound, a, b)
  {
    var first := Sweep(bids, es, bound, a);
    if Within(bids, es[0].price, bound) {
      assert first.left == [es[0].(remaining := es[0].remaining - a)] + es[1..];
      assert first.left[1..] == es[1..];
      if b >= es[0].remaining - a {
        SweepSign(bids, es[1..], bound, a + b - es[0].remaining);
      }
    }
  }

  /** A sweep that empties the first entry goes on with the others. */
  lemma SweepPastHead<A>(bids: bool, es: seq<Entry<A>>, bound: Option<int>, qty: int)
    requires es != [] && Within(bids, es[0].price, bound) && qty > 0 && qty >= es[0].remaining
    ensures
      var rest := Sweep(bids, es[1..], bound, qty - es[0].remaining);
      Sweep(bids, es, bound, qty) ==
        Swept(rest.left, es[0].remaining + rest.executed, if rest.executed > 0 then rest.price else es[0].price)
  {
  }

  lemma SweepsComposePastHead<A>(bids: bool, es: seq<Entry<A>>, bound: Option<int>, a: int, b: int)
    requires Positive(es) && es != [] && Within(bids, es[0].price, bound) && a >= es[0].remaining && b >= 0
    requires SweepsCompose(bids, es[1..], bound, a - es[0].remaining, b)
    ensures SweepsCompose(bids, es, bound, a, b)
  {
    var rest := a - es[0].remaining;
    SweepPastHead(bids, es, bound, a);
    SweepPastHead(bids, es, bound, a + b);
    assert a + b - es[0].remaining == rest + b;
    SweepSign(bids, es[1..], bound, rest);
    SweepKeepsPositive(bids, es[1..], bound, rest);
    SweepSign(bids, Sweep(bids, es[1..], bound, rest).left, bound, b);
  }

  /** Sweeping `a` units and then `b` more is sweeping `a + b` units: same units, same book left,
      same last price. */
  lemma {:induction false} SweepsAddUp<A>(bids: bool, es: seq<Entry<A>>, bound: Option<int>, a: int, b: int)
    requires Positive(es) && a >= 0 && b >= 0
    ensures SweepsCompose(bids, es, bound, a, b)
    decreases |es|
  {
    if es == [] || a == 0 || !Within(bids, es[0].price, bound) {
      assert Sweep(bids, es, bound, a) == Swept(es, 0, 0);
      UntouchedHasNoPrice(bids, es, bound, b);
    } else if a < es[0].remaining {
      SweepsComposeInsideEntry(bids, es, bound, a, b);
    } else {
      SweepsAddUp(bids, es[1..], bound, a - es[0].remaining, b);
      SweepsComposePastHead(bids, es, bound, a, b);
    }
  }

  lemma UntouchedHasNoPrice<A>(bids: bool, es: seq<Entry<A>>, bound: Option<int>, qty: int)
    requires Positive(es)
    ensures Sweep(bids, es, bound, qty).executed == 0 ==> Sweep(bids, es, bound, qty).price == 0
    ensures Sweep(bids, es, bound, qty).executed >= 0
  {
    SweepSign(bids, es, bound, qty);
    if es != [] && qty >= es[0].remaining {
      SweepSign(bids, es[1..], bound, qty - es[0].remaining);
    }
  }

  lemma {:induction false} SweepSign<A>(bids: bool, es: seq<Entry<A>>, bound: Option<int>, qty: int)
    requires Positive(es)
    ensures Sweep(bids, es, bound, qty).executed >= 0
    decreases |es|
  {
    if !(es == [] || qty <= 0 || !Within(bids, es[0].price, bound)) && qty >= es[0].remaining {
      SweepSign(bids, es[1..], bound, qty - es[0].remaining);
    }
  }

  /** What is left once a taker still wants more is beyond the taker's bound. */
  lemma {:induction false} SweepExhausts<A>(bids: bool, es: seq<Entry<A>>, bound: Option<int>, qty: int)
    requires Positive(es) && PriceSorted(bids, es)
    requires Sweep(bids, es, bound, qty).executed < qty
    ensures forall e :: e in Sweep(bids, es, bound, qty).left ==> !Within(bids, e.price, bound)
    decreases |es|
  {
    if es != [] && Within(bids, es[0].price, bound) {
      SweepExhausts(bids, es[1..], bound, qty - es[0].remaining);
    }
  }

  // ---- Greedy matching is fair and optimal ----

  /** Units each entry of the old queue lost, given what is left of the queue. */
  function Taken<A>(es: seq<Entry<A>>, left: seq<Entry<A>>): (t: seq<int>)
    ensures |t| == |es|
  {
    if es == [] then []
    else if |left| == |es| then [es[0].remaining - left[0].remaining] + Taken(es[1..], left[1..])
    else [es[0].remaining] + Taken(es[1..], left)
  }

  function Sum(t: seq<int>): int {
    if t == [] then 0 else t[0] + Sum(t[1..])
  }

  /** What a taker pays, or earns, for taking `t[i]` units from the i-th entry. */
  function Cost<A>(es: seq<Entry<A>>, t: seq<int>): int
    requires |t| == |es|
  {
    if es == [] then 0 else es[0].price * t[0] + Cost(es[1..], t[1..])
  }

  lemma {:induction false} NothingTaken<A>(es: seq<Entry<A>>)
    ensures Sum(Taken(es, es)) == 0 && forall i :: 0 <= i < |es| ==> Taken(es, es)[i] == 0
  {
    if es != [] { NothingTaken(es[1..]); }
  }

  lemma {:induction false} TakenIsExecuted<A>(bids: bool, es: seq<Entry<A>>, bound: Option<int>, qty: int)
    ensures Sum(Taken(es, Sweep(bids, es, bound, qty).left)) == Sweep(bids, es, bound, qty).executed
    decreases |es|
  {
    var r := Sweep(bids, es, bound, qty);
    if es == [] || qty <= 0 || !Within(bids, es[0].price, bound) {
      NothingTaken(es);
    } else if qty < es[0].remaining {
      NothingTaken(es[1..]);
      assert r.left[1..] == es[1..];
      assert Taken(es, r.left)[1..] == Taken(es[1..], es[1..]);
    } else {
      TakenAfterHead(bids, es, bound, qty);
      TakenIsExecuted(bids, es[1..], bound, qty - es[0].remaining);
    }
  }

  lemma TakenAfterHead<A>(bids: bool, es: seq<Entry<A>>, bound: Option<int>, qty: int)
    requires es != [] && Within(bids, es[0].price, bound) && qty > 0 && qty >= es[0].remaining
    ensures
      var rest := Sweep(bids, es[1..], bound, qty - es[0].remaining);
      && Sweep(bids, es, bound, qty).left == rest.left
      && Taken(es, rest.left) == [es[0].remaining] + Taken(es[1..], rest.left)
  {
    SweepCuts(bids, es[1..], bound, qty - es[0].remaining);
  }

  /** Price `p` splits a queue into entries emptied, at better prices, and entries untouched, at
      worse ones. */
  ghost predicate Splits<A>(bids: bool, es: seq<Entry<A>>, t: seq<int>, p: int)
    requires |t| == |es|
  {
    forall i :: 0 <= i < |es| ==>
      && (Ahead(bids, es[i].price, p) ==> t[i] == es[i].remaining)
      && (Ahead(bids, p, es[i].price) ==> t[i] == 0)
  }

  /** Price `p` is that of the last entry that lost units. */
  ghost predicate LastTouched<A>(es: seq<Entry<A>>, t: seq<int>, p: int)
    requires |t| == |es|
  {
    exists k :: 0 <= k < |es| && t[k] > 0 && es[k].price == p && forall i :: k < i < |es| ==> t[i] == 0
  }

  lemma SplitsCons<A>(bids: bool, es: seq<Entry<A>>, u: seq<int>, p: int)
    requires es != [] && PriceSorted(bids, es) && |u| == |es| - 1
    requires Splits(bids, es[1..], u, p) && LastTouched(es[1..], u, p)
    ensures Splits(bids, es, [es[0].remaining] + u, p) && LastTouched(es, [es[0].remaining] + u, p)
  {
    var t := [es[0].remaining] + u;
    var k :| 0 <= k < |es[1..]| && u[k] > 0 && es[1..][k].price == p && forall i :: k < i < |es[1..]| ==> u[i] == 0;
    assert t[k + 1] > 0 && es[k + 1].price == p;
    forall i | k + 1 < i < |es| ensures t[i] == 0 { assert t[i] == u[i - 1]; }
    forall i | 0 < i < |es| ensures t[i] == u[i - 1] && es[i] == es[1..][i - 1] {}
  }

  ghost predicate PriceExplained<A>(bids: bool, es: seq<Entry<A>>, bound: Option<int>, r: Swept<A>) {
    if r.executed > 0 then
      && Within(bids, r.price, bound)
      && Splits(bids, es, Taken(es, r.left), r.price)
      && LastTouched(es, Taken(es, r.left), r.price)
    else r.left == es && r.price == 0
  }

  lemma SweepPricePastHead<A>(bids: bool, es: seq<Entry<A>>, bound: Option<int>, qty: int)
    requires Positive(es) && PriceSorted(bids, es)
    requires es != [] && Within(bids, es[0].price, bound) && qty >= es[0].remaining
    requires PriceExplained(bids, es[1..], bound, Sweep(bids, es[1..], bound, qty - es[0].remaining))
    ensures PriceExplained(bids, es, bound, Sweep(bids, es, bound, qty))
  {
    var rest := Sweep(bids, es[1..], bound, qty - es[0].remaining);
    SweepPastHead(bids, es, bound, qty);
    SweepSign(bids, es[1..], bound, qty - es[0].remaining);
    TakenAfterHead(bids, es, bound, qty);
    if rest.executed > 0 {
      SplitsCons(bids, es, Taken(es[1..], rest.left), rest.price);
    } else {
      NothingTaken(es[1..]);
      var t := Taken(es, rest.left);
      assert t[0] > 0;
    }
  }

  lemma SweepInsideHead<A>(bids: bool, es: seq<Entry<A>>, bound: Option<int>, qty: int)
    requires es != [] && 0 < qty < es[0].remaining && Within(bids, es[0].price, bound)
    ensures
      var r := Sweep(bids, es, bound, qty);
      r.executed == qty && r.price == es[0].price && Taken(es, r.left) == [qty] + Taken(es[1..], es[1..])
  {
    assert Sweep(bids, es, bound, qty).left[1..] == es[1..];
  }

  lemma SweepPriceInsideHead<A>(bids: bool, es: seq<Entry<A>>, bound: Option<int>, qty: int)
    requires PriceSorted(bids, es) && es != [] && 0 < qty < es[0].remaining && Within(bids, es[0].price, bound)
    ensures PriceExplained(bids, es, bound, Sweep(bids, es, bound, qty))
  {
    SweepInsideHead(bids, es, bound, qty);
    NothingTaken(es[1..]);
    var t := [qty] + Taken(es[1..], es[1..]);
    assert t[0] > 0;
  }

  lemma SweepPriceUntouched<A>(bids: bool, es: seq<Entry<A>>, bound: Option<int>, qty: int)
    requires es == [] || qty == 0 || !Within(bids, es[0].price, bound)
    ensures PriceExplained(bids, es, bound, Sweep(bids, es, bound, qty))
  {
  }

  lemma PositiveTail<A>(bids: bool, es: seq<Entry<A>>)
    requires es != []
    ensures Positive(es) ==> es[0].remaining > 0 && Positive(es[1..])
    ensures PriceSorted(bids, es) ==> PriceSorted(bids, es[1..])
  {
  }

  /** The reported price is that of the last entry touched, it is within the taker's bound, and it
      splits the queue. */
  lemma {:induction false} SweepPrice<A>(bids: bool, es: seq<Entry<A>>, bound: Option<int>, qty: int)
    requires Positive(es) && PriceSorted(bids, es) && qty >= 0
    ensures PriceExplained(bids, es, bound, Sweep(bids, es, bound, qty))
    decreases |es|
  {
    if es == [] || qty == 0 || !Within(bids, es[0].price, bound) {
      SweepPriceUntouched(bids, es, bound, qty);
    } else if qty < es[0].remaining {
      SweepPriceInsideHead(bids, es, bound, qty);
    } else {
      PositiveTail(bids, es);
      SweepPrice(bids, es[1..], bound, qty - es[0].remaining);
      SweepPricePastHead(bids, es, bound, qty);
    }
  }

  /** The entries in front of the cut lost everything, those behind it nothing. */
  lemma {:induction false} TakenShape<A>(es: seq<Entry<A>>, left: seq<Entry<A>>)
    requires CutOf(left, es)
    ensures forall i :: 0 <= i < |es| - |left| ==> Taken(es, left)[i] == es[i].remaining
    ensures forall i :: |es| - |left| < i < |es| ==> Taken(es, left)[i] == 0
  {
    if es != [] {
      if |left| == |es| {
        NothingTaken(es[1..]);
      } else {
        TakenShape(es[1..], left);
      }
    }
  }

  /** An entry loses units only if every entry ahead of it in the queue is gone. */
  lemma SweepIsFair<A>(bids: bool, es: seq<Entry<A>>, bound: Option<int>, qty: int, i: nat, j: nat)
    requires i < j < |es| && Taken(es, Sweep(bids, es, bound, qty).left)[j] != 0
    ensures i < |es| - |Sweep(bids, es, bound, qty).left|
    ensures Taken(es, Sweep(bids, es, bound, qty).left)[i] == es[i].remaining
  {
    SweepCuts(bids, es, bound, qty);
    TakenShape(es, Sweep(bids, es, bound, qty).left);
  }

  /** How much better `a` is than `b` as a total price: lower for a buyer, higher for a seller. */
  function Saving(bids: bool, a: int, b: int): int {
    if bids then a - b else b - a
  }

  /** Moving units between an entry and the price the split happens at never helps. */
  lemma Exchange(bids: bool, x: int, p: int, g: int, t: int)
    requires Ahead(bids, x, p) ==> t <= g
    requires Ahead(bids, p, x) ==> g <= t
    ensures Saving(bids, x * g, x * t) >= Saving(bids, p * g, p * t)
  {
    assert (x - p) * (g - t) == x * g - x * t - (p * g - p * t);
    if x < p { assert (p - x) * (g - t) == -((x - p) * (g - t)); }
    if bids { assert (x - p) * (g - t) >= 0; } else { assert (x - p) * (g - t) <= 0; }
  }

  /** What the same units would cost at one flat price. */
  function FlatCost(t: seq<int>, p: int): int {
    if t == [] then 0 else p * t[0] + FlatCost(t[1..], p)
  }

  lemma {:induction false} FlatCostIsProduct(t: seq<int>, p: int)
    ensures FlatCost(t, p) == p * Sum(t)
  {
    if t != [] { FlatCostIsProduct(t[1..], p); }
  }

  lemma SplitsTail<A>(bids: bool, es: seq<Entry<A>>, t: seq<int>, p: int)
    requires |t| == |es| && es != [] && Splits(bids, es, t, p)
    ensures Splits(bids, es[1..], t[1..], p)
  {
  }

  lemma {:induction false} SplitIsCheapest<A>(bids: bool, es: seq<Entry<A>>, g: seq<int>, t: seq<int>, p: int)
    requires |g| == |t| == |es|
    requires forall i :: 0 <= i < |es| ==> 0 <= t[i] <= es[i].remaining
    requires Splits(bids, es, g, p)
    ensures Saving(bids, Cost(es, g), Cost(es, t)) >= Saving(bids, FlatCost(g, p), FlatCost(t, p))
  {
    if es != [] {
      SplitsTail(bids, es, g, p);
      SplitIsCheapest(bids, es[1..], g[1..], t[1..], p);
      Exchange(bids, es[0].price, p, g[0], t[0]);
    }
  }

  lemma {:induction false} ZeroSumIsZero<A>(es: seq<Entry<A>>, t: seq<int>)
    requires |t| == |es| && (forall i :: 0 <= i < |t| ==> t[i] >= 0)
    ensures Sum(t) >= 0
    ensures Sum(t) == 0 ==> Cost(es, t) == 0
  {
    if es != [] { ZeroSumIsZero(es[1..], t[1..]); }
  }

  /** No way of taking the same number of units from the queue, whatever prices it accepts,
      gives the taker a better total price than the sweep does. */
  lemma SweepIsOptimal<A>(bids: bool, es: seq<Entry<A>>, bound: Option<int>, qty: int, t: seq<int>)
    requires Positive(es) && PriceSorted(bids, es) && qty >= 0
    requires |t| == |es| && (forall i :: 0 <= i < |es| ==> 0 <= t[i] <= es[i].remaining)
    requires Sum(t) == Sweep(bids, es, bound, qty).executed
    ensures Saving(bids, Cost(es, Taken(es, Sweep(bids, es, bound, qty).left)), Cost(es, t)) >= 0
  {
    var r := Sweep(bids, es, bound, qty);
    SweepPrice(bids, es, bound, qty);
    TakenIsExecuted(bids, es, bound, qty);
    SweepExecutes(bids, es, bound, qty);
    if r.executed > 0 {
      SplitIsCheapest(bids, es, Taken(es, r.left), t, r.price);
      FlatCostIsProduct(Taken(es, r.left), r.price);
      FlatCostIsProduct(t, r.price);
    } else {
      NothingTaken(es);
      ZeroSumIsZero(es, t);
      ZeroSumIsZero(es, Taken(es, es));
    }
  }

  /** No choice that respects the bound and the quantity executes more units than the sweep. */
  lemma {:induction false} SweepIsMaximal<A>(bids: bool, es: seq<Entry<A>>, bound: Option<int>, qty: int, t: seq<int>)
    requires Positive(es) && PriceSorted(bids, es)
    requires |t| == |es| && (forall i :: 0 <= i < |es| ==> 0 <= t[i] <= es[i].remaining)
    requires forall i :: 0 <= i < |es| && t[i] > 0 ==> Within(bids, es[i].price, bound)
    requires 0 <= Sum(t) <= qty
    ensures Sum(t) <= Sweep(bids, es, bound, qty).executed
  {
    SweepExecutes(bids, es, bound, qty);
    TakesAtMostAvailable(bids, es, bound, t);
  }

  lemma {:induction false} TakesAtMostAvailable<A>(bids: bool, es: seq<Entry<A>>, bound: Option<int>, t: seq<int>)
    requires |t| == |es| && (forall i :: 0 <= i < |es| ==> 0 <= t[i] <= es[i].remaining)
    requires forall i :: 0 <= i < |es| && t[i] > 0 ==> Within(bids, es[i].price, bound)
    ensures Sum(t) <= Available(bids, es, bound)
  {
    if es != [] { TakesAtMostAvailable(bids, es[1..], bound, t[1..]); }
  }

  /** A market order fills like a limit whose price no resting entry exceeds. */
  lemma {:induction false} MarketIsUnboundedLimit<A>(bids: bool, es: seq<Entry<A>>, p: int, qty: int)
    requires forall i :: 0 <= i < |es| ==> Within(bids, es[i].price, Some(p))
    ensures Sweep(bids, es, None, qty) == Sweep(bids, es, Some(p), qty)
    decreases |es|
  {
    if !(es == [] || qty <= 0) && qty >= es[0].remaining {
      MarketIsUnboundedLimit(bids, es[1..], p, qty - es[0].remaining);
    }
  }
}
