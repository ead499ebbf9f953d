/** The golden order book itself: entries shared by reference between the two slices and the id
    index, consumed in place inside the matching loops. */
module GoldenOrderbook {
  import opened Orders
  import opened Sorting
  import opened PriceTimeBook
  import opened GoldenEngine
  import EngineRefinesBook

  /** A resting limit order; only the quantity not yet matched ever changes. */
  class BookEntry {
    const id: string
    const side: Side
    const price: int
    const quantity: int
    const arrival: nat
    var remainingQ: int

    constructor (id: string, side: Side, price: int, quantity: int, arrival: nat, remaining: int)
      ensures this.id == id && this.side == side && this.price == price && this.quantity == quantity
      ensures this.arrival == arrival && remainingQ == remaining
    {
      this.id, this.side, this.price, this.quantity := id, side, price, quantity;
      this.arrival, remainingQ := arrival, remaining;
    }

    function View(): Slot
      reads this
    {
      Entry(id, side, price, quantity, remainingQ, arrival)
    }
  }

  function ViewAll(es: seq<BookEntry>): (v: seq<Slot>)
    reads es
    ensures |v| == |es| && forall i :: 0 <= i < |es| ==> v[i] == es[i].View()
  {
    seq(|es|, i requires 0 <= i < |es| reads es => es[i].View())
  }

  ghost predicate Separate(a: seq<BookEntry>) {
    forall i, j :: 0 <= i < j < |a| ==> a[i] != a[j]
  }

  ghost predicate Apart(a: seq<BookEntry>, b: seq<BookEntry>) {
    forall i, j :: 0 <= i < |a| && 0 <= j < |b| ==> a[i] != b[j]
  }

  function EntryBefore(bids: bool): (BookEntry, BookEntry) -> bool {
    (a: BookEntry, b: BookEntry) => Precedes(bids, a.price, a.arrival, b.price, b.arrival)
  }

  lemma {:induction false} ViewInsert(bids: bool, es: seq<BookEntry>, e: BookEntry)
    ensures ViewAll(Insert(EntryBefore(bids), es, e)) == Insert(Before(bids), ViewAll(es), e.View())
  {
    if es != [] {
      assert es == [es[0]] + es[1..];
      ViewCons(es[0], es[1..]);
      if EntryBefore(bids)(e, es[0]) {
        ViewCons(e, es);
      } else {
        ViewInsert(bids, es[1..], e);
        ViewCons(es[0], Insert(EntryBefore(bids), es[1..], e));
      }
    }
  }

  lemma ViewCons(e: BookEntry, es: seq<BookEntry>)
    ensures ViewAll([e] + es) == [e.View()] + ViewAll(es)
  {
    forall k | 0 <= k <= |es| ensures ViewAll([e] + es)[k] == ([e.View()] + ViewAll(es))[k] {
      assert ([e] + es)[k] == if k == 0 then e else es[k - 1];
    }
  }

  /** Sorting the references sorts what they show. */
  lemma {:induction false} ViewSort(bids: bool, es: seq<BookEntry>)
    ensures ViewAll(Sort(EntryBefore(bids), es)) == Sort(Before(bids), ViewAll(es))
  {
    if es != [] {
      var n := |es| - 1;
      ViewSort(bids, es[..n]);
      ViewInsert(bids, Sort(EntryBefore(bids), es[..n]), es[n]);
      assert ViewAll(es)[..n] == ViewAll(es[..n]);
    }
  }

  lemma MembersApart(a: seq<BookEntry>, c: seq<BookEntry>, b: seq<BookEntry>)
    requires forall i :: 0 <= i < |c| ==> c[i] in a
    ensures Apart(a, b) ==> Apart(c, b)
    ensures Apart(b, a) ==> Apart(b, c)
  {
    forall i, j | 0 <= i < |c| && 0 <= j < |b| && (Apart(a, b) || Apart(b, a)) ensures c[i] != b[j] {
      assert c[i] in a;
    }
  }

  lemma SortKeepsSeparate(bids: bool, es: seq<BookEntry>, b: seq<BookEntry>)
    requires Separate(es)
    ensures Separate(Sort(EntryBefore(bids), es))
    ensures Apart(es, b) ==> Apart(Sort(EntryBefore(bids), es), b)
    ensures Apart(b, es) ==> Apart(b, Sort(EntryBefore(bids), es))
    ensures forall e :: e in Sort(EntryBefore(bids), es) <==> e in es
  {
    var s := Sort(EntryBefore(bids), es);
    SortMultiset(EntryBefore(bids), es);
    MultisetMembers(s, es);
    forall i | 0 <= i < |s| ensures s[i] in es { assert s[i] in multiset(s); }
    MembersApart(es, s, b);
    forall i, j | 0 <= i < j < |s| ensures s[i] != s[j] {
      AtMostOnce(es, s[i]);
      if s[i] == s[j] { Twice(s, i, j); }
    }
  }

  lemma {:induction false} AtMostOnce(es: seq<BookEntry>, e: BookEntry)
    requires Separate(es)
    ensures multiset(es)[e] <= 1
  {
    if es != [] {
      assert es == [es[0]] + es[1..];
      AtMostOnce(es[1..], e);
      if e == es[0] { assert e !in es[1..]; }
    }
  }

  function RemoveEntry(es: seq<BookEntry>, id: string): (r: seq<BookEntry>)
    ensures forall e :: e in r ==> e in es
  {
    if es == [] then []
    else if es[0].id == id then es[1..]
    else [es[0]] + RemoveEntry(es[1..], id)
  }

  lemma {:induction false} ViewRemove(es: seq<BookEntry>, id: string)
    requires Separate(es)
    ensures ViewAll(RemoveEntry(es, id)) == RemoveId(ViewAll(es), id)
    ensures Separate(RemoveEntry(es, id))
  {
    if es != [] && es[0].id != id {
      ViewRemove(es[1..], id);
      var t := RemoveEntry(es[1..], id);
      ViewCons(es[0], t);
      ViewCons(es[0], es[1..]);
      assert es == [es[0]] + es[1..];
      forall j | 0 <= j < |t| ensures t[j] != es[0] { assert t[j] in es[1..]; }
    }
  }

  lemma HeadMoved<T>(s: seq<T>, i: nat, t: seq<T>)
    requires i < |s|
    ensures s[..i + 1] + t == s[..i] + ([s[i]] + t)
  {
  }

  /** The source's `removeEntry`: scans for the first entry with the id and cuts it out. */
  method RemoveById(es: seq<BookEntry>, id: string) returns (r: seq<BookEntry>)
    ensures r == RemoveEntry(es, id)
  {
    var i := 0;
    while i < |es|
      invariant 0 <= i <= |es|
      invariant RemoveEntry(es, id) == es[..i] + RemoveEntry(es[i..], id)
    {
      assert es[i..][0] == es[i] && es[i..][1..] == es[i + 1..];
      if es[i].id == id {
        return es[..i] + es[i + 1..];
      }
      HeadMoved(es, i, RemoveEntry(es[i + 1..], id));
      i := i + 1;
    }
    assert es[i..] == [];
    return es;
  }

  lemma SeparateTail(a: seq<BookEntry>, b: seq<BookEntry>)
    requires a != [] && Separate(a)
    ensures Separate(a[1..]) && a[0] !in a[1..]
    ensures Apart(a, b) ==> Apart(a[1..], b) && a[0] !in b
    ensures Apart(b, a) ==> Apart(b, a[1..]) && a[0] !in b
  {
    assert forall i :: 0 <= i < |a| - 1 ==> a[1..][i] == a[i + 1];
  }

  lemma SeparateAppend(a: seq<BookEntry>, b: seq<BookEntry>, e: BookEntry)
    requires Separate(a) && e !in a && e !in b
    ensures Separate(a + [e])
    ensures Apart(a, b) ==> Apart(a + [e], b)
    ensures Apart(b, a) ==> Apart(b, a + [e])
  {
  }

  /** What the id index says about sides. */
  function SidesOf(index: map<string, BookEntry>): map<string, Side> {
    map x | x in index :: index[x].side
  }

  lemma SidesWithout(index: map<string, BookEntry>, id: string)
    ensures SidesOf(index - {id}) == SidesOf(index) - {id}
  {
  }

  lemma SidesWith(index: map<string, BookEntry>, id: string, e: BookEntry)
    ensures SidesOf(index[id := e]) == SidesOf(index)[id := e.side]
  {
  }

  /** The index maps each id to an entry of that id which stands in the slice of its side. */
  ghost predicate OwnEntries(index: map<string, BookEntry>, buys: seq<BookEntry>, sells: seq<BookEntry>) {
    forall x :: x in index ==> index[x].id == x && (if index[x].side.Buy? then index[x] in buys else index[x] in sells)
  }

  lemma OwnTail(index: map<string, BookEntry>, a: seq<BookEntry>, b: seq<BookEntry>)
    requires a != []
    ensures OwnEntries(index, a, b) ==> OwnEntries(index - {a[0].id}, a[1..], b)
    ensures OwnEntries(index, b, a) ==> OwnEntries(index - {a[0].id}, b, a[1..])
  {
    assert a == [a[0]] + a[1..];
  }

  lemma {:induction false} OthersStay(es: seq<BookEntry>, id: string)
    ensures forall e :: e in es && e.id != id ==> e in RemoveEntry(es, id)
  {
    if es != [] {
      assert es == [es[0]] + es[1..];
      OthersStay(es[1..], id);
    }
  }

  lemma OwnRemoved(index: map<string, BookEntry>, buys: seq<BookEntry>, sells: seq<BookEntry>, id: string)
    requires OwnEntries(index, buys, sells)
    ensures OwnEntries(index - {id}, RemoveEntry(buys, id), sells)
    ensures OwnEntries(index - {id}, buys, RemoveEntry(sells, id))
  {
    OthersStay(buys, id);
    OthersStay(sells, id);
  }

  // ---- What a matching loop keeps, on values ----

  /** The side after its first entry lost `q` units. */
  function Reduce(cur: seq<Slot>, q: int): seq<Slot>
    requires cur != []
  {
    if cur[0].remaining == q then cur[1..] else [cur[0].(remaining := cur[0].remaining - q)] + cur[1..]
  }

  /** A matching loop's variables: the current side, what the index says, and the running totals. */
  datatype Loop = Loop(cur: seq<Slot>, sides: map<string, Side>, remaining: int, total: int, price: int)

  /** One turn of the loop. */
  function Turn(l: Loop): Loop
    requires l.cur != []
  {
    var q := Min(l.remaining, l.cur[0].remaining);
    Loop(Reduce(l.cur, q), if l.cur[0].remaining == q then l.sides - {l.cur[0].id} else l.sides,
         l.remaining - q, l.total + q, l.cur[0].price)
  }

  /** A matching loop run to its end. */
  function Drain(bids: bool, bound: Option<int>, l: Loop): Loop
    decreases |l.cur|, l.remaining
  {
    if l.cur == [] || l.remaining <= 0 || !Within(bids, l.cur[0].price, bound) then l
    else Drain(bids, bound, Turn(l))
  }

  lemma EmptiedGrows(cur: seq<Slot>, left: seq<Slot>, sides: map<string, Side>)
    requires cur != [] && |left| < |cur|
    ensures sides - {cur[0].id} - Emptied(cur[1..], left) == sides - Emptied(cur, left)
  {
    var k := |cur| - |left|;
    assert cur[..k] == [cur[0]] + cur[1..][..k - 1];
    EngineRefinesBook.IdsConcat([cur[0]], cur[1..][..k - 1]);
    assert Ids([cur[0]]) == {cur[0].id} by { assert [cur[0]][0].id in Ids([cur[0]]); }
  }

  /** The loop went from `l` to `d`, and what it took in between is the sweep `r`. */
  predicate SweptTo(l: Loop, r: Swept<int>, d: Loop) {
    && d.cur == r.left && d.total == l.total + r.executed && d.remaining == l.remaining - r.executed
    && d.price == (if r.executed > 0 then r.price else l.price)
    && d.sides == l.sides - Emptied(l.cur, r.left)
  }

  /** A turn that empties the best entry, and the sweep of the others. */
  lemma TurnThenSweep(l: Loop, t: Loop, r: Swept<int>, d: Loop)
    requires l.cur != [] && t == Loop(l.cur[1..], l.sides - {l.cur[0].id}, l.remaining - l.cur[0].remaining,
               l.total + l.cur[0].remaining, l.cur[0].price)
    requires SweptTo(t, r, d) && |r.left| < |l.cur| && r.executed >= 0 && l.cur[0].remaining > 0
    ensures SweptTo(l, Swept(r.left, l.cur[0].remaining + r.executed,
                             if r.executed > 0 then r.price else l.cur[0].price), d)
  {
    EmptiedGrows(l.cur, r.left, l.sides);
  }

  /** The loop computes the sweep, its running totals added, and drops the emptied ids. */
  lemma {:induction false} DrainIsSweep(bids: bool, bound: Option<int>, l: Loop)
    requires Positive(l.cur)
    ensures SweptTo(l, Sweep(bids, l.cur, bound, l.remaining), Drain(bids, bound, l))
    decreases |l.cur|
  {
    if l.cur == [] || l.remaining <= 0 || !Within(bids, l.cur[0].price, bound) {
      assert Ids(l.cur[..0]) == {};
    } else if l.remaining < l.cur[0].remaining {
      assert Drain(bids, bound, Turn(l)) == Turn(l);
      assert Ids(l.cur[..0]) == {};
    } else {
      DrainIsSweep(bids, bound, Turn(l));
      var rest := l.remaining - l.cur[0].remaining;
      var r := Sweep(bids, l.cur[1..], bound, rest);
      SweepPastHead(bids, l.cur, bound, l.remaining);
      assert r.executed >= 0 by { UntouchedHasNoPrice(bids, l.cur[1..], bound, rest); }
      assert |r.left| < |l.cur| by { SweepCuts(bids, l.cur[1..], bound, rest); }
      TurnThenSweep(l, Turn(l), r, Drain(bids, bound, l));
    }
  }

  /** What a finished loop over one side of state `m` has left behind. */
  ghost predicate Finished(bids: bool, m: Engine, bound: Option<int>, qty: int,
      left: seq<Slot>, sides: map<string, Side>, total: int, price: int) {
    var s0 := Sort(Before(bids), if bids then m.buys else m.sells);
    Sweep(bids, s0, bound, qty) == Swept(left, total, price) && sides == m.index - Emptied(s0, left)
  }

  lemma DrainFinishes(bids: bool, m: Engine, bound: Option<int>, qty: int, s0: seq<Slot>, l: Loop)
    requires Positive(if bids then m.buys else m.sells) && qty > 0
    requires s0 == Sort(Before(bids), if bids then m.buys else m.sells)
    requires Drain(bids, bound, l) == Drain(bids, bound, Loop(s0, m.index, qty, 0, 0))
    requires l.cur == [] || l.remaining <= 0 || !Within(bids, l.cur[0].price, bound)
    ensures Finished(bids, m, bound, qty, l.cur, l.sides, l.total, l.price)
    ensures l.remaining == qty - l.total
  {
    SweptSide(bids, if bids then m.buys else m.sells, bound, qty);
    DrainIsSweep(bids, bound, Loop(s0, m.index, qty, 0, 0));
    UntouchedHasNoPrice(bids, s0, bound, qty);
  }

  lemma BuyAfterLoop(m: Engine, o: Order, left: seq<Slot>, sides: map<string, Side>, total: int, price: int)
    requires o.quantity > 0 && o.price > 0 && o.side.Buy?
    requires Finished(false, m, Some(o.price), o.quantity, left, sides, total, price)
    ensures
      var rest := o.quantity - total;
      var e := Entry(o.id, o.side, o.price, o.quantity, rest, m.clock + 1);
      var next := StepLimit(m, o).0;
      && next.sells == left && next.buys == (if rest > 0 then m.buys + [e] else m.buys)
      && next.index == (if rest > 0 then sides[o.id := o.side] else sides) && next.clock == m.clock + 1
    ensures StepLimit(m, o).1 == Fill(o.id, price, total, true)
  {
  }

  lemma SellAfterLoop(m: Engine, o: Order, left: seq<Slot>, sides: map<string, Side>, total: int, price: int)
    requires o.quantity > 0 && o.price > 0 && !o.side.Buy?
    requires Finished(true, m, Some(o.price), o.quantity, left, sides, total, price)
    ensures
      var rest := o.quantity - total;
      var e := Entry(o.id, o.side, o.price, o.quantity, rest, m.clock + 1);
      var next := StepLimit(m, o).0;
      && next.buys == left && next.sells == (if rest > 0 then m.sells + [e] else m.sells)
      && next.index == (if rest > 0 then sides[o.id := o.side] else sides) && next.clock == m.clock + 1
    ensures StepLimit(m, o).1 == Fill(o.id, price, total, true)
  {
  }

  lemma MarketAfterLoop(m: Engine, o: Order, left: seq<Slot>, sides: map<string, Side>, total: int, price: int)
    requires o.quantity > 0 && Finished(!o.side.Buy?, m, None, o.quantity, left, sides, total, price)
    ensures StepMarket(m, o) ==
      (if o.side.Buy? then Engine(m.buys, left, sides, m.clock + 1) else Engine(left, m.sells, sides, m.clock + 1),
       Fill(o.id, price, total, total > 0))
  {
  }

  lemma {:induction false} ViewAppend(es: seq<BookEntry>, e: BookEntry)
    ensures ViewAll(es + [e]) == ViewAll(es) + [e.View()]
  {
  }

  class GoldenOrderbook {
    var buys: seq<BookEntry>
    var sells: seq<BookEntry>
    var index: map<string, BookEntry>
    var clock: nat

    /** No entry stands twice in the book, and the index leads to entries that stand in it. */
    ghost predicate Shape()
      reads this
    {
      Separate(buys) && Separate(sells) && Apart(buys, sells) && OwnEntries(index, buys, sells)
    }

    ghost predicate Valid()
      reads this, buys, sells
    {
      && Shape() && Sound(state)
      && state.buys == ViewAll(buys) && state.sells == ViewAll(sells)
      && state.index == SidesOf(index) && state.clock == clock
    }

    /** The state as plain values. */
    ghost var state: Engine

    constructor ()
      ensures Valid() && state == EMPTY_ENGINE && buys == [] && sells == []
    {
      buys, sells, index, clock := [], [], map[], 0;
      state := EMPTY_ENGINE;
    }

    /** Records the state the fields now show. */
    ghost method Adopt(next: Engine)
      requires Shape() && Sound(next)
      requires next.buys == ViewAll(buys) && next.sells == ViewAll(sells)
      requires next.index == SidesOf(index) && next.clock == clock
      modifies this`state
      ensures Valid() && state == next
    {
      state := next;
    }

    method SortBuys()
      requires Shape()
      modifies this`buys
      ensures Shape()
      ensures forall e :: e in buys <==> e in old(buys)
      ensures ViewAll(buys) == Sort(Before(true), old(ViewAll(buys)))
    {
      ViewSort(true, buys);
      SortKeepsSeparate(true, buys, sells);
      buys := Sort(EntryBefore(true), buys);
    }

    method SortSells()
      requires Shape()
      modifies this`sells
      ensures Shape()
      ensures forall e :: e in sells <==> e in old(sells)
      ensures ViewAll(sells) == Sort(Before(false), old(ViewAll(sells)))
    {
      ViewSort(false, sells);
      SortKeepsSeparate(false, sells, buys);
      sells := Sort(EntryBefore(false), sells);
    }

    /** One turn of a loop over the sells: matches against the best entry and drops it when empty. */
    method MatchBestSell(remaining: int, ghost l: Loop) returns (matchQty: int, bestPrice: int)
      requires |sells| > 0 && remaining > 0 && Shape()
      requires l.cur == ViewAll(sells) && l.sides == SidesOf(index) && l.remaining == remaining
      modifies this`sells, this`index, sells[0]
      ensures Turn(l).cur == ViewAll(sells) && Turn(l).sides == SidesOf(index) && Turn(l).price == bestPrice
      ensures Turn(l).remaining == remaining - matchQty && Turn(l).total == l.total + matchQty
      ensures Shape() && ViewAll(buys) == old(ViewAll(buys))
      ensures forall e :: e in sells ==> e in old(sells)
    {
      var best := sells[0];
      assert l.cur[0] == best.View();
      SeparateTail(sells, buys);
      OwnTail(index, sells, buys);
      matchQty := Min(remaining, best.remainingQ);
      bestPrice := best.price;
      best.remainingQ := best.remainingQ - matchQty;
      assert ViewAll(sells[1..]) == l.cur[1..];
      if best.remainingQ == 0 {
        sells := sells[1..];
        SidesWithout(index, best.id);
        index := index - {best.id};
      }
      assert ViewAll(sells) == Turn(l).cur;
    }

    /** One turn of a loop over the buys: matches against the best entry and drops it when empty. */
    method MatchBestBuy(remaining: int, ghost l: Loop) returns (matchQty: int, bestPrice: int)
      requires |buys| > 0 && remaining > 0 && Shape()
      requires l.cur == ViewAll(buys) && l.sides == SidesOf(index) && l.remaining == remaining
      modifies this`buys, this`index, buys[0]
      ensures Turn(l).cur == ViewAll(buys) && Turn(l).sides == SidesOf(index) && Turn(l).price == bestPrice
      ensures Turn(l).remaining == remaining - matchQty && Turn(l).total == l.total + matchQty
      ensures Shape() && ViewAll(sells) == old(ViewAll(sells))
      ensures forall e :: e in buys ==> e in old(buys)
    {
      var best := buys[0];
      assert l.cur[0] == best.View();
      SeparateTail(buys, sells);
      OwnTail(index, buys, sells);
      matchQty := Min(remaining, best.remainingQ);
      bestPrice := best.price;
      best.remainingQ := best.remainingQ - matchQty;
      assert ViewAll(buys[1..]) == l.cur[1..];
      if best.remainingQ == 0 {
        buys := buys[1..];
        SidesWithout(index, best.id);
        index := index - {best.id};
      }
      assert ViewAll(buys) == Turn(l).cur;
    }

    /** A limit order's loop over the sells: stops at the first price beyond the limit. */
    method MatchSellsUpTo(limit: int, qty: int) returns (remaining: int, total: int, price: int)
      requires Shape() && Positive(state.sells) && qty > 0
      requires state.sells == ViewAll(sells) && state.index == SidesOf(index)
      modifies this`sells, this`index, sells
      ensures Finished(false, state, Some(limit), qty, ViewAll(sells), SidesOf(index), total, price)
      ensures remaining == qty - total
      ensures Shape() && ViewAll(buys) == old(ViewAll(buys))
      ensures forall e :: e in sells ==> e in old(sells)
    {
      SortSells();
      remaining, total, price := qty, 0, 0;
      ghost var l := Loop(ViewAll(sells), SidesOf(index), qty, 0, 0);
      ghost var end := Drain(false, Some(limit), l);
      while |sells| > 0 && remaining > 0
        invariant Shape() && ViewAll(buys) == old(ViewAll(buys))
        invariant forall e :: e in sells ==> e in old(sells)
        invariant l.cur == ViewAll(sells) && l.sides == SidesOf(index)
        invariant l.remaining == remaining && l.total == total && l.price == price
        invariant Drain(false, Some(limit), l) == end
        decreases |sells|, remaining
      {
        assert sells[0] in sells && l.cur[0] == sells[0].View();
        if sells[0].price > limit {
          break;
        }
        var matchQty, bestPrice := MatchBestSell(remaining, l);
        l := Turn(l);
        price := bestPrice;
        total := total + matchQty;
        remaining := remaining - matchQty;
      }
      assert l.cur != [] ==> l.cur[0] == sells[0].View();
      DrainFinishes(false, state, Some(limit), qty, Sort(Before(false), state.sells), l);
    }

    /** A limit order's loop over the buys: stops at the first price beyond the limit. */
    method MatchBuysDownTo(limit: int, qty: int) returns (remaining: int, total: int, price: int)
      requires Shape() && Positive(state.buys) && qty > 0
      requires state.buys == ViewAll(buys) && state.index == SidesOf(index)
      modifies this`buys, this`index, buys
      ensures Finished(true, state, Some(limit), qty, ViewAll(buys), SidesOf(index), total, price)
      ensures remaining == qty - total
      ensures Shape() && ViewAll(sells) == old(ViewAll(sells))
      ensures forall e :: e in buys ==> e in old(buys)
    {
      SortBuys();
      remaining, total, price := qty, 0, 0;
      ghost var l := Loop(ViewAll(buys), SidesOf(index), qty, 0, 0);
      ghost var end := Drain(true, Some(limit), l);
      while |buys| > 0 && remaining > 0
        invariant Shape() && ViewAll(sells) == old(ViewAll(sells))
        invariant forall e :: e in buys ==> e in old(buys)
        invariant l.cur == ViewAll(buys) && l.sides == SidesOf(index)
        invariant l.remaining == remaining && l.total == total && l.price == price
        invariant Drain(true, Some(limit), l) == end
        decreases |buys|, remaining
      {
        assert buys[0] in buys && l.cur[0] == buys[0].View();
        if buys[0].price < limit {
          break;
        }
        var matchQty, bestPrice := MatchBestBuy(remaining, l);
        l := Turn(l);
        price := bestPrice;
        total := total + matchQty;
        remaining := remaining - matchQty;
      }
      assert l.cur != [] ==> l.cur[0] == buys[0].View();
      DrainFinishes(true, state, Some(limit), qty, Sort(Before(true), state.buys), l);
    }

    /** A market order's loop over the sells: takes any price. */
    method MatchAnySells(qty: int) returns (remaining: int, total: int, price: int)
      requires Shape() && Positive(state.sells) && qty > 0
      requires state.sells == ViewAll(sells) && state.index == SidesOf(index)
      modifies this`sells, this`index, sells
      ensures Finished(false, state, None, qty, ViewAll(sells), SidesOf(index), total, price)
      ensures remaining == qty - total
      ensures Shape() && ViewAll(buys) == old(ViewAll(buys))
      ensures forall e :: e in sells ==> e in old(sells)
    {
      SortSells();
      remaining, total, price := qty, 0, 0;
      ghost var l := Loop(ViewAll(sells), SidesOf(index), qty, 0, 0);
      ghost var end := Drain(false, None, l);
      while |sells| > 0 && remaining > 0
        invariant Shape() && ViewAll(buys) == old(ViewAll(buys))
        invariant forall e :: e in sells ==> e in old(sells)
        invariant l.cur == ViewAll(sells) && l.sides == SidesOf(index)
        invariant l.remaining == remaining && l.total == total && l.price == price
        invariant Drain(false, None, l) == end
        decreases |sells|, remaining
      {
        assert sells[0] in sells && l.cur[0] == sells[0].View();
        var matchQty, bestPrice := MatchBestSell(remaining, l);
        l := Turn(l);
        price := bestPrice;
        total := total + matchQty;
        remaining := remaining - matchQty;
      }
      assert l.cur != [] ==> l.cur[0] == sells[0].View();
      DrainFinishes(false, state, None, qty, Sort(Before(false), state.sells), l);
    }

    /** A market order's loop over the buys: takes any price. */
    method MatchAnyBuys(qty: int) returns (remaining: int, total: int, price: int)
      requires Shape() && Positive(state.buys) && qty > 0
      requires state.buys == ViewAll(buys) && state.index == SidesOf(index)
      modifies this`buys, this`index, buys
      ensures Finished(true, state, None, qty, ViewAll(buys), SidesOf(index), total, price) && remaining == qty - total
      ensures Shape() && ViewAll(sells) == old(ViewAll(sells))
      ensures forall e :: e in buys ==> e in old(buys)
    {
      SortBuys();
      remaining, total, price := qty, 0, 0;
      ghost var l := Loop(ViewAll(buys), SidesOf(index), qty, 0, 0);
      ghost var end := Drain(true, None, l);
      while |buys| > 0 && remaining > 0
        invariant Shape() && ViewAll(sells) == old(ViewAll(sells))
        invariant forall e :: e in buys ==> e in old(buys)
        invariant l.cur == ViewAll(buys) && l.sides == SidesOf(index)
        invariant l.remaining == remaining && l.total == total && l.price == price
        invariant Drain(true, None, l) == end
        decreases |buys|, remaining
      {
        assert buys[0] in buys && l.cur[0] == buys[0].View();
        var matchQty, bestPrice := MatchBestBuy(remaining, l);
        l := Turn(l);
        price := bestPrice;
        total := total + matchQty;
        remaining := remaining - matchQty;
      }
      assert l.cur != [] ==> l.cur[0] == buys[0].View();
      DrainFinishes(true, state, None, qty, Sort(Before(true), state.buys), l);
    }

    /** Rests the unmatched part of a limit order behind everything that arrived before. */
    method Rest(o: Order, remaining: int)
      requires Shape()
      modifies this`buys, this`sells, this`index
      ensures Shape() && SidesOf(index) == SidesOf(old(index))[o.id := o.side]
      ensures
        var e := Entry(o.id, o.side, o.price, o.quantity, remaining, clock);
        && ViewAll(buys) == (if o.side.Buy? then old(ViewAll(buys)) + [e] else old(ViewAll(buys)))
        && ViewAll(sells) == (if o.side.Buy? then old(ViewAll(sells)) else old(ViewAll(sells)) + [e])
      ensures forall e :: e in buys ==> e in old(buys) || fresh(e)
      ensures forall e :: e in sells ==> e in old(sells) || fresh(e)
    {
      var entry := new BookEntry(o.id, o.side, o.price, o.quantity, clock, remaining);
      SidesWith(index, o.id, entry);
      if o.side.Buy? {
        ViewAppend(buys, entry);
        SeparateAppend(buys, sells, entry);
        buys := buys + [entry];
      } else {
        ViewAppend(sells, entry);
        SeparateAppend(sells, buys, entry);
        sells := sells + [entry];
      }
      index := index[o.id := entry];
    }

    /** Rests what is left of a limit order, if anything is, and records the state reached. */
    method Settle(o: Order, remaining: int, ghost next: Engine)
      requires Shape() && Sound(next) && next.clock == clock
      requires next.index == if remaining > 0 then SidesOf(index)[o.id := o.side] else SidesOf(index)
      requires
        var e := Entry(o.id, o.side, o.price, o.quantity, remaining, clock);
        && next.buys == (if remaining > 0 && o.side.Buy? then ViewAll(buys) + [e] else ViewAll(buys))
        && next.sells == (if remaining > 0 && !o.side.Buy? then ViewAll(sells) + [e] else ViewAll(sells))
      modifies this
      ensures Valid() && state == next
      ensures forall e :: e in buys ==> e in old(buys) || fresh(e)
      ensures forall e :: e in sells ==> e in old(sells) || fresh(e)
    {
      if remaining > 0 {
        Rest(o, remaining);
      }
      Adopt(next);
    }

    method LimitBuy(o: Order) returns (f: Fill)
      requires Valid() && o.quantity > 0 && o.price > 0 && o.side.Buy?
      modifies this, sells
      ensures Valid() && state == StepLimit(old(state), o).0 && f == StepLimit(old(state), o).1
      ensures forall e :: e in buys ==> e in old(buys) || fresh(e)
      ensures forall e :: e in sells ==> e in old(sells) || fresh(e)
    {
      ghost var m := state;
      LimitKeepsSound(m, o);
      clock := clock + 1;
      var remaining, total, price := MatchSellsUpTo(o.price, o.quantity);
      BuyAfterLoop(m, o, ViewAll(sells), SidesOf(index), total, price);
      Settle(o, remaining, StepLimit(m, o).0);
      return Fill(o.id, price, total, true);
    }

    method LimitSell(o: Order) returns (f: Fill)
      requires Valid() && o.quantity > 0 && o.price > 0 && !o.side.Buy?
      modifies this, buys
      ensures Valid() && state == StepLimit(old(state), o).0 && f == StepLimit(old(state), o).1
      ensures forall e :: e in buys ==> e in old(buys) || fresh(e)
      ensures forall e :: e in sells ==> e in old(sells) || fresh(e)
    {
      ghost var m := state;
      LimitKeepsSound(m, o);
      clock := clock + 1;
      var remaining, total, price := MatchBuysDownTo(o.price, o.quantity);
      SellAfterLoop(m, o, ViewAll(buys), SidesOf(index), total, price);
      Settle(o, remaining, StepLimit(m, o).0);
      return Fill(o.id, price, total, true);
    }

    method ApplyLimit(o: Order) returns (f: Fill)
      requires Valid()
      modifies this, buys, sells
      ensures Valid() && state == StepLimit(old(state), o).0 && f == StepLimit(old(state), o).1
      ensures forall e :: e in buys ==> e in old(buys) || fresh(e)
      ensures forall e :: e in sells ==> e in old(sells) || fresh(e)
    {
      if o.quantity <= 0 {
        return Rejected(o.id);
      }
      if o.price <= 0 {
        return Rejected(o.id);
      }
      if o.side.Buy? {
        f := LimitBuy(o);
      } else {
        f := LimitSell(o);
      }
    }

    method MarketBuy(o: Order) returns (f: Fill)
      requires Valid() && o.quantity > 0 && o.side.Buy?
      modifies this, sells
      ensures Valid() && state == StepMarket(old(state), o).0 && f == StepMarket(old(state), o).1
      ensures forall e :: e in buys ==> e in old(buys)
      ensures forall e :: e in sells ==> e in old(sells)
    {
      ghost var m := state;
      MarketKeepsSound(m, o);
      clock := clock + 1;
      var remaining, total, price := MatchAnySells(o.quantity);
      MarketAfterLoop(m, o, ViewAll(sells), SidesOf(index), total, price);
      Adopt(StepMarket(m, o).0);
      return Fill(o.id, price, total, total > 0);
    }

    method MarketSell(o: Order) returns (f: Fill)
      requires Valid() && o.quantity > 0 && !o.side.Buy?
      modifies this, buys
      ensures Valid() && state == StepMarket(old(state), o).0 && f == StepMarket(old(state), o).1
      ensures forall e :: e in buys ==> e in old(buys)
      ensures forall e :: e in sells ==> e in old(sells)
    {
      ghost var m := state;
      MarketKeepsSound(m, o);
      clock := clock + 1;
      var remaining, total, price := MatchAnyBuys(o.quantity);
      MarketAfterLoop(m, o, ViewAll(buys), SidesOf(index), total, price);
      Adopt(StepMarket(m, o).0);
      return Fill(o.id, price, total, total > 0);
    }

    method ApplyMarket(o: Order) returns (f: Fill)
      requires Valid()
      modifies this, buys, sells
      ensures Valid() && state == StepMarket(old(state), o).0 && f == StepMarket(old(state), o).1
      ensures forall e :: e in buys ==> e in old(buys)
      ensures forall e :: e in sells ==> e in old(sells)
    {
      if o.quantity <= 0 {
        return Rejected(o.id);
      }
      if o.side.Buy? {
        f := MarketBuy(o);
      } else {
        f := MarketSell(o);
      }
    }

    method CancelBuy(o: Order)
      requires Valid() && o.id in index && index[o.id].side.Buy?
      modifies this
      ensures Valid() && state == StepCancel(old(state), o).0
      ensures sells == old(sells) && forall e :: e in buys ==> e in old(buys)
    {
      var rest := RemoveById(buys, o.id);
      ghost var next := StepCancel(state, o).0;
      CancelKeepsSound(state, o);
      SidesWithout(index, o.id);
      ViewRemove(buys, o.id);
      OwnRemoved(index, buys, sells, o.id);
      MembersApart(buys, rest, sells);
      buys, index := rest, index - {o.id};
      Adopt(next);
    }

    method CancelSell(o: Order)
      requires Valid() && o.id in index && !index[o.id].side.Buy?
      modifies this
      ensures Valid() && state == StepCancel(old(state), o).0
      ensures buys == old(buys) && forall e :: e in sells ==> e in old(sells)
    {
      var rest := RemoveById(sells, o.id);
      ghost var next := StepCancel(state, o).0;
      CancelKeepsSound(state, o);
      SidesWithout(index, o.id);
      ViewRemove(sells, o.id);
      OwnRemoved(index, buys, sells, o.id);
      MembersApart(sells, rest, buys);
      sells, index := rest, index - {o.id};
      Adopt(next);
    }

    method ApplyCancel(o: Order) returns (f: Fill)
      requires Valid()
      modifies this
      ensures Valid() && state == StepCancel(old(state), o).0 && f == StepCancel(old(state), o).1
      ensures forall e :: e in buys ==> e in old(buys)
      ensures forall e :: e in sells ==> e in old(sells)
    {
      if o.id !in index {
        return Rejected(o.id);
      }
      var entry := index[o.id];
      if entry.side.Buy? {
        CancelBuy(o);
      } else {
        CancelSell(o);
      }
      return Fill(o.id, 0, 0, true);
    }

    /** Processes one order, whatever it is. */
    method Apply(o: Order) returns (r: Result<Fill, OrderError>)
      requires Valid()
      modifies this, buys, sells
      ensures Valid() && state == Step(old(state), o).0 && r == Step(old(state), o).1
      ensures forall e :: e in buys ==> e in old(buys) || fresh(e)
      ensures forall e :: e in sells ==> e in old(sells) || fresh(e)
    {
      if o.id == "" {
        return Err(EmptyId);
      }
      match o.kind
      case Cancel => var f := ApplyCancel(o); return Ok(f);
      case Limit => var f := ApplyLimit(o); return Ok(f);
      case Market => var f := ApplyMarket(o); return Ok(f);
      case UnknownKind(name) => return Err(BadKind(name));
    }

    /** While no id is reused, the index is exactly the entries of the book: every resting entry is the one
        its id leads to. */
    lemma IndexIsExact()
      requires Valid() && EngineRefinesBook.Indexed(state)
      ensures index.Keys == Ids(ViewAll(buys)) + Ids(ViewAll(sells))
      ensures forall e :: e in buys || e in sells ==> e.id in index && index[e.id] == e
    {
      assert index.Keys == SidesOf(index).Keys;
      forall i | 0 <= i < |buys| ensures buys[i].id in index && index[buys[i].id] == buys[i] {
        assert ViewAll(buys)[i].id in Ids(ViewAll(buys));
        OnlyEntry(buys, i, index[buys[i].id]);
      }
      forall i | 0 <= i < |sells| ensures sells[i].id in index && index[sells[i].id] == sells[i] {
        assert ViewAll(sells)[i].id in Ids(ViewAll(sells));
        OnlyEntry(sells, i, index[sells[i].id]);
      }
    }
  }

  lemma OnlyEntry(es: seq<BookEntry>, i: nat, e: BookEntry)
    requires EngineRefinesBook.DistinctIds(ViewAll(es)) && i < |es| && e in es && e.id == es[i].id
    ensures e == es[i]
  {
    var j :| 0 <= j < |es| && es[j] == e;
    assert ViewAll(es)[i].id == es[i].id && ViewAll(es)[j].id == es[j].id;
  }
}
