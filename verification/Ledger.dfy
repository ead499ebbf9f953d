/** Conservation of units over every run of the golden order book, reused ids included. */
module Ledger {
  import opened Orders
  import opened Sorting
  import opened PriceTimeBook
  import opened GoldenEngine

  /** One execution: a taker took `units` at `price` from the resting order `maker`. */
  datatype Match = Match(maker: string, price: int, units: int)

  /** The executions of a sweep, in order. */
  function Matches<A>(bids: bool, es: seq<Entry<A>>, bound: Option<int>, qty: int): seq<Match>
    decreases |es|
  {
    if es == [] || qty <= 0 || !Within(bids, es[0].price, bound) then []
    else if qty < es[0].remaining then [Match(es[0].id, es[0].price, qty)]
    else
      [Match(es[0].id, es[0].price, es[0].remaining)] + Matches(bids, es[1..], bound, qty - es[0].remaining)
  }

  predicate Concerns(p: Pick, id: string) {
    p.Everything? || p == Named(id)
  }

  function Made(ms: seq<Match>, p: Pick): int {
    if ms == [] then 0 else (if Concerns(p, ms[0].maker) then ms[0].units else 0) + Made(ms[1..], p)
  }

  /** Remaining units of the entry a removal by id takes out. */
  function FirstUnits<A>(es: seq<Entry<A>>, id: string): int {
    if es == [] then 0 else if es[0].id == id then es[0].remaining else FirstUnits(es[1..], id)
  }

  /** What happened to the picked orders of one side: units issued by accepted limits, executed by
      those limits as takers, executed against them as makers, and withdrawn by cancels. */
  datatype Flow = Flow(issued: int, taken: int, made: int, withdrawn: int)

  const NO_FLOW := Flow(0, 0, 0, 0)

  function Resting(m: Engine, bids: bool): seq<Slot> {
    if bids then m.buys else m.sells
  }

  function StepFlow(m: Engine, o: Order, bids: bool, p: Pick): Flow {
    var side := Resting(m, bids);
    if o.id == "" then NO_FLOW
    else match o.kind
      case Limit =>
        if !GoodLimit(o) then NO_FLOW
        else if o.side.Buy? == bids then
          if Concerns(p, o.id) then Flow(o.quantity, StepLimit(m, o).1.executedQty, 0, 0) else NO_FLOW
        else Flow(0, 0, Made(Matches(bids, Sort(Before(bids), side), Some(o.price), o.quantity), p), 0)
      case Market =>
        if o.quantity <= 0 || o.side.Buy? == bids then NO_FLOW
        else Flow(0, 0, Made(Matches(bids, Sort(Before(bids), side), None, o.quantity), p), 0)
      case Cancel =>
        if o.id in m.index && m.index[o.id].Buy? == bids && Concerns(p, o.id)
        then Flow(0, 0, 0, FirstUnits(side, o.id)) else NO_FLOW
      case UnknownKind(_) => NO_FLOW
  }

  /** Which orders move units how: only a limit of the side places and takes under its own id, only an order
      of the other side makes an entry lose units, only a cancel withdraws. */
  lemma FlowByKind(m: Engine, o: Order, bids: bool, p: Pick)
    ensures
      var f := StepFlow(m, o, bids, p);
      && (f.issued != 0 || f.taken != 0 ==> o.kind.Limit? && o.side.Buy? == bids && Concerns(p, o.id))
      && (f.made != 0 ==> (o.kind.Limit? || o.kind.Market?) && o.side.Buy? != bids)
      && (f.withdrawn != 0 ==> o.kind.Cancel? && Concerns(p, o.id))
  {
  }

  function Add(a: Flow, b: Flow): Flow {
    Flow(a.issued + b.issued, a.taken + b.taken, a.made + b.made, a.withdrawn + b.withdrawn)
  }

  function RunFlow(m: Engine, os: seq<Order>, bids: bool, p: Pick): Flow
    decreases |os|
  {
    if os == [] then NO_FLOW
    else Add(StepFlow(m, os[0], bids, p), RunFlow(Step(m, os[0]).0, os[1..], bids, p))
  }

  lemma {:induction false} MatchesAreLosses<A>(bids: bool, es: seq<Entry<A>>, bound: Option<int>, qty: int, p: Pick)
    requires !p.Priced?
    ensures Units(es, p) == Units(Sweep(bids, es, bound, qty).left, p) + Made(Matches(bids, es, bound, qty), p)
    ensures Made(Matches(bids, es, bound, qty), Everything) == Sweep(bids, es, bound, qty).executed
    decreases |es|
  {
    if !(es == [] || qty <= 0 || !Within(bids, es[0].price, bound)) {
      var ms := Matches(bids, es, bound, qty);
      if qty < es[0].remaining {
        assert Sweep(bids, es, bound, qty).left[1..] == es[1..];
        assert ms[1..] == [];
      } else {
        MatchesAreLosses(bids, es[1..], bound, qty - es[0].remaining, p);
        assert ms[1..] == Matches(bids, es[1..], bound, qty - es[0].remaining);
      }
    }
  }

  lemma {:induction false} RemovalWithdraws<A>(es: seq<Entry<A>>, id: string, p: Pick)
    requires !p.Priced?
    ensures Units(es, p) == Units(RemoveId(es, id), p) + (if Concerns(p, id) then FirstUnits(es, id) else 0)
  {
    if es != [] && es[0].id != id {
      RemovalWithdraws(es[1..], id, p);
      assert ([es[0]] + RemoveId(es[1..], id))[1..] == RemoveId(es[1..], id);
    }
  }

  lemma SweptUnits(bids: bool, es: seq<Slot>, bound: Option<int>, qty: int, p: Pick)
    requires !p.Priced?
    ensures
      var s := Sort(Before(bids), es);
      && Units(es, p) == Units(Sweep(bids, s, bound, qty).left, p) + Made(Matches(bids, s, bound, qty), p)
      && Made(Matches(bids, s, bound, qty), Everything) == Sweep(bids, s, bound, qty).executed
  {
    SortFacts(bids, es);
    UnitsPermuted(Sort(Before(bids), es), es, p);
    MatchesAreLosses(bids, Sort(Before(bids), es), bound, qty, p);
  }

  lemma RestedUnits(es: seq<Slot>, e: Slot, p: Pick)
    requires !p.Priced?
    ensures Units(es + [e], p) == Units(es, p) + (if Concerns(p, e.id) then e.remaining else 0)
  {
    UnitsConcat(es, [e], p);
  }

  ghost predicate Balanced(m: Engine, m': Engine, f: Flow, bids: bool, p: Pick) {
    Units(Resting(m, bids), p) + f.issued == f.taken + f.made + f.withdrawn + Units(Resting(m', bids), p)
  }

  lemma LimitBalances(m: Engine, o: Order, bids: bool, p: Pick)
    requires !p.Priced? && o.kind.Limit? && GoodLimit(o) && Sound(m)
    ensures Balanced(m, Step(m, o).0, StepFlow(m, o, bids, p), bids, p)
  {
    var against := !o.side.Buy?;
    var es := Resting(m, against);
    if bids == against {
      SweptUnits(bids, es, Some(o.price), o.quantity, p);
    } else {
      var r := Sweep(against, Sort(Before(against), es), Some(o.price), o.quantity);
      SweptSide(against, es, Some(o.price), o.quantity);
      RestedUnits(Resting(m, bids), Entry(o.id, o.side, o.price, o.quantity, o.quantity - r.executed, m.clock + 1), p);
    }
  }

  /** One order: nothing is lost and nothing appears. */
  lemma StepBalances(m: Engine, o: Order, bids: bool, p: Pick)
    requires !p.Priced? && Sound(m)
    ensures Balanced(m, Step(m, o).0, StepFlow(m, o, bids, p), bids, p)
  {
    if o.id != "" {
      match o.kind
      case Limit =>
        if GoodLimit(o) { LimitBalances(m, o, bids, p); }
      case Market =>
        if o.quantity > 0 && o.side.Buy? != bids { SweptUnits(bids, Resting(m, bids), None, o.quantity, p); }
      case Cancel => RemovalWithdraws(Resting(m, bids), o.id, p);
      case UnknownKind(_) =>
    }
  }

  lemma {:induction false} RunBalances(m: Engine, os: seq<Order>, bids: bool, p: Pick)
    requires !p.Priced? && Sound(m)
    ensures Balanced(m, Replay(m, os).0, RunFlow(m, os, bids, p), bids, p)
    decreases |os|
  {
    if os != [] {
      StepBalances(m, os[0], bids, p);
      StepKeepsSound(m, os[0]);
      RunBalances(Step(m, os[0]).0, os[1..], bids, p);
    }
  }

  /** The ledger of one id over a whole run, on each side: what its accepted limits asked for is
      what they executed on arrival, what others executed against them, what cancels withdrew, and
      what still rests. */
  lemma OrderLedger(os: seq<Order>, bids: bool, id: string)
    ensures
      var f := RunFlow(EMPTY_ENGINE, os, bids, Named(id));
      f.issued == f.taken + f.made + f.withdrawn + Units(Resting(Replay(EMPTY_ENGINE, os).0, bids), Named(id))
  {
    RunBalances(EMPTY_ENGINE, os, bids, Named(id));
  }

  lemma StepIssues(m: Engine, o: Order, bids: bool, id: string)
    requires o.kind.Limit? ==> o.id != id
    ensures StepFlow(m, o, bids, Named(id)).issued == 0 && StepFlow(m, o, bids, Named(id)).taken == 0
  {
  }

  lemma RunFlowStep(m: Engine, os: seq<Order>, bids: bool, p: Pick)
    requires os != []
    ensures RunFlow(m, os, bids, p) == Add(StepFlow(m, os[0], bids, p), RunFlow(Step(m, os[0]).0, os[1..], bids, p))
  {
  }

  lemma AddsNothing(f: Flow, g: Flow)
    requires f.issued == 0 && f.taken == 0 && g.issued == 0 && g.taken == 0
    ensures Add(f, g).issued == 0 && Add(f, g).taken == 0
  {
  }

  lemma {:induction false} NothingIssued(m: Engine, os: seq<Order>, bids: bool, id: string)
    requires forall i :: 0 <= i < |os| && os[i].kind.Limit? ==> os[i].id != id
    ensures RunFlow(m, os, bids, Named(id)).issued == 0 && RunFlow(m, os, bids, Named(id)).taken == 0
    decreases |os|
  {
    if os != [] {
      var m1 := Step(m, os[0]).0;
      StepIssues(m, os[0], bids, id);
      assert forall i :: 0 <= i < |os[1..]| ==> os[1..][i] == os[i + 1];
      NothingIssued(m1, os[1..], bids, id);
      RunFlowStep(m, os, bids, Named(id));
      AddsNothing(StepFlow(m, os[0], bids, Named(id)), RunFlow(m1, os[1..], bids, Named(id)));
    }
  }

  /** With fresh ids the flow of an accepted limit's id is that limit's own. */
  lemma {:induction false} FlowOfLimit(m: Engine, os: seq<Order>, k: nat)
    requires FreshLimitIds(os) && k < |os| && GoodLimit(os[k])
    ensures
      var f := RunFlow(m, os, os[k].side.Buy?, Named(os[k].id));
      var r := Replay(m, os).1[k];
      r.Ok? && f.issued == os[k].quantity && f.taken == r.value.executedQty
    decreases |os|
  {
    var m1, rest, o := Step(m, os[0]).0, os[1..], os[k];
    forall i, j | 0 <= i < j < |rest| && rest[i].kind.Limit? && rest[j].kind.Limit? ensures rest[i].id != rest[j].id {
      assert rest[i] == os[i + 1] && rest[j] == os[j + 1];
    }
    if k == 0 {
      forall i | 0 <= i < |rest| && rest[i].kind.Limit? ensures rest[i].id != o.id { assert rest[i] == os[i + 1]; }
      NothingIssued(m1, rest, o.side.Buy?, o.id);
    } else {
      assert os[0].kind.Limit? ==> os[0].id != os[k].id;
      FlowOfLimit(m1, rest, k - 1);
    }
  }

  /** With fresh ids every accepted limit's quantity is what its own fill reports, plus what others
      executed against it, plus what a cancel withdrew, plus what of it still rests. */
  lemma LimitLedger(os: seq<Order>, k: nat)
    requires FreshLimitIds(os) && k < |os| && GoodLimit(os[k])
    ensures
      var bids, id := os[k].side.Buy?, os[k].id;
      var (m, fills) := Replay(EMPTY_ENGINE, os);
      var f := RunFlow(EMPTY_ENGINE, os, bids, Named(id));
      && fills[k].Ok?
      && os[k].quantity == fills[k].value.executedQty + f.made + f.withdrawn + Units(Resting(m, bids), Named(id))
  {
    FlowOfLimit(EMPTY_ENGINE, os, k);
    OrderLedger(os, os[k].side.Buy?, os[k].id);
  }

  /** Units executed by orders of the other side than `bids`, as their fills report them. */
  function ReportedAgainst(os: seq<Order>, fills: seq<Result<Fill, OrderError>>, bids: bool): int
    requires |os| == |fills|
  {
    if os == [] then 0
    else
      (if !os[0].kind.Cancel? && os[0].side.Buy? != bids && fills[0].Ok? then fills[0].value.executedQty else 0)
      + ReportedAgainst(os[1..], fills[1..], bids)
  }

  lemma StepReports(m: Engine, o: Order, bids: bool)
    requires Sound(m)
    ensures StepFlow(m, o, bids, Everything).made ==
      if !o.kind.Cancel? && o.side.Buy? != bids && Step(m, o).1.Ok? then Step(m, o).1.value.executedQty else 0
  {
    if o.side.Buy? != bids {
      SweptUnits(bids, Resting(m, bids), Some(o.price), o.quantity, Everything);
      SweptUnits(bids, Resting(m, bids), None, o.quantity, Everything);
    }
  }

  /** Units bought are units sold: what takers of one side report having executed is exactly what
      the resting orders of the other side lost to execution. */
  lemma {:induction false} BoughtIsSold(m: Engine, os: seq<Order>, bids: bool)
    requires Sound(m)
    ensures RunFlow(m, os, bids, Everything).made == ReportedAgainst(os, Replay(m, os).1, bids)
    decreases |os|
  {
    if os != [] {
      StepReports(m, os[0], bids);
      StepKeepsSound(m, os[0]);
      BoughtIsSold(Step(m, os[0]).0, os[1..], bids);
      assert Replay(m, os).1[1..] == Replay(Step(m, os[0]).0, os[1..]).1;
    }
  }
}
