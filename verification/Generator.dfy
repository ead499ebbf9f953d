/** The bots' random order generators, their randomness taken as an arbitrary choice. */
module Generator {
  import opened Orders
  import GoldenEngine
  import PriceTimeBook
  import EngineRuns
  import Cancels

  // ---- Order ids: "<bot>-<number>" ----

  function Digit(n: nat): char
    requires n < 10
  {
    '0' + n as char
  }

  function Decimal(n: nat): (s: string)
    ensures |s| > 0
  {
    if n < 10 then [Digit(n)] else Decimal(n / 10) + [Digit(n % 10)]
  }

  predicate IsDigit(c: char) { '0' <= c <= '9' }

  /** The number a string of digits denotes. */
  function Value(s: string): int {
    if s == [] then 0 else 10 * Value(s[..|s| - 1]) + (s[|s| - 1] as int - '0' as int)
  }

  lemma {:induction false} DecimalDenotes(n: nat)
    ensures Value(Decimal(n)) == n
    ensures forall i :: 0 <= i < |Decimal(n)| ==> IsDigit(Decimal(n)[i])
  {
    if n >= 10 {
      DecimalDenotes(n / 10);
      var s := Decimal(n);
      assert s[..|s| - 1] == Decimal(n / 10);
    } else {
      assert Decimal(n)[..0] == [];
    }
  }

  function Zeros(k: nat): string { seq(k, _ => '0') }

  lemma {:induction false} LeadingZeros(k: nat, s: string)
    ensures Value(Zeros(k) + s) == Value(s)
  {
    var t := Zeros(k) + s;
    if s != [] {
      LeadingZeros(k, s[..|s| - 1]);
      assert t[..|t| - 1] == Zeros(k) + s[..|s| - 1];
    } else if k > 0 {
      LeadingZeros(k - 1, []);
      assert t[..|t| - 1] == Zeros(k - 1) + [];
    } else {
      assert t == [];
    }
  }

  /** Format "%04d". */
  function Padded(n: nat): string {
    var d := Decimal(n);
    Zeros(if |d| < 4 then 4 - |d| else 0) + d
  }

  lemma PaddedDenotes(n: nat)
    ensures Value(Padded(n)) == n
  {
    var d := Decimal(n);
    LeadingZeros(if |d| < 4 then 4 - |d| else 0, d);
    DecimalDenotes(n);
  }

  /** Format "bot-%04d". */
  function BotId(bot: nat): string {
    "bot-" + Padded(bot)
  }

  /** Format "%s-%d". */
  function OrderId(bot: string, n: nat): string {
    bot + "-" + Decimal(n)
  }

  const UNKNOWN_SUFFIX := "-unknown"

  /** The formats, on examples: four digits at least for a bot, none to spare for a number. */
  lemma IdsLookLike()
    ensures BotId(7) == "bot-0007" && BotId(12345) == "bot-12345" && OrderId(BotId(7), 42) == "bot-0007-42"
  {
    assert Decimal(4) == "4" && Decimal(42) == "42" && Decimal(7) == "7";
    assert Decimal(1) == "1" && Decimal(12) == "12" && Decimal(123) == "123" && Decimal(1234) == "1234";
    assert Decimal(12345) == "12345";
    assert Zeros(3) == "000" && Zeros(0) == "";
  }

  lemma BotIdInjective(a: nat, b: nat)
    requires BotId(a) == BotId(b)
    ensures a == b
  {
    assert BotId(a)[4..] == Padded(a) && BotId(b)[4..] == Padded(b);
    PaddedDenotes(a);
    PaddedDenotes(b);
  }

  /** No dash stands behind the last one. */
  lemma LastDash(s: string, p: nat, q: nat)
    requires p < |s| && q < |s| && s[q] == '-'
    requires forall i :: p < i < |s| ==> IsDigit(s[i])
    ensures q <= p
  {
  }

  lemma OrderIdShape(bot: string, n: nat)
    ensures
      var s := OrderId(bot, n);
      && |bot| < |s| && s[..|bot|] == bot && s[|bot|] == '-' && s[|bot| + 1..] == Decimal(n)
      && forall i :: |bot| < i < |s| ==> IsDigit(s[i])
  {
    DecimalDenotes(n);
  }

  /** The dash before the number is the last one, so an id determines its bot and its number. */
  lemma OrderIdInjective(a: string, m: nat, b: string, n: nat)
    requires OrderId(a, m) == OrderId(b, n)
    ensures a == b && m == n
  {
    OrderIdShape(a, m);
    OrderIdShape(b, n);
    LastDash(OrderId(a, m), |a|, |b|);
    LastDash(OrderId(a, m), |b|, |a|);
    DecimalDenotes(m);
    DecimalDenotes(n);
  }

  lemma UnknownIsNoOrderId(a: string, m: nat, b: string, n: nat)
    ensures OrderId(a, m) != OrderId(b, n) + UNKNOWN_SUFFIX
  {
    DecimalDenotes(m);
    var s, t := OrderId(a, m), OrderId(b, n) + UNKNOWN_SUFFIX;
    assert s[|s| - 1] == Decimal(m)[|Decimal(m)| - 1];
    assert t[|t| - 1] == 'n';
  }

  // ---- One generator ----

  /** What the random source decided. `pick` stands for the draw of a pending order. */
  datatype Draw =
    | DrawLimit(side: Side, price: int, quantity: int)
    | DrawMarket(side: Side, quantity: int)
    | DrawCancel(pick: nat)

  const MAX_PENDING := 1000

  datatype Gen = Gen(bot: string, n: nat, pending: seq<string>)

  /** Removal without keeping order: the last element takes the place of the one removed. */
  function SwapRemove<T>(s: seq<T>, i: nat): (r: seq<T>)
    requires i < |s|
    ensures |r| == |s| - 1
  {
    s[i := s[|s| - 1]][..|s| - 1]
  }

  lemma SwapRemoved<T>(s: seq<T>, i: nat)
    requires i < |s|
    ensures multiset(SwapRemove(s, i)) == multiset(s) - multiset{s[i]}
  {
    var n := |s| - 1;
    assert s == s[..i] + [s[i]] + s[i + 1..];
    if i < n {
      var mid := s[i + 1..n];
      assert s[i + 1..] == mid + [s[n]];
      assert SwapRemove(s, i) == s[..i] + [s[n]] + mid;
    } else {
      assert SwapRemove(s, i) == s[..i];
    }
  }

  function Next(g: Gen, d: Draw): (Gen, Order) {
    var id := OrderId(g.bot, g.n + 1);
    match d
    case DrawLimit(side, price, quantity) =>
      (Gen(g.bot, g.n + 1, if |g.pending| < MAX_PENDING then g.pending + [id] else g.pending),
       Order(id, Limit, side, price, quantity))
    case DrawMarket(side, quantity) =>
      (Gen(g.bot, g.n + 1, g.pending), Order(id, Market, side, 0, quantity))
    case DrawCancel(pick) =>
      if |g.pending| > 0 then
        var i := pick % |g.pending|;
        (Gen(g.bot, g.n + 1, SwapRemove(g.pending, i)), Order(g.pending[i], Cancel, UnknownSide(""), 0, 0))
      else
        (Gen(g.bot, g.n + 1, g.pending), Order(id + UNKNOWN_SUFFIX, Cancel, UnknownSide(""), 0, 0))
  }

  function Stream(g: Gen, ds: seq<Draw>): (os: seq<Order>)
    ensures |os| == |ds|
    decreases |ds|
  {
    if ds == [] then [] else [Next(g, ds[0]).1] + Stream(Next(g, ds[0]).0, ds[1..])
  }

  class RandomGenerator {
    const botId: string
    var issued: nat
    var pendingIds: seq<string>

    function State(): Gen
      reads this
    {
      Gen(botId, issued, pendingIds)
    }

    constructor (botId: string)
      ensures State() == Gen(botId, 0, [])
    {
      this.botId, issued, pendingIds := botId, 0, [];
    }

    method NextOrder(d: Draw) returns (o: Order)
      modifies this
      ensures (State(), o) == Next(old(State()), d)
      ensures issued == old(issued) + 1
      ensures match d
              case DrawLimit(side, price, quantity) =>
                && o == Order(OrderId(botId, issued), Limit, side, price, quantity)
                && pendingIds == if |old(pendingIds)| < 1000 then old(pendingIds) + [o.id] else old(pendingIds)
              case DrawMarket(side, quantity) =>
                o == Order(OrderId(botId, issued), Market, side, 0, quantity) && pendingIds == old(pendingIds)
              case DrawCancel(pick) =>
                && o.kind.Cancel?
                && if old(pendingIds) == [] then o.id == OrderId(botId, issued) + "-unknown" && pendingIds == []
                   else
                     && o.id == old(pendingIds)[pick % |old(pendingIds)|]
                     && multiset(pendingIds) == multiset(old(pendingIds)) - multiset{o.id}
    {
      if d.DrawCancel? && pendingIds != [] { SwapRemoved(pendingIds, d.pick % |pendingIds|); }
      issued := issued + 1;
      var id := OrderId(botId, issued);
      match d
      case DrawLimit(side, price, quantity) =>
        if |pendingIds| < MAX_PENDING {
          pendingIds := pendingIds + [id];
        }
        return Order(id, Limit, side, price, quantity);
      case DrawMarket(side, quantity) =>
        return Order(id, Market, side, 0, quantity);
      case DrawCancel(pick) =>
        var target := id + UNKNOWN_SUFFIX;
        if |pendingIds| > 0 {
          var i := pick % |pendingIds|;
          target := pendingIds[i];
          pendingIds := pendingIds[i := pendingIds[|pendingIds| - 1]];
          pendingIds := pendingIds[..|pendingIds| - 1];
        }
        return Order(target, Cancel, UnknownSide(""), 0, 0);
    }
  }

  // ---- Discipline of one generator ----

  ghost predicate Issued(g: Gen, id: string) {
    exists k: nat :: 1 <= k <= g.n && id == OrderId(g.bot, k)
  }

  /** Pending ids are distinct, were issued by this generator, and are at most a thousand. */
  ghost predicate Disciplined(g: Gen) {
    && (forall i, j :: 0 <= i < j < |g.pending| ==> g.pending[i] != g.pending[j])
    && (forall i :: 0 <= i < |g.pending| ==> Issued(g, g.pending[i]))
    && |g.pending| <= MAX_PENDING
  }

  lemma IssuedGrows(g: Gen, id: string)
    ensures Issued(g, id) ==> Issued(g.(n := g.n + 1), id)
    ensures Issued(g.(n := g.n + 1), OrderId(g.bot, g.n + 1))
    ensures !Issued(g, OrderId(g.bot, g.n + 1))
    ensures Issued(g, id) ==> id != OrderId(g.bot, g.n + 1) + UNKNOWN_SUFFIX
  {
    if Issued(g, OrderId(g.bot, g.n + 1)) {
      var k: nat :| 1 <= k <= g.n && OrderId(g.bot, g.n + 1) == OrderId(g.bot, k);
      OrderIdInjective(g.bot, g.n + 1, g.bot, k);
    }
    if Issued(g, id) {
      var k: nat :| 1 <= k <= g.n && id == OrderId(g.bot, k);
      UnknownIsNoOrderId(g.bot, k, g.bot, g.n + 1);
    }
  }

  lemma NextKeepsDiscipline(g: Gen, d: Draw)
    requires Disciplined(g)
    ensures Disciplined(Next(g, d).0)
  {
    var g' := Next(g, d).0;
    forall i | 0 <= i < |g.pending|
      ensures Issued(g.(n := g.n + 1), g.pending[i]) && g.pending[i] != OrderId(g.bot, g.n + 1)
    {
      IssuedGrows(g, g.pending[i]);
    }
    IssuedGrows(g, "");
    forall i | 0 <= i < |g'.pending| ensures Issued(g', g'.pending[i]) {
      assert g'.pending[i] == OrderId(g.bot, g.n + 1) || g'.pending[i] in g.pending;
    }
  }

  /** The generator after a sequence of draws. */
  function After(g: Gen, ds: seq<Draw>): Gen
    decreases |ds|
  {
    if ds == [] then g else After(Next(g, ds[0]).0, ds[1..])
  }

  lemma {:induction false} StreamKeepsDiscipline(g: Gen, ds: seq<Draw>)
    requires Disciplined(g)
    ensures Disciplined(After(g, ds)) && After(g, ds).bot == g.bot && After(g, ds).n == g.n + |ds|
    decreases |ds|
  {
    if ds != [] {
      NextKeepsDiscipline(g, ds[0]);
      StreamKeepsDiscipline(Next(g, ds[0]).0, ds[1..]);
    }
  }

  lemma StreamTail(g: Gen, ds: seq<Draw>, j: nat)
    requires 0 < j < |ds|
    ensures Stream(g, ds)[j] == Stream(Next(g, ds[0]).0, ds[1..])[j - 1]
  {
  }

  /** Orders that are not cancels carry the generator's numbers, one per position. */
  lemma {:induction false} IdsAreNumbered(g: Gen, ds: seq<Draw>, i: nat)
    requires i < |ds| && !Stream(g, ds)[i].kind.Cancel?
    ensures Stream(g, ds)[i].id == OrderId(g.bot, g.n + 1 + i)
    decreases |ds|
  {
    if i > 0 {
      var g1 := Next(g, ds[0]).0;
      StreamTail(g, ds, i);
      IdsAreNumbered(g1, ds[1..], i - 1);
      assert g1.n + 1 + (i - 1) == g.n + 1 + i;
    }
  }

  /** No two limit or market orders of a generator share an id. */
  lemma IdsNeverRepeat(g: Gen, ds: seq<Draw>, i: nat, j: nat)
    requires i < j < |ds|
    requires !Stream(g, ds)[i].kind.Cancel? && !Stream(g, ds)[j].kind.Cancel?
    ensures Stream(g, ds)[i].id != Stream(g, ds)[j].id
  {
    IdsAreNumbered(g, ds, i);
    IdsAreNumbered(g, ds, j);
    if Stream(g, ds)[i].id == Stream(g, ds)[j].id {
      OrderIdInjective(g.bot, g.n + 1 + i, g.bot, g.n + 1 + j);
    }
  }

  /** What a cancel at position `j` may name: an id pending at the start, an earlier limit of the
      stream, or a synthetic id no order ever carries. */
  ghost predicate CancelSource(g: Gen, os: seq<Order>, j: nat)
    requires j < |os|
  {
    || os[j].id in g.pending
    || (exists i :: 0 <= i < j && os[i].kind.Limit? && os[i].id == os[j].id)
    || os[j].id == OrderId(g.bot, g.n + 1 + j) + UNKNOWN_SUFFIX
  }

  /** What a later cancel may name, seen one order earlier. */
  lemma SourceOneEarlier(g: Gen, d: Draw, rest: seq<Order>, j: nat)
    requires j < |rest| && CancelSource(Next(g, d).0, rest, j)
    ensures CancelSource(g, [Next(g, d).1] + rest, j + 1)
  {
    var (g1, o) := Next(g, d);
    var os := [o] + rest;
    assert os[j + 1] == rest[j];
    if rest[j].id in g1.pending {
      if rest[j].id !in g.pending { assert os[0].kind.Limit? && os[0].id == os[j + 1].id; }
    } else if exists i :: 0 <= i < j && rest[i].kind.Limit? && rest[i].id == rest[j].id {
      var i :| 0 <= i < j && rest[i].kind.Limit? && rest[i].id == rest[j].id;
      assert os[i + 1].kind.Limit? && os[i + 1].id == os[j + 1].id;
    }
  }

  lemma {:induction false} CancelsNameIssuedOrders(g: Gen, ds: seq<Draw>, j: nat)
    requires j < |ds| && Stream(g, ds)[j].kind.Cancel?
    ensures CancelSource(g, Stream(g, ds), j)
    decreases |ds|
  {
    if j > 0 {
      StreamTail(g, ds, j);
      CancelsNameIssuedOrders(Next(g, ds[0]).0, ds[1..], j - 1);
      SourceOneEarlier(g, ds[0], Stream(Next(g, ds[0]).0, ds[1..]), j - 1);
    }
  }

  lemma CancelledIsNotPending(g: Gen, d: Draw)
    requires Disciplined(g) && d.DrawCancel?
    ensures Next(g, d).1.id !in Next(g, d).0.pending
    ensures Issued(g, Next(g, d).1.id) || Next(g, d).1.id == OrderId(g.bot, g.n + 1) + UNKNOWN_SUFFIX
  {
    forall i | 0 <= i < |g.pending| { IssuedGrows(g, g.pending[i]); }
  }

  /** No later cancel names what the first draw cancelled. */
  lemma FirstCancelDiffers(g: Gen, ds: seq<Draw>, j: nat)
    requires Disciplined(g) && ds != [] && ds[0].DrawCancel? && j < |ds[1..]|
    requires Stream(Next(g, ds[0]).0, ds[1..])[j].kind.Cancel?
    ensures Next(g, ds[0]).1.id != Stream(Next(g, ds[0]).0, ds[1..])[j].id
  {
    CancelsNameIssuedOrders(Next(g, ds[0]).0, ds[1..], j);
    LaterCancelDiffers(g, ds, j + 1);
  }

  ghost predicate CancelsDiffer(os: seq<Order>) {
    forall i, j :: 0 <= i < j < |os| && os[i].kind.Cancel? && os[j].kind.Cancel? ==> os[i].id != os[j].id
  }

  lemma CancelsDifferCons(o: Order, os: seq<Order>)
    requires CancelsDiffer(os)
    requires o.kind.Cancel? ==> forall j :: 0 <= j < |os| && os[j].kind.Cancel? ==> o.id != os[j].id
    ensures CancelsDiffer([o] + os)
  {
    var all := [o] + os;
    forall i | 0 < i < |all| ensures all[i] == os[i - 1] {}
  }

  /** No id is cancelled twice. */
  lemma {:induction false} CancelledAtMostOnce(g: Gen, ds: seq<Draw>)
    requires Disciplined(g)
    ensures CancelsDiffer(Stream(g, ds))
    decreases |ds|
  {
    if ds != [] {
      var (g1, o) := Next(g, ds[0]);
      var rest := Stream(g1, ds[1..]);
      NextKeepsDiscipline(g, ds[0]);
      CancelledAtMostOnce(g1, ds[1..]);
      if o.kind.Cancel? {
        forall j | 0 <= j < |rest| && rest[j].kind.Cancel? ensures o.id != rest[j].id { FirstCancelDiffers(g, ds, j); }
      }
      CancelsDifferCons(o, rest);
    }
  }

  /** A limit of the later stream does not carry the id that was cancelled. */
  lemma LaterLimitDiffers(g: Gen, ds: seq<Draw>, i: nat)
    requires Disciplined(g) && i + 1 < |ds| && ds[0].DrawCancel?
    requires !Stream(Next(g, ds[0]).0, ds[1..])[i].kind.Cancel?
    ensures Stream(Next(g, ds[0]).0, ds[1..])[i].id != Next(g, ds[0]).1.id
  {
    CancelledIsNotPending(g, ds[0]);
    IdsAreNumbered(Next(g, ds[0]).0, ds[1..], i);
    NotIssuedYet(g, Next(g, ds[0]).1.id, i + 2);
  }

  /** A cancel whose id is not pending any more names nothing a later cancel can name. */
  lemma LaterCancelDiffers(g: Gen, ds: seq<Draw>, j: nat)
    requires Disciplined(g) && 0 < j < |ds|
    requires ds[0].DrawCancel?
    requires CancelSource(Next(g, ds[0]).0, Stream(Next(g, ds[0]).0, ds[1..]), j - 1)
    ensures Next(g, ds[0]).1.id != Stream(Next(g, ds[0]).0, ds[1..])[j - 1].id
  {
    var (g1, o) := Next(g, ds[0]);
    var rest := Stream(g1, ds[1..]);
    CancelledIsNotPending(g, ds[0]);
    NotIssuedYet(g, o.id, j + 1);
    if exists i :: 0 <= i < j - 1 && rest[i].kind.Limit? && rest[i].id == rest[j - 1].id {
      var i :| 0 <= i < j - 1 && rest[i].kind.Limit? && rest[i].id == rest[j - 1].id;
      LaterLimitDiffers(g, ds, i);
    }
  }

  lemma NotIssuedYet(g: Gen, x: string, k: nat)
    requires k > 1
    requires Issued(g, x) || x == OrderId(g.bot, g.n + 1) + UNKNOWN_SUFFIX
    ensures x != OrderId(g.bot, g.n + k) && x != OrderId(g.bot, g.n + k) + UNKNOWN_SUFFIX
  {
    if Issued(g, x) {
      var m: nat :| 1 <= m <= g.n && x == OrderId(g.bot, m);
      UnknownIsNoOrderId(g.bot, m, g.bot, g.n + k);
      if x == OrderId(g.bot, g.n + k) { OrderIdInjective(g.bot, m, g.bot, g.n + k); }
    } else {
      UnknownIsNoOrderId(g.bot, g.n + k, g.bot, g.n + 1);
      var a, b := OrderId(g.bot, g.n + 1), OrderId(g.bot, g.n + k);
      if a + UNKNOWN_SUFFIX == b + UNKNOWN_SUFFIX {
        assert (a + UNKNOWN_SUFFIX)[..|a|] == a && (b + UNKNOWN_SUFFIX)[..|b|] == b;
        OrderIdInjective(g.bot, g.n + 1, g.bot, g.n + k);
      }
    }
  }

  /** A new generator's stream, all its promises at once. */
  lemma GeneratorDiscipline(bot: string, ds: seq<Draw>)
    ensures
      var os := Stream(Gen(bot, 0, []), ds);
      && (forall i, j :: 0 <= i < j < |os| && !os[i].kind.Cancel? && !os[j].kind.Cancel? ==> os[i].id != os[j].id)
      && CancelsDiffer(os)
      && (forall j :: 0 <= j < |os| && os[j].kind.Cancel? ==> CancelSource(Gen(bot, 0, []), os, j))
      && (forall k :: 0 <= k <= |ds| ==> Disciplined(After(Gen(bot, 0, []), ds[..k])))
  {
    var g := Gen(bot, 0, []);
    var os := Stream(g, ds);
    forall i, j | 0 <= i < j < |os| && !os[i].kind.Cancel? && !os[j].kind.Cancel? ensures os[i].id != os[j].id {
      IdsNeverRepeat(g, ds, i, j);
    }
    CancelledAtMostOnce(g, ds);
    forall j | 0 <= j < |os| && os[j].kind.Cancel? ensures CancelSource(g, os, j) {
      CancelsNameIssuedOrders(g, ds, j);
    }
    forall k | 0 <= k <= |ds| ensures Disciplined(After(g, ds[..k])) { StreamKeepsDiscipline(g, ds[..k]); }
  }

  // ---- A whole fleet ----

  /** One bot's part of a fleet run. */
  datatype BotRun = BotRun(bot: nat, draws: seq<Draw>)

  /** All results of a fleet, bot after bot in the order in which the bots happened to finish. */
  function FleetOrders(runs: seq<BotRun>): seq<Order> {
    if runs == [] then []
    else Stream(Gen(BotId(runs[0].bot), 0, []), runs[0].draws) + FleetOrders(runs[1..])
  }

  lemma {:induction false} FleetIds(runs: seq<BotRun>, x: nat)
    requires x < |FleetOrders(runs)| && !FleetOrders(runs)[x].kind.Cancel?
    ensures exists r, k: nat :: 0 <= r < |runs| && FleetOrders(runs)[x].id == OrderId(BotId(runs[r].bot), k)
    decreases |runs|
  {
    var g := Gen(BotId(runs[0].bot), 0, []);
    var head := Stream(g, runs[0].draws);
    if x < |head| {
      IdsAreNumbered(g, runs[0].draws, x);
      assert FleetOrders(runs)[x].id == OrderId(BotId(runs[0].bot), 1 + x);
    } else {
      FleetIds(runs[1..], x - |head|);
      var r, k: nat :|
        0 <= r < |runs[1..]| && FleetOrders(runs[1..])[x - |head|].id == OrderId(BotId(runs[1..][r].bot), k);
      assert FleetOrders(runs)[x].id == OrderId(BotId(runs[r + 1].bot), k);
    }
  }

  /** Whatever the bots draw and in whatever order they finish, the golden book is fed fresh ids. */
  lemma {:induction false} FleetIdsAreFresh(runs: seq<BotRun>)
    requires forall a, b :: 0 <= a < b < |runs| ==> runs[a].bot != runs[b].bot
    ensures FreshLimitIds(FleetOrders(runs))
  {
    if runs != [] {
      var g := Gen(BotId(runs[0].bot), 0, []);
      var head, tail, os := Stream(g, runs[0].draws), FleetOrders(runs[1..]), FleetOrders(runs);
      FleetIdsAreFresh(runs[1..]);
      forall x, y | 0 <= x < y < |os| && os[x].kind.Limit? && os[y].kind.Limit? ensures os[x].id != os[y].id {
        if y < |head| {
          IdsNeverRepeat(g, runs[0].draws, x, y);
        } else if x < |head| {
          IdsAreNumbered(g, runs[0].draws, x);
          FleetIds(runs[1..], y - |head|);
          var r, k: nat :| 0 <= r < |runs[1..]| && tail[y - |head|].id == OrderId(BotId(runs[1..][r].bot), k);
          if os[x].id == os[y].id {
            OrderIdInjective(BotId(runs[0].bot), 1 + x, BotId(runs[r + 1].bot), k);
            BotIdInjective(runs[0].bot, runs[r + 1].bot);
          }
        } else {
          assert os[x] == tail[x - |head|] && os[y] == tail[y - |head|];
        }
      }
    }
  }

  /** Hence on every fleet run the golden fills are those of the price-time book. */
  lemma FleetFillsArePriceTime(runs: seq<BotRun>)
    requires forall a, b :: 0 <= a < b < |runs| ==> runs[a].bot != runs[b].bot
    ensures GoldenEngine.Replay(GoldenEngine.EMPTY_ENGINE, FleetOrders(runs)).1
         == PriceTimeBook.Run(EngineRuns.EMPTY_BOOK, FleetOrders(runs)).1
  {
    FleetIdsAreFresh(runs);
    EngineRuns.GoldenFillsArePriceTime(FleetOrders(runs));
  }

  /** And in every state along it, a cancel is answered by whether its order rests, and leaves nothing. */
  lemma FleetCancelsWork(runs: seq<BotRun>)
    requires forall a, b :: 0 <= a < b < |runs| ==> runs[a].bot != runs[b].bot
    ensures Cancels.CancelsWorkThroughout(GoldenEngine.EMPTY_ENGINE, FleetOrders(runs))
  {
    FleetIdsAreFresh(runs);
    EngineRuns.EmptyEngine();
    Cancels.FreshIsClashFree(GoldenEngine.EMPTY_ENGINE, FleetOrders(runs));
    Cancels.CancelsWorkIffNoReuse(FleetOrders(runs));
  }
}
