/** One submission in progress per team and contest: an ingest reads the store for its guard and saves in
    a second step, so whether the promise is kept depends on what happens in between. */
module Ingests {
  import opened ProfileChain

  ghost predicate OneActive(st: Store) {
    forall a, b :: a in st && b in st && a != b && st[a].team == st[b].team && st[a].contest == st[b].contest ==>
      IsTerminal(st[a].status) || IsTerminal(st[b].status)
  }

  /** The move saves a request whose guard no longer holds. */
  predicate Overtaken(w: World, m: Move) {
    m.Ingest? && Saves(w, m.request, m.part) && !NoActive(w.store, m.request.team, m.request.contest)
  }

  lemma OneActiveEvolves(st: Store, st': Store)
    requires OneActive(st) && StoreEvolves(st, st') && st'.Keys == st.Keys
    ensures OneActive(st')
  {
    forall a, b | a in st' && b in st' && a != b && st'[a].team == st'[b].team && st'[a].contest == st'[b].contest
      ensures IsTerminal(st'[a].status) || IsTerminal(st'[b].status)
    {
      assert Evolves(st[a], st'[a]) && Evolves(st[b], st'[b]);
    }
  }

  /** Saving a new submission keeps one in progress per team and contest if and only if the guard's answer
      still holds at the moment of the save. */
  lemma SaveKeepsOneActive(st: Store, r: Request)
    requires OneActive(st) && r.sid !in st && forall id :: id in st ==> st[id].id == id
    ensures OneActive(Save(st, NewSubmission(r))) <==> NoActive(st, r.team, r.contest)
  {
    var st' := Save(st, NewSubmission(r));
    if !NoActive(st, r.team, r.contest) {
      var id :| id in st && st[id].team == r.team && st[id].contest == r.contest && !IsTerminal(st[id].status);
      assert st'[id] == st[id] && id != r.sid && !IsTerminal(st'[r.sid].status);
    }
  }

  /** Only the save of a request makes a submission. */
  lemma OthersKeepKeys(w: World, m: Move)
    requires Inv(w) && !(m.Ingest? && Saves(w, m.request, m.part))
    ensures Next(w, m).store.Keys == w.store.Keys
  {
    if m.Work? && m.part < |w.parts| {
      assert PartOk(w, m.part);
      AdvanceEvolves(w.store, w.parts[m.part]);
    }
  }

  /** Of all moves only an overtaken save breaks the promise. */
  lemma NextKeepsOneActive(w: World, m: Move)
    requires Inv(w) && OneActive(w.store)
    ensures OneActive(Next(w, m).store) <==> !Overtaken(w, m)
  {
    if m.Ingest? && Saves(w, m.request, m.part) {
      SaveKeepsOneActive(w.store, m.request);
    } else {
      NextKeepsInv(w, m);
      OthersKeepKeys(w, m);
      OneActiveEvolves(w.store, Next(w, m).store);
    }
  }

  /** In every state of the run each team has at most one submission in progress per contest. */
  ghost predicate OneActiveThroughout(w: World, ms: seq<Move>)
    decreases |ms|
  {
    OneActive(w.store) && (ms != [] ==> OneActiveThroughout(Next(w, ms[0]), ms[1..]))
  }

  ghost predicate NoneOvertaken(w: World, ms: seq<Move>)
    decreases |ms|
  {
    ms != [] ==> !Overtaken(w, ms[0]) && NoneOvertaken(Next(w, ms[0]), ms[1..])
  }

  lemma {:induction false} RunKeepsOneActive(w: World, ms: seq<Move>)
    requires Inv(w) && OneActive(w.store)
    ensures OneActiveThroughout(w, ms) <==> NoneOvertaken(w, ms)
    decreases |ms|
  {
    if ms != [] {
      NextKeepsInv(w, ms[0]);
      NextKeepsOneActive(w, ms[0]);
      if !Overtaken(w, ms[0]) { RunKeepsOneActive(Next(w, ms[0]), ms[1..]); }
    }
  }

  /** Whatever crashes and is redelivered, the promise is kept throughout a run if and only if every request
      is saved while its guard still holds. */
  lemma OneActiveIffNoneOvertaken(n: nat, ms: seq<Move>)
    ensures OneActiveThroughout(InitialWorld(n), ms) <==> NoneOvertaken(InitialWorld(n), ms)
  {
    RunKeepsOneActive(InitialWorld(n), ms);
  }

  // ---- What a lock around guard and save would give ----

  predicate Rivals(a: Request, b: Request) {
    a != b && a.team == b.team && a.contest == b.contest
  }

  /** No request is let past the guard while another one of its team and contest is on its way to the save. */
  ghost predicate Exclusive(w: World, ms: seq<Move>)
    decreases |ms|
  {
    ms != [] ==>
      && (ms[0].Admit? ==> forall r :: r in w.admitted ==> !Rivals(r, ms[0].request))
      && Exclusive(Next(w, ms[0]), ms[1..])
  }

  /** Every admitted request would still pass the guard, and none has a rival. */
  ghost predicate GuardsHold(w: World) {
    && (forall r :: r in w.admitted ==> NoActive(w.store, r.team, r.contest))
    && (forall a, b :: a in w.admitted && b in w.admitted ==> !Rivals(a, b))
  }

  lemma NoActiveEvolves(st: Store, st': Store, team: string, contest: string)
    requires NoActive(st, team, contest) && StoreEvolves(st, st') && st'.Keys == st.Keys
    ensures NoActive(st', team, contest)
  {
    forall id | id in st' && st'[id].team == team && st'[id].contest == contest ensures IsTerminal(st'[id].status) {
      assert Evolves(st[id], st'[id]);
    }
  }

  lemma NextKeepsGuards(w: World, m: Move)
    requires Inv(w) && GuardsHold(w)
    requires m.Admit? ==> forall r :: r in w.admitted ==> !Rivals(r, m.request)
    ensures GuardsHold(Next(w, m))
  {
    var w' := Next(w, m);
    if !(m.Ingest? && Saves(w, m.request, m.part)) {
      NextKeepsInv(w, m);
      OthersKeepKeys(w, m);
      forall r | r in w'.admitted ensures NoActive(w'.store, r.team, r.contest) {
        if r in w.admitted { NoActiveEvolves(w.store, w'.store, r.team, r.contest); }
      }
    }
  }

  lemma {:induction false} ExclusiveIsNotOvertaken(w: World, ms: seq<Move>)
    requires Inv(w) && GuardsHold(w) && Exclusive(w, ms)
    ensures NoneOvertaken(w, ms)
    decreases |ms|
  {
    if ms != [] {
      NextKeepsInv(w, ms[0]);
      NextKeepsGuards(w, ms[0]);
      ExclusiveIsNotOvertaken(Next(w, ms[0]), ms[1..]);
    }
  }

  /** If ingests of one team exclude each other from guard to save, the promise is kept on every run. */
  lemma ExclusiveIngestsKeepOneActive(n: nat, ms: seq<Move>)
    requires Exclusive(InitialWorld(n), ms)
    ensures OneActiveThroughout(InitialWorld(n), ms)
  {
    ExclusiveIsNotOvertaken(InitialWorld(n), ms);
    OneActiveIffNoneOvertaken(n, ms);
  }

  // ---- Without it ----

  function RaceOf(a: Request, b: Request): seq<Move> {
    [Admit(a), Admit(b), Ingest(a, 0), Ingest(b, 0)]
  }

  lemma RunOfFour(w: World, a: Move, b: Move, c: Move, d: Move)
    ensures Run(w, [a, b, c, d]) == Next(Next(Next(Next(w, a), b), c), d)
  {
    var w1 := Next(w, a);
    var w2 := Next(w1, b);
    var w3 := Next(w2, c);
    var w4 := Next(w3, d);
    assert [a, b, c, d][1..] == [b, c, d] && [b, c, d][1..] == [c, d] && [c, d][1..] == [d] && [d][1..] == [];
    assert Run(w4, []) == w4;
    assert Run(w3, [d]) == w4;
    assert Run(w2, [c, d]) == w4;
    assert Run(w1, [b, c, d]) == w4;
  }

  /** A run from the initial world: two ingests of one team both pass the guard before either saves, and the
      team ends with two submissions in progress. */
  lemma IngestsRace(n: nat, a: Request, b: Request)
    requires n > 0 && Rivals(a, b) && a.sid != b.sid
    ensures
      var w := Run(InitialWorld(n), RaceOf(a, b));
      && a.sid in w.store && w.store[a.sid] == NewSubmission(a)
      && b.sid in w.store && w.store[b.sid] == NewSubmission(b)
      && !OneActive(w.store)
  {
    var w := InitialWorld(n);
    RunOfFour(w, Admit(a), Admit(b), Ingest(a, 0), Ingest(b, 0));
    var w2 := Next(Next(w, Admit(a)), Admit(b));
    assert w2 == w.(admitted := {a, b});
    var w3 := Next(w2, Ingest(a, 0));
    var w4 := Next(w3, Ingest(b, 0));
    assert w4.store[a.sid].team == w4.store[b.sid].team && w4.store[a.sid].contest == w4.store[b.sid].contest;
    assert !IsTerminal(w4.store[a.sid].status) && !IsTerminal(w4.store[b.sid].status);
  }
}
