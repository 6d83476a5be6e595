/** What holds when requests are served one at a time and fails when they overlap: one basket for each user, and
    a placed order keeping its lines. For each, the exact steps at which it fails. */
module Races {
  import opened Collections
  import opened Schema
  import opened Machine
  import opened Requests
  import opened Serial
  import opened OrderLife
  import opened Interleaving
  import B = BasketTheorems

  /** Job `j` has a statement to issue. */
  predicate Ready(w: World, e: Event) { e.Tick? && e.j < |w.jobs| && w.jobs[e.j].todo != [] && !w.jobs[e.j].failed }

  /** The world after `n` of the events. */
  ghost function WorldAt(w: World, events: seq<Event>, n: nat): World
    requires n <= |events|
  {
    Play(w, events[..n])
  }

  lemma {:induction false} PlayConcat(w: World, a: seq<Event>, b: seq<Event>)
    ensures Play(w, a + b) == Play(Play(w, a), b)
    decreases |a|
  {
    if a == [] {
      assert a + b == b;
    } else {
      assert (a + b)[0] == a[0] && (a + b)[1..] == a[1..] + b;
      PlayConcat(Next(w, a[0]), a[1..], b);
    }
  }

  lemma PlayTwo(w: World, a: Event, b: Event)
    ensures Play(w, [a]) == Next(w, a)
    ensures Play(w, [a, b]) == Next(Next(w, a), b)
  {
    assert [a][1..] == [] && [a, b][1..] == [b] && [b][1..] == [];
    assert Play(Next(w, a), [b]) == Play(Next(Next(w, a), b), []);
  }

  lemma PlayNext(w: World, events: seq<Event>, n: nat)
    requires n < |events|
    ensures WorldAt(w, events, n + 1) == Next(WorldAt(w, events, n), events[n])
  {
    var last := [events[n]];
    assert events[..n + 1] == events[..n] + last && last[1..] == [];
    PlayConcat(w, events[..n], last);
    assert Play(WorldAt(w, events, n), last) == Play(Next(WorldAt(w, events, n), last[0]), last[1..]);
  }

  /* One basket for each user. */

  /** A job that saw no basket is about to make one, and its user has one by now. */
  predicate StaleOpen(w: World, e: Event) {
    Ready(w, e) && var job := w.jobs[e.j];
    && job.todo[0].EnsureBasket? && job.vars.basket == Absent(job.todo[0].user)
    && job.todo[0].user in w.db.users && BasketsOf(w.db.orders, job.todo[0].user) != {}
  }

  lemma OpeningKeepsOneBasket(c: Run, user: Id)
    requires OrdersSound(c.db.orders, c.db.next.order, c.db.users, c.db.contacts) && BasketsUnique(c.db.orders)
    ensures BasketsUnique(StepEnsureBasket(c, user).db.orders)
            <==> !(c.vars.basket == Absent(user) && user in c.db.users && BasketsOf(c.db.orders, user) != {})
  {
    var d, n := StepEnsureBasket(c, user), c.db.next.order;
    if c.vars.basket == Absent(user) && user in c.db.users {
      assert d.db.orders == c.db.orders[n := Order(user, Basket, None)];
      if x :| x in BasketsOf(c.db.orders, user) {
        assert {x, n} <= BasketsOf(d.db.orders, user) && x != n;
        assert BasketsOf(d.db.orders, user) != {n};
        assert d.db.orders[n].status == Basket && d.db.orders[n].user == user;
      } else {
        UniqueBasketInsert(c.db.orders, n, user);
      }
    } else {
      assert d.db == c.db;
    }
  }

  lemma PlacingKeepsOneBasket(c: Run, contact: Option<Id>)
    requires BasketsUnique(c.db.orders)
    ensures BasketsUnique(StepPlaceOrder(c, contact).db.orders)
  {
    FewerBaskets(c.db.orders, StepPlaceOrder(c, contact).db.orders);
  }

  lemma RemovingKeepsOneBasket(c: Run, user: Id, ids: seq<int>)
    requires BasketsUnique(c.db.orders)
    ensures BasketsUnique(StepRemoveContacts(c, user, ids).db.orders)
  {
    FewerBaskets(c.db.orders, StepRemoveContacts(c, user, ids).db.orders);
  }

  lemma StepKeepsOneBasket(c: Run, s: Stmt)
    requires BasketsUnique(c.db.orders) && !s.EnsureBasket? && !c.failed
    ensures BasketsUnique(Step(c, s).db.orders)
  {
    if s.PlaceOrder? {
      PlacingKeepsOneBasket(c, s.contact);
    } else if s.RemoveContacts? {
      RemovingKeepsOneBasket(c, s.user, s.ids);
    } else {
      StepFramed(c, s);
    }
  }

  /** The one step that can give a user a second basket, and it always does. */
  lemma SecondBasketExactlyWhenStale(w: World, e: Event)
    requires Integrity(w.db) && BasketsUnique(w.db.orders)
    ensures BasketsUnique(Next(w, e).db.orders) <==> !StaleOpen(w, e)
  {
    if Ready(w, e) {
      var c, s := RunOf(w, w.jobs[e.j]), w.jobs[e.j].todo[0];
      if s.EnsureBasket? { OpeningKeepsOneBasket(c, s.user); } else { StepKeepsOneBasket(c, s); }
    }
  }

  /* A run that reaches such a step. */

  /** The request starts by opening the basket of `user`. */
  predicate Opens(r: Request, user: Id) {
    (r.PostBasket? || r.PutBasket? || (r.DeleteBasket? && r.items != "")) && r.user == user
  }

  lemma OpensFirst(r: Request, user: Id)
    requires Opens(r, user)
    ensures |Program(r)| >= 2 && Program(r)[0] == FindBasket(user) && Program(r)[1] == EnsureBasket(user)
    ensures Program(r) == OpenBasket(user) + Program(r)[2..]
  {
  }

  /** Two overlapping basket requests of a user without a basket, whichever they are, make two; from then on every
      basket request of that user fails and changes nothing. */
  lemma RaceMakesTwoBaskets(w: World, user: Id, i: nat, j: nat, r1: Request, r2: Request)
    requires Integrity(w.db) && user in w.db.users && BasketsOf(w.db.orders, user) == {}
    requires i < |w.jobs| && j < |w.jobs| && i != j && Opens(r1, user) && Opens(r2, user)
    requires w.jobs[i] == NewJob(r1) && w.jobs[j] == NewJob(r2)
    ensures var db := Next(Next(Next(Next(w, Tick(i)), Tick(j)), Tick(i)), Tick(j)).db;
      && Get(BasketsOf(db.orders, user)) == Many
      && forall more | Opens(more, user) :: Serve(db, more).failed && Serve(db, more).db == db
  {
    var w1 := Next(w, Tick(i));
    LooksForBasket(w, i, r1, user);
    var w2 := Next(w1, Tick(j));
    LooksForBasket(w1, j, r2, user);
    var w3 := Next(w2, Tick(i));
    MakesBasket(w2, i, user);
    var w4 := Next(w3, Tick(j));
    MakesBasket(w3, j, user);
    TwoBaskets(w, w4, user);
    forall more | Opens(more, user)
      ensures Serve(w4.db, more).failed && Serve(w4.db, more).db == w4.db
    {
      TwoBasketsFail(w4.db, user, more);
    }
  }

  lemma TwoBaskets(w: World, later: World, user: Id)
    requires w.db.next.order in later.db.orders && w.db.next.order + 1 in later.db.orders
    requires later.db.orders[w.db.next.order] == later.db.orders[w.db.next.order + 1] == Order(user, Basket, None)
    ensures Get(BasketsOf(later.db.orders, user)) == Many
  {
    assert {w.db.next.order, w.db.next.order + 1} <= BasketsOf(later.db.orders, user);
  }

  lemma LooksForBasket(w: World, i: nat, r: Request, user: Id)
    requires Opens(r, user) && BasketsOf(w.db.orders, user) == {} && i < |w.jobs| && w.jobs[i] == NewJob(r)
    ensures Next(w, Tick(i)) ==
            w.(jobs := w.jobs[i := Job(r, NO_VARS.(basket := Absent(user)), false, Program(r)[1..])])
    ensures Program(r)[1..] != [] && Program(r)[1..][0] == EnsureBasket(user)
  {
    OpensFirst(r, user);
    assert StepFindBasket(Begin(w.db), user) == Run(w.db, NO_VARS.(basket := Absent(user)), false);
  }

  lemma MakesBasket(w: World, i: nat, user: Id)
    requires user in w.db.users && i < |w.jobs| && w.jobs[i].todo != [] && w.jobs[i].todo[0] == EnsureBasket(user)
    requires !w.jobs[i].failed && w.jobs[i].vars.basket == Absent(user)
    ensures var next := Next(w, Tick(i));
      && next.db == w.db.(orders := w.db.orders[w.db.next.order := Order(user, Basket, None)],
                          next := w.db.next.(order := w.db.next.order + 1))
      && |next.jobs| == |w.jobs| && forall k | 0 <= k < |w.jobs| && k != i :: next.jobs[k] == w.jobs[k]
  {
    var c := RunOf(w, w.jobs[i]);
    assert Step(c, w.jobs[i].todo[0]) == StepEnsureBasket(c, user);
  }

  lemma TwoBasketsFail(db: Db, user: Id, r: Request)
    requires Get(BasketsOf(db.orders, user)) == Many && Opens(r, user)
    ensures Serve(db, r).failed && Serve(db, r).db == db
  {
    OpensFirst(r, user);
    ExecConcat(Begin(db), OpenBasket(user), Program(r)[2..]);
    ExecTwo(Begin(db), FindBasket(user), EnsureBasket(user));
    ExecFailed(Fail(Begin(db)), Program(r)[2..]);
  }

  /** The input, from the empty store: two basket requests of one user arrive and take turns. */
  lemma EmptyStoreReachesTwoBaskets(users: map<Id, User>, user: Id, r1: Request, r2: Request)
    requires user in users && Opens(r1, user) && Opens(r2, user)
    ensures var w := Play(Start(users), [Receive(r1), Receive(r2)]);
      Get(BasketsOf(Next(Next(Next(Next(w, Tick(0)), Tick(1)), Tick(0)), Tick(1)).db.orders, user)) == Many
  {
    BothArrive(users, r1, r2);
    RaceMakesTwoBaskets(Play(Start(users), [Receive(r1), Receive(r2)]), user, 0, 1, r1, r2);
  }

  lemma BothArrive(users: map<Id, User>, r1: Request, r2: Request)
    requires !r1.ImportPriceList? && !r2.ImportPriceList?
    ensures Play(Start(users), [Receive(r1), Receive(r2)]) == World(Empty(users), [], [NewJob(r1), NewJob(r2)])
  {
    PlayTwo(Start(users), Receive(r1), Receive(r2));
  }

  /* The lines of a placed order. */

  /** No line of order `o` is gained or changed, and one goes only with its ProductInfo or its order. */
  ghost predicate LinesHeld(a: Db, b: Db, o: Id) {
    && (forall i | i in b.items && b.items[i].order == o :: i in a.items && b.items[i] == a.items[i])
    && (forall i | i in a.items && a.items[i].order == o && i !in b.items ::
          a.items[i].info !in b.infos || o !in b.orders)
  }

  /** A job still takes order `o` for its basket, and its next statement will do something to the lines of it. */
  predicate StaleLine(w: World, e: Event, o: Id) {
    Ready(w, e) && w.jobs[e.j].vars.basket == At(o) && LineChange(w.db, w.jobs[e.j].todo[0], o)
  }

  predicate LineChange(db: Db, s: Stmt, o: Id) {
    match s
    case AddLine(entry) => B.Good(db, entry)
    case SetLine(item, quantity) =>
      BigInt(item) && B.InBasket(db, o, item) && Positive(quantity) && db.items[item].quantity != quantity
    case RemoveLines(ids) => exists i | i in db.items :: db.items[i].order == o && i in ids
    case _ => false
  }

  lemma AddLineHolds(c: Run, e: Entry, o: Id)
    requires Integrity(c.db) && Placed(c.db.orders, o)
    ensures LinesHeld(c.db, StepAddLine(c, e).db, o) <==> !(c.vars.basket == At(o) && B.Good(c.db, e))
  {
    var d, n := StepAddLine(c, e), c.db.next.item;
    if c.vars.basket == At(o) && B.Good(c.db, e) {
      assert d.db.items == c.db.items[n := B.RowFor(c.db, o, e)] && n !in c.db.items;
    }
  }

  lemma SetLineHolds(c: Run, item: int, quantity: int, o: Id)
    requires Integrity(c.db) && Placed(c.db.orders, o)
    ensures LinesHeld(c.db, StepSetLine(c, item, quantity).db, o)
            <==> !(c.vars.basket == At(o) && LineChange(c.db, SetLine(item, quantity), o))
  {
    if c.vars.basket == At(o) && LineChange(c.db, SetLine(item, quantity), o) {
      StaleSetLineChanges(c, item, quantity, o);
    } else {
      OtherSetLineHolds(c, item, quantity, o);
    }
  }

  lemma OtherSetLineHolds(c: Run, item: int, quantity: int, o: Id)
    requires !(c.vars.basket == At(o) && LineChange(c.db, SetLine(item, quantity), o))
    ensures LinesHeld(c.db, StepSetLine(c, item, quantity).db, o)
  {
    var d := StepSetLine(c, item, quantity);
    if c.vars.basket.At? && BigInt(item) && B.InBasket(c.db, c.vars.basket.id, item) && Positive(quantity) {
      var i: Id := item;
      assert d.db.items == c.db.items[i := c.db.items[i].(quantity := quantity)];
    } else {
      assert d.db == c.db;
    }
  }

  lemma StaleSetLineChanges(c: Run, item: Id, quantity: int, o: Id)
    requires c.vars.basket == At(o) && LineChange(c.db, SetLine(item, quantity), o)
    ensures !LinesHeld(c.db, StepSetLine(c, item, quantity).db, o)
  {
    var d := StepSetLine(c, item, quantity);
    assert d.db.items == c.db.items[item := c.db.items[item].(quantity := quantity)];
    assert d.db.items[item].order == o && d.db.items[item] != c.db.items[item];
  }

  lemma RemoveLinesHolds(c: Run, ids: seq<int>, o: Id)
    requires Integrity(c.db) && Placed(c.db.orders, o)
    ensures LinesHeld(c.db, StepRemoveLines(c, ids).db, o)
            <==> !(c.vars.basket == At(o) && LineChange(c.db, RemoveLines(ids), o))
  {
    var d := StepRemoveLines(c, ids);
    if c.vars.basket == At(o) && LineChange(c.db, RemoveLines(ids), o) {
      var i :| i in c.db.items && c.db.items[i].order == o && i in ids;
      assert i !in d.db.items && c.db.items[i].info in d.db.infos;
    }
  }

  /** Cascades take lines only together with what they refer to. */
  lemma CascadeHolds(c: Run, s: Stmt, o: Id)
    requires s.ClearShop? || s.RemoveProduct? || s.RemoveContacts?
    ensures LinesHeld(c.db, Step(c, s).db, o)
  {
    match s
    case ClearShop =>
    case RemoveProduct(_) =>
    case RemoveContacts(_, _) =>
  }

  lemma LineStepHolds(c: Run, s: Stmt, o: Id)
    requires Integrity(c.db) && Placed(c.db.orders, o) && !c.failed && (s.AddLine? || s.SetLine? || s.RemoveLines?)
    ensures LinesHeld(c.db, Step(c, s).db, o) <==> !(c.vars.basket == At(o) && LineChange(c.db, s, o))
  {
    match s
    case AddLine(e) => AddLineHolds(c, e, o);
    case SetLine(item, quantity) => SetLineHolds(c, item, quantity, o);
    case RemoveLines(ids) => RemoveLinesHolds(c, ids, o);
  }

  lemma OtherStepHolds(c: Run, s: Stmt, o: Id)
    requires Integrity(c.db) && !s.AddLine? && !s.SetLine? && !s.RemoveLines?
    ensures LinesHeld(c.db, Step(c, s).db, o)
  {
    if s.ClearShop? || s.RemoveProduct? || s.RemoveContacts? {
      CascadeHolds(c, s, o);
    } else {
      StepFramed(c, s);
      SameLinesHeld(c.db, Step(c, s).db, o);
    }
  }

  lemma SameLinesHeld(a: Db, b: Db, o: Id)
    requires b.items == a.items
    ensures LinesHeld(a, b, o)
  {
  }

  /** The steps that touch the lines of a placed order, other than by a cascade, are exactly those of a job that
      still takes it for its basket. */
  lemma LinesChangeExactlyWhenStale(w: World, e: Event, o: Id)
    requires Integrity(w.db) && Placed(w.db.orders, o)
    ensures LinesHeld(w.db, Next(w, e).db, o) <==> !StaleLine(w, e, o)
  {
    if Ready(w, e) {
      var c, s := RunOf(w, w.jobs[e.j]), w.jobs[e.j].todo[0];
      if s.AddLine? || s.SetLine? || s.RemoveLines? { LineStepHolds(c, s, o); } else { OtherStepHolds(c, s, o); }
    }
  }

  /** Event `n` leaves the lines of order `o` alone, if it is placed by then. */
  ghost predicate HeldAt(w: World, events: seq<Event>, n: nat, o: Id)
    requires n < |events|
  {
    Placed(WorldAt(w, events, n).db.orders, o)
    ==> LinesHeld(WorldAt(w, events, n).db, WorldAt(w, events, n + 1).db, o)
  }

  /** Event `n` is a job working in order `o` as its basket, though it is placed by then. */
  ghost predicate StaleAt(w: World, events: seq<Event>, n: nat, o: Id)
    requires n < |events|
  {
    Placed(WorldAt(w, events, n).db.orders, o) && StaleLine(WorldAt(w, events, n), events[n], o)
  }

  /** Over a whole run with any interleaving: an order, while it is placed, keeps its lines if and only if no job works
      in it as its basket. */
  lemma LinesHeldExactlyWithoutStaleLines(w: World, events: seq<Event>, o: Id)
    requires Integrity(w.db)
    ensures (forall n | 0 <= n < |events| :: HeldAt(w, events, n, o))
            <==> forall n | 0 <= n < |events| :: !StaleAt(w, events, n, o)
  {
    forall n | 0 <= n < |events|
      ensures HeldAt(w, events, n, o) <==> !StaleAt(w, events, n, o)
    {
      PlayNext(w, events, n);
      IntegrityUnderInterleaving(w, events[..n]);
      if Placed(WorldAt(w, events, n).db.orders, o) {
        LinesChangeExactlyWhenStale(WorldAt(w, events, n), events[n], o);
      }
    }
  }

  /* A run that reaches such a step. */

  /** Whenever a user with basket `b` sends a line and places the order at once, the line can land in the order after
      it was placed. */
  lemma RaceGrowsPlacedOrder(w: World, user: Id, b: Id, e: Entry, i: nat, j: nat) returns (placed: World, later: World)
    requires Integrity(w.db) && BasketsOf(w.db.orders, user) == {b} && B.Good(w.db, e)
    requires i < |w.jobs| && j < |w.jobs| && i != j
    requires w.jobs[i] == NewJob(PostBasket(user, [e])) && w.jobs[j] == NewJob(PostOrder(user, Given(b), NoContact))
    ensures placed == Next(Next(Next(Next(w, Tick(i)), Tick(i)), Tick(j)), Tick(j)) && later == Next(placed, Tick(i))
    ensures Placed(placed.db.orders, b) && placed.db.items == w.db.items
    ensures later.db.orders == placed.db.orders && later.db.items == w.db.items[w.db.next.item := B.RowFor(w.db, b, e)]
  {
    assert b in BasketsOf(w.db.orders, user);
    var open := Next(Next(w, Tick(i)), Tick(i));
    FindsItsBasket(w, i, user, b, e);
    placed := Next(Next(open, Tick(j)), Tick(j));
    PlacesOrder(open, j, user, b);
    later := Next(placed, Tick(i));
    AddsLate(placed, i, b, e);
  }

  lemma AddsLate(w: World, i: nat, b: Id, e: Entry)
    requires i < |w.jobs| && w.jobs[i].todo == [AddLine(e)] && !w.jobs[i].failed && w.jobs[i].vars.basket == At(b)
    requires B.Good(w.db, e) && b in w.db.orders
    ensures var later := Next(w, Tick(i));
      later.db.orders == w.db.orders && later.db.items == w.db.items[w.db.next.item := B.RowFor(w.db, b, e)]
  {
    var c := RunOf(w, w.jobs[i]);
    assert Step(c, AddLine(e)) == StepAddLine(c, e);
  }

  lemma FindsItsBasket(w: World, i: nat, user: Id, b: Id, e: Entry)
    requires BasketsOf(w.db.orders, user) == {b} && i < |w.jobs| && w.jobs[i] == NewJob(PostBasket(user, [e]))
    ensures Next(Next(w, Tick(i)), Tick(i)) ==
            w.(jobs := w.jobs[i := Job(PostBasket(user, [e]), NO_VARS.(basket := At(b)), false, [AddLine(e)])])
  {
    var r, vars := PostBasket(user, [e]), NO_VARS.(basket := At(b));
    assert AddLines([e]) == [AddLine(e)] by { assert [e][1..] == []; }
    assert Program(r) == [FindBasket(user), EnsureBasket(user), AddLine(e)];
    assert StepFindBasket(Begin(w.db), user) == Run(w.db, vars, false);
    assert Next(w, Tick(i)) == w.(jobs := w.jobs[i := Job(r, vars, false, [EnsureBasket(user), AddLine(e)])]);
    assert StepEnsureBasket(Run(w.db, vars, false), user) == Run(w.db, vars, false);
  }

  lemma PlacesOrder(w: World, j: nat, user: Id, b: Id)
    requires Integrity(w.db) && b in w.db.orders && w.db.orders[b].user == user
    requires j < |w.jobs| && w.jobs[j] == NewJob(PostOrder(user, Given(b), NoContact))
    ensures var placed := Next(Next(w, Tick(j)), Tick(j));
      && placed.db == w.db.(orders := w.db.orders[b := Order(user, New, None)])
      && |placed.jobs| == |w.jobs| && forall k | 0 <= k < |w.jobs| && k != j :: placed.jobs[k] == w.jobs[k]
  {
    var loaded := StepLoadOrder(Begin(w.db), b, user);
    var w1 := Next(w, Tick(j));
    assert w1.db == w.db && w1.jobs[j].todo == [PlaceOrder(None)] && RunOf(w1, w1.jobs[j]) == loaded;
    assert Step(loaded, PlaceOrder(None)) == StepPlaceOrder(loaded, None);
  }
}
