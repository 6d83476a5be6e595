/** An order that was deleted stays deleted when requests are served one at a time, and can come back, placed and
    without its lines, when they overlap: `order.save()` inserts a row that is gone. */
module Returns {
  import opened Collections
  import opened Schema
  import opened Machine
  import opened Requests
  import opened IdTexts
  import opened OrderLife
  import opened Interleaving
  import opened Races
  import opened Serial
  import opened SerialPlay
  import B = BasketTheorems
  import Sql

  /** A job that loaded order `o` is about to save it, and the order is gone by now. */
  ghost predicate StaleSave(w: World, e: Event, o: Id) {
    Ready(w, e) && var job := w.jobs[e.j];
    && job.todo[0].PlaceOrder? && job.vars.order.Some? && job.vars.order.value.0 == o && o !in w.db.orders
    && job.vars.order.value.1.user in w.db.users
    && (job.todo[0].contact.Some? ==> job.todo[0].contact.value in w.db.contacts)
  }

  lemma SaveReturns(c: Run, contact: Option<Id>, o: Id)
    requires !c.failed && Gone(c.db, o)
    ensures o in StepPlaceOrder(c, contact).db.orders
            <==> c.vars.order.Some? && c.vars.order.value.0 == o && c.vars.order.value.1.user in c.db.users
                 && (contact.Some? ==> contact.value in c.db.contacts)
    ensures Gone(StepPlaceOrder(c, contact).db, o) <==> o !in StepPlaceOrder(c, contact).db.orders
  {
  }

  lemma OpeningReturnsNothing(c: Run, user: Id, o: Id)
    requires Gone(c.db, o)
    ensures Gone(StepEnsureBasket(c, user).db, o)
  {
    var d, n := StepEnsureBasket(c, user), c.db.next.order;
    if c.vars.basket == Absent(user) && user in c.db.users {
      assert d.db == c.db.(orders := c.db.orders[n := Order(user, Basket, None)], next := c.db.next.(order := n + 1));
    } else {
      assert d.db == c.db;
    }
  }

  lemma DeletionReturnsNothing(c: Run, user: Id, ids: seq<int>, o: Id)
    requires Gone(c.db, o)
    ensures Gone(StepRemoveContacts(c, user, ids).db, o)
  {
  }

  /** The one step that can bring an order back, and it always does. */
  lemma OrderReturnsExactlyWhenStale(w: World, e: Event, o: Id)
    requires Gone(w.db, o)
    ensures o in Next(w, e).db.orders <==> StaleSave(w, e, o)
    ensures o !in Next(w, e).db.orders ==> Gone(Next(w, e).db, o)
  {
    if Ready(w, e) {
      var c, s := RunOf(w, w.jobs[e.j]), w.jobs[e.j].todo[0];
      if s.PlaceOrder? {
        SaveReturns(c, s.contact, o);
      } else if s.EnsureBasket? {
        OpeningReturnsNothing(c, s.user, o);
      } else if s.RemoveContacts? {
        DeletionReturnsNothing(c, s.user, s.ids, o);
      } else {
        StepFramed(c, s);
      }
    }
  }

  /** What comes back is placed, and has no lines. */
  lemma ReturnedOrderIsEmpty(w: World, e: Event, o: Id)
    requires Integrity(w.db) && Gone(w.db, o) && StaleSave(w, e, o)
    ensures var next := Next(w, e).db;
      Placed(next.orders, o) && next.items == w.db.items && forall i | i in next.items :: next.items[i].order != o
  {
    var c, s := RunOf(w, w.jobs[e.j]), w.jobs[e.j].todo[0];
    assert Step(c, s) == StepPlaceOrder(c, s.contact);
  }

  /** The order is gone before the event and there after it. */
  ghost predicate ReturnsAt(w: World, events: seq<Event>, n: nat, o: Id)
    requires n < |events|
  {
    Gone(WorldAt(w, events, n).db, o) && o in WorldAt(w, events, n + 1).db.orders
  }

  /** Over a whole run with any interleaving: an order, once gone, stays gone if and only if no job saves it after. */
  lemma GoneExactlyWithoutStaleSaves(w: World, events: seq<Event>, o: Id)
    ensures (forall n | 0 <= n < |events| :: !ReturnsAt(w, events, n, o))
            <==> forall n | 0 <= n < |events| :: Gone(WorldAt(w, events, n).db, o) ==>
                   !StaleSave(WorldAt(w, events, n), events[n], o)
  {
    forall n | 0 <= n < |events|
      ensures ReturnsAt(w, events, n, o)
              <==> Gone(WorldAt(w, events, n).db, o) && StaleSave(WorldAt(w, events, n), events[n], o)
    {
      PlayNext(w, events, n);
      if Gone(WorldAt(w, events, n).db, o) {
        OrderReturnsExactlyWhenStale(WorldAt(w, events, n), events[n], o);
      }
    }
  }

  /* A run that reaches such a step. */

  lemma LoadsOrder(w: World, i: nat, user: Id, o: Id)
    requires o in w.db.orders && w.db.orders[o].user == user
    requires i < |w.jobs| && w.jobs[i] == NewJob(PostOrder(user, Given(o), NoContact))
    ensures Next(w, Tick(i)) == w.(jobs := w.jobs[i := Job(PostOrder(user, Given(o), NoContact),
                                     NO_VARS.(order := Some((o, w.db.orders[o]))), false, [PlaceOrder(None)])])
  {
    var r := PostOrder(user, Given(o), NoContact);
    assert Program(r) == [LoadOrder(o, user), PlaceOrder(None)] && Program(r)[1..] == [PlaceOrder(None)];
    assert Step(Begin(w.db), LoadOrder(o, user)) == StepLoadOrder(Begin(w.db), o, user);
  }

  lemma DeletionProgram(user: Id, text: string, c: Id)
    requires Writes(text, c)
    ensures Program(DeleteContacts(user, text)) == [RemoveContacts(user, [c])]
  {
    WrittenIsRead(text, c);
    PaddedListRoundTrip([text], [c]);
  }

  lemma DeletesContact(w: World, j: nat, user: Id, text: string, c: Id)
    requires Writes(text, c) && j < |w.jobs| && w.jobs[j] == NewJob(DeleteContacts(user, text))
    ensures var next := Next(w, Tick(j));
      && next.db == Sql.DeleteContacts(w.db, user, [c]).0
      && |next.jobs| == |w.jobs| && forall k | 0 <= k < |w.jobs| && k != j :: next.jobs[k] == w.jobs[k]
  {
    DeletionProgram(user, text, c);
    assert Step(Begin(w.db), RemoveContacts(user, [c])) == StepRemoveContacts(Begin(w.db), user, [c]);
  }

  /** Whenever a user places an order again and at once deletes the contact it refers to, the order can be deleted with
      its lines and come back without them. */
  lemma RaceReturnsOrder(w: World, user: Id, o: Id, c: Id, text: string, i: nat, j: nat)
    returns (deleted: World, later: World)
    requires Integrity(w.db) && o in w.db.orders && w.db.orders[o].user == user && w.db.orders[o].contact == Some(c)
    requires w.db.contacts[c] == user && Writes(text, c)
    requires i < |w.jobs| && j < |w.jobs| && i != j
    requires w.jobs[i] == NewJob(PostOrder(user, Given(o), NoContact))
    requires w.jobs[j] == NewJob(DeleteContacts(user, text))
    ensures deleted == Next(Next(w, Tick(i)), Tick(j)) && later == Next(deleted, Tick(i))
    ensures Gone(deleted.db, o) && Placed(later.db.orders, o)
    ensures forall k | k in later.db.items :: later.db.items[k].order != o
  {
    LoadsOrder(w, i, user, o);
    var loaded := Next(w, Tick(i));
    DeletesContact(loaded, j, user, text, c);
    deleted := Next(loaded, Tick(j));
    NextKeepsIntegrity(w, Tick(i));
    NextKeepsIntegrity(loaded, Tick(j));
    B.DeletedRows(w.db, user, [c]);
    later := Next(deleted, Tick(i));
    OrderReturnsExactlyWhenStale(deleted, Tick(i), o);
    ReturnedOrderIsEmpty(deleted, Tick(i), o);
  }

  /* From the empty store: a contact, an order placed with it, and the two requests. */

  function Whole(r: Request): Call { Call(r, |Program(r)|) }

  lemma WholeServes(db: Db, r: Request, rest: seq<Call>)
    ensures After(db, [Whole(r)] + rest) == After(Serve(db, r).db, rest)
  {
    assert ([Whole(r)] + rest)[1..] == rest && Issued(r, |Program(r)|) == Program(r);
  }

  lemma FirstContact(users: map<Id, User>, user: Id)
    requires user in users
    ensures Serve(Empty(users), AddContact(user)).db
            == Empty(users).(contacts := map[1 := user], next := Empty(users).next.(contact := 2))
  {
    B.ContactAdditionIsExact(Empty(users), user);
  }

  lemma NewBasket(db: Db, user: Id)
    requires Integrity(db) && user in db.users && BasketsOf(db.orders, user) == {}
    ensures Serve(db, PostBasket(user, [])).db
            == db.(orders := db.orders[db.next.order := Order(user, Basket, None)],
                   next := db.next.(order := db.next.order + 1))
  {
    B.OpenBasketStage(db, user);
    assert AddLines([]) == [] && OpenBasket(user) + [] == OpenBasket(user);
    forall o | o in db.orders
      ensures !(db.orders[o].user == user && db.orders[o].status == Basket)
    {
      assert o !in BasketsOf(db.orders, user);
    }
  }

  lemma PlacesWithContact(db: Db, user: Id, order: Id, contact: Id)
    requires Integrity(db) && contact in db.contacts && db.orders.Keys == {order} && db.orders[order].user == user
    ensures Serve(db, PostOrder(user, Given(order), ContactId(contact))).db
            == db.(orders := map[order := Order(user, New, Some(contact))])
  {
    B.CheckoutIsExact(db, user, order, ContactId(contact));
  }

  lemma OrderWithContact(users: map<Id, User>, user: Id) returns (calls: seq<Call>)
    requires user in users
    ensures var db := After(Empty(users), calls);
      db.users == users && db.contacts == map[1 := user] && db.orders == map[1 := Order(user, New, Some(1))]
    ensures forall c | c in calls :: !c.request.ImportPriceList?
  {
    var add, open, place := AddContact(user), PostBasket(user, []), PostOrder(user, Given(1), ContactId(1));
    var d1 := Serve(Empty(users), add).db;
    FirstContact(users, user);
    var d2 := Serve(d1, open).db;
    NewBasket(d1, user);
    ExecKeepsIntegrity(Begin(d1), Program(open));
    PlacesWithContact(d2, user, 1, 1);
    calls := [Whole(add)] + ([Whole(open)] + ([Whole(place)] + []));
    WholeServes(Empty(users), add, [Whole(open)] + ([Whole(place)] + []));
    WholeServes(d1, open, [Whole(place)] + []);
    WholeServes(d2, place, []);
  }

  lemma TwoArrive(w: World, r1: Request, r2: Request)
    requires !r1.ImportPriceList? && !r2.ImportPriceList?
    ensures Play(w, [Receive(r1), Receive(r2)]) == w.(jobs := w.jobs + [NewJob(r1), NewJob(r2)])
  {
    PlayTwo(w, Receive(r1), Receive(r2));
    assert w.jobs + [NewJob(r1)] + [NewJob(r2)] == w.jobs + [NewJob(r1), NewJob(r2)];
  }

  /** The input, from the empty store, for any registered user and any way to write the contact's id: an order that was
      placed is deleted, and is there again at the end, placed and without lines. */
  lemma EmptyStoreReachesReturn(users: map<Id, User>, user: Id, text: string)
    returns (events: seq<Event>, i: nat, j: nat)
    requires user in users && Writes(text, 1)
    ensures var w := Play(Start(users), events);
      var deleted := Next(Next(w, Tick(i)), Tick(j));
      && Placed(w.db.orders, 1) && Gone(deleted.db, 1) && Placed(Next(deleted, Tick(i)).db.orders, 1)
      && forall k | k in Next(deleted, Tick(i)).db.items :: Next(deleted, Tick(i)).db.items[k].order != 1
  {
    var calls := OrderWithContact(users, user);
    var before := SerialRunIsInterleaved(Start(users), calls);
    var w := Play(Start(users), before);
    var again, delete := PostOrder(user, Given(1), NoContact), DeleteContacts(user, text);
    TwoArrive(w, again, delete);
    PlayConcat(Start(users), before, [Receive(again), Receive(delete)]);
    IntegrityUnderInterleaving(Start(users), before);
    events, i, j := before + [Receive(again), Receive(delete)], |w.jobs|, |w.jobs| + 1;
    var deleted, later := RaceReturnsOrder(Play(w, [Receive(again), Receive(delete)]), user, 1, 1, text, i, j);
  }
}
