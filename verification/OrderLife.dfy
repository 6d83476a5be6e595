/** The life of an order once it is placed, over serial runs of requests, finished, failed or killed midway. */
module OrderLife {
  import opened Collections
  import opened Schema
  import opened Machine
  import opened PriceList
  import opened Requests
  import opened IdList
  import opened Underway
  import opened Outcome
  import opened Money
  import opened Serial
  import Sql

  predicate Placed(orders: map<Id, Order>, o: Id) { o in orders && orders[o].status == New }

  /** The orders are carts and placed orders only: no handler writes another status. */
  ghost predicate OnlyBasketOrNew(orders: map<Id, Order>) {
    forall o | o in orders :: orders[o].status == Basket || orders[o].status == New
  }

  /** What the API may do to placed order `o` and its lines in one move: keep it, or take it away; keep lines as
      they are, at the price they have, or take them away. */
  ghost predicate PlacedKept(a: Db, b: Db, o: Id)
    requires o in a.orders
  {
    && (o in b.orders ==> b.orders[o].status == New && b.orders[o].user == a.orders[o].user)
    && forall i | i in b.items && b.items[i].order == o ::
        i in a.items && b.items[i] == a.items[i] && InfoAt(b, b.items[i].info) == InfoAt(a, a.items[i].info)
  }

  /* Requests that work in a basket leave every other order alone. */

  predicate BasketStmt(s: Stmt) {
    s.FindBasket? || s.EnsureBasket? || s.AddLine? || s.SetLine? || s.RemoveLines? || s.Raise?
  }

  ghost predicate HoldsBasket(c: Run) {
    c.vars.basket.At? ==> c.vars.basket.id in c.db.orders && c.db.orders[c.vars.basket.id].status == Basket
  }

  /** Orders only gain baskets; lines outside baskets are the same. */
  ghost predicate OnlyBasketsChange(a: Db, b: Db) {
    && b.infos == a.infos && b.contacts == a.contacts && b.users == a.users && a.next.order <= b.next.order
    && (forall o | o in a.orders :: o in b.orders && b.orders[o] == a.orders[o])
    && (forall o | o in b.orders && o !in a.orders :: b.orders[o].status == Basket && o >= a.next.order)
    && (forall i | i in a.items && a.items[i].order in a.orders && a.orders[a.items[i].order].status != Basket ::
          i in b.items && b.items[i] == a.items[i])
    && (forall i | i in b.items && b.items[i].order in b.orders && b.orders[b.items[i].order].status != Basket ::
          i in a.items && a.items[i] == b.items[i])
  }

  lemma BasketsChangeTransitive(a: Db, b: Db, c: Db)
    requires OnlyBasketsChange(a, b) && OnlyBasketsChange(b, c)
    ensures OnlyBasketsChange(a, c)
  {
  }

  lemma AddLineInBasket(c: Run, e: Entry)
    requires Integrity(c.db) && HoldsBasket(c)
    ensures HoldsBasket(StepAddLine(c, e)) && OnlyBasketsChange(c.db, StepAddLine(c, e).db)
  {
  }

  lemma SetLineInBasket(c: Run, item: int, quantity: int)
    requires HoldsBasket(c)
    ensures HoldsBasket(StepSetLine(c, item, quantity)) && OnlyBasketsChange(c.db, StepSetLine(c, item, quantity).db)
  {
  }

  lemma RemoveLinesInBasket(c: Run, ids: seq<int>)
    requires HoldsBasket(c)
    ensures HoldsBasket(StepRemoveLines(c, ids)) && OnlyBasketsChange(c.db, StepRemoveLines(c, ids).db)
  {
  }

  lemma EnsureBasketHoldsIt(c: Run, user: Id)
    requires OrdersSound(c.db.orders, c.db.next.order, c.db.users, c.db.contacts)
    requires ItemsSound(c.db.items, c.db.next.item, c.db.orders, c.db.infos, c.db.shops)
    requires HoldsBasket(c)
    ensures HoldsBasket(StepEnsureBasket(c, user)) && OnlyBasketsChange(c.db, StepEnsureBasket(c, user).db)
  {
    var out, n := StepEnsureBasket(c, user), c.db.next.order;
    if c.vars.basket == Absent(user) && user in c.db.users {
      assert out.db == c.db.(orders := c.db.orders[n := Order(user, Basket, None)], next := c.db.next.(order := n + 1));
      BasketAdded(c.db, out.db, user);
    } else {
      assert out.db == c.db;
    }
  }

  lemma BasketAdded(a: Db, b: Db, user: Id)
    requires OrdersSound(a.orders, a.next.order, a.users, a.contacts)
    requires ItemsSound(a.items, a.next.item, a.orders, a.infos, a.shops)
    requires b == a.(orders := a.orders[a.next.order := Order(user, Basket, None)],
                     next := a.next.(order := a.next.order + 1))
    ensures OnlyBasketsChange(a, b)
  {
  }

  lemma FindBasketHoldsIt(c: Run, user: Id)
    requires HoldsBasket(c)
    ensures HoldsBasket(StepFindBasket(c, user)) && StepFindBasket(c, user).db == c.db
  {
    var r := Get(BasketsOf(c.db.orders, user));
    assert r.One? ==> r.id in BasketsOf(c.db.orders, user);
  }

  lemma BasketStep(c: Run, s: Stmt)
    requires Integrity(c.db) && HoldsBasket(c) && BasketStmt(s)
    ensures HoldsBasket(Step(c, s)) && OnlyBasketsChange(c.db, Step(c, s).db)
  {
    if c.failed { return; }
    match s
    case FindBasket(user) => FindBasketHoldsIt(c, user);
    case EnsureBasket(user) => EnsureBasketHoldsIt(c, user);
    case AddLine(e) => AddLineInBasket(c, e);
    case SetLine(item, quantity) => SetLineInBasket(c, item, quantity);
    case RemoveLines(ids) => RemoveLinesInBasket(c, ids);
    case Raise =>
  }

  lemma {:induction false} BasketProgram(c: Run, program: seq<Stmt>)
    requires Integrity(c.db) && HoldsBasket(c)
    requires forall s | s in program :: BasketStmt(s)
    ensures OnlyBasketsChange(c.db, Exec(c, program).db)
    decreases |program|
  {
    if program == [] {
    } else {
      BasketStep(c, program[0]);
      StepKeepsIntegrity(c, program[0]);
      var next := Step(c, program[0]);
      BasketProgram(next, program[1..]);
      BasketsChangeTransitive(c.db, next.db, Exec(next, program[1..]).db);
    }
  }

  lemma {:induction false} AddLinesAreBasketStmts(entries: seq<Entry>)
    ensures forall s | s in AddLines(entries) :: BasketStmt(s)
  {
    if entries == [] {
    } else {
      AddLinesAreBasketStmts(entries[1..]);
    }
  }

  lemma {:induction false} SetLinesAreBasketStmts(changes: seq<PutEntry>)
    ensures forall s | s in SetLines(changes) :: BasketStmt(s)
  {
    if changes == [] {
    } else {
      SetLinesAreBasketStmts(changes[1..]);
    }
  }

  predicate BasketRequest(r: Request) { r.PostBasket? || r.PutBasket? || r.DeleteBasket? }

  lemma BasketRequestStmts(r: Request)
    requires BasketRequest(r)
    ensures forall s | s in Program(r) :: BasketStmt(s)
  {
    match r
    case PostBasket(_, entries) => AddLinesAreBasketStmts(entries);
    case PutBasket(_, changes) => SetLinesAreBasketStmts(changes);
    case DeleteBasket(_, _) =>
  }

  /* One request. */

  /** The request deletes the contact the order refers to. */
  predicate DeletesContactOf(db: Db, r: Request, o: Id) {
    && r.DeleteContacts? && r.items != "" && StrictIds(r.items).Some?
    && o in db.orders && db.orders[o].contact.Some?
    && db.orders[o].contact.value in db.contacts && db.contacts[db.orders[o].contact.value] == r.user
    && db.orders[o].contact.value in StrictIds(r.items).value
  }

  /** The request imports a price list of the shop that sells the line. */
  predicate ImportsSellerOf(db: Db, r: Request, i: Id) {
    r.ImportPriceList? && i in db.items && Sells(db, r.user, db.items[i].info)
  }

  /** The request deletes the product the line sells. */
  predicate DeletesProductOf(db: Db, r: Request, i: Id) {
    r.DeleteProduct? && i in db.items && InfoAt(db, db.items[i].info).product == r.product
  }

  /** Why one request may take a line of order `o`. */
  predicate MayTake(db: Db, r: Request, o: Id, i: Id) {
    ImportsSellerOf(db, r, i) || DeletesProductOf(db, r, i) || DeletesContactOf(db, r, o)
  }

  /** What one request may do to a placed order. */
  ghost predicate PlacedServed(a: Db, b: Db, r: Request, o: Id)
    requires o in a.orders
  {
    && PlacedKept(a, b, o)
    && (forall i | i in a.items && a.items[i].order == o && i in b.items :: b.items[i] == a.items[i])
    && (o !in b.orders ==> DeletesContactOf(a, r, o))
    && (forall i | i in a.items && a.items[i].order == o && i !in b.items :: MayTake(a, r, o, i))
  }

  lemma ImportServed(db: Db, user: Id, doc: Document, cut: nat, o: Id)
    requires Integrity(db) && Placed(db.orders, o)
    ensures PlacedServed(db, ServeUpTo(db, ImportPriceList(user, doc), cut).db, ImportPriceList(user, doc), o)
  {
    var r, n := ImportPriceList(user, doc), |ImportProgram(user, doc)|;
    var k := if cut <= n then cut else n;
    WholePrefix(db, user, doc);
    PrefixUnderway(db, user, doc, k);
    MovedServed(db, ImportPrefix(db, user, doc, k).db, user, doc, o);
  }

  lemma MovedServed(a: Db, b: Db, user: Id, doc: Document, o: Id)
    requires ItemsSound(a.items, a.next.item, a.orders, a.infos, a.shops)
    requires ItemsSound(b.items, b.next.item, b.orders, b.infos, b.shops)
    requires Moved(a, b, user, doc) && Placed(a.orders, o)
    ensures PlacedServed(a, b, ImportPriceList(user, doc), o)
  {
  }

  lemma BasketServed(db: Db, r: Request, cut: nat, o: Id)
    requires Integrity(db) && Placed(db.orders, o) && BasketRequest(r)
    ensures PlacedServed(db, ServeUpTo(db, r, cut).db, r, o)
  {
    BasketRequestStmts(r);
    assert forall s | s in Issued(r, cut) :: s in Program(r);
    BasketProgram(Begin(db), Issued(r, cut));
    BasketsChangeServed(db, ServeUpTo(db, r, cut).db, r, o);
  }

  lemma BasketsChangeServed(a: Db, b: Db, r: Request, o: Id)
    requires OnlyBasketsChange(a, b) && Placed(a.orders, o)
    ensures PlacedServed(a, b, r, o)
  {
  }

  lemma PlaceServed(c: Run, contact: Option<Id>, r: Request, o: Id)
    requires Integrity(c.db) && Placed(c.db.orders, o)
    requires c.vars.order.Some? ==> c.vars.order.value.0 in c.db.orders
                                    && c.db.orders[c.vars.order.value.0] == c.vars.order.value.1
    ensures PlacedServed(c.db, StepPlaceOrder(c, contact).db, r, o)
  {
  }

  /** An order request ends with the order loaded or not, and saved or not. */
  lemma OrderRequestEnds(db: Db, r: Request, cut: nat)
    requires r.PostOrder?
    ensures var out := ServeUpTo(db, r, cut).db;
      || out == db
      || (r.id.Given? && !r.contact.NotAContact?
          && out == StepPlaceOrder(StepLoadOrder(Begin(db), r.id.value, r.user), Placing(r.contact).contact).db)
  {
    var program := Issued(r, cut);
    if program == [] {
    } else if |program| == 1 {
      assert program == [program[0]];
      ExecTwo(Begin(db), program[0], program[0]);
    } else {
      assert program == [LoadOrder(r.id.value, r.user), program[1]];
      OrderRequestServed(db, r.user, r.id.value, r.contact);
    }
  }

  lemma OrderServed(db: Db, r: Request, cut: nat, o: Id)
    requires Integrity(db) && Placed(db.orders, o) && r.PostOrder?
    ensures PlacedServed(db, ServeUpTo(db, r, cut).db, r, o)
  {
    OrderRequestEnds(db, r, cut);
    SameServed(db, r, o);
    if r.id.Given? && !r.contact.NotAContact? {
      PlaceServed(StepLoadOrder(Begin(db), r.id.value, r.user), Placing(r.contact).contact, r, o);
    }
  }

  lemma SameServed(db: Db, r: Request, o: Id)
    requires Placed(db.orders, o)
    ensures PlacedServed(db, db, r, o)
  {
  }

  lemma ContactRequestEnds(db: Db, r: Request, cut: nat)
    requires r.AddContact? || r.DeleteContacts?
    ensures var out := ServeUpTo(db, r, cut).db;
      || out == db
      || (r.AddContact? && out == Commit(Begin(db), Sql.InsertContact(db, r.user), NO_VARS).db)
      || (r.DeleteContacts? && r.items != "" && StrictIds(r.items).Some?
          && out == Sql.DeleteContacts(db, r.user, StrictIds(r.items).value).0)
  {
    var program := Issued(r, cut);
    if program != [] {
      assert program == [program[0]];
      ExecTwo(Begin(db), program[0], program[0]);
    }
  }

  lemma ContactServed(db: Db, r: Request, cut: nat, o: Id)
    requires Integrity(db) && Placed(db.orders, o) && (r.AddContact? || r.DeleteContacts?)
    ensures PlacedServed(db, ServeUpTo(db, r, cut).db, r, o)
  {
    ContactRequestEnds(db, r, cut);
    SameServed(db, r, o);
    if r.DeleteContacts? && r.items != "" && StrictIds(r.items).Some? { DeletionServed(db, r, o); }
    if r.AddContact? { AdditionServed(db, r, o); }
  }

  lemma AdditionServed(db: Db, r: Request, o: Id)
    requires Placed(db.orders, o) && r.AddContact?
    ensures PlacedServed(db, Commit(Begin(db), Sql.InsertContact(db, r.user), NO_VARS).db, r, o)
  {
  }

  lemma DeletionServed(db: Db, r: Request, o: Id)
    requires Integrity(db) && Placed(db.orders, o) && r.DeleteContacts? && r.items != "" && StrictIds(r.items).Some?
    ensures PlacedServed(db, Sql.DeleteContacts(db, r.user, StrictIds(r.items).value).0, r, o)
  {
  }

  lemma ProductRequestEnds(db: Db, r: Request, cut: nat)
    requires r.DeleteProduct?
    ensures var out := ServeUpTo(db, r, cut).db; out == db || out == Sql.DeleteProduct(db, r.product)
  {
    var program := Issued(r, cut);
    if program != [] {
      assert program == [program[0]];
      ExecTwo(Begin(db), program[0], program[0]);
    }
  }

  lemma ProductServed(db: Db, r: Request, cut: nat, o: Id)
    requires Integrity(db) && Placed(db.orders, o) && r.DeleteProduct?
    ensures PlacedServed(db, ServeUpTo(db, r, cut).db, r, o)
  {
    ProductRequestEnds(db, r, cut);
    SameServed(db, r, o);
    ProductDeletionServed(db, r, o);
  }

  lemma ProductDeletionServed(db: Db, r: Request, o: Id)
    requires Integrity(db) && Placed(db.orders, o) && r.DeleteProduct?
    ensures PlacedServed(db, Sql.DeleteProduct(db, r.product), r, o)
  {
    var out := Sql.DeleteProduct(db, r.product);
    assert out.orders == db.orders;
    forall i | i in out.items
      ensures db.items[i].info in out.infos
    {
      assert db.items[i].info in db.infos;
    }
  }

  /** One request keeps a placed order placed, with its owner, and its lines as they are or gone; the order goes
      only with its contact, a line only with its order, in an import of the shop that sells it, or with the product
      it sells, which any user may delete. */
  lemma RequestKeepsPlacedOrder(db: Db, r: Request, cut: nat, o: Id)
    requires Integrity(db) && Placed(db.orders, o)
    ensures PlacedServed(db, ServeUpTo(db, r, cut).db, r, o)
  {
    match r
    case ImportPriceList(user, doc) => ImportServed(db, user, doc, cut, o);
    case PostOrder(_, _, _) => OrderServed(db, r, cut, o);
    case AddContact(_) => ContactServed(db, r, cut, o);
    case DeleteContacts(_, _) => ContactServed(db, r, cut, o);
    case DeleteProduct(_, _) => ProductServed(db, r, cut, o);
    case _ => BasketServed(db, r, cut, o);
  }

  /* Whole runs. */

  /** An order that is gone stays gone: its id is not given out again. */
  ghost predicate Gone(db: Db, o: Id) { o !in db.orders && o < db.next.order }

  lemma RequestKeepsGone(db: Db, r: Request, cut: nat, o: Id)
    requires Integrity(db) && Gone(db, o)
    ensures Gone(ServeUpTo(db, r, cut).db, o)
  {
    if BasketRequest(r) {
      BasketRequestStmts(r);
      assert forall s | s in Issued(r, cut) :: s in Program(r);
      BasketProgram(Begin(db), Issued(r, cut));
    } else if r.ImportPriceList? {
      ImportKeepsGone(db, r.user, r.doc, cut, o);
    } else if r.PostOrder? {
      OrderRequestEnds(db, r, cut);
    } else if r.DeleteProduct? {
      ProductRequestEnds(db, r, cut);
    } else {
      ContactRequestEnds(db, r, cut);
    }
  }

  lemma ImportKeepsGone(db: Db, user: Id, doc: Document, cut: nat, o: Id)
    requires Integrity(db) && Gone(db, o)
    ensures Gone(ServeUpTo(db, ImportPriceList(user, doc), cut).db, o)
  {
    var n := |ImportProgram(user, doc)|;
    WholePrefix(db, user, doc);
    PrefixUnderway(db, user, doc, if cut <= n then cut else n);
  }

  /** Since `a`, order `o` is still placed or gone for good, and its lines are as they were or gone. */
  ghost predicate Settled(a: Db, b: Db, o: Id)
    requires o in a.orders
  {
    (Placed(b.orders, o) || Gone(b, o)) && PlacedKept(a, b, o)
  }

  lemma RequestKeepsSettled(a: Db, b: Db, r: Request, cut: nat, o: Id)
    requires o in a.orders && Integrity(b) && Settled(a, b, o)
    ensures Settled(a, ServeUpTo(b, r, cut).db, o) && Integrity(ServeUpTo(b, r, cut).db)
  {
    var c := ServeUpTo(b, r, cut).db;
    ExecKeepsIntegrity(Begin(b), Issued(r, cut));
    if Placed(b.orders, o) {
      RequestKeepsPlacedOrder(b, r, cut, o);
      if o !in c.orders { NextOrderGrows(b, r, cut, o); }
    } else {
      RequestKeepsGone(b, r, cut, o);
      assert forall i | i in c.items :: c.items[i].order in c.orders;
    }
  }

  /** A placed order that a request takes away keeps its id used up. */
  lemma NextOrderGrows(db: Db, r: Request, cut: nat, o: Id)
    requires Integrity(db) && Placed(db.orders, o) && o !in ServeUpTo(db, r, cut).db.orders
    ensures o < ServeUpTo(db, r, cut).db.next.order
  {
    RequestKeepsPlacedOrder(db, r, cut, o);
    ContactRequestEnds(db, r, cut);
  }

  lemma {:induction false} RunKeepsSettled(a: Db, b: Db, calls: seq<Call>, o: Id)
    requires o in a.orders && Integrity(b) && Settled(a, b, o)
    ensures Settled(a, After(b, calls), o) && Integrity(After(b, calls))
    decreases |calls|
  {
    if calls == [] {
    } else {
      RequestKeepsSettled(a, b, calls[0].request, calls[0].cut, o);
      RunKeepsSettled(a, ServeUpTo(b, calls[0].request, calls[0].cut).db, calls[1..], o);
    }
  }

  lemma TotalNeverRises(a: Db, b: Db, o: Id)
    requires Integrity(a) && o in a.orders && PlacedKept(a, b, o)
    ensures Sum(LineValues(b, o)) <= Sum(LineValues(a, o))
  {
    ValuesNonNegative(a, o);
    FewerLinesNoDearer(LineValues(a, o), LineValues(b, o));
  }

  /** After any serial run of requests, finished or cut short, a placed order is still placed and its owner's, or
      gone; each of its lines has the quantity, product and price it had, or is gone. */
  lemma PlacedOrderLife(db: Db, calls: seq<Call>, o: Id)
    requires Integrity(db) && Placed(db.orders, o)
    ensures var out := After(db, calls);
      && (o in out.orders ==> out.orders[o].status == New && out.orders[o].user == db.orders[o].user)
      && (forall i | i in out.items && out.items[i].order == o ::
            && i in db.items && out.items[i] == db.items[i]
            && InfoAt(out, out.items[i].info) == InfoAt(db, db.items[i].info))
  {
    RunKeepsSettled(db, db, calls, o);
  }

  /** So its total, as the customer is shown it, never rises, and stays null once it is. */
  lemma PlacedTotalNeverRises(db: Db, calls: seq<Call>, o: Id)
    requires Integrity(db) && Placed(db.orders, o)
    ensures var (was, now) := (OrderTotal(db, o), OrderTotal(After(db, calls), o));
      OrZero(now) <= OrZero(was) && (was == None ==> now == None)
  {
    var was, now := LineValues(db, o), LineValues(After(db, calls), o);
    RunKeepsSettled(db, db, calls, o);
    TotalNeverRises(db, After(db, calls), o);
    TotalIsSum(was);
    TotalIsSum(now);
    if i :| i in now { assert i in was; }
  }

  /* Statuses. */

  lemma StepWritesOnlyBasketOrNew(c: Run, s: Stmt)
    requires OnlyBasketOrNew(c.db.orders)
    ensures OnlyBasketOrNew(Step(c, s).db.orders)
  {
    if !s.EnsureBasket? && !s.PlaceOrder? && !s.RemoveContacts? { StepFramed(c, s); }
  }

  lemma {:induction false} ProgramWritesOnlyBasketOrNew(c: Run, program: seq<Stmt>)
    requires OnlyBasketOrNew(c.db.orders)
    ensures OnlyBasketOrNew(Exec(c, program).db.orders)
    decreases |program|
  {
    if program == [] {
    } else {
      StepWritesOnlyBasketOrNew(c, program[0]);
      ProgramWritesOnlyBasketOrNew(Step(c, program[0]), program[1..]);
    }
  }

  /** From an empty store the API never produces an order in any other status. */
  lemma {:induction false} RunWritesOnlyBasketOrNew(db: Db, calls: seq<Call>)
    requires OnlyBasketOrNew(db.orders)
    ensures OnlyBasketOrNew(After(db, calls).orders)
    decreases |calls|
  {
    if calls == [] {
    } else {
      ProgramWritesOnlyBasketOrNew(Begin(db), Issued(calls[0].request, calls[0].cut));
      RunWritesOnlyBasketOrNew(ServeUpTo(db, calls[0].request, calls[0].cut).db, calls[1..]);
    }
  }
}
