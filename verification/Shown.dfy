/** Which orders customers and shops are shown, with which totals (OrderView.get, BasketView.get and
    PartnerOrders.get in backend/views.py), and how requests move them. */
module Shown {
  import opened Collections
  import opened Schema
  import opened Machine
  import opened PriceList
  import opened Requests
  import opened Underway
  import opened Money
  import opened BasketTheorems
  import opened OrderLife
  import opened LineLoss

  /** OrderView.get: the user's placed orders, each with its total. */
  ghost function OrdersShown(db: Db, user: Id): map<Id, Option<int>> {
    map o | o in db.orders && db.orders[o].user == user && db.orders[o].status != Basket :: OrderTotal(db, o)
  }

  /** BasketView.get */
  ghost function BasketShown(db: Db, user: Id): map<Id, Option<int>> {
    map o | o in db.orders && db.orders[o].user == user && db.orders[o].status == Basket :: OrderTotal(db, o)
  }

  /** PartnerOrders.get, for the shop of the caller. */
  ghost function PartnerShown(db: Db, shop: Id): map<Id, Option<int>> {
    map o | o in ListedFor(db, shop) :: Total(ShopLineValues(db, shop, o))
  }

  /** A user's orders and baskets together show exactly the user's orders, each once, and a shop is only shown orders
      that their customers are shown. */
  lemma EachOrderShownOnce(db: Db, user: Id, shop: Id)
    ensures OrdersShown(db, user).Keys !! BasketShown(db, user).Keys
    ensures OrdersShown(db, user).Keys + BasketShown(db, user).Keys
            == set o | o in db.orders && db.orders[o].user == user
    ensures forall o | o in PartnerShown(db, shop) :: o in db.orders && o in OrdersShown(db, db.orders[o].user)
  {
  }

  /** What the shops that are shown an order are told it is worth. */
  ghost function Told(db: Db, order: Id): map<Id, int> {
    map s | s in db.shops && order in PartnerShown(db, s) :: OrZero(PartnerShown(db, s)[order])
  }

  lemma {:induction false} SumOfZeros(m: map<Id, int>)
    requires forall k | k in m :: m[k] == 0
    ensures Sum(m) == 0
    decreases |m|
  {
    if k :| k in m {
      SumRemove(m, k);
      SumOfZeros(m - {k});
    } else {
      assert m == map[];
    }
  }

  lemma ToldOrNothing(db: Db, order: Id, shop: Id)
    requires order in db.orders && db.orders[order].status != Basket && shop in db.shops
    ensures order in PartnerShown(db, shop) <==> order in ListedFor(db, shop)
    ensures if order in PartnerShown(db, shop)
            then OrZero(PartnerShown(db, shop)[order]) == Sum(ShopLineValues(db, shop, order))
            else Sum(ShopLineValues(db, shop, order)) == 0
  {
    TotalIsSum(ShopLineValues(db, shop, order));
  }

  lemma SumWithoutZeros(m: map<Id, int>, part: map<Id, int>)
    requires part.Keys <= m.Keys && forall k | k in m :: m[k] == if k in part then part[k] else 0
    ensures Sum(m) == Sum(part)
  {
    var rest := map k | k in m && k !in part :: 0;
    assert Splits(m, part, rest);
    SumSplit(m, part, rest);
    SumOfZeros(rest);
  }

  /** What the shops' own lists say of a placed order adds up to what its customer's list says, and that is null
      exactly when no shop is shown the order. */
  lemma ListsAddUp(db: Db, order: Id)
    requires Integrity(db) && order in db.orders && db.orders[order].status != Basket
    ensures OrdersShown(db, db.orders[order].user)[order]
            == if Told(db, order).Keys == {} then None else Some(Sum(Told(db, order)))
  {
    MoneyIsConserved(db, order);
    forall s | s in db.shops { ToldOrNothing(db, order, s); }
    SumWithoutZeros(ShopTotals(db, order), Told(db, order));
    NoneToldWhenUnlisted(db, order);
  }

  lemma NoneToldWhenUnlisted(db: Db, order: Id)
    ensures Told(db, order).Keys == {} <==> forall s | s in db.shops :: order !in ListedFor(db, s)
  {
    assert forall s | s in db.shops :: s in Told(db, order) <==> order in ListedFor(db, s);
  }

  /* Checkout. */

  /** From `a` to `b` one order of `user`'s was placed, or placed again. */
  ghost predicate OrderPlaced(a: Db, b: Db, user: Id, order: Id) {
    && order in a.orders && a.orders[order].user == user && b == a.(orders := b.orders)
    && b.orders.Keys == a.orders.Keys
    && (forall o | o in a.orders && o != order :: b.orders[o] == a.orders[o])
    && b.orders[order].status == New && b.orders[order].user == user
  }

  lemma TotalsKept(a: Db, b: Db)
    requires b.items == a.items && b.infos == a.infos
    ensures forall o :: OrderTotal(b, o) == OrderTotal(a, o)
  {
    forall o
      ensures OrderTotal(b, o) == OrderTotal(a, o)
    {
      assert LineValues(b, o) == LineValues(a, o);
    }
  }

  lemma PlacedOrderJoinsOrders(a: Db, b: Db, user: Id, order: Id)
    requires OrderPlaced(a, b, user, order)
    ensures OrdersShown(b, user) == OrdersShown(a, user)[order := OrderTotal(a, order)]
  {
    TotalsKept(a, b);
  }

  lemma PlacedOrderLeavesBasket(a: Db, b: Db, user: Id, order: Id)
    requires OrderPlaced(a, b, user, order)
    ensures BasketShown(b, user) == BasketShown(a, user) - {order}
  {
    TotalsKept(a, b);
    assert BasketShown(b, user).Keys == BasketShown(a, user).Keys - {order};
  }

  lemma PlacedOrderIsNoneOfOthers(a: Db, b: Db, user: Id, order: Id, other: Id)
    requires OrderPlaced(a, b, user, order) && other != user
    ensures OrdersShown(b, other) == OrdersShown(a, other) && BasketShown(b, other) == BasketShown(a, other)
  {
    TotalsKept(a, b);
  }

  lemma PlacedOrderIsListed(a: Db, b: Db, user: Id, order: Id, shop: Id)
    requires Integrity(a) && OrderPlaced(a, b, user, order)
    ensures ListedFor(b, shop)
            == if HasGoodsOf(a, shop, order) then ListedFor(a, shop) + {order} else ListedFor(a, shop)
    ensures forall o :: ShopLineValues(b, shop, o) == ShopLineValues(a, shop, o)
  {
    forall o
      ensures ShopLineValues(b, shop, o) == ShopLineValues(a, shop, o)
    {
    }
    HasGoodsWhenSummed(a, shop, order);
  }

  lemma PlacedOrderIsTold(a: Db, b: Db, user: Id, order: Id, shop: Id)
    requires Integrity(a) && OrderPlaced(a, b, user, order)
    ensures PartnerShown(b, shop)
            == if HasGoodsOf(a, shop, order) then PartnerShown(a, shop)[order := Total(ShopLineValues(a, shop, order))]
               else PartnerShown(a, shop)
  {
    PlacedOrderIsListed(a, b, user, order, shop);
    ShownAsListed(a, b, shop);
  }

  lemma ShownAsListed(a: Db, b: Db, shop: Id)
    requires forall o | o in ListedFor(b, shop) :: ShopLineValues(b, shop, o) == ShopLineValues(a, shop, o)
    ensures PartnerShown(b, shop) == map o | o in ListedFor(b, shop) :: Total(ShopLineValues(a, shop, o))
  {
  }

  /** A checkout that succeeds takes the order from the basket its customer is shown to the customer's orders, with
      the total it had, adds it to the lists of exactly the shops that sell its lines, and leaves every other user's
      orders and baskets alone. */
  lemma CheckoutMovesOrder(db: Db, user: Id, order: Id, contact: ContactField)
    requires Integrity(db) && !Serve(db, PostOrder(user, Given(order), contact)).failed
    ensures var out := Serve(db, PostOrder(user, Given(order), contact)).db;
      && OrdersShown(out, user) == OrdersShown(db, user)[order := OrderTotal(db, order)]
      && BasketShown(out, user) == BasketShown(db, user) - {order}
      && (forall u: Id | u != user ::
            OrdersShown(out, u) == OrdersShown(db, u) && BasketShown(out, u) == BasketShown(db, u))
      && forall s: Id :: PartnerShown(out, s)
           == if HasGoodsOf(db, s, order) then PartnerShown(db, s)[order := Total(ShopLineValues(db, s, order))]
              else PartnerShown(db, s)
  {
    var out := Serve(db, PostOrder(user, Given(order), contact)).db;
    CheckoutIsExact(db, user, order, contact);
    PlacedOrderJoinsOrders(db, out, user, order);
    PlacedOrderLeavesBasket(db, out, user, order);
    forall u: Id | u != user { PlacedOrderIsNoneOfOthers(db, out, user, order, u); }
    forall s: Id { PlacedOrderIsTold(db, out, user, order, s); }
  }

  /* Basket requests. */

  lemma PlacedLinesKept(a: Db, b: Db, o: Id)
    requires Integrity(a) && Integrity(b) && OnlyBasketsChange(a, b) && o in b.orders && b.orders[o].status != Basket
    ensures o in a.orders && a.orders[o] == b.orders[o]
    ensures forall shop :: ShopLineValues(b, shop, o) == ShopLineValues(a, shop, o)
    ensures LineValues(b, o) == LineValues(a, o)
  {
  }

  lemma BasketsNotListed(a: Db, b: Db, shop: Id)
    requires Integrity(a) && Integrity(b) && OnlyBasketsChange(a, b)
    ensures PartnerShown(b, shop) == PartnerShown(a, shop)
  {
    forall o | o in b.orders && b.orders[o].status != Basket { PlacedLinesKept(a, b, o); }
    assert ListedFor(b, shop) == ListedFor(a, shop);
    ShownAsListed(a, b, shop);
  }

  /** No basket request, finished, failed or killed midway, changes what any shop is shown, or what any customer is
      shown of placed orders. */
  lemma BasketRequestsKeepLists(db: Db, r: Request, cut: nat)
    requires Integrity(db) && BasketRequest(r)
    ensures var out := ServeUpTo(db, r, cut).db;
      && (forall s: Id :: PartnerShown(out, s) == PartnerShown(db, s))
      && (forall u: Id :: OrdersShown(out, u) == OrdersShown(db, u))
  {
    var out := ServeUpTo(db, r, cut).db;
    BasketRequestStmts(r);
    assert forall s | s in Issued(r, cut) :: s in Program(r);
    BasketProgram(Begin(db), Issued(r, cut));
    ExecKeepsIntegrity(Begin(db), Issued(r, cut));
    forall s: Id { BasketsNotListed(db, out, s); }
    forall u: Id { PlacedOrdersKept(db, out, u); }
  }

  lemma PlacedOrdersKept(a: Db, b: Db, user: Id)
    requires Integrity(a) && Integrity(b) && OnlyBasketsChange(a, b)
    ensures OrdersShown(b, user) == OrdersShown(a, user)
  {
    forall o | o in b.orders && b.orders[o].status != Basket { PlacedLinesKept(a, b, o); }
  }

  /* Imports. */

  /** The lines a shop sums for an order, when a user's lines went or none did. */
  lemma ShopLinesMoved(a: Db, b: Db, user: Id, shop: Id, o: Id)
    requires InfosMoved(a, b.infos, b.next.info, b.shops, user)
    requires forall i | i in a.items :: a.items[i].info in a.infos
    requires forall i | i in b.items :: b.items[i].info in b.infos
    ensures b.items == a.items ==> ShopLineValues(b, shop, o) == ShopLineValues(a, shop, o)
    ensures b.items == ItemsOfOthers(a, user) ==>
      ShopLineValues(b, shop, o) == if Owns(a.shops, user, shop) then map[] else ShopLineValues(a, shop, o)
  {
  }

  lemma ListsMoved(a: Db, b: Db, user: Id, shop: Id, clears: bool)
    requires b.orders == a.orders
    requires forall o :: ShopLineValues(b, shop, o) == if clears then map[] else ShopLineValues(a, shop, o)
    ensures PartnerShown(b, shop) == if clears then map[] else PartnerShown(a, shop)
  {
    assert clears ==> ListedFor(b, shop) == {};
    assert !clears ==> ListedFor(b, shop) == ListedFor(a, shop);
    if !clears { ShownAsListed(a, b, shop); }
  }

  /** An import that gets as far as deleting the old rows empties the list of the user's shop, even of orders placed
      long before, and changes no other shop's list; one that does not changes none. */
  lemma ImportListsExactly(db: Db, user: Id, doc: Document, cut: nat, shop: Id)
    requires Integrity(db)
    ensures PartnerShown(ServeUpTo(db, ImportPriceList(user, doc), cut).db, shop)
            == if Clears(db, user, doc, cut) && Owns(db.shops, user, shop) then map[] else PartnerShown(db, shop)
  {
    var out := ServeUpTo(db, ImportPriceList(user, doc), cut).db;
    ImportMoves(db, user, doc, cut);
    ImportItemsExactly(db, user, doc, cut);
    forall o { ShopLinesMoved(db, out, user, shop, o); }
    ListsMoved(db, out, user, shop, Clears(db, user, doc, cut) && Owns(db.shops, user, shop));
  }
}
