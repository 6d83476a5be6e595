/** The totals the API shows: `Sum(quantity * price_rrc)` over an order's lines for its customer
    (OrderView.get, BasketView.get), and over one shop's lines for that shop (PartnerOrders.get). */
module Money {
  import opened Collections
  import opened Schema
  import opened PriceList
  import opened Underway
  import opened Outcome

  function LineValue(db: Db, i: Id): int
    requires i in db.items
  {
    db.items[i].quantity * InfoAt(db, db.items[i].info).priceRrc
  }

  function LineValues(db: Db, order: Id): map<Id, int> {
    map i | i in db.items && db.items[i].order == order :: LineValue(db, i)
  }

  /** The sum an annotated query gives: null when no row is joined. */
  ghost function Total(values: map<Id, int>): Option<int> { if values == map[] then None else Some(Sum(values)) }

  ghost function OrderTotal(db: Db, order: Id): Option<int> { Total(LineValues(db, order)) }

  /** The lines of an order that a shop sells: the filter and the sum go through the same join. */
  function ShopLineValues(db: Db, shop: Id, order: Id): map<Id, int> {
    map i | i in db.items && db.items[i].order == order && InfoAt(db, db.items[i].info).shop == shop :: LineValue(db, i)
  }

  /** The orders PartnerOrders lists for a shop. */
  function ListedFor(db: Db, shop: Id): set<Id> {
    set o | o in db.orders && db.orders[o].status != Basket && ShopLineValues(db, shop, o) != map[]
  }

  ghost function ShopTotals(db: Db, order: Id): map<Id, int> {
    map s | s in db.shops :: Sum(ShopLineValues(db, s, order))
  }

  /** The shop that sells the goods of each line of an order. */
  ghost function Sellers(db: Db, order: Id): map<Id, Id> {
    map i | i in db.items && db.items[i].order == order :: InfoAt(db, db.items[i].info).shop
  }

  lemma LinesOfShop(db: Db, order: Id, shop: Id)
    ensures ShopLineValues(db, shop, order) == InGroup(LineValues(db, order), Sellers(db, order), shop)
  {
  }

  lemma SellersAreShops(db: Db, order: Id)
    requires Integrity(db)
    ensures forall i | i in Sellers(db, order) :: Sellers(db, order)[i] in db.shops
  {
    forall i | i in db.items
      ensures InfoAt(db, db.items[i].info).shop in db.shops
    {
      assert db.items[i].info in db.infos;
    }
  }

  lemma ShopTotalsAreSumsByGroup(db: Db, order: Id)
    ensures ShopTotals(db, order) == SumsByGroup(LineValues(db, order), Sellers(db, order), db.shops.Keys)
  {
    forall s | s in db.shops
      ensures ShopLineValues(db, s, order) == InGroup(LineValues(db, order), Sellers(db, order), s)
    {
      LinesOfShop(db, order, s);
    }
  }

  /** No money is lost or counted twice between the customer's and the shops' views of an order, and an order
      has a null total exactly when no shop lists it. */
  lemma MoneyIsConserved(db: Db, order: Id)
    requires Integrity(db) && order in db.orders && db.orders[order].status != Basket
    ensures Sum(ShopTotals(db, order)) == Sum(LineValues(db, order))
    ensures OrderTotal(db, order).Some? ==> OrderTotal(db, order).value == Sum(ShopTotals(db, order))
    ensures OrderTotal(db, order) == None <==> forall s | s in db.shops :: order !in ListedFor(db, s)
  {
    var values, sellers := LineValues(db, order), Sellers(db, order);
    SellersAreShops(db, order);
    SumByGroup(values, sellers, db.shops.Keys);
    ShopTotalsAreSumsByGroup(db, order);
    if i :| i in values {
      assert i in ShopLineValues(db, sellers[i], order);
    } else {
      forall s | s in db.shops
        ensures ShopLineValues(db, s, order) == map[]
      {
        LinesOfShop(db, order, s);
      }
    }
  }

  /* The orders a shop is shown. */

  /** Line `i` of the order sells a good of the shop. */
  predicate SellsIn(db: Db, shop: Id, order: Id, i: Id) {
    && i in db.items && db.items[i].order == order
    && db.items[i].info in db.infos && db.infos[db.items[i].info].shop == shop
  }

  ghost predicate HasGoodsOf(db: Db, shop: Id, order: Id) { exists i :: SellsIn(db, shop, order, i) }

  lemma HasGoodsWhenSummed(db: Db, shop: Id, order: Id)
    requires Integrity(db)
    ensures HasGoodsOf(db, shop, order) <==> ShopLineValues(db, shop, order) != map[]
  {
    var values := ShopLineValues(db, shop, order);
    if i :| SellsIn(db, shop, order, i) { assert i in values; }
    if i :| i in values { assert db.items[i].info in db.infos && SellsIn(db, shop, order, i); }
  }

  /** A shop is shown exactly the placed orders with a line that sells its goods, whatever shop the line records. */
  lemma ListedExactly(db: Db, shop: Id, order: Id)
    requires Integrity(db)
    ensures order in ListedFor(db, shop)
            <==> order in db.orders && db.orders[order].status != Basket && exists i :: SellsIn(db, shop, order, i)
  {
    HasGoodsWhenSummed(db, shop, order);
    assert HasGoodsOf(db, shop, order) <==> exists i :: SellsIn(db, shop, order, i);
  }

  /* How an answer moves. */

  function OrZero(total: Option<int>): int { if total.Some? then total.value else 0 }

  lemma TotalIsSum(values: map<Id, int>)
    ensures OrZero(Total(values)) == Sum(values)
    ensures Total(values) == None <==> values.Keys == {}
  {
  }

  lemma TotalMoved(was: map<Id, int>, now: map<Id, int>, change: int)
    requires now.Keys == was.Keys && Sum(now) == Sum(was) + change
    ensures Total(now) == if Total(was).None? then None else Some(Total(was).value + change)
  {
    TotalIsSum(was);
    TotalIsSum(now);
  }

  lemma TotalGrown(was: map<Id, int>, now: map<Id, int>, added: set<Id>, change: int)
    requires now.Keys == was.Keys + added && Sum(now) == Sum(was) + change && added != {}
    ensures Total(now) == Some(OrZero(Total(was)) + change)
  {
    TotalIsSum(was);
    TotalIsSum(now);
  }

  /** From `a` to `b` the answer for the order moved by `change`, and is null when it was. */
  ghost predicate AnswerMovedBy(a: Db, b: Db, order: Id, change: int) {
    OrderTotal(b, order) == if OrderTotal(a, order).None? then None else Some(OrderTotal(a, order).value + change)
  }

  lemma AnswerMoved(a: Db, b: Db, order: Id, change: int)
    requires LineValues(b, order).Keys == LineValues(a, order).Keys
    requires Sum(LineValues(b, order)) == Sum(LineValues(a, order)) + change
    ensures AnswerMovedBy(a, b, order, change)
  {
    TotalMoved(LineValues(a, order), LineValues(b, order), change);
  }

  /** Taking lines off an order lowers its answer by what they were worth, down to null when none is left. */
  lemma TotalWithout(was: map<Id, int>, now: map<Id, int>, gone: map<Id, int>)
    requires Splits(was, now, gone)
    ensures Total(now) == if was.Keys <= gone.Keys then None else Some(OrZero(Total(was)) - Sum(gone))
  {
    SumSplit(was, now, gone);
    TotalIsSum(was);
    TotalIsSum(now);
    if k :| k in now { assert k in was && k !in gone; }
  }

  /** From `a` to `b` the answer for the order grew by `change`, from null if it was null. */
  ghost predicate AnswerGrownBy(a: Db, b: Db, order: Id, change: int) {
    OrderTotal(b, order) == Some(OrZero(OrderTotal(a, order)) + change)
  }

  lemma AnswerGrown(a: Db, b: Db, order: Id, added: set<Id>, change: int)
    requires LineValues(b, order).Keys == LineValues(a, order).Keys + added && added != {}
    requires Sum(LineValues(b, order)) == Sum(LineValues(a, order)) + change
    ensures AnswerGrownBy(a, b, order, change)
  {
    TotalGrown(LineValues(a, order), LineValues(b, order), added, change);
  }

  /** From `a` to `b` the answer for the order fell by what the lines `gone` were worth, to null if those were all. */
  ghost predicate AnswerWithout(a: Db, b: Db, order: Id, gone: map<Id, int>) {
    OrderTotal(b, order)
    == if LineValues(a, order).Keys <= gone.Keys then None else Some(OrZero(OrderTotal(a, order)) - Sum(gone))
  }

  lemma AnswerLoses(a: Db, b: Db, order: Id, gone: map<Id, int>)
    requires Splits(LineValues(a, order), LineValues(b, order), gone)
    ensures AnswerWithout(a, b, order, gone)
  {
    TotalWithout(LineValues(a, order), LineValues(b, order), gone);
  }

  /* The effect of an import on totals. */

  /** The lines of an order that sell goods of the user's shop. */
  function ShareOf(db: Db, user: Id, order: Id): map<Id, int> {
    map i | i in db.items && db.items[i].order == order && Sells(db, user, db.items[i].info) :: LineValue(db, i)
  }

  lemma ShareIsShopTotal(db: Db, user: Id, shop: Id, order: Id)
    requires Integrity(db) && Owns(db.shops, user, shop)
    ensures ShareOf(db, user, order) == ShopLineValues(db, shop, order)
  {
    forall i | i in db.items
      ensures Sells(db, user, db.items[i].info) <==> InfoAt(db, db.items[i].info).shop == shop
    {
      var info := db.items[i].info;
      assert info in db.infos && Owns(db.shops, db.shops[db.infos[info].shop].user, db.infos[info].shop);
    }
  }

  lemma ValuesMovedWithItems(a: Db, b: Db, user: Id, order: Id)
    requires InfosMoved(a, b.infos, b.next.info, b.shops, user)
    requires forall i | i in a.items :: a.items[i].info in a.infos
    requires forall i | i in b.items :: b.items[i].info in b.infos
    ensures b.items == a.items ==> LineValues(b, order) == LineValues(a, order)
    ensures b.items == ItemsOfOthers(a, user)
            ==> Splits(LineValues(a, order), LineValues(b, order), ShareOf(a, user, order))
  {
    var v, w, share := LineValues(a, order), LineValues(b, order), ShareOf(a, user, order);
    if b.items == a.items {
      assert forall i | i in w :: w[i] == v[i];
    }
    if b.items == ItemsOfOthers(a, user) {
      OthersKeepTheirValues(a, b, user, order);
      assert forall i | i in v :: i in w || i in share;
    }
  }

  lemma OthersKeepTheirValues(a: Db, b: Db, user: Id, order: Id)
    requires InfosMoved(a, b.infos, b.next.info, b.shops, user) && b.items == ItemsOfOthers(a, user)
    requires forall i | i in a.items :: a.items[i].info in a.infos
    ensures forall i | i in LineValues(b, order) ::
      i in LineValues(a, order) && i !in ShareOf(a, user, order) && LineValues(b, order)[i] == LineValues(a, order)[i]
  {
  }

  /** However an import ends, the total of an order is what it was, or has dropped by exactly what its lines
      from the importing user's shop were worth. */
  lemma ImportEffectOnTotal(db: Db, user: Id, doc: Document, k: nat, order: Id)
    requires Integrity(db) && k <= |ImportProgram(user, doc)|
    ensures var out := ImportPrefix(db, user, doc, k).db;
      || LineValues(out, order) == LineValues(db, order)
      || Sum(LineValues(out, order)) == Sum(LineValues(db, order)) - Sum(ShareOf(db, user, order))
  {
    var out := ImportPrefix(db, user, doc, k).db;
    PrefixUnderway(db, user, doc, k);
    ValuesMovedWithItems(db, out, user, order);
    if out.items != db.items {
      SumSplit(LineValues(db, order), LineValues(out, order), ShareOf(db, user, order));
    }
  }

  /* Totals only depend on lines. */

  lemma ValuesNonNegative(db: Db, order: Id)
    requires Integrity(db)
    ensures forall i | i in LineValues(db, order) :: LineValues(db, order)[i] >= 0
  {
    forall i | i in LineValues(db, order)
      ensures LineValue(db, i) >= 0
    {
      assert db.items[i].info in db.infos;
    }
  }

  /** Fewer lines of the same values are worth no more. */
  lemma FewerLinesNoDearer(a: map<Id, int>, b: map<Id, int>)
    requires forall i | i in b :: i in a && a[i] == b[i]
    requires forall i | i in a :: a[i] >= 0
    ensures Sum(b) <= Sum(a)
  {
    var rest := map i | i in a && i !in b :: a[i];
    assert Splits(a, b, rest);
    SumSplit(a, b, rest);
    SumNonNegative(rest);
  }
}
