/** The SQL statements the application issues, each atomic. An insert that breaks a foreign key, a
    uniqueness rule, a length or a range is refused (None) and changes nothing. */
module Sql {
  import opened Collections
  import opened Schema

  function InsertContact(db: Db, user: Id): Option<Db> {
    if user !in db.users then None
    else Some(db.(contacts := db.contacts[db.next.contact := user],
                  next := db.next.(contact := db.next.contact + 1)))
  }

  function InsertShop(db: Db, row: Shop): Option<Db> {
    if |row.name| > SHOP_NAME || row.user !in db.users || (exists s | s in db.shops :: Owns(db.shops, row.user, s))
    then None
    else Some(db.(shops := db.shops[db.next.shop := row], next := db.next.(shop := db.next.shop + 1)))
  }

  function InsertCategory(db: Db, id: Id, name: string): Option<Db> {
    if id in db.categories || |name| > CATEGORY_NAME || !BigInt(id) then None
    else Some(db.(categories := db.categories[id := name]))
  }

  /** `category_object.save()`: an UPDATE by primary key, or an INSERT when the row is gone. */
  function SaveCategory(db: Db, id: Id, name: string): Option<Db> {
    if |name| > CATEGORY_NAME || !BigInt(id) then None
    else Some(db.(categories := db.categories[id := name]))
  }

  function LinkCategory(db: Db, category: Id, shop: Id): Option<Db> {
    if category !in db.categories || shop !in db.shops then None
    else Some(db.(links := db.links + {(category, shop)}))
  }

  function InsertProduct(db: Db, row: Product): Option<Db> {
    if |row.name| > PRODUCT_NAME || row.category !in db.categories then None
    else Some(db.(products := db.products[db.next.product := row],
                  next := db.next.(product := db.next.product + 1)))
  }

  function InsertInfo(db: Db, row: ProductInfo): Option<Db> {
    if !InfoInRange(row) || row.product !in db.products || row.shop !in db.shops then None
    else Some(db.(infos := db.infos[db.next.info := row], next := db.next.(info := db.next.info + 1)))
  }

  function InsertParameter(db: Db, name: string): Option<Db> {
    if |name| > PARAMETER_NAME then None
    else Some(db.(parameters := db.parameters[db.next.parameter := name],
                  next := db.next.(parameter := db.next.parameter + 1)))
  }

  function InsertValue(db: Db, row: ProductParameter): Option<Db> {
    if |row.value| > PARAMETER_VALUE || row.info !in db.infos || row.parameter !in db.parameters
       || (exists v | v in db.values :: Holds(db.values, row.info, row.parameter, v))
    then None
    else Some(db.(values := db.values[db.next.value := row], next := db.next.(value := db.next.value + 1)))
  }

  /** The ProductInfo rows of one shop. */
  function InfosOf(db: Db, shop: Id): set<Id> {
    set i | i in db.infos && db.infos[i].shop == shop
  }

  /** Deleting ProductInfo rows: their parameters and the order lines that refer to them go with them. */
  function WithoutInfos(db: Db, gone: set<Id>): Db {
    db.(infos := db.infos - gone,
        values := map v | v in db.values && db.values[v].info !in gone :: db.values[v],
        items := map i | i in db.items && db.items[i].info !in gone :: db.items[i])
  }

  /** `ProductInfo.objects.filter(shop_id=shop).delete()` */
  function DeleteInfosOf(db: Db, shop: Id): Db { WithoutInfos(db, InfosOf(db, shop)) }

  /** The ProductInfo rows of one product, in whatever shop. */
  function OffersOf(db: Db, product: int): set<Id> {
    set i | i in db.infos && db.infos[i].product == product
  }

  /** `product.delete()`: its ProductInfo rows go with it, and all that goes with those. */
  function DeleteProduct(db: Db, product: int): Db {
    WithoutInfos(db, OffersOf(db, product)).(products := map p | p in db.products && p != product :: db.products[p])
  }

  function InsertBasket(db: Db, user: Id): Option<Db> {
    if user !in db.users then None
    else Some(db.(orders := db.orders[db.next.order := Order(user, Basket, None)],
                  next := db.next.(order := db.next.order + 1)))
  }

  /** `order.save()`: an UPDATE by primary key, or an INSERT when the row is gone. */
  function SaveOrder(db: Db, id: Id, row: Order): Option<Db> {
    if row.user !in db.users || (row.contact.Some? && row.contact.value !in db.contacts) || id >= db.next.order
    then None
    else Some(db.(orders := db.orders[id := row]))
  }

  function InsertItem(db: Db, row: OrderItem): Option<Db> {
    if row.order !in db.orders || row.info !in db.infos || row.shop !in db.shops || !Positive(row.quantity) then None
    else Some(db.(items := db.items[db.next.item := row], next := db.next.(item := db.next.item + 1)))
  }

  /** `OrderItem.objects.filter(order_id=basket, id=id).update(quantity=quantity)`: the row it changes,
      if any. A value outside the int4 type is refused even when no row matches; a negative one only
      by the CHECK of a row it reaches; an id outside bigint matches nothing and sends no query. */
  function UpdateQuantity(db: Db, basket: Id, id: int, quantity: int): Option<(Db, nat)> {
    if !BigInt(id) then Some((db, 0))
    else if !(-MAX_INT - 1 <= quantity <= MAX_INT) then None
    else if id !in db.items || db.items[id].order != basket then Some((db, 0))
    else if quantity < 0 then None
    else Some((db.(items := db.items[id := db.items[id].(quantity := quantity)]), 1))
  }

  /** `OrderItem.objects.filter(order_id=basket, id__in=ids).delete()`, with the number of rows deleted. */
  function DeleteItems(db: Db, basket: Id, ids: seq<int>): (Db, nat) {
    var gone := set i | i in db.items && db.items[i].order == basket && i in ids;
    (db.(items := db.items - gone), |gone|)
  }

  /** `Contact.objects.filter(user_id=user, id__in=ids).delete()`: orders that point to a deleted contact
      go too, and so do their lines. The count Django returns covers all three tables. */
  function DeleteContacts(db: Db, user: Id, ids: seq<int>): (Db, nat) {
    var contacts := set c | c in db.contacts && db.contacts[c] == user && c in ids;
    var orders := set o | o in db.orders && db.orders[o].contact.Some? && db.orders[o].contact.value in contacts;
    var items := set i | i in db.items && db.items[i].order in orders;
    (db.(contacts := db.contacts - contacts, orders := db.orders - orders, items := db.items - items),
     |contacts| + |orders| + |items|)
  }

  /* Every statement keeps Integrity. */

  ghost predicate Keeps(db: Db, r: Option<Db>) { Integrity(db) && r.Some? ==> Integrity(r.value) }

  lemma ContactKeepsIntegrity(db: Db, user: Id)
    ensures Keeps(db, InsertContact(db, user))
  {
  }

  lemma ShopAddedSound(shops: map<Id, Shop>, n: Id, users: map<Id, User>, row: Shop)
    requires ShopsSound(shops, n, users) && |row.name| <= SHOP_NAME && row.user in users
    requires !exists s | s in shops :: Owns(shops, row.user, s)
    ensures ShopsSound(shops[n := row], n + 1, users)
  {
    var grown := shops[n := row];
    forall u, s, t | Owns(grown, u, s) && Owns(grown, u, t)
      ensures s == t
    {
      assert s != n ==> Owns(shops, u, s);
      assert t != n ==> Owns(shops, u, t);
    }
  }

  /** What refers to shops may refer to more of them. */
  lemma MoreShops(db: Db, shops: map<Id, Shop>)
    requires forall s | s in db.shops :: s in shops
    ensures LinksSound(db.links, db.categories, db.shops) ==> LinksSound(db.links, db.categories, shops)
    ensures InfosSound(db.infos, db.next.info, db.products, db.shops)
            ==> InfosSound(db.infos, db.next.info, db.products, shops)
    ensures ItemsSound(db.items, db.next.item, db.orders, db.infos, db.shops)
            ==> ItemsSound(db.items, db.next.item, db.orders, db.infos, shops)
  {
  }

  lemma ShopKeepsIntegrity(db: Db, row: Shop)
    ensures Keeps(db, InsertShop(db, row))
  {
    if Integrity(db) && InsertShop(db, row).Some? {
      ShopAddedSound(db.shops, db.next.shop, db.users, row);
      MoreShops(db, db.shops[db.next.shop := row]);
    }
  }

  lemma CategoryKeepsIntegrity(db: Db, id: Id, name: string)
    ensures Keeps(db, SaveCategory(db, id, name))
    ensures Keeps(db, InsertCategory(db, id, name))
  {
  }

  lemma LinkKeepsIntegrity(db: Db, category: Id, shop: Id)
    ensures Keeps(db, LinkCategory(db, category, shop))
  {
  }

  lemma ProductKeepsIntegrity(db: Db, row: Product)
    ensures Keeps(db, InsertProduct(db, row))
  {
  }

  lemma InfoKeepsIntegrity(db: Db, row: ProductInfo)
    ensures Keeps(db, InsertInfo(db, row))
  {
  }

  lemma ParameterKeepsIntegrity(db: Db, name: string)
    ensures Keeps(db, InsertParameter(db, name))
  {
  }

  lemma ValueKeepsIntegrity(db: Db, row: ProductParameter)
    ensures Keeps(db, InsertValue(db, row))
  {
    var n := db.next.value;
    var values := db.values[n := row];
    if Integrity(db) {
      assert forall i, p, v | v != n && Holds(values, i, p, v) :: Holds(db.values, i, p, v);
    }
  }

  lemma BasketKeepsIntegrity(db: Db, user: Id)
    ensures Keeps(db, InsertBasket(db, user))
  {
  }

  lemma SaveOrderKeepsIntegrity(db: Db, id: Id, row: Order)
    ensures Keeps(db, SaveOrder(db, id, row))
  {
  }

  lemma ItemKeepsIntegrity(db: Db, row: OrderItem)
    ensures Keeps(db, InsertItem(db, row))
  {
  }

  lemma QuantityKeepsIntegrity(db: Db, basket: Id, id: int, quantity: int)
    ensures Integrity(db) && UpdateQuantity(db, basket, id, quantity).Some?
            ==> Integrity(UpdateQuantity(db, basket, id, quantity).value.0)
  {
  }

  /* The cascades are closed: nothing they leave behind points at a row they took. */

  lemma WithoutInfosKeepsIntegrity(db: Db, gone: set<Id>)
    requires Integrity(db)
    ensures Integrity(WithoutInfos(db, gone))
  {
    assert forall i, p, v | Holds(WithoutInfos(db, gone).values, i, p, v) :: Holds(db.values, i, p, v);
  }

  lemma DeleteProductKeepsIntegrity(db: Db, product: int)
    requires Integrity(db)
    ensures Integrity(DeleteProduct(db, product))
  {
    WithoutInfosKeepsIntegrity(db, OffersOf(db, product));
  }

  lemma DeleteItemsKeepsIntegrity(db: Db, basket: Id, ids: seq<int>)
    requires Integrity(db)
    ensures Integrity(DeleteItems(db, basket, ids).0)
  {
  }

  lemma DeleteContactsKeepsIntegrity(db: Db, user: Id, ids: seq<int>)
    requires Integrity(db)
    ensures Integrity(DeleteContacts(db, user, ids).0)
  {
  }
}
