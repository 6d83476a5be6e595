/** The tables of backend/models.py, as one value, and the conditions PostgreSQL keeps on them. */
module Schema {
  import opened Collections

  datatype Option<+T> = None | Some(value: T)

  // PositiveIntegerField and BigAutoField columns, and the max_length of the text columns.
  const MAX_INT := 0x7fff_ffff
  const MAX_BIGINT := 0x7fff_ffff_ffff_ffff
  const SHOP_NAME := 50
  const CATEGORY_NAME := 50
  const PRODUCT_NAME := 100
  const MODEL := 80
  const PARAMETER_NAME := 50
  const PARAMETER_VALUE := 100

  predicate Positive(n: int) { 0 <= n <= MAX_INT }

  predicate BigInt(n: int) { -MAX_BIGINT - 1 <= n <= MAX_BIGINT }

  datatype UserType = ShopUser | Buyer
  datatype User = User(userType: UserType, email: string)
  datatype Shop = Shop(name: string, user: Id)
  datatype Product = Product(name: string, category: Id)
  datatype ProductInfo = ProductInfo(product: Id, shop: Id, externalId: int, model: string,
                                     price: int, priceRrc: int, quantity: int)
  datatype ProductParameter = ProductParameter(info: Id, parameter: Id, value: string)
  datatype Status = Basket | New | Confirmed | Assembled | Sent | Delivered | Canceled
  datatype Order = Order(user: Id, status: Status, contact: Option<Id>)
  datatype OrderItem = OrderItem(order: Id, info: Id, shop: Id, quantity: int)

  /** The next value of each table's id sequence. Category ids come from the price lists. */
  datatype Sequences = Sequences(contact: Id, shop: Id, product: Id, info: Id, parameter: Id,
                                 value: Id, order: Id, item: Id)

  /** contacts: id -> owner; categories, parameters: id -> name; links: (category, shop) pairs;
      values: the ProductParameter table. */
  datatype Db = Db(
    users: map<Id, User>,
    contacts: map<Id, Id>,
    shops: map<Id, Shop>,
    categories: map<Id, string>,
    links: set<(Id, Id)>,
    products: map<Id, Product>,
    infos: map<Id, ProductInfo>,
    parameters: map<Id, string>,
    values: map<Id, ProductParameter>,
    orders: map<Id, Order>,
    items: map<Id, OrderItem>,
    next: Sequences)

  /** The store right after the migrations, with the given registered users. */
  function Empty(users: map<Id, User>): Db {
    Db(users, map[], map[], map[], {}, map[], map[], map[], map[], map[], map[],
       Sequences(1, 1, 1, 1, 1, 1, 1, 1))
  }

  /* The owner of a shop, and of the shop that sells a ProductInfo. Dangling ids, which Integrity
     rules out, read as a default row. */

  const NO_SHOP := Shop("", 0)
  const NO_INFO := ProductInfo(0, 0, 0, "", 0, 0, 0)
  const NO_PRODUCT := Product("", 0)

  function ShopAt(db: Db, s: Id): Shop { if s in db.shops then db.shops[s] else NO_SHOP }

  function InfoAt(db: Db, i: Id): ProductInfo { if i in db.infos then db.infos[i] else NO_INFO }

  function ProductAt(db: Db, p: Id): Product { if p in db.products then db.products[p] else NO_PRODUCT }

  predicate Owns(shops: map<Id, Shop>, user: Id, s: Id) { s in shops && shops[s].user == user }

  predicate Sells(db: Db, user: Id, i: Id) { i in db.infos && Owns(db.shops, user, db.infos[i].shop) }

  /* Integrity: every foreign key resolves, every uniqueness rule and column range holds, and
     every stored id was already handed out. One predicate per table, over the tables it reads. */

  /** Users do not change during a run, so this one is an assumption where it is needed. */
  ghost predicate EmailsUnique(users: map<Id, User>) {
    forall u, w | u in users && w in users && users[u].email == users[w].email :: u == w
  }

  ghost predicate ContactsSound(contacts: map<Id, Id>, next: Id, users: map<Id, User>) {
    forall c | c in contacts :: contacts[c] in users && c < next
  }

  ghost predicate ShopsSound(shops: map<Id, Shop>, next: Id, users: map<Id, User>) {
    && (forall s | s in shops :: shops[s].user in users && |shops[s].name| <= SHOP_NAME && s < next)
    && (forall u, s, t | Owns(shops, u, s) && Owns(shops, u, t) :: s == t)
  }

  ghost predicate CategoriesSound(categories: map<Id, string>) {
    forall c | c in categories :: |categories[c]| <= CATEGORY_NAME && BigInt(c)
  }

  ghost predicate LinksSound(links: set<(Id, Id)>, categories: map<Id, string>, shops: map<Id, Shop>) {
    forall l | l in links :: l.0 in categories && l.1 in shops
  }

  ghost predicate ProductsSound(products: map<Id, Product>, next: Id, categories: map<Id, string>) {
    forall p | p in products ::
      products[p].category in categories && |products[p].name| <= PRODUCT_NAME && p < next
  }

  predicate InfoInRange(row: ProductInfo) {
    && Positive(row.externalId) && Positive(row.price) && Positive(row.priceRrc)
    && Positive(row.quantity) && |row.model| <= MODEL
  }

  ghost predicate InfosSound(infos: map<Id, ProductInfo>, next: Id, products: map<Id, Product>, shops: map<Id, Shop>) {
    forall i | i in infos ::
      infos[i].product in products && infos[i].shop in shops && InfoInRange(infos[i]) && i < next
  }

  ghost predicate ParametersSound(parameters: map<Id, string>, next: Id) {
    forall p | p in parameters :: |parameters[p]| <= PARAMETER_NAME && p < next
  }

  /** `v` is a value of ProductInfo `info` for `parameter`. */
  predicate Holds(values: map<Id, ProductParameter>, info: Id, parameter: Id, v: Id) {
    v in values && values[v].info == info && values[v].parameter == parameter
  }

  ghost predicate ValuesSound(values: map<Id, ProductParameter>, next: Id,
                              infos: map<Id, ProductInfo>, parameters: map<Id, string>) {
    && (forall v | v in values ::
          && values[v].info in infos && values[v].parameter in parameters
          && |values[v].value| <= PARAMETER_VALUE && v < next)
    && (forall i, p, v, w | Holds(values, i, p, v) && Holds(values, i, p, w) :: v == w)
  }

  ghost predicate OrdersSound(orders: map<Id, Order>, next: Id, users: map<Id, User>, contacts: map<Id, Id>) {
    forall o | o in orders ::
      && orders[o].user in users && o < next
      && (orders[o].contact.Some? ==> orders[o].contact.value in contacts)
  }

  ghost predicate ItemsSound(items: map<Id, OrderItem>, next: Id, orders: map<Id, Order>,
                             infos: map<Id, ProductInfo>, shops: map<Id, Shop>) {
    forall i | i in items ::
      && items[i].order in orders && items[i].info in infos && items[i].shop in shops
      && Positive(items[i].quantity) && i < next
  }

  ghost predicate Integrity(db: Db) {
    && ContactsSound(db.contacts, db.next.contact, db.users)
    && ShopsSound(db.shops, db.next.shop, db.users)
    && CategoriesSound(db.categories)
    && LinksSound(db.links, db.categories, db.shops)
    && ProductsSound(db.products, db.next.product, db.categories)
    && InfosSound(db.infos, db.next.info, db.products, db.shops)
    && ParametersSound(db.parameters, db.next.parameter)
    && ValuesSound(db.values, db.next.value, db.infos, db.parameters)
    && OrdersSound(db.orders, db.next.order, db.users, db.contacts)
    && ItemsSound(db.items, db.next.item, db.orders, db.infos, db.shops)
  }
}
