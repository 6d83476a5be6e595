/** Every handler is a straight-line program of SQL statements over a few local variables: loops are
    unrolled over their data, and an exception or an early return ends the program. No transaction
    spans two statements. */
module Machine {
  import opened Collections
  import opened Schema
  import opened Sql

  /** A value read from request JSON: absent, present but unusable, or an integer. */
  datatype Field = Omitted | Invalid | Given(value: int)

  /** One element of the list posted to the basket. */
  datatype Entry = NotAnObject | Entry(info: Field, shop: Field, quantity: Field, order: Field)

  datatype Stmt =
    | Raise                                    // an exception that issues no statement
    // the price-list task
    | FindShop(name: string)
    | EnsureShop(name: string, user: Id)
    | EnsureCategory(id: Id, name: string)
    | LinkShop
    | ResaveCategory
    | ClearShop
    | FindProduct(key: Product)
    | EnsureProduct(key: Product)
    | CreateInfo(externalId: int, model: string, price: int, priceRrc: int, quantity: int)
    | FindParameter(name: string)
    | EnsureParameter(name: string)
    | CreateValue(value: string)
    // the API handlers
    | CreateContact(user: Id)
    | RemoveContacts(user: Id, ids: seq<int>)
    | FindBasket(user: Id)
    | EnsureBasket(user: Id)
    | AddLine(entry: Entry)
    | SetLine(item: int, quantity: int)
    | RemoveLines(ids: seq<int>)
    | LoadOrder(order: int, user: Id)
    | PlaceOrder(contact: Option<Id>)
    | RemoveProduct(product: int)

  /** What a `get` left in a variable: not read yet, no row with this key, or the id of a row. */
  datatype Ref<K> = Unset | Absent(key: K) | At(id: Id)

  datatype Vars = Vars(found: Ref<string>, shop: Option<Id>, category: Option<(Id, string)>, product: Ref<Product>,
                       info: Option<Id>, parameter: Ref<string>, basket: Ref<Id>, order: Option<(Id, Order)>,
                       count: nat)

  const NO_VARS := Vars(Unset, None, None, Unset, None, Unset, Unset, None, 0)

  /** A program under way. `failed`: it raised or returned early, and issues nothing more. */
  datatype Run = Run(db: Db, vars: Vars, failed: bool)

  function Begin(db: Db): Run { Run(db, NO_VARS, false) }

  function Fail(c: Run): Run { c.(failed := true) }

  function Commit(c: Run, r: Option<Db>, vars: Vars): Run {
    if r.None? then Fail(c) else Run(r.value, vars, false)
  }

  function ShopsNamed(shops: map<Id, Shop>, name: string): set<Id> {
    set s | s in shops && shops[s].name == name
  }

  function BasketsOf(orders: map<Id, Order>, user: Id): set<Id> {
    set o | o in orders && orders[o].user == user && orders[o].status == Basket
  }

  ghost function RefTo<K>(r: Lookup, key: K): Ref<K>
    requires r != Many
  {
    if r == Missing then Absent(key) else At(r.id)
  }

  /* The steps of the price-list task (backend/tasks.py). */

  ghost function StepFindShop(c: Run, name: string): Run {
    var r := Get(ShopsNamed(c.db.shops, name));
    if r == Many then Fail(c) else c.(vars := c.vars.(found := RefTo(r, name)))
  }

  function StepEnsureShop(c: Run, name: string, user: Id): Run {
    match c.vars.found
    case Absent(key) =>
      if key != name then Fail(c)
      else Commit(c, InsertShop(c.db, Shop(name, user)),
                  c.vars.(found := At(c.db.next.shop), shop := Some(c.db.next.shop)))
    case At(s) => if Owns(c.db.shops, user, s) then c.(vars := c.vars.(shop := Some(s))) else Fail(c)
    case Unset => Fail(c)
  }

  function StepEnsureCategory(c: Run, id: Id, name: string): Run {
    var vars := c.vars.(category := Some((id, name)));
    if id !in c.db.categories then Commit(c, InsertCategory(c.db, id, name), vars)
    else if c.db.categories[id] == name then c.(vars := vars)
    else Fail(c)
  }

  function StepLinkShop(c: Run): Run {
    if c.vars.category.None? || c.vars.shop.None? then Fail(c)
    else Commit(c, LinkCategory(c.db, c.vars.category.value.0, c.vars.shop.value), c.vars)
  }

  function StepResaveCategory(c: Run): Run {
    if c.vars.category.None? then Fail(c)
    else Commit(c, SaveCategory(c.db, c.vars.category.value.0, c.vars.category.value.1), c.vars)
  }

  function StepClearShop(c: Run): Run {
    if c.vars.shop.None? then Fail(c) else c.(db := DeleteInfosOf(c.db, c.vars.shop.value))
  }

  ghost function StepFindProduct(c: Run, key: Product): Run {
    var r := Get(WithValue(c.db.products, key));
    if r == Many then Fail(c) else c.(vars := c.vars.(product := RefTo(r, key)))
  }

  function StepEnsureProduct(c: Run, key: Product): Run {
    match c.vars.product
    case Absent(k) =>
      if k != key then Fail(c)
      else Commit(c, InsertProduct(c.db, key), c.vars.(product := At(c.db.next.product)))
    case At(_) => c
    case Unset => Fail(c)
  }

  function StepCreateInfo(c: Run, s: Stmt): Run
    requires s.CreateInfo?
  {
    if !c.vars.product.At? || c.vars.shop.None? then Fail(c)
    else Commit(c, InsertInfo(c.db, ProductInfo(c.vars.product.id, c.vars.shop.value, s.externalId, s.model,
                                                s.price, s.priceRrc, s.quantity)),
                c.vars.(info := Some(c.db.next.info)))
  }

  ghost function StepFindParameter(c: Run, name: string): Run {
    var r := Get(WithValue(c.db.parameters, name));
    if r == Many then Fail(c) else c.(vars := c.vars.(parameter := RefTo(r, name)))
  }

  function StepEnsureParameter(c: Run, name: string): Run {
    match c.vars.parameter
    case Absent(k) =>
      if k != name then Fail(c)
      else Commit(c, InsertParameter(c.db, name), c.vars.(parameter := At(c.db.next.parameter)))
    case At(_) => c
    case Unset => Fail(c)
  }

  function StepCreateValue(c: Run, value: string): Run {
    if !c.vars.parameter.At? || c.vars.info.None? then Fail(c)
    else Commit(c, InsertValue(c.db, ProductParameter(c.vars.info.value, c.vars.parameter.id, value)), c.vars)
  }

  /* The steps of the API handlers (backend/views.py). */

  ghost function StepFindBasket(c: Run, user: Id): Run {
    var r := Get(BasketsOf(c.db.orders, user));
    if r == Many then Fail(c) else c.(vars := c.vars.(basket := RefTo(r, user)))
  }

  function StepEnsureBasket(c: Run, user: Id): Run {
    match c.vars.basket
    case Absent(u) =>
      if u != user then Fail(c)
      else Commit(c, InsertBasket(c.db, user), c.vars.(basket := At(c.db.next.order)))
    case At(_) => c
    case Unset => Fail(c)
  }

  /** A foreign key the serializer accepts: none at all, or the id of a stored row. */
  predicate KeyAccepted<V>(f: Field, rows: map<Id, V>) { f.Omitted? || (f.Given? && f.value in rows) }

  /** `OrderItemSaveSerializer(data=entry)`, then `is_valid` and `save`. The serializer does not require
      the foreign keys, which may be blank; the insert refuses a missing one. */
  function SaveEntry(db: Db, e: Entry): Option<Db> {
    if e.NotAnObject? then None
    else if !KeyAccepted(e.info, db.infos) || !KeyAccepted(e.shop, db.shops) || !KeyAccepted(e.order, db.orders)
            || !e.quantity.Given? || !Positive(e.quantity.value) then None
    else if e.info.Omitted? || e.shop.Omitted? || e.order.Omitted? then None
    else InsertItem(db, OrderItem(e.order.value, e.info.value, e.shop.value, e.quantity.value))
  }

  function StepAddLine(c: Run, e: Entry): Run {
    if !c.vars.basket.At? || e.NotAnObject? then Fail(c)
    else Commit(c, SaveEntry(c.db, e.(order := Given(c.vars.basket.id))), c.vars)
  }

  function StepSetLine(c: Run, item: int, quantity: int): Run {
    if !c.vars.basket.At? then Fail(c) else
      match UpdateQuantity(c.db, c.vars.basket.id, item, quantity)
      case None => Fail(c)
      case Some((db, n)) => Run(db, c.vars.(count := c.vars.count + n), false)
  }

  function StepRemoveLines(c: Run, ids: seq<int>): Run {
    if !c.vars.basket.At? then Fail(c) else
      var (db, n) := DeleteItems(c.db, c.vars.basket.id, ids);
      Run(db, c.vars.(count := n), false)
  }

  function StepLoadOrder(c: Run, order: int, user: Id): Run {
    if order in c.db.orders && c.db.orders[order].user == user
    then c.(vars := c.vars.(order := Some((order, c.db.orders[order]))))
    else Fail(c)
  }

  function StepPlaceOrder(c: Run, contact: Option<Id>): Run {
    if c.vars.order.None? then Fail(c)
    else Commit(c, SaveOrder(c.db, c.vars.order.value.0, Order(c.vars.order.value.1.user, New, contact)), c.vars)
  }

  function StepRemoveContacts(c: Run, user: Id, ids: seq<int>): Run {
    var (db, n) := DeleteContacts(c.db, user, ids);
    Run(db, c.vars.(count := n), false)
  }

  /** The lookup that answers 404, and the deletion. */
  function StepRemoveProduct(c: Run, product: int): Run {
    if product !in c.db.products then Fail(c) else c.(db := DeleteProduct(c.db, product))
  }

  ghost function Step(c: Run, s: Stmt): Run {
    if c.failed then c else
      match s
      case Raise => Fail(c)
      case FindShop(name) => StepFindShop(c, name)
      case EnsureShop(name, user) => StepEnsureShop(c, name, user)
      case EnsureCategory(id, name) => StepEnsureCategory(c, id, name)
      case LinkShop => StepLinkShop(c)
      case ResaveCategory => StepResaveCategory(c)
      case ClearShop => StepClearShop(c)
      case FindProduct(key) => StepFindProduct(c, key)
      case EnsureProduct(key) => StepEnsureProduct(c, key)
      case CreateInfo(_, _, _, _, _) => StepCreateInfo(c, s)
      case FindParameter(name) => StepFindParameter(c, name)
      case EnsureParameter(name) => StepEnsureParameter(c, name)
      case CreateValue(value) => StepCreateValue(c, value)
      case CreateContact(user) => Commit(c, InsertContact(c.db, user), c.vars)
      case RemoveContacts(user, ids) => StepRemoveContacts(c, user, ids)
      case FindBasket(user) => StepFindBasket(c, user)
      case EnsureBasket(user) => StepEnsureBasket(c, user)
      case AddLine(entry) => StepAddLine(c, entry)
      case SetLine(item, quantity) => StepSetLine(c, item, quantity)
      case RemoveLines(ids) => StepRemoveLines(c, ids)
      case LoadOrder(order, user) => StepLoadOrder(c, order, user)
      case PlaceOrder(contact) => StepPlaceOrder(c, contact)
      case RemoveProduct(product) => StepRemoveProduct(c, product)
  }

  /* What a statement can change. */

  /** The statements only the price-list task issues. */
  predicate OfImport(s: Stmt) {
    || s.FindShop? || s.EnsureShop? || s.EnsureCategory? || s.LinkShop? || s.ResaveCategory? || s.ClearShop?
    || s.FindProduct? || s.EnsureProduct? || s.CreateInfo? || s.FindParameter? || s.EnsureParameter? || s.CreateValue?
  }

  ghost predicate TablesFramed(a: Db, b: Db, s: Stmt) {
    && b.users == a.users
    && (!s.CreateContact? && !s.RemoveContacts? ==> b.contacts == a.contacts)
    && (!s.EnsureShop? ==> b.shops == a.shops)
    && (!s.EnsureCategory? && !s.ResaveCategory? ==> b.categories == a.categories)
    && (!s.LinkShop? ==> b.links == a.links)
    && (!s.EnsureProduct? && !s.RemoveProduct? ==> b.products == a.products)
    && (!s.EnsureProduct? ==> b.next.product == a.next.product)
    && (!s.CreateInfo? && !s.ClearShop? && !s.RemoveProduct? ==> b.infos == a.infos)
    && (!s.CreateInfo? ==> b.next.info == a.next.info)
    && (!s.EnsureParameter? ==> b.parameters == a.parameters)
    && (!s.CreateValue? && !s.ClearShop? && !s.RemoveProduct? ==> b.values == a.values)
    && (!s.EnsureBasket? && !s.PlaceOrder? && !s.RemoveContacts? ==> b.orders == a.orders)
    && (!s.EnsureBasket? ==> b.next.order == a.next.order)
    && (!s.ClearShop? && !s.AddLine? && !s.SetLine? && !s.RemoveLines? && !s.RemoveContacts? && !s.RemoveProduct?
        ==> b.items == a.items)
  }

  /** The category the run is about to save has the name it will write. */
  predicate NameKnown(categories: map<Id, string>, vars: Vars) {
    vars.category.Some? ==> var (id, name) := vars.category.value; id in categories && categories[id] == name
  }

  ghost predicate VarsFramed(a: Vars, b: Vars, s: Stmt) {
    && (!s.FindShop? && !s.EnsureShop? ==> b.found == a.found)
    && (!s.EnsureShop? ==> b.shop == a.shop)
    && (!s.EnsureCategory? ==> b.category == a.category)
    && (!s.FindProduct? && !s.EnsureProduct? ==> b.product == a.product)
    && (!s.CreateInfo? ==> b.info == a.info)
    && (!s.FindParameter? && !s.EnsureParameter? ==> b.parameter == a.parameter)
    && (!s.FindBasket? && !s.EnsureBasket? ==> b.basket == a.basket)
    && (!s.LoadOrder? ==> b.order == a.order)
  }

  ghost predicate Framed(c: Run, d: Run, s: Stmt) { TablesFramed(c.db, d.db, s) && VarsFramed(c.vars, d.vars, s) }

  lemma CatalogueLookupsFramed(c: Run, name: string, key: Product)
    ensures Framed(c, StepFindShop(c, name), FindShop(name))
    ensures Framed(c, StepFindProduct(c, key), FindProduct(key))
    ensures Framed(c, StepFindParameter(c, name), FindParameter(name))
  {
  }

  lemma OrderLookupsFramed(c: Run, user: Id, order: int)
    ensures Framed(c, StepFindBasket(c, user), FindBasket(user))
    ensures Framed(c, StepLoadOrder(c, order, user), LoadOrder(order, user))
  {
  }

  lemma EnsureShopFramed(c: Run, name: string, user: Id)
    ensures Framed(c, StepEnsureShop(c, name, user), EnsureShop(name, user))
  {
    var d := StepEnsureShop(c, name, user);
    assert d.db == c.db.(shops := d.db.shops, next := c.db.next.(shop := d.db.next.shop));
    assert d.vars == c.vars.(found := d.vars.found, shop := d.vars.shop);
  }

  lemma EnsureCategoryFramed(c: Run, id: Id, name: string)
    ensures Framed(c, StepEnsureCategory(c, id, name), EnsureCategory(id, name))
  {
  }

  lemma EnsureProductFramed(c: Run, key: Product)
    ensures Framed(c, StepEnsureProduct(c, key), EnsureProduct(key))
  {
  }

  lemma EnsureParameterFramed(c: Run, name: string)
    ensures Framed(c, StepEnsureParameter(c, name), EnsureParameter(name))
  {
  }

  lemma LinksFramed(c: Run)
    ensures Framed(c, StepLinkShop(c), LinkShop)
    ensures Framed(c, StepResaveCategory(c), ResaveCategory)
  {
  }

  lemma RowsFramed(c: Run, s: Stmt)
    requires s.CreateInfo? || s.CreateValue?
    ensures s.CreateInfo? ==> Framed(c, StepCreateInfo(c, s), s)
    ensures s.CreateValue? ==> Framed(c, StepCreateValue(c, s.value), s)
  {
  }

  lemma ClearShopFramed(c: Run)
    ensures Framed(c, StepClearShop(c), ClearShop)
  {
  }

  lemma RemoveProductFramed(c: Run, product: int)
    ensures Framed(c, StepRemoveProduct(c, product), RemoveProduct(product))
  {
  }

  lemma ContactsFramed(c: Run, user: Id, ids: seq<int>)
    ensures Framed(c, Commit(c, InsertContact(c.db, user), c.vars), CreateContact(user))
    ensures Framed(c, StepRemoveContacts(c, user, ids), RemoveContacts(user, ids))
  {
  }

  lemma OrdersFramed(c: Run, user: Id, contact: Option<Id>)
    ensures Framed(c, StepEnsureBasket(c, user), EnsureBasket(user))
    ensures Framed(c, StepPlaceOrder(c, contact), PlaceOrder(contact))
  {
  }

  lemma AddLineFramed(c: Run, e: Entry)
    ensures Framed(c, StepAddLine(c, e), AddLine(e))
  {
  }

  lemma SetLineFramed(c: Run, item: int, quantity: int)
    ensures Framed(c, StepSetLine(c, item, quantity), SetLine(item, quantity))
  {
  }

  lemma RemoveLinesFramed(c: Run, ids: seq<int>)
    ensures Framed(c, StepRemoveLines(c, ids), RemoveLines(ids))
  {
  }

  lemma ImportStepFramed(c: Run, s: Stmt)
    requires !c.failed && OfImport(s)
    ensures Framed(c, Step(c, s), s)
  {
    match s
    case FindShop(name) => CatalogueLookupsFramed(c, name, Product("", 0));
    case FindProduct(key) => CatalogueLookupsFramed(c, "", key);
    case FindParameter(name) => CatalogueLookupsFramed(c, name, Product("", 0));
    case EnsureShop(name, user) => EnsureShopFramed(c, name, user);
    case EnsureCategory(id, name) => EnsureCategoryFramed(c, id, name);
    case EnsureProduct(key) => EnsureProductFramed(c, key);
    case EnsureParameter(name) => EnsureParameterFramed(c, name);
    case LinkShop => LinksFramed(c);
    case ResaveCategory => LinksFramed(c);
    case ClearShop => ClearShopFramed(c);
    case CreateInfo(_, _, _, _, _) => RowsFramed(c, s);
    case CreateValue(_) => RowsFramed(c, s);
  }

  lemma HandlerStepFramed(c: Run, s: Stmt)
    requires !c.failed && !s.Raise? && !OfImport(s)
    ensures Framed(c, Step(c, s), s)
  {
    match s
    case CreateContact(user) => ContactsFramed(c, user, []);
    case RemoveContacts(user, ids) => ContactsFramed(c, user, ids);
    case FindBasket(user) => OrderLookupsFramed(c, user, 0);
    case LoadOrder(order, user) => OrderLookupsFramed(c, user, order);
    case EnsureBasket(user) => OrdersFramed(c, user, None);
    case PlaceOrder(contact) => OrdersFramed(c, 0, contact);
    case RemoveProduct(product) => RemoveProductFramed(c, product);
    case AddLine(e) => AddLineFramed(c, e);
    case SetLine(item, quantity) => SetLineFramed(c, item, quantity);
    case RemoveLines(ids) => RemoveLinesFramed(c, ids);
  }

  lemma StepFramed(c: Run, s: Stmt)
    ensures Framed(c, Step(c, s), s)
  {
    if c.failed || s.Raise? {
      assert Step(c, s).db == c.db && Step(c, s).vars == c.vars;
    } else if OfImport(s) {
      ImportStepFramed(c, s);
    } else {
      HandlerStepFramed(c, s);
    }
  }

  ghost function Exec(c: Run, program: seq<Stmt>): Run
    decreases |program|
  {
    if program == [] then c else Exec(Step(c, program[0]), program[1..])
  }

  lemma {:induction false} ExecFailed(c: Run, program: seq<Stmt>)
    requires c.failed
    ensures Exec(c, program) == c
  {
    if program == [] {
    } else {
      ExecFailed(c, program[1..]);
    }
  }

  lemma {:induction false} ExecConcat(c: Run, a: seq<Stmt>, b: seq<Stmt>)
    ensures Exec(c, a + b) == Exec(Exec(c, a), b)
    decreases |a|
  {
    if a == [] {
      assert a + b == b;
    } else {
      assert (a + b)[0] == a[0] && (a + b)[1..] == a[1..] + b;
      ExecConcat(Step(c, a[0]), a[1..], b);
    }
  }

  lemma ExecTwo(c: Run, a: Stmt, b: Stmt)
    ensures Exec(c, [a]) == Step(c, a)
    ensures Exec(c, [a, b]) == Step(Step(c, a), b)
  {
    assert [a][1..] == [] && [a, b][1..] == [b] && [b][1..] == [];
    assert Exec(Step(c, a), [b]) == Exec(Step(Step(c, a), b), []);
  }

  lemma ExecThree(c: Run, a: Stmt, b: Stmt, d: Stmt)
    ensures Exec(c, [a, b, d]) == Step(Step(Step(c, a), b), d)
  {
    ExecTwo(Step(c, a), b, d);
    assert [a, b, d][1..] == [b, d];
  }

  lemma ImportStepKeepsIntegrity(c: Run, s: Stmt)
    requires Integrity(c.db) && OfImport(s)
    ensures Integrity(Step(c, s).db)
  {
    var db := c.db;
    match s
    case EnsureShop(name, user) => ShopKeepsIntegrity(db, Shop(name, user));
    case EnsureCategory(id, name) => CategoryKeepsIntegrity(db, id, name);
    case LinkShop =>
      if c.vars.category.Some? && c.vars.shop.Some? {
        LinkKeepsIntegrity(db, c.vars.category.value.0, c.vars.shop.value);
      }
    case ResaveCategory =>
      if c.vars.category.Some? {
        CategoryKeepsIntegrity(db, c.vars.category.value.0, c.vars.category.value.1);
      }
    case ClearShop =>
      if c.vars.shop.Some? { WithoutInfosKeepsIntegrity(db, InfosOf(db, c.vars.shop.value)); }
    case EnsureProduct(key) => ProductKeepsIntegrity(db, key);
    case CreateInfo(externalId, model, price, priceRrc, quantity) =>
      if c.vars.product.At? && c.vars.shop.Some? {
        InfoKeepsIntegrity(db, ProductInfo(c.vars.product.id, c.vars.shop.value, externalId, model,
                                           price, priceRrc, quantity));
      }
    case EnsureParameter(name) => ParameterKeepsIntegrity(db, name);
    case CreateValue(value) =>
      if c.vars.parameter.At? && c.vars.info.Some? {
        ValueKeepsIntegrity(db, ProductParameter(c.vars.info.value, c.vars.parameter.id, value));
      }
    case _ =>
  }

  lemma HandlerStepKeepsIntegrity(c: Run, s: Stmt)
    requires Integrity(c.db) && !OfImport(s)
    ensures Integrity(Step(c, s).db)
  {
    var db := c.db;
    match s
    case CreateContact(user) => ContactKeepsIntegrity(db, user);
    case RemoveContacts(user, ids) => DeleteContactsKeepsIntegrity(db, user, ids);
    case EnsureBasket(user) => BasketKeepsIntegrity(db, user);
    case AddLine(e) =>
      if c.vars.basket.At? && e.Entry? && SaveEntry(db, e.(order := Given(c.vars.basket.id))).Some? {
        ItemKeepsIntegrity(db, OrderItem(c.vars.basket.id, e.info.value, e.shop.value, e.quantity.value));
      }
    case SetLine(item, quantity) =>
      if c.vars.basket.At? { QuantityKeepsIntegrity(db, c.vars.basket.id, item, quantity); }
    case RemoveLines(ids) =>
      if c.vars.basket.At? { DeleteItemsKeepsIntegrity(db, c.vars.basket.id, ids); }
    case PlaceOrder(contact) =>
      if c.vars.order.Some? {
        SaveOrderKeepsIntegrity(db, c.vars.order.value.0, Order(c.vars.order.value.1.user, New, contact));
      }
    case RemoveProduct(product) => DeleteProductKeepsIntegrity(db, product);
    case _ =>
  }

  /** Every statement, whoever issues it and with whatever variables, keeps Integrity. */
  lemma StepKeepsIntegrity(c: Run, s: Stmt)
    requires Integrity(c.db)
    ensures Integrity(Step(c, s).db)
  {
    if OfImport(s) { ImportStepKeepsIntegrity(c, s); } else { HandlerStepKeepsIntegrity(c, s); }
  }

  lemma {:induction false} ExecKeepsIntegrity(c: Run, program: seq<Stmt>)
    requires Integrity(c.db)
    ensures Integrity(Exec(c, program).db)
    decreases |program|
  {
    if program == [] {
    } else {
      StepKeepsIntegrity(c, program[0]);
      ExecKeepsIntegrity(Step(c, program[0]), program[1..]);
    }
  }
}
