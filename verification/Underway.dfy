/** What holds after every statement of a price-list import, finished, failed or killed: how far the store
    may have moved from the one the import started from. */
module Underway {
  import opened Collections
  import opened Schema
  import opened Machine
  import opened PriceList
  import opened Acceptance
  import Sql

  function CategoriesIn(doc: Document): seq<CategoryEntry> { if doc.categories.Some? then doc.categories.value else [] }

  function GoodsIn(doc: Document): seq<Good> { if doc.goods.Some? then doc.goods.value else [] }

  /** The statements the import of `doc` for `user` may issue. */
  ghost predicate Licensed(s: Stmt, user: Id, doc: Document) {
    match s
    case FindShop(name) => doc.shop == Some(name)
    case EnsureShop(name, u) => doc.shop == Some(name) && u == user
    case EnsureCategory(id, name) => CategoryEntry(Some(id), Some(name)) in CategoriesIn(doc)
    case FindProduct(key) => key in GoodKeys(GoodsIn(doc))
    case EnsureProduct(key) => key in GoodKeys(GoodsIn(doc))
    case FindParameter(name) => name in GoodNames(GoodsIn(doc))
    case EnsureParameter(name) => name in GoodNames(GoodsIn(doc))
    case _ => s.Raise? || s.LinkShop? || s.ResaveCategory? || s.ClearShop? || s.CreateInfo? || s.CreateValue?
  }

  function Owners(shops: map<Id, Shop>): set<Id> { set s | s in shops :: shops[s].user }

  /* How far each table of the current store may be from the starting store `a`. */

  ghost predicate ShopsMoved(a: Db, shops: map<Id, Shop>, next: Id, user: Id, doc: Document) {
    || (shops == a.shops && next == a.next.shop)
    || (&& next == a.next.shop + 1 && doc.shop.Some?
        && ShopsNamed(a.shops, doc.shop.value) == {} && user !in Owners(a.shops)
        && shops == a.shops[a.next.shop := Shop(doc.shop.value, user)])
  }

  ghost predicate CategoriesMoved(a: Db, categories: map<Id, string>, cs: seq<CategoryEntry>) {
    && (forall c | c in a.categories :: c in categories && categories[c] == a.categories[c])
    && (forall c | c in categories && c !in a.categories :: CategoryEntry(Some(c), Some(categories[c])) in cs)
  }

  ghost predicate LinksMoved(a: Db, links: set<(Id, Id)>, categories: map<Id, string>, shops: map<Id, Shop>,
                             user: Id, cs: seq<CategoryEntry>) {
    && a.links <= links
    && forall l | l in links && l !in a.links ::
        Owns(shops, user, l.1) && l.0 in categories && CategoryEntry(Some(l.0), Some(categories[l.0])) in cs
  }

  ghost predicate KeysMoved<K>(a: map<Id, K>, b: map<Id, K>, keys: set<K>) {
    GrowsByNewKeys(a, b) && forall p | p in b && p !in a :: b[p] in keys
  }

  /** Only the user's own catalogue rows may go, all together, and only the user's own shop may get new ones. */
  ghost predicate InfosMoved(a: Db, infos: map<Id, ProductInfo>, next: Id, shops: map<Id, Shop>, user: Id) {
    && a.next.info <= next
    && (forall i | i in a.infos && !Sells(a, user, i) :: i in infos)
    && ((forall i | i in a.infos :: i in infos) || (forall i | i in a.infos && Sells(a, user, i) :: i !in infos))
    && (forall i | i in a.infos && i in infos :: infos[i] == a.infos[i])
    && (forall i | i in infos && i !in a.infos :: i >= a.next.info && Owns(shops, user, infos[i].shop))
  }

  ghost predicate ValuesMoved(a: Db, values: map<Id, ProductParameter>, next: Id, user: Id) {
    && a.next.value <= next
    && (forall v | v in a.values && !Sells(a, user, a.values[v].info) :: v in values)
    && (forall v | v in a.values && v in values :: values[v] == a.values[v])
    && (forall v | v in values && v !in a.values :: values[v].info !in a.infos)
  }

  /** The order lines left when the user's shop is cleared. */
  function ItemsOfOthers(a: Db, user: Id): map<Id, OrderItem> {
    map i | i in a.items && !Sells(a, user, a.items[i].info) :: a.items[i]
  }

  /** How the store may differ from `a` while the import of `doc` for `user` runs alone on it. */
  ghost predicate Moved(a: Db, b: Db, user: Id, doc: Document) {
    && ShopsMoved(a, b.shops, b.next.shop, user, doc)
    && CategoriesMoved(a, b.categories, CategoriesIn(doc))
    && LinksMoved(a, b.links, b.categories, b.shops, user, CategoriesIn(doc))
    && KeysMoved(a.products, b.products, GoodKeys(GoodsIn(doc)))
    && KeysMoved(a.parameters, b.parameters, GoodNames(GoodsIn(doc)))
    && InfosMoved(a, b.infos, b.next.info, b.shops, user)
    && ValuesMoved(a, b.values, b.next.value, user)
    && b.users == a.users && b.contacts == a.contacts && b.orders == a.orders && b.next.order == a.next.order
    && (b.items == a.items || b.items == ItemsOfOthers(a, user))
  }

  /* What the import's variables say about the store. */

  ghost predicate FoundTrue(found: Ref<string>, shops: map<Id, Shop>, doc: Document) {
    found.Absent? ==> doc.shop == Some(found.key) && ShopsNamed(shops, found.key) == {}
  }

  ghost predicate ShopTrue(shop: Option<Id>, shops: map<Id, Shop>, user: Id) {
    shop.Some? ==> Owns(shops, user, shop.value)
  }

  ghost predicate CategoryTrue(category: Option<(Id, string)>, categories: map<Id, string>, cs: seq<CategoryEntry>) {
    category.Some? ==>
      var (id, name) := category.value;
      id in categories && categories[id] == name && CategoryEntry(Some(id), Some(name)) in cs
  }

  ghost predicate KeyTrue<K>(key: Ref<K>, table: map<Id, K>) {
    key.Absent? ==> WithValue(table, key.key) == {}
  }

  ghost predicate Underway(a: Db, c: Run, user: Id, doc: Document) {
    && Moved(a, c.db, user, doc)
    && FoundTrue(c.vars.found, c.db.shops, doc)
    && ShopTrue(c.vars.shop, c.db.shops, user)
    && CategoryTrue(c.vars.category, c.db.categories, CategoriesIn(doc))
    && KeyTrue(c.vars.product, c.db.products)
    && KeyTrue(c.vars.parameter, c.db.parameters)
    && (c.vars.info.Some? ==> c.vars.info.value !in a.infos)
  }

  /** A shop is created only when neither its name nor its owner had one at the start. */
  lemma ShopInserted(a: Db, shops: map<Id, Shop>, next: Id, user: Id, doc: Document, name: string)
    requires ShopsMoved(a, shops, next, user, doc)
    requires doc.shop == Some(name) && ShopsNamed(shops, name) == {} && !exists s | s in shops :: Owns(shops, user, s)
    ensures ShopsMoved(a, shops[next := Shop(name, user)], next + 1, user, doc)
  {
    assert next != a.next.shop ==> a.next.shop in ShopsNamed(shops, name);
    forall s | s in shops
      ensures shops[s].user != user
    {
      assert !Owns(shops, user, s);
    }
  }

  /** Facts about ownership survive a new shop. */
  lemma OwnersKept(a: Db, b: Db, shops: map<Id, Shop>, user: Id, cs: seq<CategoryEntry>)
    requires LinksMoved(a, b.links, b.categories, b.shops, user, cs)
    requires InfosMoved(a, b.infos, b.next.info, b.shops, user)
    requires forall s | s in b.shops :: s in shops && shops[s] == b.shops[s]
    ensures LinksMoved(a, b.links, b.categories, shops, user, cs)
    ensures InfosMoved(a, b.infos, b.next.info, shops, user)
  {
  }

  lemma ShopStep(a: Db, c: Run, user: Id, doc: Document, name: string)
    requires Underway(a, c, user, doc) && !c.failed && doc.shop == Some(name)
    requires ShopsSound(c.db.shops, c.db.next.shop, c.db.users)
    ensures Underway(a, StepEnsureShop(c, name, user), user, doc)
  {
    var out := StepEnsureShop(c, name, user);
    if c.vars.found == Absent(name) && !out.failed {
      ShopInserted(a, c.db.shops, c.db.next.shop, user, doc, name);
      OwnersKept(a, c.db, out.db.shops, user, CategoriesIn(doc));
    }
  }

  lemma CategoryInserted(a: Db, b: Db, user: Id, cs: seq<CategoryEntry>, id: Id, name: string)
    requires id !in b.categories && CategoryEntry(Some(id), Some(name)) in cs
    requires CategoriesMoved(a, b.categories, cs) && LinksMoved(a, b.links, b.categories, b.shops, user, cs)
    ensures CategoriesMoved(a, b.categories[id := name], cs)
    ensures LinksMoved(a, b.links, b.categories[id := name], b.shops, user, cs)
  {
  }

  lemma CategoryStep(a: Db, c: Run, user: Id, doc: Document, id: Id, name: string)
    requires Underway(a, c, user, doc) && !c.failed
    requires CategoryEntry(Some(id), Some(name)) in CategoriesIn(doc)
    ensures Underway(a, StepEnsureCategory(c, id, name), user, doc)
  {
    var out := StepEnsureCategory(c, id, name);
    if id !in c.db.categories && !out.failed {
      CategoryInserted(a, c.db, user, CategoriesIn(doc), id, name);
      assert out.db == c.db.(categories := c.db.categories[id := name]);
    }
  }

  lemma LinkStep(a: Db, c: Run, user: Id, doc: Document)
    requires Underway(a, c, user, doc) && !c.failed
    ensures Underway(a, StepLinkShop(c), user, doc)
  {
    var out := StepLinkShop(c);
    if !out.failed {
      assert out.db == c.db.(links := out.db.links) && out.vars == c.vars;
    }
  }

  /** Saving the category again writes the name it has. */
  lemma ResaveStep(a: Db, c: Run, user: Id, doc: Document)
    requires Underway(a, c, user, doc) && !c.failed
    ensures Underway(a, StepResaveCategory(c), user, doc)
  {
    if c.vars.category.Some? {
      var (id, name) := c.vars.category.value;
      assert c.db.categories[id := name] == c.db.categories;
    }
  }

  lemma KeyStep<K>(a: map<Id, K>, b: map<Id, K>, keys: set<K>, id: Id, key: K)
    requires KeysMoved(a, b, keys) && id !in b && key in keys && WithValue(b, key) == {}
    ensures KeysMoved(a, b[id := key], keys)
  {
    InsertGrows(b, id, key);
    GrowsTransitive(a, b, b[id := key]);
  }

  lemma ProductStep(a: Db, c: Run, user: Id, doc: Document, key: Product)
    requires Underway(a, c, user, doc) && !c.failed && key in GoodKeys(GoodsIn(doc))
    requires ProductsSound(c.db.products, c.db.next.product, c.db.categories)
    ensures Underway(a, StepEnsureProduct(c, key), user, doc)
  {
    var out := StepEnsureProduct(c, key);
    if c.vars.product == Absent(key) && !out.failed {
      assert out.db.products == c.db.products[c.db.next.product := key];
      KeyStep(a.products, c.db.products, GoodKeys(GoodsIn(doc)), c.db.next.product, key);
    }
  }

  lemma ParameterStep(a: Db, c: Run, user: Id, doc: Document, name: string)
    requires Underway(a, c, user, doc) && !c.failed && name in GoodNames(GoodsIn(doc))
    requires ParametersSound(c.db.parameters, c.db.next.parameter)
    ensures Underway(a, StepEnsureParameter(c, name), user, doc)
  {
    var out := StepEnsureParameter(c, name);
    if c.vars.parameter == Absent(name) && !out.failed {
      assert out.db.parameters == c.db.parameters[c.db.next.parameter := name];
      KeyStep(a.parameters, c.db.parameters, GoodNames(GoodsIn(doc)), c.db.next.parameter, name);
    }
  }

  lemma InfoInserted(a: Db, infos: map<Id, ProductInfo>, next: Id, shops: map<Id, Shop>, user: Id, row: ProductInfo)
    requires InfosSound(a.infos, a.next.info, a.products, a.shops)
    requires InfosMoved(a, infos, next, shops, user) && Owns(shops, user, row.shop)
    ensures next !in a.infos && InfosMoved(a, infos[next := row], next + 1, shops, user)
  {
  }

  lemma InfoStep(a: Db, c: Run, user: Id, doc: Document, s: Stmt)
    requires Underway(a, c, user, doc) && !c.failed && s.CreateInfo?
    requires InfosSound(a.infos, a.next.info, a.products, a.shops)
    requires InfosSound(c.db.infos, c.db.next.info, c.db.products, c.db.shops)
    ensures Underway(a, StepCreateInfo(c, s), user, doc)
  {
    var out, n := StepCreateInfo(c, s), c.db.next.info;
    if !out.failed {
      var row := ProductInfo(c.vars.product.id, c.vars.shop.value, s.externalId, s.model,
                             s.price, s.priceRrc, s.quantity);
      InfoInserted(a, c.db.infos, n, c.db.shops, user, row);
      assert out.db == c.db.(infos := c.db.infos[n := row], next := c.db.next.(info := n + 1));
    }
  }

  lemma ValueStep(a: Db, c: Run, user: Id, doc: Document, value: string)
    requires Underway(a, c, user, doc) && !c.failed
    requires ValuesSound(a.values, a.next.value, a.infos, a.parameters)
    requires ValuesSound(c.db.values, c.db.next.value, c.db.infos, c.db.parameters)
    ensures Underway(a, StepCreateValue(c, value), user, doc)
  {
    var out := StepCreateValue(c, value);
    if !out.failed {
      assert out.db == c.db.(values := out.db.values, next := out.db.next) && out.vars == c.vars;
      assert ValuesMoved(a, out.db.values, out.db.next.value, user);
    }
  }

  /** In a store under way, an old row belongs to the shop of the user exactly when it did at the start. */
  lemma SoldByShop(a: Db, shops: map<Id, Shop>, next: Id, user: Id, doc: Document, shop: Id, i: Id)
    requires InfosSound(a.infos, a.next.info, a.products, a.shops) && ShopsMoved(a, shops, next, user, doc)
    requires ShopsSound(a.shops, a.next.shop, a.users) && ShopsSound(shops, next, a.users) && Owns(shops, user, shop)
    requires i in a.infos
    ensures Sells(a, user, i) <==> a.infos[i].shop == shop
  {
    assert Owns(shops, shops[a.infos[i].shop].user, a.infos[i].shop);
  }

  /** Clearing the shop takes exactly the order lines that sell the user's goods. */
  lemma ClearedItems(a: Db, b: Db, user: Id, doc: Document, shop: Id)
    requires ItemsSound(a.items, a.next.item, a.orders, a.infos, a.shops)
    requires InfosSound(a.infos, a.next.info, a.products, a.shops) && ShopsSound(a.shops, a.next.shop, a.users)
    requires ItemsSound(b.items, b.next.item, b.orders, b.infos, b.shops) && ShopsSound(b.shops, b.next.shop, a.users)
    requires ShopsMoved(a, b.shops, b.next.shop, user, doc) && InfosMoved(a, b.infos, b.next.info, b.shops, user)
    requires b.items == a.items || b.items == ItemsOfOthers(a, user)
    requires Owns(b.shops, user, shop)
    ensures Sql.DeleteInfosOf(b, shop).items == ItemsOfOthers(a, user)
  {
    forall i | i in b.items
      ensures a.items[i].info in a.infos && a.items[i].info in b.infos
      ensures b.infos[a.items[i].info].shop == shop <==> Sells(a, user, a.items[i].info)
    {
      SoldByShop(a, b.shops, b.next.shop, user, doc, shop, a.items[i].info);
    }
  }

  /** The rows it takes are the user's. */
  lemma ClearedRows(a: Db, c: Run, user: Id, doc: Document)
    requires Integrity(a) && Integrity(c.db) && Underway(a, c, user, doc) && c.vars.shop.Some?
    ensures var b := Sql.DeleteInfosOf(c.db, c.vars.shop.value);
      && InfosMoved(a, b.infos, b.next.info, b.shops, user)
      && ValuesMoved(a, b.values, b.next.value, user)
  {
    forall i | i in a.infos
      ensures Sells(a, user, i) <==> a.infos[i].shop == c.vars.shop.value
    {
      SoldByShop(a, c.db.shops, c.db.next.shop, user, doc, c.vars.shop.value, i);
    }
  }

  lemma ClearStep(a: Db, c: Run, user: Id, doc: Document)
    requires Integrity(a) && Integrity(c.db) && Underway(a, c, user, doc) && !c.failed
    ensures Underway(a, StepClearShop(c), user, doc)
  {
    if c.vars.shop.Some? {
      ClearedItems(a, c.db, user, doc, c.vars.shop.value);
      ClearedRows(a, c, user, doc);
    }
  }

  lemma FindShopStep(a: Db, c: Run, user: Id, doc: Document, name: string)
    requires Underway(a, c, user, doc) && doc.shop == Some(name)
    ensures Underway(a, StepFindShop(c, name), user, doc)
  {
  }

  lemma FindProductStep(a: Db, c: Run, user: Id, doc: Document, key: Product)
    requires Underway(a, c, user, doc)
    ensures Underway(a, StepFindProduct(c, key), user, doc)
  {
  }

  lemma FindParameterStep(a: Db, c: Run, user: Id, doc: Document, name: string)
    requires Underway(a, c, user, doc)
    ensures Underway(a, StepFindParameter(c, name), user, doc)
  {
  }

  lemma FindStepsStayUnderway(a: Db, c: Run, user: Id, doc: Document, s: Stmt)
    requires Underway(a, c, user, doc) && Licensed(s, user, doc) && !c.failed
    requires s.FindShop? || s.FindProduct? || s.FindParameter?
    ensures Underway(a, Step(c, s), user, doc)
  {
    match s
    case FindShop(name) => FindShopStep(a, c, user, doc, name);
    case FindProduct(key) => FindProductStep(a, c, user, doc, key);
    case FindParameter(name) => FindParameterStep(a, c, user, doc, name);
  }

  lemma ShopStepsStayUnderway(a: Db, c: Run, user: Id, doc: Document, s: Stmt)
    requires ShopsSound(c.db.shops, c.db.next.shop, c.db.users)
    requires Underway(a, c, user, doc) && Licensed(s, user, doc) && !c.failed && s.EnsureShop?
    ensures Underway(a, Step(c, s), user, doc)
  {
    ShopStep(a, c, user, doc, s.name);
  }

  lemma CategoryStepsStayUnderway(a: Db, c: Run, user: Id, doc: Document, s: Stmt)
    requires Underway(a, c, user, doc) && Licensed(s, user, doc) && !c.failed
    requires s.EnsureCategory? || s.LinkShop? || s.ResaveCategory?
    ensures Underway(a, Step(c, s), user, doc)
  {
    match s
    case EnsureCategory(id, name) => CategoryStep(a, c, user, doc, id, name);
    case LinkShop => LinkStep(a, c, user, doc);
    case _ => ResaveStep(a, c, user, doc);
  }

  lemma ProductStepsStayUnderway(a: Db, c: Run, user: Id, doc: Document, s: Stmt)
    requires Integrity(a) && Integrity(c.db)
    requires Underway(a, c, user, doc) && Licensed(s, user, doc) && !c.failed
    requires s.EnsureProduct? || s.CreateInfo?
    ensures Underway(a, Step(c, s), user, doc)
  {
    match s
    case EnsureProduct(key) => ProductStep(a, c, user, doc, key);
    case _ => InfoStep(a, c, user, doc, s);
  }

  lemma ParameterStepsStayUnderway(a: Db, c: Run, user: Id, doc: Document, s: Stmt)
    requires Integrity(a) && Integrity(c.db)
    requires Underway(a, c, user, doc) && Licensed(s, user, doc) && !c.failed
    requires s.EnsureParameter? || s.CreateValue?
    ensures Underway(a, Step(c, s), user, doc)
  {
    match s
    case EnsureParameter(name) => ParameterStep(a, c, user, doc, name);
    case CreateValue(value) => ValueStep(a, c, user, doc, value);
  }

  lemma StepStaysUnderway(a: Db, c: Run, user: Id, doc: Document, s: Stmt)
    requires Integrity(a) && Integrity(c.db)
    requires Underway(a, c, user, doc) && Licensed(s, user, doc)
    ensures Underway(a, Step(c, s), user, doc)
  {
    if c.failed || s.Raise? {
    } else if s.FindShop? || s.FindProduct? || s.FindParameter? {
      FindStepsStayUnderway(a, c, user, doc, s);
    } else if s.EnsureShop? {
      ShopStepsStayUnderway(a, c, user, doc, s);
    } else if s.ClearShop? {
      ClearStep(a, c, user, doc);
    } else if s.EnsureCategory? || s.LinkShop? || s.ResaveCategory? {
      CategoryStepsStayUnderway(a, c, user, doc, s);
    } else if s.EnsureProduct? || s.CreateInfo? {
      ProductStepsStayUnderway(a, c, user, doc, s);
    } else {
      ParameterStepsStayUnderway(a, c, user, doc, s);
    }
  }

  lemma {:induction false} ExecStaysUnderway(a: Db, c: Run, user: Id, doc: Document, program: seq<Stmt>)
    requires Integrity(a) && Integrity(c.db) && Underway(a, c, user, doc)
    requires forall s | s in program :: Licensed(s, user, doc)
    ensures Underway(a, Exec(c, program), user, doc)
    decreases |program|
  {
    if program == [] {
    } else {
      StepKeepsIntegrity(c, program[0]);
      StepStaysUnderway(a, c, user, doc, program[0]);
      ExecStaysUnderway(a, Step(c, program[0]), user, doc, program[1..]);
    }
  }
}
