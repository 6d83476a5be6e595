/** Requests served one at a time, each finished, failed or killed midway: nothing in the schema forbids two
    rows with one key, yet none ever appears, so every `get` and `get_or_create` meets at most one row. */
module Serial {
  import opened Collections
  import opened Schema
  import opened Machine
  import opened Acceptance
  import opened Requests
  import opened Underway
  import opened Outcome

  /* The keys no constraint protects: shop names, product name and category, parameter names, one basket
     for each user. */

  ghost predicate ShopNamesUnique(shops: map<Id, Shop>) {
    forall s | s in shops :: ShopsNamed(shops, shops[s].name) == {s}
  }

  ghost predicate KeysUnique<K>(table: map<Id, K>) {
    forall p | p in table :: WithValue(table, table[p]) == {p}
  }

  ghost predicate BasketsUnique(orders: map<Id, Order>) {
    forall o | o in orders && orders[o].status == Basket :: BasketsOf(orders, orders[o].user) == {o}
  }

  ghost predicate Unambiguous(db: Db) {
    && ShopNamesUnique(db.shops) && KeysUnique(db.products) && KeysUnique(db.parameters) && BasketsUnique(db.orders)
  }

  /** No two shops, products or parameters have one key, and no user has two baskets. */
  ghost predicate NoTwoAlike(db: Db) {
    && (forall s, t | s in db.shops && t in db.shops && db.shops[s].name == db.shops[t].name :: s == t)
    && (forall p, q | p in db.products && q in db.products && db.products[p] == db.products[q] :: p == q)
    && (forall p, q | p in db.parameters && q in db.parameters && db.parameters[p] == db.parameters[q] :: p == q)
    && (forall o, p | o in db.orders && p in db.orders && db.orders[o].status == db.orders[p].status == Basket
                      && db.orders[o].user == db.orders[p].user :: o == p)
  }

  lemma UnambiguousMeansNoTwoAlike(db: Db)
    requires Unambiguous(db)
    ensures NoTwoAlike(db)
  {
    assert forall s | s in db.shops :: s in ShopsNamed(db.shops, db.shops[s].name);
    assert forall p | p in db.products :: p in WithValue(db.products, db.products[p]);
    assert forall p | p in db.parameters :: p in WithValue(db.parameters, db.parameters[p]);
    assert forall o | o in db.orders && db.orders[o].status == Basket :: o in BasketsOf(db.orders, db.orders[o].user);
  }

  /** No lookup by key finds two rows. */
  lemma LookupsAreUnambiguous(db: Db)
    requires Unambiguous(db)
    ensures forall name :: Get(ShopsNamed(db.shops, name)) != Many
    ensures forall key :: Lookable(db.products, key)
    ensures forall name :: Lookable(db.parameters, name)
    ensures forall user :: Get(BasketsOf(db.orders, user)) != Many
  {
    forall name
      ensures Get(ShopsNamed(db.shops, name)) != Many
    {
      if x :| x in ShopsNamed(db.shops, name) { assert ShopsNamed(db.shops, name) == {x}; }
    }
    forall key
      ensures Lookable(db.products, key)
    {
      if x :| x in WithValue(db.products, key) { assert WithValue(db.products, key) == {x}; }
    }
    forall name
      ensures Lookable(db.parameters, name)
    {
      if x :| x in WithValue(db.parameters, name) { assert WithValue(db.parameters, name) == {x}; }
    }
    forall user
      ensures Get(BasketsOf(db.orders, user)) != Many
    {
      if x :| x in BasketsOf(db.orders, user) { assert BasketsOf(db.orders, user) == {x}; }
    }
  }

  /** What a lone run knows: a key it found missing is still missing, and its category has its name. */
  ghost predicate VarsCurrent(c: Run) {
    && (c.vars.found.Absent? ==> ShopsNamed(c.db.shops, c.vars.found.key) == {})
    && NameKnown(c.db.categories, c.vars)
    && KeyTrue(c.vars.product, c.db.products)
    && KeyTrue(c.vars.parameter, c.db.parameters)
    && (c.vars.basket.Absent? ==> BasketsOf(c.db.orders, c.vars.basket.key) == {})
  }

  /** The tables a lone run adds to. Products may also go; they are never renamed, and their ids never used again. */
  ghost predicate TablesGrow(a: Db, b: Db) {
    && b.users == a.users
    && (forall s | s in a.shops :: s in b.shops && b.shops[s] == a.shops[s])
    && (forall c | c in a.categories :: c in b.categories && b.categories[c] == a.categories[c])
    && (forall p | p in a.products && p in b.products :: b.products[p] == a.products[p])
    && (forall p | p in b.products && p !in a.products :: p >= a.next.product)
    && a.next.product <= b.next.product
    && (forall p | p in a.parameters :: p in b.parameters && b.parameters[p] == a.parameters[p])
  }

  lemma UniqueInsert<K>(table: map<Id, K>, id: Id, key: K)
    requires KeysUnique(table) && id !in table && WithValue(table, key) == {}
    ensures KeysUnique(table[id := key])
  {
    var grown := table[id := key];
    forall p | p in grown
      ensures WithValue(grown, grown[p]) == {p}
    {
      if p in table {
        assert p in WithValue(table, table[p]);
        assert table[p] == key ==> p in WithValue(table, key);
      } else {
        assert forall q | q in table :: q !in WithValue(table, key);
      }
    }
  }

  lemma UniqueShopInsert(shops: map<Id, Shop>, id: Id, row: Shop)
    requires ShopNamesUnique(shops) && id !in shops && ShopsNamed(shops, row.name) == {}
    ensures ShopNamesUnique(shops[id := row])
  {
    var grown := shops[id := row];
    forall s | s in grown
      ensures ShopsNamed(grown, grown[s].name) == {s}
    {
      if s in shops {
        assert s in ShopsNamed(shops, shops[s].name);
        assert shops[s].name == row.name ==> s in ShopsNamed(shops, row.name);
      } else {
        assert forall t | t in shops :: t !in ShopsNamed(shops, row.name);
      }
    }
  }

  lemma UniqueBasketInsert(orders: map<Id, Order>, id: Id, user: Id)
    requires BasketsUnique(orders) && id !in orders && BasketsOf(orders, user) == {}
    ensures BasketsUnique(orders[id := Order(user, Basket, None)])
  {
    var grown := orders[id := Order(user, Basket, None)];
    forall o | o in grown && grown[o].status == Basket
      ensures BasketsOf(grown, grown[o].user) == {o}
    {
      if o in orders {
        assert o in BasketsOf(orders, orders[o].user);
        assert orders[o].user == user ==> o in BasketsOf(orders, user);
      } else {
        assert forall q | q in orders :: q !in BasketsOf(orders, user);
      }
    }
  }

  /** Placing an order, or losing orders, leaves fewer baskets. */
  lemma FewerBaskets(a: map<Id, Order>, b: map<Id, Order>)
    requires forall o | o in b && b[o].status == Basket :: o in a && a[o] == b[o]
    ensures BasketsUnique(a) ==> BasketsUnique(b)
    ensures forall user :: BasketsOf(b, user) <= BasketsOf(a, user)
  {
    if BasketsUnique(a) {
      forall o | o in b && b[o].status == Basket
        ensures BasketsOf(b, b[o].user) == {o}
      {
        assert BasketsOf(b, b[o].user) <= BasketsOf(a, b[o].user) && o in BasketsOf(b, b[o].user);
      }
    }
  }

  /** Losing products leaves fewer of each key. */
  lemma FewerKeys<K>(a: map<Id, K>, b: map<Id, K>)
    requires forall p | p in b :: p in a && a[p] == b[p]
    ensures KeysUnique(a) ==> KeysUnique(b)
    ensures forall key :: WithValue(b, key) <= WithValue(a, key)
  {
    if KeysUnique(a) {
      forall p | p in b
        ensures WithValue(b, b[p]) == {p}
      {
        assert WithValue(b, b[p]) <= WithValue(a, b[p]) && p in WithValue(b, b[p]);
      }
    }
  }

  ghost predicate Lone(c: Run) { Unambiguous(c.db) && VarsCurrent(c) }

  /** A step that touches no key. */
  ghost predicate KeysUntouched(c: Run, d: Run) {
    && d.db.users == c.db.users && d.db.shops == c.db.shops && d.db.categories == c.db.categories
    && d.db.products == c.db.products && d.db.parameters == c.db.parameters && d.db.orders == c.db.orders
    && d.vars.found == c.vars.found && d.vars.category == c.vars.category && d.vars.product == c.vars.product
    && d.vars.parameter == c.vars.parameter && d.vars.basket == c.vars.basket && d.db.next.product == c.db.next.product
  }

  predicate TouchesNoKey(s: Stmt) {
    || s.LinkShop? || s.ClearShop? || s.CreateInfo? || s.CreateValue? || s.AddLine? || s.SetLine?
    || s.RemoveLines? || s.CreateContact? || s.LoadOrder? || s.Raise?
  }

  lemma RowStepTouchesNoKey(c: Run, s: Stmt)
    requires TouchesNoKey(s)
    ensures KeysUntouched(c, Step(c, s))
  {
    StepFramed(c, s);
  }

  lemma UntouchedStaysLone(c: Run, d: Run)
    requires Lone(c) && KeysUntouched(c, d)
    ensures Lone(d) && TablesGrow(c.db, d.db)
  {
  }

  lemma ResaveTouchesNoKey(c: Run)
    requires Lone(c)
    ensures KeysUntouched(c, StepResaveCategory(c))
  {
    if c.vars.category.Some? {
      var (id, name) := c.vars.category.value;
      assert c.db.categories[id := name] == c.db.categories;
    }
  }

  lemma CategoryStepStaysLone(c: Run, id: Id, name: string)
    requires Lone(c)
    ensures var d := StepEnsureCategory(c, id, name); Lone(d) && TablesGrow(c.db, d.db)
  {
  }

  lemma ShopStepStaysLone(c: Run, name: string, user: Id)
    requires Lone(c) && ShopsSound(c.db.shops, c.db.next.shop, c.db.users)
    ensures var d := StepEnsureShop(c, name, user); Lone(d) && TablesGrow(c.db, d.db)
  {
    var d, n := StepEnsureShop(c, name, user), c.db.next.shop;
    if c.vars.found == Absent(name) && !d.failed {
      assert d.db == c.db.(shops := c.db.shops[n := Shop(name, user)], next := d.db.next);
      assert d.db.next.product == c.db.next.product;
      UniqueShopInsert(c.db.shops, n, Shop(name, user));
    } else {
      assert d.db == c.db;
    }
  }

  lemma ProductStepStaysLone(c: Run, key: Product)
    requires Lone(c) && ProductsSound(c.db.products, c.db.next.product, c.db.categories)
    ensures var d := StepEnsureProduct(c, key); Lone(d) && TablesGrow(c.db, d.db)
  {
    var d := StepEnsureProduct(c, key);
    if c.vars.product == Absent(key) && !d.failed {
      assert d.db == c.db.(products := c.db.products[c.db.next.product := key], next := d.db.next);
      UniqueInsert(c.db.products, c.db.next.product, key);
    }
  }

  lemma ParameterStepStaysLone(c: Run, name: string)
    requires Lone(c) && ParametersSound(c.db.parameters, c.db.next.parameter)
    ensures var d := StepEnsureParameter(c, name); Lone(d) && TablesGrow(c.db, d.db)
  {
    var d := StepEnsureParameter(c, name);
    if c.vars.parameter == Absent(name) && !d.failed {
      assert d.db == c.db.(parameters := c.db.parameters[c.db.next.parameter := name], next := d.db.next);
      UniqueInsert(c.db.parameters, c.db.next.parameter, name);
    }
  }

  lemma BasketStepStaysLone(c: Run, user: Id)
    requires Lone(c) && OrdersSound(c.db.orders, c.db.next.order, c.db.users, c.db.contacts)
    ensures var d := StepEnsureBasket(c, user); Lone(d) && TablesGrow(c.db, d.db)
  {
    var d := StepEnsureBasket(c, user);
    if c.vars.basket == Absent(user) && !d.failed {
      assert d.db == c.db.(orders := c.db.orders[c.db.next.order := Order(user, Basket, None)], next := d.db.next);
      UniqueBasketInsert(c.db.orders, c.db.next.order, user);
    }
  }

  lemma PlaceStepStaysLone(c: Run, contact: Option<Id>)
    requires Lone(c)
    ensures var d := StepPlaceOrder(c, contact); Lone(d) && TablesGrow(c.db, d.db)
  {
    var d := StepPlaceOrder(c, contact);
    if !d.failed {
      assert d.db == c.db.(orders := d.db.orders) && d.vars == c.vars;
      FewerBaskets(c.db.orders, d.db.orders);
    }
  }

  lemma RemoveContactsStaysLone(c: Run, user: Id, ids: seq<int>)
    requires Lone(c)
    ensures var d := StepRemoveContacts(c, user, ids); Lone(d) && TablesGrow(c.db, d.db)
  {
    FewerBaskets(c.db.orders, StepRemoveContacts(c, user, ids).db.orders);
  }

  lemma RemoveProductStaysLone(c: Run, product: int)
    requires Lone(c)
    ensures var d := StepRemoveProduct(c, product); Lone(d) && TablesGrow(c.db, d.db)
  {
    FewerKeys(c.db.products, StepRemoveProduct(c, product).db.products);
  }

  lemma FindShopStaysLone(c: Run, name: string)
    requires Lone(c)
    ensures var d := StepFindShop(c, name); Lone(d) && TablesGrow(c.db, d.db)
  {
  }

  lemma FindProductStaysLone(c: Run, key: Product)
    requires Lone(c)
    ensures var d := StepFindProduct(c, key); Lone(d) && TablesGrow(c.db, d.db)
  {
  }

  lemma FindParameterStaysLone(c: Run, name: string)
    requires Lone(c)
    ensures var d := StepFindParameter(c, name); Lone(d) && TablesGrow(c.db, d.db)
  {
  }

  lemma FindBasketStaysLone(c: Run, user: Id)
    requires Lone(c)
    ensures var d := StepFindBasket(c, user); Lone(d) && TablesGrow(c.db, d.db)
  {
  }

  lemma RowStepStaysLone(c: Run, s: Stmt)
    requires Lone(c) && TouchesNoKey(s)
    ensures Lone(Step(c, s)) && TablesGrow(c.db, Step(c, s).db)
  {
    RowStepTouchesNoKey(c, s);
    UntouchedStaysLone(c, Step(c, s));
  }

  lemma ResaveStaysLone(c: Run)
    requires Lone(c)
    ensures Lone(StepResaveCategory(c)) && TablesGrow(c.db, StepResaveCategory(c).db)
  {
    ResaveTouchesNoKey(c);
    UntouchedStaysLone(c, StepResaveCategory(c));
  }

  lemma ImportStepStaysLone(c: Run, s: Stmt)
    requires Integrity(c.db) && Lone(c) && !c.failed && OfImport(s) && !TouchesNoKey(s)
    ensures Lone(Step(c, s)) && TablesGrow(c.db, Step(c, s).db)
  {
    match s
    case FindShop(name) => FindShopStaysLone(c, name);
    case FindProduct(key) => FindProductStaysLone(c, key);
    case FindParameter(name) => FindParameterStaysLone(c, name);
    case EnsureShop(name, user) => ShopStepStaysLone(c, name, user);
    case EnsureCategory(id, name) => CategoryStepStaysLone(c, id, name);
    case EnsureProduct(key) => ProductStepStaysLone(c, key);
    case EnsureParameter(name) => ParameterStepStaysLone(c, name);
    case ResaveCategory => ResaveStaysLone(c);
  }

  lemma HandlerStepStaysLone(c: Run, s: Stmt)
    requires Integrity(c.db) && Lone(c) && !c.failed && !OfImport(s) && !TouchesNoKey(s)
    ensures Lone(Step(c, s)) && TablesGrow(c.db, Step(c, s).db)
  {
    match s
    case FindBasket(user) => FindBasketStaysLone(c, user);
    case EnsureBasket(user) => BasketStepStaysLone(c, user);
    case PlaceOrder(contact) => PlaceStepStaysLone(c, contact);
    case RemoveContacts(user, ids) => RemoveContactsStaysLone(c, user, ids);
    case RemoveProduct(product) => RemoveProductStaysLone(c, product);
  }

  /** Every statement keeps the keys unique, given that the run's lookups are current. */
  lemma StepStaysLone(c: Run, s: Stmt)
    requires Integrity(c.db) && Lone(c)
    ensures Lone(Step(c, s)) && TablesGrow(c.db, Step(c, s).db)
  {
    if c.failed {
    } else if TouchesNoKey(s) {
      RowStepStaysLone(c, s);
    } else if OfImport(s) {
      ImportStepStaysLone(c, s);
    } else {
      HandlerStepStaysLone(c, s);
    }
  }

  lemma TablesGrowTransitive(a: Db, b: Db, c: Db)
    requires ProductsSound(a.products, a.next.product, a.categories)
    requires TablesGrow(a, b) && TablesGrow(b, c)
    ensures TablesGrow(a, c)
  {
    forall p | p in a.products && p in c.products
      ensures p in b.products
    {
      assert p < b.next.product;
    }
  }

  lemma {:induction false} ExecStaysLone(c: Run, program: seq<Stmt>)
    requires Integrity(c.db) && Lone(c)
    ensures Lone(Exec(c, program)) && TablesGrow(c.db, Exec(c, program).db)
    decreases |program|
  {
    if program == [] {
    } else {
      StepKeepsIntegrity(c, program[0]);
      StepStaysLone(c, program[0]);
      ExecStaysLone(Step(c, program[0]), program[1..]);
      TablesGrowTransitive(c.db, Step(c, program[0]).db, Exec(c, program).db);
    }
  }

  /* Whole runs. */

  /** One request and the number of statements it is let to issue. */
  datatype Call = Call(request: Request, cut: nat)

  ghost function After(db: Db, calls: seq<Call>): Db
    decreases |calls|
  {
    if calls == [] then db else After(ServeUpTo(db, calls[0].request, calls[0].cut).db, calls[1..])
  }

  lemma CallKeeps(db: Db, call: Call)
    requires Integrity(db) && Unambiguous(db)
    ensures var out := ServeUpTo(db, call.request, call.cut).db;
      Integrity(out) && Unambiguous(out) && TablesGrow(db, out)
  {
    var issued := Issued(call.request, call.cut);
    ExecKeepsIntegrity(Begin(db), issued);
    ExecStaysLone(Begin(db), issued);
  }

  lemma {:induction false} RunKeeps(db: Db, calls: seq<Call>)
    requires Integrity(db) && Unambiguous(db)
    ensures Integrity(After(db, calls)) && Unambiguous(After(db, calls)) && TablesGrow(db, After(db, calls))
    decreases |calls|
  {
    if calls == [] {
    } else {
      CallKeeps(db, calls[0]);
      var next := ServeUpTo(db, calls[0].request, calls[0].cut).db;
      RunKeeps(next, calls[1..]);
      TablesGrowTransitive(db, next, After(next, calls[1..]));
    }
  }

  /* A product goes only by a request to delete it. */

  lemma StepLosesProduct(c: Run, s: Stmt, p: Id)
    requires p in c.db.products && p !in Step(c, s).db.products
    ensures s == RemoveProduct(p)
  {
    if s.EnsureProduct? {
      EnsureProductTakesNone(c, s.key);
    } else if s.RemoveProduct? {
      RemoveProductTakesOne(c, s.product);
    } else {
      StepFramed(c, s);
    }
  }

  lemma EnsureProductTakesNone(c: Run, key: Product)
    ensures forall p | p in c.db.products :: p in StepEnsureProduct(c, key).db.products
  {
  }

  lemma RemoveProductTakesOne(c: Run, product: int)
    ensures forall p | p in c.db.products && p != product :: p in StepRemoveProduct(c, product).db.products
  {
  }

  lemma {:induction false} ExecLosesProduct(c: Run, program: seq<Stmt>, p: Id)
    requires p in c.db.products && p !in Exec(c, program).db.products
    ensures RemoveProduct(p) in program
    decreases |program|
  {
    var next := Step(c, program[0]);
    if p in next.db.products { ExecLosesProduct(next, program[1..], p); } else { StepLosesProduct(c, program[0], p); }
  }

  lemma {:induction false} AddLinesRemoveNoProduct(entries: seq<Entry>)
    ensures forall s | s in AddLines(entries) :: !s.RemoveProduct?
  {
    if entries == [] {
    } else {
      AddLinesRemoveNoProduct(entries[1..]);
    }
  }

  lemma {:induction false} SetLinesRemoveNoProduct(changes: seq<PutEntry>)
    ensures forall s | s in SetLines(changes) :: !s.RemoveProduct?
  {
    if changes == [] {
    } else {
      SetLinesRemoveNoProduct(changes[1..]);
    }
  }

  lemma OnlyDeletionRemovesProducts(r: Request)
    ensures forall s | s in Program(r) && s.RemoveProduct? :: r.DeleteProduct? && s.product == r.product
  {
    match r
    case ImportPriceList(user, doc) => ProgramLicensed(user, doc);
    case PostBasket(_, entries) => AddLinesRemoveNoProduct(entries);
    case PutBasket(_, changes) => SetLinesRemoveNoProduct(changes);
    case _ =>
  }

  /** The call deletes product `p`, and gets as far as its one statement. */
  predicate Deletes(call: Call, p: int) { call.request.DeleteProduct? && call.request.product == p && call.cut > 0 }

  lemma CallLosesProduct(db: Db, call: Call, p: Id)
    requires p in db.products
    ensures p !in ServeUpTo(db, call.request, call.cut).db.products <==> Deletes(call, p)
  {
    var issued := Issued(call.request, call.cut);
    OnlyDeletionRemovesProducts(call.request);
    assert forall s | s in issued :: s in Program(call.request);
    if Deletes(call, p) {
      assert issued == Program(call.request);
      DeleteProductServed(db, call.request.user, p);
    } else if p !in Exec(Begin(db), issued).db.products {
      ExecLosesProduct(Begin(db), issued, p);
    }
  }

  /** The id of a product that is gone is not used again. */
  ghost predicate ProductUsedUp(db: Db, p: Id) { p !in db.products && p < db.next.product }

  lemma StepKeepsProductUsedUp(c: Run, s: Stmt, p: Id)
    requires ProductUsedUp(c.db, p)
    ensures ProductUsedUp(Step(c, s).db, p)
  {
    if s.EnsureProduct? {
      EnsureProductTakesNewId(c, s.key, p);
    } else if s.RemoveProduct? {
      RemoveProductAddsNone(c, s.product, p);
    } else {
      StepFramed(c, s);
    }
  }

  lemma EnsureProductTakesNewId(c: Run, key: Product, p: Id)
    requires ProductUsedUp(c.db, p)
    ensures ProductUsedUp(StepEnsureProduct(c, key).db, p)
  {
  }

  lemma RemoveProductAddsNone(c: Run, product: int, p: Id)
    requires ProductUsedUp(c.db, p)
    ensures ProductUsedUp(StepRemoveProduct(c, product).db, p)
  {
  }

  lemma {:induction false} ExecKeepsProductUsedUp(c: Run, program: seq<Stmt>, p: Id)
    requires ProductUsedUp(c.db, p)
    ensures ProductUsedUp(Exec(c, program).db, p)
    decreases |program|
  {
    if program == [] {
    } else {
      StepKeepsProductUsedUp(c, program[0], p);
      ExecKeepsProductUsedUp(Step(c, program[0]), program[1..], p);
    }
  }

  lemma {:induction false} RunKeepsProductUsedUp(db: Db, calls: seq<Call>, p: Id)
    requires ProductUsedUp(db, p)
    ensures ProductUsedUp(After(db, calls), p)
    decreases |calls|
  {
    if calls == [] {
    } else {
      ExecKeepsProductUsedUp(Begin(db), Issued(calls[0].request, calls[0].cut), p);
      RunKeepsProductUsedUp(ServeUpTo(db, calls[0].request, calls[0].cut).db, calls[1..], p);
    }
  }

  /** A product is still there after a serial run if and only if no call of the run deleted it. */
  lemma {:induction false} ProductKeptExactlyWhenNotDeleted(db: Db, calls: seq<Call>, p: Id)
    requires Integrity(db) && p in db.products
    ensures p in After(db, calls).products <==> forall c | c in calls :: !Deletes(c, p)
    decreases |calls|
  {
    if calls == [] {
    } else {
      var next := ServeUpTo(db, calls[0].request, calls[0].cut).db;
      var issued := Issued(calls[0].request, calls[0].cut);
      ExecKeepsIntegrity(Begin(db), issued);
      CallLosesProduct(db, calls[0], p);
      assert forall c :: c in calls <==> c == calls[0] || c in calls[1..];
      if p in next.products {
        ProductKeptExactlyWhenNotDeleted(next, calls[1..], p);
      } else {
        ProductIdsGrow(Begin(db), issued);
        RunKeepsProductUsedUp(next, calls[1..], p);
      }
    }
  }

  lemma {:induction false} ProductIdsGrow(c: Run, program: seq<Stmt>)
    ensures c.db.next.product <= Exec(c, program).db.next.product
    decreases |program|
  {
    if program == [] {
    } else {
      if !program[0].EnsureProduct? { StepFramed(c, program[0]); }
      ProductIdsGrow(Step(c, program[0]), program[1..]);
    }
  }

  /** From an empty store, after any serial run, keys are unique; and what a later part of the run may still do
      to shops, categories, products and parameters is add to them, and delete exactly the products it is asked to. */
  lemma SerialRunsKeepKeysUnique(users: map<Id, User>, calls: seq<Call>, later: seq<Call>)
    ensures var db := After(Empty(users), calls);
      && NoTwoAlike(db)
      && (forall key :: Lookable(db.products, key)) && (forall name :: Lookable(db.parameters, name))
      && (forall name :: Get(ShopsNamed(db.shops, name)) != Many)
      && (forall user :: Get(BasketsOf(db.orders, user)) != Many)
      && TablesGrow(db, After(db, later))
      && (forall p | p in db.products :: p in After(db, later).products <==> forall c | c in later :: !Deletes(c, p))
  {
    RunKeeps(Empty(users), calls);
    var db := After(Empty(users), calls);
    LookupsAreUnambiguous(db);
    UnambiguousMeansNoTwoAlike(db);
    RunKeeps(db, later);
    forall p | p in db.products { ProductKeptExactlyWhenNotDeleted(db, later, p); }
  }
}
