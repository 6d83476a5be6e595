/** The keys no constraint protects, when requests overlap: the exact steps at which two shops, products or parameters
    come to share a key, and runs that reach them. */
module KeyRaces {
  import opened Collections
  import opened Schema
  import opened Machine
  import opened PriceList
  import opened Catalogue
  import opened Acceptance
  import opened Requests
  import opened Underway
  import opened Outcome
  import opened Serial
  import opened Interleaving
  import opened LineLoss
  import opened Races

  datatype Kind = Baskets | Shops | Products | Parameters

  ghost predicate UniqueIn(db: Db, kind: Kind) {
    match kind
    case Baskets => BasketsUnique(db.orders)
    case Shops => ShopNamesUnique(db.shops)
    case Products => KeysUnique(db.products)
    case Parameters => KeysUnique(db.parameters)
  }

  /** A job that found no row with its key is about to insert one, and there is one by now. */
  ghost predicate Stale(w: World, e: Event, kind: Kind) {
    match kind
    case Baskets => StaleOpen(w, e)
    case Shops => Ready(w, e) && StaleShop(RunOf(w, w.jobs[e.j]), w.jobs[e.j].todo[0])
    case Products => Ready(w, e) && StaleProduct(RunOf(w, w.jobs[e.j]), w.jobs[e.j].todo[0])
    case Parameters => Ready(w, e) && StaleParameter(RunOf(w, w.jobs[e.j]), w.jobs[e.j].todo[0])
  }

  predicate StaleShop(c: Run, s: Stmt) {
    && s.EnsureShop? && c.vars.found == Absent(s.name) && ShopsNamed(c.db.shops, s.name) != {}
    && s.user in c.db.users && s.user !in Owners(c.db.shops)
  }

  predicate StaleProduct(c: Run, s: Stmt) {
    s.EnsureProduct? && c.vars.product == Absent(s.key) && WithValue(c.db.products, s.key) != {}
  }

  predicate StaleParameter(c: Run, s: Stmt) {
    s.EnsureParameter? && c.vars.parameter == Absent(s.name) && WithValue(c.db.parameters, s.name) != {}
  }

  /* Single steps. */

  lemma InsertKeepsUniqueExactly<K>(table: map<Id, K>, id: Id, key: K)
    requires KeysUnique(table) && id !in table
    ensures KeysUnique(table[id := key]) <==> WithValue(table, key) == {}
  {
    if x :| x in WithValue(table, key) {
      var grown := table[id := key];
      assert {x, id} <= WithValue(grown, key) && x != id;
      assert WithValue(grown, grown[id]) != {id};
    } else {
      UniqueInsert(table, id, key);
    }
  }

  lemma ShopInsertKeepsUniqueExactly(shops: map<Id, Shop>, id: Id, row: Shop)
    requires ShopNamesUnique(shops) && id !in shops
    ensures ShopNamesUnique(shops[id := row]) <==> ShopsNamed(shops, row.name) == {}
  {
    if x :| x in ShopsNamed(shops, row.name) {
      var grown := shops[id := row];
      assert {x, id} <= ShopsNamed(grown, row.name) && x != id;
      assert ShopsNamed(grown, grown[id].name) != {id};
    } else {
      UniqueShopInsert(shops, id, row);
    }
  }

  lemma ProductStepExactly(c: Run, key: Product)
    requires ProductsSound(c.db.products, c.db.next.product, c.db.categories) && KeysUnique(c.db.products)
    ensures KeysUnique(StepEnsureProduct(c, key).db.products) <==> !StaleProduct(c, EnsureProduct(key))
  {
    var d, n := StepEnsureProduct(c, key), c.db.next.product;
    if x :| x in WithValue(c.db.products, key) { assert c.db.products[x] == key; }
    if c.vars.product == Absent(key) && !d.failed {
      assert d.db.products == c.db.products[n := key];
      InsertKeepsUniqueExactly(c.db.products, n, key);
    } else {
      assert d.db == c.db;
    }
  }

  lemma ParameterStepExactly(c: Run, name: string)
    requires ParametersSound(c.db.parameters, c.db.next.parameter) && KeysUnique(c.db.parameters)
    ensures KeysUnique(StepEnsureParameter(c, name).db.parameters) <==> !StaleParameter(c, EnsureParameter(name))
  {
    var d, n := StepEnsureParameter(c, name), c.db.next.parameter;
    if x :| x in WithValue(c.db.parameters, name) { assert c.db.parameters[x] == name; }
    if c.vars.parameter == Absent(name) && !d.failed {
      assert d.db.parameters == c.db.parameters[n := name];
      InsertKeepsUniqueExactly(c.db.parameters, n, name);
    } else {
      assert d.db == c.db;
    }
  }

  lemma ShopStepExactly(c: Run, name: string, user: Id)
    requires ShopsSound(c.db.shops, c.db.next.shop, c.db.users) && ShopNamesUnique(c.db.shops)
    ensures ShopNamesUnique(StepEnsureShop(c, name, user).db.shops) <==> !StaleShop(c, EnsureShop(name, user))
  {
    var d, n := StepEnsureShop(c, name, user), c.db.next.shop;
    OwnersWitness(c.db.shops, user);
    if x :| x in ShopsNamed(c.db.shops, name) { assert c.db.shops[x].name == name; }
    if c.vars.found == Absent(name) && !d.failed {
      assert d.db.shops == c.db.shops[n := Shop(name, user)];
      ShopInsertKeepsUniqueExactly(c.db.shops, n, Shop(name, user));
    } else {
      assert d.db == c.db;
    }
  }

  lemma RemovalKeepsUnique(c: Run, product: int)
    requires KeysUnique(c.db.products)
    ensures KeysUnique(StepRemoveProduct(c, product).db.products)
  {
    FewerKeys(c.db.products, StepRemoveProduct(c, product).db.products);
  }

  lemma ProductKeysStep(c: Run, s: Stmt)
    requires Integrity(c.db) && KeysUnique(c.db.products) && !c.failed
    ensures KeysUnique(Step(c, s).db.products) <==> !StaleProduct(c, s)
  {
    if s.EnsureProduct? {
      ProductStepExactly(c, s.key);
    } else if s.RemoveProduct? {
      RemovalKeepsUnique(c, s.product);
    } else {
      StepFramed(c, s);
    }
  }

  lemma ParameterKeysStep(c: Run, s: Stmt)
    requires Integrity(c.db) && KeysUnique(c.db.parameters) && !c.failed
    ensures KeysUnique(Step(c, s).db.parameters) <==> !StaleParameter(c, s)
  {
    if s.EnsureParameter? { ParameterStepExactly(c, s.name); } else { StepFramed(c, s); }
  }

  lemma ShopKeysStep(c: Run, s: Stmt)
    requires Integrity(c.db) && ShopNamesUnique(c.db.shops) && !c.failed
    ensures ShopNamesUnique(Step(c, s).db.shops) <==> !StaleShop(c, s)
  {
    if s.EnsureShop? { ShopStepExactly(c, s.name, s.user); } else { StepFramed(c, s); }
  }

  /** The one step that can give two rows of a kind one key, and it always does. */
  lemma KeyRepeatsExactlyWhenStale(w: World, e: Event, kind: Kind)
    requires Integrity(w.db) && UniqueIn(w.db, kind)
    ensures UniqueIn(Next(w, e).db, kind) <==> !Stale(w, e, kind)
  {
    if kind.Baskets? {
      SecondBasketExactlyWhenStale(w, e);
    } else if Ready(w, e) {
      KeyStepExactly(w, e, kind);
    } else {
      IdleKeepsStore(w, e);
    }
  }

  lemma IdleKeepsStore(w: World, e: Event)
    requires !Ready(w, e)
    ensures Next(w, e).db == w.db
  {
  }

  lemma KeyStepExactly(w: World, e: Event, kind: Kind)
    requires Integrity(w.db) && UniqueIn(w.db, kind) && !kind.Baskets? && Ready(w, e)
    ensures UniqueIn(Next(w, e).db, kind) <==> !Stale(w, e, kind)
  {
    var c, s := RunOf(w, w.jobs[e.j]), w.jobs[e.j].todo[0];
    assert Next(w, e).db == Step(c, s).db;
    match kind
    case Shops => ShopKeysStep(c, s);
    case Products => ProductKeysStep(c, s);
    case Parameters => ParameterKeysStep(c, s);
  }

  /* Whole runs. */

  lemma {:induction false} UniqueUpTo(w: World, events: seq<Event>, kind: Kind, n: nat)
    requires Integrity(w.db) && UniqueIn(w.db, kind) && n <= |events|
    requires forall k | 0 <= k < |events| :: !Stale(WorldAt(w, events, k), events[k], kind)
    ensures UniqueIn(WorldAt(w, events, n).db, kind)
  {
    if n == 0 {
    } else {
      UniqueUpTo(w, events, kind, n - 1);
      PlayNext(w, events, n - 1);
      IntegrityUnderInterleaving(w, events[..n - 1]);
      KeyRepeatsExactlyWhenStale(WorldAt(w, events, n - 1), events[n - 1], kind);
    }
  }

  /** Over a whole run with any interleaving: the keys of a kind stay unique all along if and only if no job inserts on
      a stale lookup. */
  lemma KeysUniqueExactlyWithoutStaleInserts(w: World, events: seq<Event>, kind: Kind)
    requires Integrity(w.db) && UniqueIn(w.db, kind)
    ensures (forall n | 0 <= n <= |events| :: UniqueIn(WorldAt(w, events, n).db, kind))
            <==> forall n | 0 <= n < |events| :: !Stale(WorldAt(w, events, n), events[n], kind)
  {
    if forall n | 0 <= n <= |events| :: UniqueIn(WorldAt(w, events, n).db, kind) {
      forall n | 0 <= n < |events|
        ensures !Stale(WorldAt(w, events, n), events[n], kind)
      {
        PlayNext(w, events, n);
        IntegrityUnderInterleaving(w, events[..n]);
        assert UniqueIn(WorldAt(w, events, n + 1).db, kind);
        KeyRepeatsExactlyWhenStale(WorldAt(w, events, n), events[n], kind);
      }
    }
    if forall n | 0 <= n < |events| :: !Stale(WorldAt(w, events, n), events[n], kind) {
      forall n | 0 <= n <= |events| { UniqueUpTo(w, events, kind, n); }
    }
  }

  /** For baskets: each user has at most one all along if and only if no job opens a basket on a stale lookup. */
  lemma OneBasketExactlyWithoutStaleOpens(w: World, events: seq<Event>)
    requires Integrity(w.db) && BasketsUnique(w.db.orders)
    ensures (forall n | 0 <= n <= |events| :: BasketsUnique(WorldAt(w, events, n).db.orders))
            <==> forall n | 0 <= n < |events| :: !StaleOpen(WorldAt(w, events, n), events[n])
  {
    KeysUniqueExactlyWithoutStaleInserts(w, events, Baskets);
    assert forall n | 0 <= n <= |events| ::
      UniqueIn(WorldAt(w, events, n).db, Baskets) <==> BasketsUnique(WorldAt(w, events, n).db.orders);
    assert forall n | 0 <= n < |events| ::
      Stale(WorldAt(w, events, n), events[n], Baskets) <==> StaleOpen(WorldAt(w, events, n), events[n]);
  }

  /* What a repeated key does. */

  /** No import succeeds that names a shop, lists a good or gives a parameter whose key is held by two rows. */
  lemma RepeatedKeyBlocksImports(db: Db, user: Id, doc: Document)
    requires Integrity(db)
    ensures doc.shop.Some? && Get(ShopsNamed(db.shops, doc.shop.value)) == Many ==> Import(db, user, doc).failed
    ensures (exists g | g in GoodsIn(doc) :: !Lookable(db.products, KeyOf(g))) ==> Import(db, user, doc).failed
    ensures (exists name | name in GoodNames(GoodsIn(doc)) :: !Lookable(db.parameters, name))
            ==> Import(db, user, doc).failed
  {
    var _, _ := ImportSucceedsExactlyWhenAccepted(db, user, doc);
    if name :| name in GoodNames(GoodsIn(doc)) && !Lookable(db.parameters, name) {
      var g, p :| g in GoodsIn(doc) && p in ParametersIn(g) && Text(p.name) == name;
      assert !ParameterOk(db.parameters, p);
    }
  }

  /* Runs that reach such a step. */

  /** Two imports of different users with one new shop name make two shops of it, from the empty store on. */
  lemma EmptyStoreReachesTwoShops(users: map<Id, User>, u1: Id, d1: Document, u2: Id, d2: Document, name: string)
    returns (w: World)
    requires u1 != u2 && u1 in users && u2 in users
    requires d1.shop == Some(name) && d2.shop == Some(name) && |name| <= SHOP_NAME
    requires users[u1].userType == ShopUser && users[u2].userType == ShopUser
    ensures w == Play(Start(users), [PartnerUpdate(u1, d1), PartnerUpdate(u2, d2), StartImport(0), StartImport(0)])
    ensures Get(ShopsNamed(Next(Next(Next(Next(w, Tick(0)), Tick(1)), Tick(0)), Tick(1)).db.shops, name)) == Many
  {
    w := TwoImportsStart(users, u1, d1, u2, d2);
    var w1 := Next(w, Tick(0));
    LooksForShop(w, 0, u1, d1, name);
    var w2 := Next(w1, Tick(1));
    LooksForShop(w1, 1, u2, d2, name);
    var w3 := Next(w2, Tick(0));
    MakesShop(w2, 0, u1, name);
    var w4 := Next(w3, Tick(1));
    MakesShop(w3, 1, u2, name);
    assert {1, 2} <= ShopsNamed(w4.db.shops, name);
  }

  lemma TwoImportsStart(users: map<Id, User>, u1: Id, d1: Document, u2: Id, d2: Document) returns (w: World)
    requires u1 in users && u2 in users && users[u1].userType == ShopUser && users[u2].userType == ShopUser
    ensures w == Play(Start(users), [PartnerUpdate(u1, d1), PartnerUpdate(u2, d2), StartImport(0), StartImport(0)])
    ensures w == World(Empty(users), [], [NewJob(ImportPriceList(u1, d1)), NewJob(ImportPriceList(u2, d2))])
  {
    FourEvents(Start(users), PartnerUpdate(u1, d1), PartnerUpdate(u2, d2), StartImport(0), StartImport(0));
    var queued := Next(Next(Start(users), PartnerUpdate(u1, d1)), PartnerUpdate(u2, d2));
    assert queued == World(Empty(users), [(u1, d1), (u2, d2)], []);
    var started := Next(queued, StartImport(0));
    assert started == World(Empty(users), [(u2, d2)], [NewJob(ImportPriceList(u1, d1))]);
    w := Next(started, StartImport(0));
  }

  lemma FourEvents(w: World, a: Event, b: Event, c: Event, d: Event)
    ensures Play(w, [a, b, c, d]) == Next(Next(Next(Next(w, a), b), c), d)
  {
    assert [a, b, c, d] == [a, b] + [c, d];
    PlayConcat(w, [a, b], [c, d]);
    PlayTwo(w, a, b);
    PlayTwo(Play(w, [a, b]), c, d);
  }

  lemma LooksForShop(w: World, j: nat, user: Id, doc: Document, name: string)
    requires j < |w.jobs| && w.jobs[j] == NewJob(ImportPriceList(user, doc)) && doc.shop == Some(name)
    requires ShopsNamed(w.db.shops, name) == {}
    ensures var todo := ImportProgram(user, doc)[1..];
      && todo != [] && todo[0] == EnsureShop(name, user)
      && Next(w, Tick(j)) ==
         w.(jobs := w.jobs[j := Job(ImportPriceList(user, doc), NO_VARS.(found := Absent(name)), false, todo)])
  {
    assert ImportProgram(user, doc)[0] == FindShop(name) && ImportProgram(user, doc)[1] == EnsureShop(name, user);
    assert StepFindShop(Begin(w.db), name) == Run(w.db, NO_VARS.(found := Absent(name)), false);
  }

  lemma MakesShop(w: World, j: nat, user: Id, name: string)
    requires j < |w.jobs| && w.jobs[j].todo != [] && w.jobs[j].todo[0] == EnsureShop(name, user)
    requires !w.jobs[j].failed && w.jobs[j].vars.found == Absent(name)
    requires user in w.db.users && user !in Owners(w.db.shops) && |name| <= SHOP_NAME
    ensures var next := Next(w, Tick(j));
      && next.db == w.db.(shops := w.db.shops[w.db.next.shop := Shop(name, user)],
                          next := w.db.next.(shop := w.db.next.shop + 1))
      && |next.jobs| == |w.jobs| && forall k | 0 <= k < |w.jobs| && k != j :: next.jobs[k] == w.jobs[k]
  {
    var c := RunOf(w, w.jobs[j]);
    OwnersWitness(w.db.shops, user);
    assert Step(c, w.jobs[j].todo[0]) == StepEnsureShop(c, name, user);
  }

  /** Two imports about to look up one new product key at the same time make two products of it. */
  lemma RaceMakesTwoProducts(w: World, i: nat, j: nat, key: Product)
    requires i < |w.jobs| && j < |w.jobs| && i != j && WithValue(w.db.products, key) == {}
    requires |key.name| <= PRODUCT_NAME && key.category in w.db.categories
    requires LooksUp(w.jobs[i], key) && LooksUp(w.jobs[j], key)
    ensures Get(WithValue(Next(Next(Next(Next(w, Tick(i)), Tick(j)), Tick(i)), Tick(j)).db.products, key)) == Many
  {
    var w1 := Next(w, Tick(i));
    LooksForProduct(w, i, key);
    var w2 := Next(w1, Tick(j));
    LooksForProduct(w1, j, key);
    BothMakeProducts(w2, i, j, key);
  }

  lemma BothMakeProducts(w: World, i: nat, j: nat, key: Product)
    requires i < |w.jobs| && j < |w.jobs| && i != j
    requires |key.name| <= PRODUCT_NAME && key.category in w.db.categories
    requires AboutToMakeProduct(w.jobs[i], key) && AboutToMakeProduct(w.jobs[j], key)
    ensures Get(WithValue(Next(Next(w, Tick(i)), Tick(j)).db.products, key)) == Many
  {
    MakesProduct(w, i, key);
    MakesProduct(Next(w, Tick(i)), j, key);
    var n := w.db.next.product;
    assert {n, n + 1} <= WithValue(Next(Next(w, Tick(i)), Tick(j)).db.products, key);
  }

  predicate AboutToMakeProduct(job: Job, key: Product) {
    !job.failed && job.todo != [] && job.todo[0] == EnsureProduct(key) && job.vars.product == Absent(key)
  }

  predicate LooksUp(job: Job, key: Product) {
    !job.failed && |job.todo| >= 2 && job.todo[0] == FindProduct(key) && job.todo[1] == EnsureProduct(key)
  }

  lemma LooksForProduct(w: World, j: nat, key: Product)
    requires j < |w.jobs| && LooksUp(w.jobs[j], key) && WithValue(w.db.products, key) == {}
    ensures Next(w, Tick(j)) == w.(jobs := w.jobs[j := w.jobs[j].(vars := w.jobs[j].vars.(product := Absent(key)),
                                                                  todo := w.jobs[j].todo[1..])])
  {
    var c := RunOf(w, w.jobs[j]);
    assert Step(c, w.jobs[j].todo[0]) == StepFindProduct(c, key);
  }

  lemma MakesProduct(w: World, j: nat, key: Product)
    requires j < |w.jobs| && AboutToMakeProduct(w.jobs[j], key)
    requires |key.name| <= PRODUCT_NAME && key.category in w.db.categories
    ensures var next := Next(w, Tick(j));
      && next.db == w.db.(products := w.db.products[w.db.next.product := key],
                          next := w.db.next.(product := w.db.next.product + 1))
      && |next.jobs| == |w.jobs| && forall k | 0 <= k < |w.jobs| && k != j :: next.jobs[k] == w.jobs[k]
  {
    var c := RunOf(w, w.jobs[j]);
    assert Step(c, w.jobs[j].todo[0]) == StepEnsureProduct(c, key);
  }

  /** And two imports about to look up one new parameter name make two parameters of it. */
  lemma RaceMakesTwoParameters(w: World, i: nat, j: nat, name: string)
    requires i < |w.jobs| && j < |w.jobs| && i != j && WithValue(w.db.parameters, name) == {}
    requires |name| <= PARAMETER_NAME && LooksUpName(w.jobs[i], name) && LooksUpName(w.jobs[j], name)
    ensures Get(WithValue(Next(Next(Next(Next(w, Tick(i)), Tick(j)), Tick(i)), Tick(j)).db.parameters, name)) == Many
  {
    var w1 := Next(w, Tick(i));
    LooksForParameter(w, i, name);
    var w2 := Next(w1, Tick(j));
    LooksForParameter(w1, j, name);
    BothMakeParameters(w2, i, j, name);
  }

  lemma BothMakeParameters(w: World, i: nat, j: nat, name: string)
    requires i < |w.jobs| && j < |w.jobs| && i != j
    requires |name| <= PARAMETER_NAME
    requires AboutToMakeParameter(w.jobs[i], name) && AboutToMakeParameter(w.jobs[j], name)
    ensures Get(WithValue(Next(Next(w, Tick(i)), Tick(j)).db.parameters, name)) == Many
  {
    MakesParameter(w, i, name);
    MakesParameter(Next(w, Tick(i)), j, name);
    var n := w.db.next.parameter;
    assert {n, n + 1} <= WithValue(Next(Next(w, Tick(i)), Tick(j)).db.parameters, name);
  }

  predicate AboutToMakeParameter(job: Job, name: string) {
    !job.failed && job.todo != [] && job.todo[0] == EnsureParameter(name) && job.vars.parameter == Absent(name)
  }

  predicate LooksUpName(job: Job, name: string) {
    !job.failed && |job.todo| >= 2 && job.todo[0] == FindParameter(name) && job.todo[1] == EnsureParameter(name)
  }

  lemma LooksForParameter(w: World, j: nat, name: string)
    requires j < |w.jobs| && LooksUpName(w.jobs[j], name) && WithValue(w.db.parameters, name) == {}
    ensures Next(w, Tick(j)) == w.(jobs := w.jobs[j := w.jobs[j].(vars := w.jobs[j].vars.(parameter := Absent(name)),
                                                                  todo := w.jobs[j].todo[1..])])
  {
    var c := RunOf(w, w.jobs[j]);
    assert Step(c, w.jobs[j].todo[0]) == StepFindParameter(c, name);
  }

  lemma MakesParameter(w: World, j: nat, name: string)
    requires j < |w.jobs| && AboutToMakeParameter(w.jobs[j], name) && |name| <= PARAMETER_NAME
    ensures var next := Next(w, Tick(j));
      && next.db == w.db.(parameters := w.db.parameters[w.db.next.parameter := name],
                          next := w.db.next.(parameter := w.db.next.parameter + 1))
      && |next.jobs| == |w.jobs| && forall k | 0 <= k < |w.jobs| && k != j :: next.jobs[k] == w.jobs[k]
  {
    var c := RunOf(w, w.jobs[j]);
    assert Step(c, w.jobs[j].todo[0]) == StepEnsureParameter(c, name);
  }

  /* The same from the empty store: each import runs alone up to its goods, and then they take turns. */

  function Ticks(j: nat, n: nat): seq<Event> { if n == 0 then [] else [Tick(j)] + Ticks(j, n - 1) }

  lemma TakeAndDrop<T>(s: seq<T>, n: nat)
    requires 0 < n <= |s|
    ensures s[..n] != [] && s[..n][0] == s[0] && s[..n][1..] == s[1..][..n - 1] && s[1..][n - 1..] == s[n..]
  {
  }

  /** A job that ticks alone runs its program. */
  lemma {:induction false} TicksRunProgram(w: World, j: nat, n: nat)
    requires j < |w.jobs| && n <= |w.jobs[j].todo|
    ensures var job := w.jobs[j];
      var c := Exec(RunOf(w, job), job.todo[..n]);
      Play(w, Ticks(j, n)) ==
      w.(db := c.db, jobs := w.jobs[j := Job(job.request, c.vars, c.failed, job.todo[n..])])
    decreases n
  {
    var job := w.jobs[j];
    if n == 0 {
    } else {
      var next := Next(w, Tick(j));
      assert Ticks(j, n)[0] == Tick(j) && Ticks(j, n)[1..] == Ticks(j, n - 1);
      TakeAndDrop(job.todo, n);
      TicksRunProgram(next, j, n - 1);
    }
  }

  function ClearLength(user: Id, doc: Document): nat { |UntilClear(user, doc)| + 1 }

  lemma ImportReachesGoods(w: World, j: nat, user: Id, doc: Document)
    requires Integrity(w.db) && j < |w.jobs| && w.jobs[j] == NewJob(ImportPriceList(user, doc))
    requires Clears(w.db, user, doc, ClearLength(user, doc))
    ensures var next := Play(w, Ticks(j, ClearLength(user, doc)));
      && next.db == ToClear(w.db, user, doc).db && |next.jobs| == |w.jobs|
      && !next.jobs[j].failed && next.jobs[j].todo == OptionalGoodsProgram(doc)
      && forall k | 0 <= k < |w.jobs| && k != j :: next.jobs[k] == w.jobs[k]
  {
    ToClearIsPrefix(w.db, user, doc);
    ToClearSucceeds(w.db, user, doc);
    TicksRunProgram(w, j, ClearLength(user, doc));
  }

  /** A document that names shop `name` and categories `cs`, and whose first good has key `key`. */
  predicate Offers(doc: Document, name: string, cs: seq<CategoryEntry>, key: Product) {
    && doc.shop == Some(name) && |name| <= SHOP_NAME
    && doc.categories == Some(cs) && CategoriesOk(map[], cs)
    && doc.goods.Some? && doc.goods.value != []
    && doc.goods.value[0].name.Some? && doc.goods.value[0].category.Some? && KeyOf(doc.goods.value[0]) == key
    && |key.name| <= PRODUCT_NAME && key.category in CategoryIds(cs)
  }

  lemma OffersLooksUp(job: Job, doc: Document, name: string, cs: seq<CategoryEntry>, key: Product)
    requires Offers(doc, name, cs, key) && !job.failed && job.todo == OptionalGoodsProgram(doc)
    ensures LooksUp(job, key)
  {
  }

  lemma FirstClears(users: map<Id, User>, user: Id, doc: Document, name: string, cs: seq<CategoryEntry>, key: Product)
    requires user in users && Offers(doc, name, cs, key)
    ensures Clears(Empty(users), user, doc, ClearLength(user, doc))
    ensures var db := ToClear(Empty(users), user, doc).db;
      Integrity(db) && Moved(Empty(users), db, user, doc) && db.products == map[]
  {
    assert ShopsNamed(Empty(users).shops, name) == {};
    ToClearSucceeds(Empty(users), user, doc);
    ToClearIsPrefix(Empty(users), user, doc);
  }

  lemma SecondClears(users: map<Id, User>, db: Db, u1: Id, d1: Document, n1: string, u2: Id, d2: Document, n2: string,
                     cs: seq<CategoryEntry>, key: Product)
    requires u1 != u2 && u2 in users && n1 != n2 && Offers(d1, n1, cs, key) && Offers(d2, n2, cs, key)
    requires Integrity(db) && Moved(Empty(users), db, u1, d1) && db.products == map[]
    ensures Clears(db, u2, d2, ClearLength(u2, d2))
    ensures var out := ToClear(db, u2, d2).db; out.products == map[] && key.category in out.categories
  {
    assert ShopsNamed(db.shops, n2) == {};
    CategoriesOkMoved(Empty(users), db.categories, cs);
    ToClearSucceeds(db, u2, d2);
    CategoriesAfterLookup(db.categories, cs);
  }

  /** Two imports of different shops that offer one new product first can make two products of it. */
  lemma EmptyStoreReachesTwoProducts(users: map<Id, User>, u1: Id, d1: Document, n1: string, u2: Id, d2: Document,
                                     n2: string, cs: seq<CategoryEntry>, key: Product)
    returns (events: seq<Event>)
    requires u1 != u2 && u1 in users && u2 in users && n1 != n2
    requires users[u1].userType == ShopUser && users[u2].userType == ShopUser
    requires Offers(d1, n1, cs, key) && Offers(d2, n2, cs, key)
    ensures Get(WithValue(Play(Start(users), events).db.products, key)) == Many
  {
    var arrive := [PartnerUpdate(u1, d1), PartnerUpdate(u2, d2), StartImport(0), StartImport(0)];
    var first, second := Ticks(0, ClearLength(u1, d1)), Ticks(1, ClearLength(u2, d2));
    var turns := [Tick(0), Tick(1), Tick(0), Tick(1)];
    var w0 := TwoImportsStart(users, u1, d1, u2, d2);
    FirstClears(users, u1, d1, n1, cs, key);
    ImportReachesGoods(w0, 0, u1, d1);
    var w1 := Play(w0, first);
    SecondClears(users, w1.db, u1, d1, n1, u2, d2, n2, cs, key);
    ImportReachesGoods(w1, 1, u2, d2);
    var w2 := Play(w1, second);
    OffersLooksUp(w2.jobs[0], d1, n1, cs, key);
    OffersLooksUp(w2.jobs[1], d2, n2, cs, key);
    RaceMakesTwoProducts(w2, 0, 1, key);
    FourEvents(w2, Tick(0), Tick(1), Tick(0), Tick(1));
    events := arrive + first + second + turns;
    PlayConcat(Start(users), arrive + first + second, turns);
    PlayConcat(Start(users), arrive + first, second);
    PlayConcat(Start(users), arrive, first);
  }
}
