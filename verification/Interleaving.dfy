/** Any number of requests and import tasks at once, interleaved statement by statement, with a task queue
    (backend/views.py PartnerUpdate, backend/tasks.py); any of them may be stopped midway. */
module Interleaving {
  import opened Collections
  import opened Schema
  import opened Machine
  import opened PriceList
  import opened Requests
  import opened Underway
  import opened Outcome

  /** A handler or task under way: what it serves, its variables, and the statements it has left. */
  datatype Job = Job(request: Request, vars: Vars, failed: bool, todo: seq<Stmt>)

  datatype World = World(db: Db, queue: seq<(Id, Document)>, jobs: seq<Job>)

  datatype Event =
    | PartnerUpdate(user: Id, doc: Document)   // POST partner/update: enqueue an import
    | StartImport(k: nat)                      // a worker takes a task from the queue
    | Receive(request: Request)                // any other request arrives
    | Tick(j: nat)                             // job j issues its next statement
    | Kill(j: nat)                             // job j is stopped

  function NewJob(r: Request): Job { Job(r, NO_VARS, false, Program(r)) }

  ghost function RunOf(w: World, job: Job): Run { Run(w.db, job.vars, job.failed) }

  /** Only users of type shop may enqueue an import. Events that make no sense change nothing. */
  ghost function Next(w: World, e: Event): World {
    match e
    case PartnerUpdate(user, doc) =>
      if user in w.db.users && w.db.users[user].userType == ShopUser then w.(queue := w.queue + [(user, doc)]) else w
    case StartImport(k) =>
      if k < |w.queue|
      then w.(queue := w.queue[..k] + w.queue[k + 1..],
              jobs := w.jobs + [NewJob(ImportPriceList(w.queue[k].0, w.queue[k].1))])
      else w
    case Receive(r) => if r.ImportPriceList? then w else w.(jobs := w.jobs + [NewJob(r)])
    case Tick(j) =>
      if j < |w.jobs| && w.jobs[j].todo != [] then
        var job := w.jobs[j];
        var c := Step(RunOf(w, job), job.todo[0]);
        w.(db := c.db, jobs := w.jobs[j := Job(job.request, c.vars, c.failed, job.todo[1..])])
      else w
    case Kill(j) => if j < |w.jobs| then w.(jobs := w.jobs[j := w.jobs[j].(todo := [])]) else w
  }

  ghost function Play(w: World, events: seq<Event>): World
    decreases |events|
  {
    if events == [] then w else Play(Next(w, events[0]), events[1..])
  }

  function Start(users: map<Id, User>): World { World(Empty(users), [], []) }

  /** Under every interleaving every foreign key resolves, each user owns at most one shop, no parameter repeats
      in a row, and every column is in range: no statement breaks what the schema declares. */
  lemma {:induction false} IntegrityUnderInterleaving(w: World, events: seq<Event>)
    requires Integrity(w.db)
    ensures Integrity(Play(w, events).db)
    decreases |events|
  {
    if events == [] {
    } else {
      NextKeepsIntegrity(w, events[0]);
      IntegrityUnderInterleaving(Next(w, events[0]), events[1..]);
    }
  }

  lemma NextKeepsIntegrity(w: World, e: Event)
    requires Integrity(w.db)
    ensures Integrity(Next(w, e).db)
  {
    if e.Tick? && e.j < |w.jobs| && w.jobs[e.j].todo != [] {
      StepKeepsIntegrity(RunOf(w, w.jobs[e.j]), w.jobs[e.j].todo[0]);
    }
  }

  /* Ownership of shops. */

  /** Shops, and ProductInfo rows while they are there, never change; ids are not reused. */
  ghost predicate RowsFixed(a: Db, b: Db) {
    && b.users == a.users
    && (forall s | s in a.shops :: s in b.shops && b.shops[s] == a.shops[s])
    && a.next.info <= b.next.info
    && (forall i | i in a.infos && i in b.infos :: b.infos[i] == a.infos[i])
    && (forall i | i in b.infos && i !in a.infos :: i >= a.next.info)
  }

  lemma StepFixesRows(c: Run, s: Stmt)
    requires Integrity(c.db)
    ensures RowsFixed(c.db, Step(c, s).db)
  {
    if c.failed {
    } else if s.EnsureShop? || s.CreateInfo? || s.ClearShop? || s.RemoveProduct? {
      RowStepFixesRows(c, s);
    } else {
      StepFramed(c, s);
    }
  }

  lemma RowStepFixesRows(c: Run, s: Stmt)
    requires Integrity(c.db) && !c.failed && (s.EnsureShop? || s.CreateInfo? || s.ClearShop? || s.RemoveProduct?)
    ensures RowsFixed(c.db, Step(c, s).db)
  {
    match s
    case EnsureShop(name, user) => EnsureShopAddsAShop(c, name, user);
    case CreateInfo(_, _, _, _, _) => CreateInfoAddsARow(c, s);
    case ClearShop => ClearShopRemovesRows(c);
    case RemoveProduct(product) => RemoveProductRemovesRows(c, product);
  }

  lemma CreateInfoAddsARow(c: Run, s: Stmt)
    requires s.CreateInfo? && InfosSound(c.db.infos, c.db.next.info, c.db.products, c.db.shops)
    ensures RowsFixed(c.db, StepCreateInfo(c, s).db)
  {
    var d := StepCreateInfo(c, s);
    if !d.failed {
      var n := c.db.next.info;
      assert d.db == c.db.(infos := c.db.infos[n := d.db.infos[n]], next := c.db.next.(info := n + 1));
    }
  }

  lemma RemoveProductRemovesRows(c: Run, product: int)
    ensures RowsFixed(c.db, StepRemoveProduct(c, product).db)
  {
  }

  lemma ClearShopRemovesRows(c: Run)
    ensures RowsFixed(c.db, StepClearShop(c).db)
  {
  }

  /** What an import task knows of its own shop; true whatever other jobs do meanwhile. */
  ghost predicate KnowsItsShop(db: Db, vars: Vars, user: Id) {
    && (vars.shop.Some? ==> Owns(db.shops, user, vars.shop.value))
    && (vars.info.Some? ==> vars.info.value < db.next.info
                            && (vars.info.value in db.infos ==> Owns(db.shops, user, db.infos[vars.info.value].shop)))
  }

  /** An import serves a user of type shop, has only statements of its own document left and knows its shop;
      other jobs have no statement that creates a shop. */
  ghost predicate JobSound(db: Db, job: Job) {
    if job.request.ImportPriceList? then
      && job.request.user in db.users && db.users[job.request.user].userType == ShopUser
      && KnowsItsShop(db, job.vars, job.request.user)
      && forall s | s in job.todo :: Licensed(s, job.request.user, job.request.doc)
    else
      forall s | s in job.todo :: !s.EnsureShop?
  }

  ghost predicate WorldSound(w: World) {
    && Integrity(w.db)
    && (forall s | s in w.db.shops :: w.db.users[w.db.shops[s].user].userType == ShopUser)
    && (forall q | q in w.queue :: q.0 in w.db.users && w.db.users[q.0].userType == ShopUser)
    && (forall job | job in w.jobs :: JobSound(w.db, job))
  }

  /** What an import task of `user` may change: rows, parameters and category links of shops the user owns, and
      order lines of goods those shops sell. */
  ghost predicate TouchesOwnShop(a: Db, b: Db, user: Id) {
    && b.users == a.users && b.contacts == a.contacts && b.orders == a.orders
    && (forall i | i in a.infos && !Sells(a, user, i) :: i in b.infos && b.infos[i] == a.infos[i])
    && (forall i | i in b.infos && i !in a.infos :: Sells(b, user, i))
    && (forall v | v in a.values && !Sells(a, user, a.values[v].info) :: v in b.values && b.values[v] == a.values[v])
    && (forall v | v in b.values && v !in a.values :: Sells(b, user, b.values[v].info))
    && a.links <= b.links && (forall l | l in b.links && l !in a.links :: Owns(b.shops, user, l.1))
    && (forall i | i in a.items && !Sells(a, user, a.items[i].info) :: i in b.items && b.items[i] == a.items[i])
    && (forall i | i in b.items :: i in a.items && b.items[i] == a.items[i])
  }

  /** A step that leaves those tables alone. */
  ghost predicate CatalogueUntouched(a: Db, b: Db) {
    && b.users == a.users && b.contacts == a.contacts && b.orders == a.orders && b.infos == a.infos
    && b.values == a.values && b.links == a.links && b.items == a.items && b.next.info == a.next.info
  }

  lemma ShopStepOwn(c: Run, name: string, user: Id)
    requires Integrity(c.db) && KnowsItsShop(c.db, c.vars, user)
    ensures var d := StepEnsureShop(c, name, user); TouchesOwnShop(c.db, d.db, user) && KnowsItsShop(d.db, d.vars, user)
  {
    var d := StepEnsureShop(c, name, user);
    EnsureShopAddsAShop(c, name, user);
    OwnersStay(c.db, d.db, c.vars, user);
  }

  lemma EnsureShopAddsAShop(c: Run, name: string, user: Id)
    requires ShopsSound(c.db.shops, c.db.next.shop, c.db.users)
    ensures var d := StepEnsureShop(c, name, user);
      && CatalogueUntouched(c.db, d.db) && d.vars.info == c.vars.info
      && (forall s | s in c.db.shops :: s in d.db.shops && d.db.shops[s] == c.db.shops[s])
  {
    var d, n := StepEnsureShop(c, name, user), c.db.next.shop;
    if c.vars.found == Absent(name) && !d.failed {
      assert d.db == c.db.(shops := c.db.shops[n := Shop(name, user)], next := c.db.next.(shop := n + 1));
      assert n !in c.db.shops;
    } else {
      assert d.db == c.db;
    }
  }

  lemma OwnersStay(a: Db, b: Db, vars: Vars, user: Id)
    requires Integrity(a) && CatalogueUntouched(a, b) && KnowsItsShop(a, vars, user)
    requires forall s | s in a.shops :: s in b.shops && b.shops[s] == a.shops[s]
    ensures TouchesOwnShop(a, b, user) && KnowsItsShop(b, vars, user)
  {
  }

  lemma LinkStepOwn(c: Run, user: Id)
    requires KnowsItsShop(c.db, c.vars, user)
    ensures var d := StepLinkShop(c); TouchesOwnShop(c.db, d.db, user) && KnowsItsShop(d.db, d.vars, user)
  {
  }

  lemma ClearStepOwn(c: Run, user: Id)
    requires Integrity(c.db) && KnowsItsShop(c.db, c.vars, user)
    ensures var d := StepClearShop(c); TouchesOwnShop(c.db, d.db, user) && KnowsItsShop(d.db, d.vars, user)
  {
  }

  lemma InfoStepOwn(c: Run, s: Stmt, user: Id)
    requires s.CreateInfo? && Integrity(c.db) && KnowsItsShop(c.db, c.vars, user)
    ensures var d := StepCreateInfo(c, s); TouchesOwnShop(c.db, d.db, user) && KnowsItsShop(d.db, d.vars, user)
  {
  }

  lemma ValueStepOwn(c: Run, value: string, user: Id)
    requires Integrity(c.db) && KnowsItsShop(c.db, c.vars, user)
    ensures var d := StepCreateValue(c, value); TouchesOwnShop(c.db, d.db, user) && KnowsItsShop(d.db, d.vars, user)
  {
  }

  /** The statements that look up or add a category, a product or a parameter name. */
  lemma SharedStepOwn(c: Run, s: Stmt, user: Id)
    requires Integrity(c.db) && KnowsItsShop(c.db, c.vars, user)
    requires OfImport(s) || s.Raise?
    requires !s.EnsureShop? && !s.LinkShop? && !s.ClearShop? && !s.CreateInfo? && !s.CreateValue?
    ensures TouchesOwnShop(c.db, Step(c, s).db, user) && KnowsItsShop(Step(c, s).db, Step(c, s).vars, user)
  {
    StepFramed(c, s);
    OwnersStay(c.db, Step(c, s).db, c.vars, user);
  }

  lemma ImportStepTouchesOwnShop(c: Run, s: Stmt, user: Id, doc: Document)
    requires Integrity(c.db) && KnowsItsShop(c.db, c.vars, user) && Licensed(s, user, doc)
    ensures TouchesOwnShop(c.db, Step(c, s).db, user) && KnowsItsShop(Step(c, s).db, Step(c, s).vars, user)
  {
    if c.failed { return; }
    match s
    case EnsureShop(name, _) => ShopStepOwn(c, name, user);
    case LinkShop => LinkStepOwn(c, user);
    case ClearShop => ClearStepOwn(c, user);
    case CreateInfo(_, _, _, _, _) => InfoStepOwn(c, s, user);
    case CreateValue(value) => ValueStepOwn(c, value, user);
    case _ => SharedStepOwn(c, s, user);
  }

  lemma ShopsOfStep(c: Run, s: Stmt)
    requires Integrity(c.db)
    ensures forall n | n in Step(c, s).db.shops && n !in c.db.shops ::
      s.EnsureShop? && Step(c, s).db.shops[n].user == s.user
  {
    if !s.EnsureShop? { StepFramed(c, s); }
  }

  lemma JobStaysSound(a: Db, b: Db, job: Job)
    requires RowsFixed(a, b) && InfosSound(a.infos, a.next.info, a.products, a.shops) && JobSound(a, job)
    ensures JobSound(b, job)
  {
  }

  /** The job that moved. */
  lemma MovedJobSound(w: World, j: nat)
    requires WorldSound(w) && j < |w.jobs| && w.jobs[j].todo != []
    ensures JobSound(Next(w, Tick(j)).db, Next(w, Tick(j)).jobs[j])
  {
    var job := w.jobs[j];
    assert job in w.jobs && job.todo[0] in job.todo;
    StepFixesRows(RunOf(w, job), job.todo[0]);
    if job.request.ImportPriceList? {
      ImportStepTouchesOwnShop(RunOf(w, job), job.todo[0], job.request.user, job.request.doc);
    }
  }

  lemma TickKeepsSound(w: World, j: nat)
    requires WorldSound(w) && j < |w.jobs| && w.jobs[j].todo != []
    ensures WorldSound(Next(w, Tick(j))) && RowsFixed(w.db, Next(w, Tick(j)).db)
  {
    var job, next := w.jobs[j], Next(w, Tick(j));
    assert job in w.jobs && job.todo[0] in job.todo;
    NextKeepsIntegrity(w, Tick(j));
    StepFixesRows(RunOf(w, job), job.todo[0]);
    ShopsOfStep(RunOf(w, job), job.todo[0]);
    MovedJobSound(w, j);
    forall other | other in next.jobs
      ensures JobSound(next.db, other)
    {
      if other != next.jobs[j] {
        assert other in w.jobs;
        JobStaysSound(w.db, next.db, other);
      }
    }
  }

  lemma {:induction false} OrderStatementsMakeNoShop(r: Request)
    requires !r.ImportPriceList?
    ensures forall s | s in Program(r) :: !s.EnsureShop?
  {
    match r
    case PostBasket(_, entries) => AddLinesMakeNoShop(entries);
    case PutBasket(_, changes) => SetLinesMakeNoShop(changes);
    case _ =>
  }

  lemma {:induction false} AddLinesMakeNoShop(entries: seq<Entry>)
    ensures forall s | s in AddLines(entries) :: !s.EnsureShop?
  {
    if entries == [] {
    } else {
      AddLinesMakeNoShop(entries[1..]);
    }
  }

  lemma {:induction false} SetLinesMakeNoShop(changes: seq<PutEntry>)
    ensures forall s | s in SetLines(changes) :: !s.EnsureShop?
  {
    if changes == [] {
    } else {
      SetLinesMakeNoShop(changes[1..]);
    }
  }

  lemma StartKeepsSound(w: World, k: nat)
    requires WorldSound(w) && k < |w.queue|
    ensures WorldSound(Next(w, StartImport(k)))
  {
    assert w.queue[k] in w.queue;
    ProgramLicensed(w.queue[k].0, w.queue[k].1);
    var next, job := Next(w, StartImport(k)), NewJob(ImportPriceList(w.queue[k].0, w.queue[k].1));
    assert JobSound(w.db, job) && next.jobs == w.jobs + [job];
  }

  lemma ReceiveKeepsSound(w: World, r: Request)
    requires WorldSound(w) && !r.ImportPriceList?
    ensures WorldSound(Next(w, Receive(r)))
  {
    OrderStatementsMakeNoShop(r);
    assert JobSound(w.db, NewJob(r)) && Next(w, Receive(r)).jobs == w.jobs + [NewJob(r)];
  }

  lemma NextKeepsSound(w: World, e: Event)
    requires WorldSound(w)
    ensures WorldSound(Next(w, e)) && RowsFixed(w.db, Next(w, e).db)
  {
    match e
    case PartnerUpdate(_, _) =>
    case StartImport(k) =>
      if k < |w.queue| { StartKeepsSound(w, k); }
    case Receive(r) =>
      if !r.ImportPriceList? { ReceiveKeepsSound(w, r); }
    case Tick(j) =>
      if j < |w.jobs| && w.jobs[j].todo != [] { TickKeepsSound(w, j); }
    case Kill(j) =>
      if j < |w.jobs| { assert w.jobs[j] in w.jobs; }
  }

  lemma {:induction false} PlayKeepsSound(w: World, events: seq<Event>)
    requires WorldSound(w)
    ensures WorldSound(Play(w, events)) && RowsFixed(w.db, Play(w, events).db)
    decreases |events|
  {
    if events == [] {
    } else {
      NextKeepsSound(w, events[0]);
      PlayKeepsSound(Next(w, events[0]), events[1..]);
      RowsFixedTransitive(w.db, Next(w, events[0]).db, Play(w, events).db);
    }
  }

  lemma RowsFixedTransitive(a: Db, b: Db, c: Db)
    requires InfosSound(a.infos, a.next.info, a.products, a.shops)
    requires RowsFixed(a, b) && RowsFixed(b, c)
    ensures RowsFixed(a, c)
  {
    forall i | i in a.infos && i in c.infos
      ensures i in b.infos
    {
      assert i < b.next.info;
    }
  }

  /** Whatever is interleaved with whatever, every shop belongs to a user of type shop, and from then on neither its
      owner nor its name changes. */
  lemma ShopsBelongToShopUsers(users: map<Id, User>, events: seq<Event>, later: seq<Event>)
    ensures var w := Play(Start(users), events);
      && (forall s | s in w.db.shops ::
            w.db.shops[s].user in w.db.users && w.db.users[w.db.shops[s].user].userType == ShopUser)
      && (forall s | s in w.db.shops :: s in Play(w, later).db.shops && Play(w, later).db.shops[s] == w.db.shops[s])
  {
    PlayKeepsSound(Start(users), events);
    PlayKeepsSound(Play(Start(users), events), later);
  }

  /** Whatever ran before or runs beside it, a statement of an import task serves a user of type shop and changes
      no row, parameter, category link or order line of anyone else's shop. */
  lemma ImportTaskTouchesOwnShop(users: map<Id, User>, events: seq<Event>, j: nat)
    requires j < |Play(Start(users), events).jobs| && Play(Start(users), events).jobs[j].request.ImportPriceList?
    ensures var (w, user) := (Play(Start(users), events), Play(Start(users), events).jobs[j].request.user);
      && user in w.db.users && w.db.users[user].userType == ShopUser
      && TouchesOwnShop(w.db, Next(w, Tick(j)).db, user)
  {
    PlayKeepsSound(Start(users), events);
    ImportTickTouchesOwnShop(Play(Start(users), events), j);
  }

  lemma ImportTickTouchesOwnShop(w: World, j: nat)
    requires WorldSound(w) && j < |w.jobs| && w.jobs[j].request.ImportPriceList?
    ensures var user := w.jobs[j].request.user;
      && user in w.db.users && w.db.users[user].userType == ShopUser
      && TouchesOwnShop(w.db, Next(w, Tick(j)).db, user)
  {
    var job := w.jobs[j];
    assert job in w.jobs && JobSound(w.db, job);
    if job.todo != [] {
      assert job.todo[0] in job.todo;
      ImportStepTouchesOwnShop(RunOf(w, job), job.todo[0], job.request.user, job.request.doc);
    }
  }

  /* Categories keep their names, and placed orders stay placed. */

  ghost predicate NamesKept(a: map<Id, string>, b: map<Id, string>) {
    forall c | c in a :: c in b && b[c] == a[c]
  }

  lemma StepKeepsNames(c: Run, s: Stmt)
    requires NameKnown(c.db.categories, c.vars)
    ensures NamesKept(c.db.categories, Step(c, s).db.categories)
    ensures NameKnown(Step(c, s).db.categories, Step(c, s).vars)
  {
    match s
    case EnsureCategory(id, name) => EnsureCategoryKeepsNames(c, id, name);
    case ResaveCategory => ResaveKeepsNames(c);
    case _ => StepFramed(c, s);
  }

  lemma EnsureCategoryKeepsNames(c: Run, id: Id, name: string)
    requires NameKnown(c.db.categories, c.vars)
    ensures var d := StepEnsureCategory(c, id, name);
      NamesKept(c.db.categories, d.db.categories) && NameKnown(d.db.categories, d.vars)
  {
    var d := StepEnsureCategory(c, id, name);
    if id !in c.db.categories && !d.failed { assert d.db.categories == c.db.categories[id := name]; }
  }

  lemma ResaveKeepsNames(c: Run)
    requires NameKnown(c.db.categories, c.vars)
    ensures var d := StepResaveCategory(c);
      NamesKept(c.db.categories, d.db.categories) && NameKnown(d.db.categories, d.vars)
  {
    if c.vars.category.Some? {
      var (id, name) := c.vars.category.value;
      assert c.db.categories[id := name] == c.db.categories;
      assert StepResaveCategory(c).db == c.db;
    } else {
      assert StepResaveCategory(c).db == c.db;
    }
  }

  lemma NextKeepsNames(w: World, e: Event)
    requires forall job | job in w.jobs :: NameKnown(w.db.categories, job.vars)
    ensures NamesKept(w.db.categories, Next(w, e).db.categories)
    ensures forall job | job in Next(w, e).jobs :: NameKnown(Next(w, e).db.categories, job.vars)
  {
    if e.Tick? && e.j < |w.jobs| && w.jobs[e.j].todo != [] {
      assert w.jobs[e.j] in w.jobs;
      StepKeepsNames(RunOf(w, w.jobs[e.j]), w.jobs[e.j].todo[0]);
    } else if e.Kill? && e.j < |w.jobs| {
      assert w.jobs[e.j] in w.jobs;
    }
  }

  lemma {:induction false} PlayKeepsNames(w: World, events: seq<Event>)
    requires forall job | job in w.jobs :: NameKnown(w.db.categories, job.vars)
    ensures NamesKept(w.db.categories, Play(w, events).db.categories)
    ensures forall job | job in Play(w, events).jobs :: NameKnown(Play(w, events).db.categories, job.vars)
    decreases |events|
  {
    if events == [] {
    } else {
      NextKeepsNames(w, events[0]);
      PlayKeepsNames(Next(w, events[0]), events[1..]);
    }
  }

  /** Whatever is interleaved with whatever, a category stays and keeps its name. */
  lemma CategoryNamesNeverChange(users: map<Id, User>, events: seq<Event>, later: seq<Event>)
    ensures var w := Play(Start(users), events); NamesKept(w.db.categories, Play(w, later).db.categories)
  {
    PlayKeepsNames(Start(users), events);
    PlayKeepsNames(Play(Start(users), events), later);
  }

  /** An order that was placed is new whenever it is there, and its id is used up. */
  ghost predicate PlacedOrGone(orders: map<Id, Order>, next: Id, o: Id) {
    o < next && (o in orders ==> orders[o].status == New)
  }

  lemma StepKeepsPlaced(c: Run, s: Stmt, o: Id)
    requires PlacedOrGone(c.db.orders, c.db.next.order, o)
    ensures PlacedOrGone(Step(c, s).db.orders, Step(c, s).db.next.order, o)
  {
    if s.EnsureBasket? {
      BasketStepKeepsPlaced(c, s.user, o);
    } else if s.PlaceOrder? {
      PlaceStepKeepsPlaced(c, s.contact, o);
    } else if s.RemoveContacts? {
      ContactStepKeepsPlaced(c, s.user, s.ids, o);
    } else {
      StepFramed(c, s);
    }
  }

  lemma BasketStepKeepsPlaced(c: Run, user: Id, o: Id)
    requires PlacedOrGone(c.db.orders, c.db.next.order, o)
    ensures var d := StepEnsureBasket(c, user); PlacedOrGone(d.db.orders, d.db.next.order, o)
  {
    var d, n := StepEnsureBasket(c, user), c.db.next.order;
    if c.vars.basket == Absent(user) && user in c.db.users {
      assert d.db.orders == c.db.orders[n := Order(user, Basket, None)] && d.db.next.order == n + 1;
    } else {
      assert d.db == c.db;
    }
  }

  lemma PlaceStepKeepsPlaced(c: Run, contact: Option<Id>, o: Id)
    requires PlacedOrGone(c.db.orders, c.db.next.order, o)
    ensures var d := StepPlaceOrder(c, contact); PlacedOrGone(d.db.orders, d.db.next.order, o)
  {
    var d := StepPlaceOrder(c, contact);
    if !d.failed {
      var (id, row) := c.vars.order.value;
      assert d.db == c.db.(orders := c.db.orders[id := Order(row.user, New, contact)]);
    }
  }

  lemma ContactStepKeepsPlaced(c: Run, user: Id, ids: seq<int>, o: Id)
    requires PlacedOrGone(c.db.orders, c.db.next.order, o)
    ensures var d := StepRemoveContacts(c, user, ids); PlacedOrGone(d.db.orders, d.db.next.order, o)
  {
  }

  lemma {:induction false} PlayKeepsPlaced(w: World, events: seq<Event>, o: Id)
    requires PlacedOrGone(w.db.orders, w.db.next.order, o)
    ensures PlacedOrGone(Play(w, events).db.orders, Play(w, events).db.next.order, o)
    decreases |events|
  {
    if events == [] {
    } else {
      var e := events[0];
      if e.Tick? && e.j < |w.jobs| && w.jobs[e.j].todo != [] {
        StepKeepsPlaced(RunOf(w, w.jobs[e.j]), w.jobs[e.j].todo[0], o);
      }
      PlayKeepsPlaced(Next(w, e), events[1..], o);
    }
  }

  /** A placed order never goes back to being a basket, whatever is interleaved. */
  lemma PlacedNeverBasketAgain(w: World, events: seq<Event>, o: Id)
    requires Integrity(w.db) && o in w.db.orders && w.db.orders[o].status == New
    ensures o in Play(w, events).db.orders ==> Play(w, events).db.orders[o].status == New
  {
    PlayKeepsPlaced(w, events, o);
  }
}
