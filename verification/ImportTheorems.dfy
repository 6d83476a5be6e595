/** Main results about price-list imports: round trip, retry after a crash, idempotence, commutation. */
module ImportTheorems {
  import opened Collections
  import opened Schema
  import opened Machine
  import opened PriceList
  import opened Catalogue
  import opened Acceptance
  import opened Underway
  import opened Outcome
  import opened Views
  import Sql

  /* Round trip. */

  /** What the reader of listing `l` must find, given good `g` of the document. */
  predicate Shows(l: Listing, g: Good) {
    && g.name == Some(l.name) && g.category == Some(l.category) && g.id == Some(l.externalId)
    && g.model == Some(l.model) && g.price == Some(l.price) && g.priceRrc == Some(l.priceRrc)
    && g.quantity == Some(l.quantity) && g.parameters.Some?
    && |l.parameters| == |g.parameters.value|
    && forall k | 0 <= k < |l.parameters| ::
        g.parameters.value[k] == Parameter(Some(l.parameters[k].name), Some(l.parameters[k].value))
  }

  lemma {:induction false} RenderParametersAt(ps: seq<Parameter>, k: nat)
    requires k < |ps|
    ensures |RenderParameters(ps)| == |ps|
    ensures RenderParameters(ps)[k] == Attribute(Text(ps[k].name), Text(ps[k].value), 0)
  {
    if |ps| == 1 {
    } else {
      RenderParametersAt(ps[1..], if k > 0 then k - 1 else 0);
    }
  }

  lemma {:induction false} RenderGoodsAt(categories: map<Id, string>, gs: seq<Good>, k: nat)
    requires k < |gs|
    ensures |RenderGoods(categories, gs)| == |gs| && RenderGoods(categories, gs)[k] == RenderGood(categories, gs[k])
  {
    if |gs| == 1 {
    } else {
      RenderGoodsAt(categories, gs[1..], if k > 0 then k - 1 else 0);
    }
  }

  lemma RenderedGoodShows(categories: map<Id, string>, parameters: map<Id, string>, g: Good)
    requires g.name.Some? && g.category.Some? && InfoOk(g) && ParameterListOk(parameters, g)
    ensures Shows(RenderGood(categories, g), g)
  {
    var ps := g.parameters.value;
    forall k | 0 <= k < |ps|
      ensures |RenderParameters(ps)| == |ps|
      ensures ps[k] == Parameter(Some(RenderParameters(ps)[k].name), Some(RenderParameters(ps)[k].value))
    {
      RenderParametersAt(ps, k);
      assert ParameterOk(parameters, ps[k]);
    }
  }

  /** After a successful import the catalogue of the shop, read in id order through its joins, is the list of
      goods of the document: same order, same fields, every parameter, and the category names it gave. */
  lemma ImportRoundTrip(db: Db, user: Id, doc: Document) returns (shop: Id)
    requires Integrity(db) && !Import(db, user, doc).failed
    ensures var out := Import(db, user, doc).db;
      && doc.shop.Some? && doc.categories.Some? && doc.goods.Some?
      && Owns(out.shops, user, shop) && out.shops[shop].name == doc.shop.value
      && (forall e | e in doc.categories.value ::
            e.id.Some? && e.id.value in out.categories && e.name == Some(out.categories[e.id.value])
            && (e.id.value, shop) in out.links)
      && |CatalogueOf(out, shop)| == |doc.goods.value|
      && (forall k | 0 <= k < |doc.goods.value| ::
            && Shows(CatalogueOf(out, shop)[k], doc.goods.value[k])
            && CatalogueOf(out, shop)[k].category in out.categories
            && CatalogueOf(out, shop)[k].categoryName == out.categories[CatalogueOf(out, shop)[k].category])
  {
    var cleared;
    cleared, shop := ImportSucceedsExactlyWhenAccepted(db, user, doc);
    var out := Import(db, user, doc).db;
    var goods := doc.goods.value;
    assert CatalogueOf(cleared, shop) == [];
    assert CatalogueOf(out, shop) == RenderGoods(out.categories, goods);
    CategoriesAfterLookup(db.categories, doc.categories.value);
    CategoriesKnown(db, user, doc);
    forall e | e in doc.categories.value
      ensures e.id.Some? && e.id.value in out.categories && e.name == Some(out.categories[e.id.value])
      ensures (e.id.value, shop) in out.links
    {
      assert CategoryFits(db.categories, e) && (IdOf(e), shop) in LinksTo(shop, doc.categories.value);
    }
    forall k | 0 <= k < |goods|
      ensures |CatalogueOf(out, shop)| == |goods| && Shows(CatalogueOf(out, shop)[k], goods[k])
      ensures CatalogueOf(out, shop)[k].category in out.categories
      ensures CatalogueOf(out, shop)[k].categoryName == out.categories[CatalogueOf(out, shop)[k].category]
    {
      RenderGoodsAt(out.categories, goods, k);
      assert GoodOk(db, out.categories, goods[k]);
      RenderedGoodShows(out.categories, db.parameters, goods[k]);
    }
  }

  /* Retry. */

  /** Wherever an import stopped, running it again succeeds exactly when the undisturbed run does, and then
      leads to the same store up to generated ids. */
  lemma CrashThenRetryConverges(db: Db, user: Id, doc: Document, k: nat)
    requires Integrity(db) && k <= |ImportProgram(user, doc)|
    ensures var stopped := ImportPrefix(db, user, doc, k).db;
      && (Import(stopped, user, doc).failed <==> Import(db, user, doc).failed)
      && (!Import(db, user, doc).failed ==>
            ViewOf(Import(stopped, user, doc).db) == ViewOf(Import(db, user, doc).db))
  {
    var stopped := ImportPrefix(db, user, doc, k).db;
    PrefixUnderway(db, user, doc, k);
    AcceptanceMoved(db, stopped, user, doc);
    var _, _ := ImportSucceedsExactlyWhenAccepted(db, user, doc);
    var _, _ := ImportSucceedsExactlyWhenAccepted(stopped, user, doc);
    if Accepts(db, user, doc) {
      ImportRefinesApply(db, user, doc);
      ImportRefinesApply(stopped, user, doc);
      MovedIsPartway(db, stopped, user, doc);
      ApplyPartway(ViewOf(db), ViewOf(stopped), user, doc);
    }
  }

  lemma {:induction false} RenderAgrees(a: map<Id, string>, b: map<Id, string>, gs: seq<Good>)
    requires forall g | g in gs :: NameOf(a, KeyOf(g).category) == NameOf(b, KeyOf(g).category)
    ensures RenderGoods(a, gs) == RenderGoods(b, gs)
  {
    if gs == [] {
    } else {
      assert gs[0] in gs;
      RenderAgrees(a, b, gs[1..]);
    }
  }

  /** Every category an acceptable document uses is known once its own are there. */
  lemma CategoriesKnown(db: Db, user: Id, doc: Document)
    requires Integrity(db) && Accepts(db, user, doc)
    ensures forall g | g in doc.goods.value ::
      KeyOf(g).category in CategoriesAfter(db.categories, doc.categories.value)
  {
    CategoriesAfterLookup(db.categories, doc.categories.value);
    forall g | g in doc.goods.value
      ensures KeyOf(g).category in CategoriesAfter(db.categories, doc.categories.value)
    {
      if x :| x in WithValue(db.products, KeyOf(g)) { assert db.products[x] == KeyOf(g); }
    }
  }

  /** A later document of the same shop gives the same catalogue whether or not an earlier import was cut off,
      whenever it is importable in both stores. */
  lemma LaterDocumentConverges(db: Db, user: Id, doc: Document, k: nat, later: Document)
    requires Integrity(db) && k <= |ImportProgram(user, doc)|
    requires !Import(db, user, later).failed && !Import(ImportPrefix(db, user, doc, k).db, user, later).failed
    ensures var (a, b) := (ViewOf(Import(db, user, later).db),
                           ViewOf(Import(ImportPrefix(db, user, doc, k).db, user, later).db));
      user in a.catalogues && user in b.catalogues && a.catalogues[user] == b.catalogues[user]
  {
    var stopped := ImportPrefix(db, user, doc, k).db;
    PrefixUnderway(db, user, doc, k);
    var _, _ := ImportSucceedsExactlyWhenAccepted(db, user, later);
    var _, _ := ImportSucceedsExactlyWhenAccepted(stopped, user, later);
    ImportRefinesApply(db, user, later);
    ImportRefinesApply(stopped, user, later);
    var cs := later.categories.value;
    CategoriesKnown(db, user, later);
    CategoriesAfterLookup(db.categories, cs);
    CategoriesAfterLookup(stopped.categories, cs);
    var a, b := CategoriesAfter(db.categories, cs), CategoriesAfter(stopped.categories, cs);
    forall g | g in later.goods.value
      ensures NameOf(a, KeyOf(g).category) == NameOf(b, KeyOf(g).category)
    {
      if KeyOf(g).category !in db.categories { var e :| e in cs && IdOf(e) == KeyOf(g).category; }
    }
    RenderAgrees(a, b, later.goods.value);
  }

  /* Idempotence. */

  lemma NoNewKeys<K>(a: map<Id, K>, b: map<Id, K>, keys: set<K>)
    requires KeysMoved(a, b, keys) && keys <= a.Values
    ensures b == a
  {
    forall p | p in b
      ensures p in a
    {
      assert b[p] in a.Values;
      var q :| q in a && a[q] == b[p];
      assert q in WithValue(b, b[p]);
    }
  }

  lemma NoNewCategories(a: Db, b: Db, cs: seq<CategoryEntry>)
    requires CategoriesMoved(a, b.categories, cs) && CategoryIds(cs) <= a.categories.Keys
    ensures b.categories == a.categories
  {
    forall c | c in b.categories
      ensures c in a.categories
    {
      assert c !in a.categories ==> IdOf(CategoryEntry(Some(c), Some(b.categories[c]))) in CategoryIds(cs);
    }
  }

  lemma NoNewLinks(a: Db, b: Db, user: Id, shop: Id, cs: seq<CategoryEntry>)
    requires LinksMoved(a, b.links, b.categories, b.shops, user, cs) && LinksTo(shop, cs) <= a.links
    requires ShopsSound(b.shops, b.next.shop, b.users) && Owns(b.shops, user, shop)
    ensures b.links == a.links
  {
    forall l | l in b.links
      ensures l in a.links
    {
      assert l !in a.links ==> l.1 == shop;
      var e := CategoryEntry(Some(l.0), Some(NameOf(b.categories, l.0)));
      assert l !in a.links ==> (IdOf(e), shop) in LinksTo(shop, cs);
    }
  }

  /** The second import of a document succeeds and leaves the store as it is, up to generated ids. */
  lemma RepeatSucceeds(db: Db, user: Id, doc: Document)
    requires Integrity(db) && !Import(db, user, doc).failed
    ensures var once := Import(db, user, doc).db;
      && Integrity(once) && !Import(once, user, doc).failed
      && Integrity(Import(once, user, doc).db) && Moved(once, Import(once, user, doc).db, user, doc)
      && ViewOf(Import(once, user, doc).db) == ViewOf(once)
  {
    var once, n := Import(db, user, doc).db, |ImportProgram(user, doc)|;
    WholePrefix(db, user, doc);
    CrashThenRetryConverges(db, user, doc, n);
    PrefixUnderway(db, user, doc, n);
    WholePrefix(once, user, doc);
    PrefixUnderway(once, user, doc, n);
  }

  /** It leaves every shared table and every order line as the first one left them, and only gives the rows of
      its own shop new ids. */
  lemma ImportIdempotent(db: Db, user: Id, doc: Document) returns (shop: Id)
    requires Integrity(db) && !Import(db, user, doc).failed
    ensures var once := Import(db, user, doc).db;
      && !Import(once, user, doc).failed
      && var twice := Import(once, user, doc).db;
      && twice.shops == once.shops && twice.categories == once.categories && twice.links == once.links
      && twice.products == once.products && twice.parameters == once.parameters
      && ViewOf(twice) == ViewOf(once)
      && Owns(twice.shops, user, shop)
      && (forall i | i in Sql.InfosOf(twice, shop) :: i >= once.next.info)
      && (forall v | v in twice.values && twice.values[v].info in Sql.InfosOf(twice, shop) :: v !in once.values)
  {
    var once := Import(db, user, doc).db;
    RepeatSucceeds(db, user, doc);
    var cleared, cleared', shop';
    cleared, shop := ImportSucceedsExactlyWhenAccepted(db, user, doc);
    cleared', shop' := ImportSucceedsExactlyWhenAccepted(once, user, doc);
    var twice := Import(once, user, doc).db;
    SameShop(once, twice, user, doc, shop, shop');
    SharedTablesKept(db, cleared, once, twice, user, doc, shop);
    FreshRows(once, cleared', twice, shop);
    FreshValues(once, twice, user, shop);
  }

  lemma FreshValues(once: Db, twice: Db, user: Id, shop: Id)
    requires ValuesSound(once.values, once.next.value, once.infos, once.parameters)
    requires InfosSound(once.infos, once.next.info, once.products, once.shops)
    requires ValuesMoved(once, twice.values, twice.next.value, user)
    requires forall i | i in Sql.InfosOf(twice, shop) :: i >= once.next.info
    ensures forall v | v in twice.values && twice.values[v].info in Sql.InfosOf(twice, shop) :: v !in once.values
  {
  }

  lemma SameShop(once: Db, twice: Db, user: Id, doc: Document, shop: Id, shop': Id)
    requires Moved(once, twice, user, doc) && Owns(once.shops, user, shop)
    requires ShopsSound(twice.shops, twice.next.shop, twice.users) && Owns(twice.shops, user, shop')
    ensures twice.shops == once.shops && shop' == shop
  {
    OwnersWitness(once.shops, user);
  }

  lemma FreshRows(once: Db, cleared: Db, twice: Db, shop: Id)
    requires Sql.InfosOf(cleared, shop) == {} && once.next.info == cleared.next.info && StockGrows(cleared, twice, shop)
    ensures forall i | i in Sql.InfosOf(twice, shop) :: i >= once.next.info
  {
    forall i | i in Sql.InfosOf(twice, shop)
      ensures i >= once.next.info
    {
      assert i !in Sql.InfosOf(cleared, shop);
    }
  }

  lemma SharedTablesKept(db: Db, cleared: Db, once: Db, twice: Db, user: Id, doc: Document, shop: Id)
    requires CategoriesOk(db.categories, CategoriesIn(doc))
    requires Cleared(db, cleared, user, doc, shop) && Stocked(cleared, once, shop, GoodsIn(doc))
    requires Moved(once, twice, user, doc) && twice.shops == once.shops
    requires ShopsSound(twice.shops, twice.next.shop, twice.users)
    ensures twice.categories == once.categories && twice.links == once.links
    ensures twice.products == once.products && twice.parameters == once.parameters
  {
    CategoriesAfterLookup(db.categories, CategoriesIn(doc));
    NoNewCategories(once, twice, CategoriesIn(doc));
    NoNewLinks(once, twice, user, shop, CategoriesIn(doc));
    NoNewKeys(once.products, twice.products, GoodKeys(GoodsIn(doc)));
    NoNewKeys(once.parameters, twice.parameters, GoodNames(GoodsIn(doc)));
  }

  /* Commutation. */

  lemma TwoListsLookup(m: map<Id, string>, c1: seq<CategoryEntry>, c2: seq<CategoryEntry>)
    requires CategoriesOk(m, c1) && CategoriesOk(CategoriesAfter(m, c1), c2)
    ensures var after := CategoriesAfter(CategoriesAfter(m, c1), c2);
      && after.Keys == m.Keys + CategoryIds(c1) + CategoryIds(c2)
      && (forall id | id in m :: after[id] == m[id])
      && (forall e | e in c1 :: IdOf(e) in after && after[IdOf(e)] == Text(e.name))
      && (forall e | e in c2 :: IdOf(e) in after && after[IdOf(e)] == Text(e.name))
  {
    CategoriesAfterLookup(m, c1);
    CategoriesAfterLookup(CategoriesAfter(m, c1), c2);
  }

  /** Two consistent name lists give one table, in either order. */
  lemma CategoriesCommute(m: map<Id, string>, c1: seq<CategoryEntry>, c2: seq<CategoryEntry>)
    requires CategoriesOk(m, c1) && CategoriesOk(CategoriesAfter(m, c1), c2)
    requires CategoriesOk(m, c2) && CategoriesOk(CategoriesAfter(m, c2), c1)
    ensures CategoriesAfter(CategoriesAfter(m, c1), c2) == CategoriesAfter(CategoriesAfter(m, c2), c1)
  {
    var a, b := CategoriesAfter(CategoriesAfter(m, c1), c2), CategoriesAfter(CategoriesAfter(m, c2), c1);
    TwoListsLookup(m, c1, c2);
    TwoListsLookup(m, c2, c1);
    assert a.Keys == b.Keys;
    NamedAlike(m, a, b, c1, c2);
  }

  /** Tables that keep the old names and hold the names of both lists agree on them. */
  lemma NamedAlike(m: map<Id, string>, a: map<Id, string>, b: map<Id, string>, c1: seq<CategoryEntry>,
                   c2: seq<CategoryEntry>)
    requires a.Keys == b.Keys == m.Keys + CategoryIds(c1) + CategoryIds(c2)
    requires forall id | id in m :: a[id] == m[id] == b[id]
    requires forall e | e in c1 :: IdOf(e) in a && a[IdOf(e)] == b[IdOf(e)] == Text(e.name)
    requires forall e | e in c2 :: IdOf(e) in a && a[IdOf(e)] == b[IdOf(e)] == Text(e.name)
    ensures a == b
  {
    forall id | id in a
      ensures a[id] == b[id]
    {
      if id in m {
      } else if id in CategoryIds(c1) {
        var e :| e in c1 && IdOf(e) == id;
      } else {
        var e :| e in c2 && IdOf(e) == id;
      }
    }
  }

  lemma OthersOfOthers(lines: map<Id, Line>, u1: Id, u2: Id)
    ensures LinesOfOthers(LinesOfOthers(lines, u1), u2) == LinesOfOthers(LinesOfOthers(lines, u2), u1)
  {
  }

  /** Later categories do not change how earlier goods read. */
  lemma GoodsReadTheSame(m: map<Id, string>, cs: seq<CategoryEntry>, gs: seq<Good>)
    requires CategoriesOk(m, cs) && forall g | g in gs :: KeyOf(g).category in m
    ensures RenderGoods(CategoriesAfter(m, cs), gs) == RenderGoods(m, gs)
  {
    CategoriesAfterLookup(m, cs);
    RenderAgrees(CategoriesAfter(m, cs), m, gs);
  }

  /** The document's categories fit the table, and its goods use categories the table then has. */
  ghost predicate Fits(m: map<Id, string>, doc: Document) {
    && CategoriesOk(m, CategoriesIn(doc))
    && forall g | g in GoodsIn(doc) :: KeyOf(g).category in CategoriesAfter(m, CategoriesIn(doc))
  }

  lemma ApplyCommutes(v: View, u1: Id, d1: Document, u2: Id, d2: Document)
    requires u1 != u2
    requires Fits(v.categories, d1) && Fits(Apply(v, u1, d1).categories, d2)
    requires Fits(v.categories, d2) && Fits(Apply(v, u2, d2).categories, d1)
    ensures Apply(Apply(v, u1, d1), u2, d2) == Apply(Apply(v, u2, d2), u1, d1)
  {
    var m := v.categories;
    var c1, c2, g1, g2 := CategoriesIn(d1), CategoriesIn(d2), GoodsIn(d1), GoodsIn(d2);
    var m1, m2 := CategoriesAfter(m, c1), CategoriesAfter(m, c2);
    var both := CategoriesAfter(m1, c2);
    CategoriesCommute(m, c1, c2);
    GoodsReadTheSame(m1, c2, g1);
    GoodsReadTheSame(m2, c1, g2);
    var a, b := Apply(Apply(v, u1, d1), u2, d2), Apply(Apply(v, u2, d2), u1, d1);
    UpdatesCommute(v.catalogues, u1, RenderGoods(both, g1), u2, RenderGoods(both, g2));
    UpdatesCommute(v.shops, u1, Text(d1.shop), u2, Text(d2.shop));
    AddsCommute(v.links, LinksTo(u1, c1), LinksTo(u2, c2));
    KeysCommute(v.products, GoodKeys(g1), GoodKeys(g2));
    KeysCommute(v.parameters, GoodNames(g1), GoodNames(g2));
    OthersOfOthers(v.lines, u1, u2);
  }

  lemma UpdatesCommute<T>(m: map<Id, T>, k: Id, x: T, l: Id, y: T)
    requires k != l
    ensures m[k := x][l := y] == m[l := y][k := x]
  {
  }

  lemma AddsCommute<T>(s: set<T>, a: set<T>, b: set<T>)
    ensures s + a + b == s + b + a
  {
  }

  lemma KeysCommute<K>(m: map<K, nat>, a: set<K>, b: set<K>)
    ensures WithKeys(WithKeys(m, a), b) == WithKeys(WithKeys(m, b), a)
  {
  }

  lemma AcceptedFits(db: Db, user: Id, doc: Document)
    requires Integrity(db) && !Import(db, user, doc).failed
    ensures Fits(db.categories, doc) && Integrity(Import(db, user, doc).db)
    ensures Import(db, user, doc).db.categories == Apply(ViewOf(db), user, doc).categories
  {
    var _, _ := ImportSucceedsExactlyWhenAccepted(db, user, doc);
    CategoriesKnown(db, user, doc);
    ImportRefinesApply(db, user, doc);
    ExecKeepsIntegrity(Begin(db), ImportProgram(user, doc));
  }

  /** Imports of two users, when both succeed in either order, lead to the same store up to generated ids,
      although they share the category, product and parameter tables. */
  lemma ImportsCommute(db: Db, u1: Id, d1: Document, u2: Id, d2: Document)
    requires Integrity(db) && u1 != u2
    requires !Import(db, u1, d1).failed && !Import(Import(db, u1, d1).db, u2, d2).failed
    requires !Import(db, u2, d2).failed && !Import(Import(db, u2, d2).db, u1, d1).failed
    ensures ViewOf(Import(Import(db, u1, d1).db, u2, d2).db) == ViewOf(Import(Import(db, u2, d2).db, u1, d1).db)
  {
    var one, two := Import(db, u1, d1).db, Import(db, u2, d2).db;
    AcceptedFits(db, u1, d1);
    AcceptedFits(db, u2, d2);
    AcceptedFits(one, u2, d2);
    AcceptedFits(two, u1, d1);
    ImportRefinesApply(db, u1, d1);
    ImportRefinesApply(db, u2, d2);
    ImportRefinesApply(one, u2, d2);
    ImportRefinesApply(two, u1, d1);
    ApplyCommutes(ViewOf(db), u1, d1, u2, d2);
  }

  /* Frame. */

  /** However an import ends, it leaves alone the accounts, the orders, the other shops, their catalogues, their
      category links, and every order line that does not sell its own goods; those lines go all together or not
      at all. */
  lemma ImportTouchesOnlyItsShop(db: Db, user: Id, doc: Document, k: nat)
    requires Integrity(db) && k <= |ImportProgram(user, doc)|
    ensures var out := ImportPrefix(db, user, doc, k).db;
      && out.users == db.users && out.contacts == db.contacts && out.orders == db.orders
      && (forall s | s in db.shops :: s in out.shops && out.shops[s] == db.shops[s])
      && (forall s | s in db.shops && !Owns(db.shops, user, s) ::
            && CatalogueOf(out, s) == CatalogueOf(db, s)
            && (forall c :: (c, s) in out.links <==> (c, s) in db.links))
      && (out.items == db.items || out.items == ItemsOfOthers(db, user))
      && (forall i | i in out.items :: LineAt(out, i) == LineAt(db, i))
  {
    var out := ImportPrefix(db, user, doc, k).db;
    PrefixUnderway(db, user, doc, k);
    ShopsPartway(db, out, user, doc);
    forall s | s in db.shops && !Owns(db.shops, user, s)
      ensures CatalogueOf(out, s) == CatalogueOf(db, s)
      ensures forall c :: (c, s) in out.links <==> (c, s) in db.links
    {
      OtherCatalogueKept(db, out, user, doc, s);
    }
    forall i | i in out.items { LineKept(db, out, user, doc, i); }
  }
}
