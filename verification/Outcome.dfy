/** The whole import: exactly when it succeeds, what its stages leave, and what every prefix of it keeps. */
module Outcome {
  import opened Collections
  import opened Schema
  import opened Machine
  import opened PriceList
  import opened Catalogue
  import opened Acceptance
  import opened Underway
  import Sql

  /* The program only issues statements its document licenses. */

  lemma {:induction false} CategoriesLicensed(cs: seq<CategoryEntry>, user: Id, doc: Document)
    requires forall e | e in cs :: e in CategoriesIn(doc)
    ensures forall s | s in CategoriesProgram(cs) :: Licensed(s, user, doc)
  {
    if cs == [] {
    } else {
      assert cs[0] in cs;
      CategoriesLicensed(cs[1..], user, doc);
    }
  }

  lemma ParameterLicensed(p: Parameter, user: Id, doc: Document)
    requires p.name.Some? ==> p.name.value in GoodNames(GoodsIn(doc))
    ensures forall s | s in ParameterProgram(p) :: Licensed(s, user, doc)
  {
  }

  lemma {:induction false} ParametersLicensed(ps: seq<Parameter>, user: Id, doc: Document)
    requires forall p | p in ps && p.name.Some? :: p.name.value in GoodNames(GoodsIn(doc))
    ensures forall s | s in ParametersProgram(ps) :: Licensed(s, user, doc)
  {
    if ps == [] {
    } else {
      assert ps[0] in ps;
      ParameterLicensed(ps[0], user, doc);
      ParametersLicensed(ps[1..], user, doc);
    }
  }

  lemma GoodLicensed(g: Good, user: Id, doc: Document)
    requires g in GoodsIn(doc)
    ensures forall s | s in GoodProgram(g) :: Licensed(s, user, doc)
  {
    assert KeyOf(g) in GoodKeys(GoodsIn(doc));
    forall p | p in ParametersIn(g) && p.name.Some?
      ensures p.name.value in GoodNames(GoodsIn(doc))
    {
      assert g in GoodsIn(doc) && p in ParametersIn(g) && Text(p.name) == p.name.value;
    }
    ParametersLicensed(ParametersIn(g), user, doc);
  }

  lemma {:induction false} GoodsLicensed(gs: seq<Good>, user: Id, doc: Document)
    requires forall g | g in gs :: g in GoodsIn(doc)
    ensures forall s | s in GoodsProgram(gs) :: Licensed(s, user, doc)
  {
    if gs == [] {
    } else {
      assert gs[0] in gs;
      GoodLicensed(gs[0], user, doc);
      GoodsLicensed(gs[1..], user, doc);
    }
  }

  lemma ProgramLicensed(user: Id, doc: Document)
    ensures forall s | s in ImportProgram(user, doc) :: Licensed(s, user, doc)
  {
    CategoriesLicensed(CategoriesIn(doc), user, doc);
    GoodsLicensed(GoodsIn(doc), user, doc);
  }

  /** However the import stops, and after however many statements, the store is one it may be in. */
  lemma PrefixUnderway(db: Db, user: Id, doc: Document, k: nat)
    requires Integrity(db) && k <= |ImportProgram(user, doc)|
    ensures Integrity(ImportPrefix(db, user, doc, k).db)
    ensures Moved(db, ImportPrefix(db, user, doc, k).db, user, doc)
  {
    ProgramLicensed(user, doc);
    ExecKeepsIntegrity(Begin(db), ImportProgram(user, doc)[..k]);
    assert LinksMoved(db, db.links, db.categories, db.shops, user, CategoriesIn(doc));
    ExecStaysUnderway(db, Begin(db), user, doc, ImportProgram(user, doc)[..k]);
  }

  lemma WholePrefix(db: Db, user: Id, doc: Document)
    ensures ImportPrefix(db, user, doc, |ImportProgram(user, doc)|) == Import(db, user, doc)
  {
    assert ImportProgram(user, doc)[..|ImportProgram(user, doc)|] == ImportProgram(user, doc);
  }

  /* The shop stage. */

  ghost predicate ShopOk(db: Db, user: Id, name: string) {
    match Get(ShopsNamed(db.shops, name))
    case Missing => |name| <= SHOP_NAME && user in db.users && user !in Owners(db.shops)
    case One(s) => Owns(db.shops, user, s)
    case Many => false
  }

  lemma OwnersWitness(shops: map<Id, Shop>, user: Id)
    ensures user in Owners(shops) <==> exists s | s in shops :: Owns(shops, user, s)
  {
    if user in Owners(shops) {
      var s :| s in shops && shops[s].user == user;
      assert Owns(shops, user, s);
    }
  }

  lemma ShopStage(c: Run, user: Id, doc: Document)
    requires !c.failed && Integrity(c.db)
    ensures var out := Exec(c, ShopProgram(user, doc));
      && (!out.failed <==> doc.shop.Some? && ShopOk(c.db, user, doc.shop.value))
      && (!out.failed ==>
          && out.vars.shop.Some? && Owns(out.db.shops, user, out.vars.shop.value)
          && out.db.shops[out.vars.shop.value].name == doc.shop.value
          && out.db == c.db.(shops := out.db.shops, next := c.db.next.(shop := out.db.next.shop)))
  {
    if doc.shop.None? { ExecTwo(c, Raise, Raise); return; }
    var name := doc.shop.value;
    ExecTwo(c, FindShop(name), EnsureShop(name, user));
    OwnersWitness(c.db.shops, user);
    var ids := ShopsNamed(c.db.shops, name);
    if x :| x in ids { assert c.db.shops[x].name == name; }
  }

  /* The category stage. */

  predicate CategoryFits(categories: map<Id, string>, e: CategoryEntry) {
    && e.id.Some? && e.name.Some?
    && if e.id.value in categories then categories[e.id.value] == e.name.value
       else |e.name.value| <= CATEGORY_NAME && BigInt(e.id.value)
  }

  predicate CategoriesOk(categories: map<Id, string>, cs: seq<CategoryEntry>) {
    && (forall e | e in cs :: CategoryFits(categories, e))
    && (forall e, f | e in cs && f in cs && e.id == f.id :: e.name == f.name)
  }

  function IdOf(e: CategoryEntry): Id { if e.id.Some? then e.id.value else 0 }

  function CategoriesAfter(categories: map<Id, string>, cs: seq<CategoryEntry>): map<Id, string>
    decreases |cs|
  {
    if cs == [] then categories else CategoriesAfter(categories[IdOf(cs[0]) := Text(cs[0].name)], cs[1..])
  }

  function CategoryIds(cs: seq<CategoryEntry>): set<Id> { set e | e in cs :: IdOf(e) }

  function LinksTo(shop: Id, cs: seq<CategoryEntry>): set<(Id, Id)> { set e | e in cs :: (IdOf(e), shop) }

  lemma CategoriesOkStep(categories: map<Id, string>, e: CategoryEntry, rest: seq<CategoryEntry>)
    requires CategoryFits(categories, e)
    ensures CategoriesOk(categories, [e] + rest) <==> CategoriesOk(categories[IdOf(e) := Text(e.name)], rest)
  {
    assert forall f :: f in [e] + rest <==> f == e || f in rest;
    if CategoriesOk(categories[IdOf(e) := Text(e.name)], rest) {
      assert forall f | f in rest && f.id == e.id :: CategoryFits(categories[IdOf(e) := Text(e.name)], f);
    }
  }

  lemma OneCategorySteps(c: Run, shop: Id, id: Id, name: string)
    requires !c.failed && CategoriesSound(c.db.categories) && c.vars.shop == Some(shop) && shop in c.db.shops
    ensures var c1 := StepEnsureCategory(c, id, name);
      && (!c1.failed <==> CategoryFits(c.db.categories, CategoryEntry(Some(id), Some(name))))
      && (!c1.failed ==> var out := StepResaveCategory(StepLinkShop(c1));
          && !out.failed && out.vars.shop == Some(shop)
          && out.db == c.db.(categories := c.db.categories[id := name], links := c.db.links + {(id, shop)}))
  {
    assert id in c.db.categories && c.db.categories[id] == name ==> c.db.categories[id := name] == c.db.categories;
  }

  lemma OneCategory(c: Run, shop: Id, e: CategoryEntry)
    requires !c.failed && CategoriesSound(c.db.categories) && c.vars.shop == Some(shop) && shop in c.db.shops
    ensures var out := Exec(c, CategoryProgram(e));
      && (!out.failed <==> CategoryFits(c.db.categories, e))
      && (!out.failed ==>
          && out.vars.shop == Some(shop)
          && out.db == c.db.(categories := c.db.categories[IdOf(e) := Text(e.name)],
                             links := c.db.links + {(IdOf(e), shop)}))
  {
    if e.id.None? || e.name.None? { ExecTwo(c, Raise, Raise); return; }
    ExecThree(c, EnsureCategory(e.id.value, e.name.value), LinkShop, ResaveCategory);
    OneCategorySteps(c, shop, e.id.value, e.name.value);
  }

  /** The category loop: it succeeds exactly on consistent entries, and then has named and linked them all. */
  lemma {:induction false} CategoriesStage(c: Run, shop: Id, cs: seq<CategoryEntry>)
    requires !c.failed && CategoriesSound(c.db.categories) && c.vars.shop == Some(shop) && shop in c.db.shops
    ensures var out := Exec(c, CategoriesProgram(cs));
      && (!out.failed <==> CategoriesOk(c.db.categories, cs))
      && (!out.failed ==>
          && out.vars.shop == Some(shop)
          && out.db == c.db.(categories := CategoriesAfter(c.db.categories, cs),
                             links := c.db.links + LinksTo(shop, cs)))
    decreases |cs|
  {
    if cs == [] { return; }
    var e, rest := cs[0], cs[1..];
    assert cs == [e] + rest;
    var mid := Exec(c, CategoryProgram(e));
    ExecConcat(c, CategoryProgram(e), CategoriesProgram(rest));
    OneCategory(c, shop, e);
    if mid.failed {
      ExecFailed(mid, CategoriesProgram(rest));
      assert e in cs;
    } else {
      CategoriesOkStep(c.db.categories, e, rest);
      CategoriesStage(mid, shop, rest);
      assert LinksTo(shop, cs) == {(IdOf(e), shop)} + LinksTo(shop, rest) by {
        assert forall f :: f in cs <==> f == e || f in rest;
      }
    }
  }

  /* The whole run. */

  /** A caller can decide from the store and the document, before it starts, whether an import will succeed. */
  ghost predicate Accepts(db: Db, user: Id, doc: Document) {
    && doc.shop.Some? && ShopOk(db, user, doc.shop.value)
    && doc.categories.Some? && CategoriesOk(db.categories, doc.categories.value)
    && doc.goods.Some? && GoodsOk(db, CategoriesAfter(db.categories, doc.categories.value), doc.goods.value)
  }

  /** The store between the deletion of the old rows and the first good. */
  ghost predicate Cleared(db: Db, cleared: Db, user: Id, doc: Document, shop: Id) {
    && Integrity(cleared) && Owns(cleared.shops, user, shop) && cleared.shops[shop].name == Text(doc.shop)
    && cleared.categories == CategoriesAfter(db.categories, CategoriesIn(doc))
    && cleared.links == db.links + LinksTo(shop, CategoriesIn(doc))
    && cleared.products == db.products && cleared.parameters == db.parameters
    && Sql.InfosOf(cleared, shop) == {} && db.next.info == cleared.next.info
  }

  /** Up to the deletion: it succeeds exactly when the shop and the categories are acceptable. */
  lemma UpToClear(db: Db, user: Id, doc: Document)
    requires Integrity(db)
    ensures var run := Exec(Exec(Exec(Begin(db), ShopProgram(user, doc)), OptionalCategoriesProgram(doc)), [ClearShop]);
      && (!run.failed <==> doc.shop.Some? && ShopOk(db, user, doc.shop.value)
                           && doc.categories.Some? && CategoriesOk(db.categories, doc.categories.value))
      && (!run.failed ==> run.vars.shop.Some? && Cleared(db, run.db, user, doc, run.vars.shop.value))
  {
    var c := Begin(db);
    var c1 := Exec(c, ShopProgram(user, doc));
    var c2 := Exec(c1, OptionalCategoriesProgram(doc));
    ShopStage(c, user, doc);
    ExecKeepsIntegrity(c, ShopProgram(user, doc));
    if c1.failed {
      ExecFailed(c1, OptionalCategoriesProgram(doc));
      ExecFailed(c1, [ClearShop]);
      return;
    }
    if doc.categories.None? {
      ExecTwo(c1, Raise, Raise);
      ExecFailed(c2, [ClearShop]);
      return;
    }
    CategoriesStage(c1, c1.vars.shop.value, doc.categories.value);
    ExecKeepsIntegrity(c1, OptionalCategoriesProgram(doc));
    if c2.failed {
      ExecFailed(c2, [ClearShop]);
    } else {
      ExecTwo(c2, ClearShop, Raise);
      ExecKeepsIntegrity(c2, [ClearShop]);
    }
  }

  /** An import succeeds exactly when its document is acceptable; it then has cleared the shop and
      stocked it with the goods of the document, in order. */
  lemma ImportSucceedsExactlyWhenAccepted(db: Db, user: Id, doc: Document) returns (cleared: Db, shop: Id)
    requires Integrity(db)
    ensures !Import(db, user, doc).failed <==> Accepts(db, user, doc)
    ensures Accepts(db, user, doc) ==>
      Cleared(db, cleared, user, doc, shop) && Stocked(cleared, Import(db, user, doc).db, shop, doc.goods.value)
  {
    ImportStages(Begin(db), user, doc);
    UpToClear(db, user, doc);
    var run := Exec(Exec(Exec(Begin(db), ShopProgram(user, doc)), OptionalCategoriesProgram(doc)), [ClearShop]);
    cleared, shop := run.db, if run.vars.shop.Some? then run.vars.shop.value else 0;
    if run.failed {
      ExecFailed(run, OptionalGoodsProgram(doc));
    } else if doc.goods.None? {
      ExecTwo(run, Raise, Raise);
    } else {
      GoodsStage(run, shop, doc.goods.value);
      assert GoodsOk(cleared, cleared.categories, doc.goods.value)
             <==> GoodsOk(db, cleared.categories, doc.goods.value);
    }
  }

  /* A prefix of the import changes nothing about whether the import is acceptable. */

  /** What the category loop leaves: the old names, and every name of the document. */
  lemma {:induction false} CategoriesAfterLookup(categories: map<Id, string>, cs: seq<CategoryEntry>)
    requires CategoriesOk(categories, cs)
    ensures var after := CategoriesAfter(categories, cs);
      && after.Keys == categories.Keys + CategoryIds(cs)
      && (forall id | id in categories :: after[id] == categories[id])
      && (forall e | e in cs :: IdOf(e) in after && after[IdOf(e)] == Text(e.name))
    decreases |cs|
  {
    if cs == [] { return; }
    var e, rest := cs[0], cs[1..];
    assert cs == [e] + rest && e in cs;
    CategoriesOkStep(categories, e, rest);
    CategoriesAfterLookup(categories[IdOf(e) := Text(e.name)], rest);
    assert forall f :: f in cs <==> f == e || f in rest;
  }

  lemma CategoriesOkMoved(a: Db, categories: map<Id, string>, cs: seq<CategoryEntry>)
    requires CategoriesMoved(a, categories, cs) && CategoriesSound(categories)
    ensures CategoriesOk(a.categories, cs) <==> CategoriesOk(categories, cs)
  {
    if CategoriesOk(a.categories, cs) {
      forall e | e in cs
        ensures CategoryFits(categories, e)
      {
        if e.id.value in categories && e.id.value !in a.categories {
          assert CategoryEntry(e.id, Some(categories[e.id.value])) in cs;
        }
      }
    }
  }

  lemma CategoriesAfterMoved(a: Db, categories: map<Id, string>, cs: seq<CategoryEntry>)
    requires CategoriesMoved(a, categories, cs) && CategoriesOk(a.categories, cs) && CategoriesOk(categories, cs)
    ensures CategoriesAfter(a.categories, cs) == CategoriesAfter(categories, cs)
  {
    var was, now := CategoriesAfter(a.categories, cs), CategoriesAfter(categories, cs);
    CategoriesAfterLookup(a.categories, cs);
    CategoriesAfterLookup(categories, cs);
    forall id | id in categories && id !in a.categories
      ensures id in CategoryIds(cs)
    {
      assert IdOf(CategoryEntry(Some(id), Some(categories[id]))) == id;
    }
    assert was.Keys == now.Keys;
    forall id | id in was
      ensures was[id] == now[id]
    {
      if id !in a.categories { var e :| e in cs && IdOf(e) == id; }
    }
  }

  lemma GoodOkMoved(a: Db, b: Db, after: map<Id, string>, g: Good)
    requires GrowsByNewKeys(a.products, b.products) && GrowsByNewKeys(a.parameters, b.parameters)
    requires ProductsSound(b.products, b.next.product, b.categories) && ParametersSound(b.parameters, b.next.parameter)
    requires b.categories.Keys <= after.Keys
    ensures GoodOk(a, after, g) <==> GoodOk(b, after, g)
  {
    LookupStable(a.products, b.products, KeyOf(g));
    if x :| x in WithValue(b.products, KeyOf(g)) { assert b.products[x] == KeyOf(g); }
    forall p | p in ParametersIn(g) { ParameterOkStable(a, b, p); }
  }

  lemma ShopOkMoved(a: Db, b: Db, user: Id, doc: Document)
    requires ShopsMoved(a, b.shops, b.next.shop, user, doc) && b.users == a.users && doc.shop.Some?
    requires ShopsSound(a.shops, a.next.shop, a.users) && ShopsSound(b.shops, b.next.shop, b.users)
    ensures ShopOk(a, user, doc.shop.value) <==> ShopOk(b, user, doc.shop.value)
  {
    var name := doc.shop.value;
    if b.shops != a.shops {
      assert ShopsNamed(b.shops, name) == {a.next.shop} by {
        assert forall s | s in a.shops :: s !in ShopsNamed(a.shops, name);
      }
    }
  }

  lemma AcceptanceMoved(a: Db, b: Db, user: Id, doc: Document)
    requires Integrity(a) && Integrity(b) && Moved(a, b, user, doc)
    ensures Accepts(a, user, doc) <==> Accepts(b, user, doc)
  {
    if doc.shop.None? || doc.categories.None? || doc.goods.None? { return; }
    var cs := doc.categories.value;
    ShopOkMoved(a, b, user, doc);
    CategoriesOkMoved(a, b.categories, cs);
    if CategoriesOk(a.categories, cs) {
      CategoriesAfterMoved(a, b.categories, cs);
      CategoriesAfterLookup(b.categories, cs);
      forall g | g in doc.goods.value { GoodOkMoved(a, b, CategoriesAfter(b.categories, cs), g); }
    }
  }
}
