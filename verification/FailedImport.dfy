/** What a price-list import that fails leaves behind: no transaction undoes the statements before the failure
    (backend/tasks.py). */
module FailedImport {
  import opened Collections
  import opened Schema
  import opened Machine
  import opened PriceList
  import opened Catalogue
  import opened Acceptance
  import opened Outcome
  import opened ImportTheorems
  import Sql

  /* Where the document goes wrong. */

  /** The entries before `k` are fine; entry `k` is not, by itself or because it contradicts one of them. */
  ghost predicate FirstBadCategory(db: Db, cs: seq<CategoryEntry>, k: nat) {
    && k < |cs| && CategoriesOk(db.categories, cs[..k])
    && (CategoryFits(db.categories, cs[k]) ==>
          exists j | 0 <= j < k :: cs[j].id == cs[k].id && cs[j].name != cs[k].name)
  }

  ghost predicate FirstBadGood(db: Db, categories: map<Id, string>, gs: seq<Good>, k: nat) {
    && k < |gs| && (forall j | 0 <= j < k :: GoodOk(db, categories, gs[j])) && !GoodOk(db, categories, gs[k])
  }

  /** The parameters before `m` are fine; parameter `m` is not, by itself or because it repeats a name. */
  ghost predicate FirstBadParameter(parameters: map<Id, string>, ps: seq<Parameter>, m: nat) {
    && m < |ps| && (forall j | 0 <= j < m :: ParameterOk(parameters, ps[j])) && NamesDistinct(ps[..m])
    && (ParameterOk(parameters, ps[m]) ==> exists j | 0 <= j < m :: ps[j].name == ps[m].name)
  }

  /* What is left. */

  /** The good with its first `m` parameters only. */
  function CutTo(g: Good, m: nat): Good
    requires m <= |ParametersIn(g)|
  {
    g.(parameters := Some(ParametersIn(g)[..m]))
  }

  /** Good `g` gets as far as its ProductInfo row. */
  ghost predicate OnSale(db: Db, categories: map<Id, string>, g: Good) {
    ProductOk(db.products, categories, g) && InfoOk(g)
  }

  /** The goods a shop offers after an import that fails at good `k`, and there at parameter `m`. */
  ghost function GoodsLeft(db: Db, categories: map<Id, string>, gs: seq<Good>, k: nat, m: nat): seq<Good>
    requires k < |gs| && m <= |ParametersIn(gs[k])|
  {
    gs[..k] + if OnSale(db, categories, gs[k]) then [CutTo(gs[k], m)] else []
  }

  /** The name a `get_or_create` of a parameter leaves in the table, even when its value is then refused. */
  ghost function NameTried(parameters: map<Id, string>, p: Parameter): set<string> {
    if p.name.Some? && Lookable(parameters, p.name.value)
       && (WithValue(parameters, p.name.value) == {} ==> |p.name.value| <= PARAMETER_NAME)
    then {p.name.value} else {}
  }

  /** The same, for parameter `m` of a good that got its row. */
  ghost function NameTriedAt(parameters: map<Id, string>, g: Good, m: nat): set<string> {
    if g.parameters.Some? && m < |g.parameters.value| then NameTried(parameters, g.parameters.value[m]) else {}
  }

  /* Programs come apart. */

  lemma {:induction false} CategoriesConcat(a: seq<CategoryEntry>, b: seq<CategoryEntry>)
    ensures CategoriesProgram(a + b) == CategoriesProgram(a) + CategoriesProgram(b)
  {
    if a == [] {
      assert a + b == b;
    } else {
      assert (a + b)[0] == a[0] && (a + b)[1..] == a[1..] + b;
      CategoriesConcat(a[1..], b);
    }
  }

  lemma {:induction false} ParametersConcat(a: seq<Parameter>, b: seq<Parameter>)
    ensures ParametersProgram(a + b) == ParametersProgram(a) + ParametersProgram(b)
  {
    if a == [] {
      assert a + b == b;
    } else {
      assert (a + b)[0] == a[0] && (a + b)[1..] == a[1..] + b;
      ParametersConcat(a[1..], b);
    }
  }

  lemma {:induction false} GoodsConcat(a: seq<Good>, b: seq<Good>)
    ensures GoodsProgram(a + b) == GoodsProgram(a) + GoodsProgram(b)
  {
    if a == [] {
      assert a + b == b;
    } else {
      assert (a + b)[0] == a[0] && (a + b)[1..] == a[1..] + b;
      GoodsConcat(a[1..], b);
    }
  }

  lemma OneGood(g: Good)
    ensures GoodsProgram([g]) == GoodProgram(g)
  {
    assert [g][1..] == [] && GoodProgram(g) + [] == GoodProgram(g);
  }

  lemma ThreeParts<T>(a: seq<T>, b: seq<T>, c: seq<T>)
    ensures a + (b + c) == (a + b) + c
  {
  }

  /** The program of a good is that of the good cut short, and what follows. */
  lemma GoodComesApart(g: Good, m: nat)
    requires m <= |ParametersIn(g)|
    ensures GoodProgram(g) == GoodProgram(CutTo(g, m))
            + if g.parameters.None? then [Raise] else ParametersProgram(ParametersIn(g)[m..])
  {
    var head, cut := ProductProgram(g) + InfoProgram(g), CutTo(g, m);
    assert ProductProgram(cut) == ProductProgram(g) && InfoProgram(cut) == InfoProgram(g);
    if g.parameters.None? {
      assert GoodProgram(cut) == head + [] == head;
    } else {
      var ps := g.parameters.value;
      assert ps == ps[..m] + ps[m..];
      ParametersConcat(ps[..m], ps[m..]);
      ThreeParts(head, ParametersProgram(ps[..m]), ParametersProgram(ps[m..]));
    }
  }

  /* The statement that fails. */

  lemma RefusedKeepsStore(c: Run, s: Stmt)
    requires Step(c, s).failed && !s.RemoveProduct?
    ensures Step(c, s).db == c.db
  {
  }

  lemma LookupRefused(c: Run, find: Stmt, ensure: Stmt)
    requires Exec(c, [find, ensure]).failed && (find.FindShop? || find.FindParameter? || find.FindProduct?)
    requires !ensure.RemoveProduct?
    ensures Exec(c, [find, ensure]).db == c.db
  {
    ExecTwo(c, find, ensure);
    RefusedKeepsStore(Step(c, find), ensure);
  }

  /** A parameter whose name is found or made and whose value is refused leaves the name. */
  lemma FailingParameter(c: Run, p: Parameter)
    requires !c.failed && Integrity(c.db) && Exec(c, ParameterProgram(p)).failed
    ensures var out := Exec(c, ParameterProgram(p)).db;
      && out == c.db.(parameters := out.parameters, next := c.db.next.(parameter := out.next.parameter))
      && GrowsByNewKeys(c.db.parameters, out.parameters)
      && out.parameters.Values == c.db.parameters.Values + NameTried(c.db.parameters, p)
  {
    if p.name.None? { ExecTwo(c, Raise, Raise); return; }
    var name := p.name.value;
    var last := if p.value.None? then Raise else CreateValue(p.value.value);
    var found := Exec(c, [FindParameter(name), EnsureParameter(name)]);
    ExecConcat(c, [FindParameter(name), EnsureParameter(name)], [last]);
    GetOrCreateParameter(c, name);
    ExecTwo(found, last, last);
    RefusedKeepsStore(found, last);
    if found.failed { LookupRefused(c, FindParameter(name), EnsureParameter(name)); }
  }

  lemma FailingProduct(c: Run, g: Good)
    requires !c.failed && Exec(c, ProductProgram(g)).failed
    ensures Exec(c, ProductProgram(g)).db == c.db
  {
    if g.name.None? || g.category.None? {
      ExecTwo(c, Raise, Raise);
    } else {
      LookupRefused(c, FindProduct(KeyOf(g)), EnsureProduct(KeyOf(g)));
    }
  }

  lemma FailingInfo(c: Run, shop: Id, g: Good)
    requires !c.failed && Integrity(c.db) && c.vars.shop == Some(shop) && shop in c.db.shops
    requires c.vars.product.At? && c.vars.product.id in c.db.products && !InfoOk(g)
    ensures Exec(c, InfoProgram(g)) == Fail(c)
  {
    ExecTwo(c, InfoProgram(g)[0], Raise);
  }

  /** A good whose product is found or made and whose row is refused leaves the product. */
  lemma FailingGood(c: Run, shop: Id, g: Good)
    requires !c.failed && Integrity(c.db) && c.vars.shop == Some(shop) && shop in c.db.shops
    requires !OnSale(c.db, c.db.categories, g)
    ensures var out := Exec(c, GoodProgram(g));
      && out.failed
      && out.db == c.db.(products := out.db.products, next := c.db.next.(product := out.db.next.product))
      && GrowsByNewKeys(c.db.products, out.db.products)
      && out.db.products.Values == c.db.products.Values
           + if ProductOk(c.db.products, c.db.categories, g) then {KeyOf(g)} else {}
  {
    var p := Exec(c, ProductProgram(g));
    var i := Exec(p, InfoProgram(g));
    ExecConcat(c, ProductProgram(g), InfoProgram(g));
    ExecConcat(c, ProductProgram(g) + InfoProgram(g), OptionalParametersProgram(g));
    GetOrCreateProduct(c, g);
    if p.failed {
      FailingProduct(c, g);
      ExecFailed(p, InfoProgram(g));
    } else {
      ExecKeepsIntegrity(c, ProductProgram(g));
      FailingInfo(p, shop, g);
    }
    ExecFailed(i, OptionalParametersProgram(g));
  }

  lemma FailingCategory(c: Run, shop: Id, e: CategoryEntry)
    requires !c.failed && CategoriesSound(c.db.categories) && c.vars.shop == Some(shop) && shop in c.db.shops
    requires !CategoryFits(c.db.categories, e)
    ensures var out := Exec(c, CategoryProgram(e)); out.failed && out.db == c.db
  {
    if e.id.None? || e.name.None? { ExecTwo(c, Raise, Raise); return; }
    ExecThree(c, EnsureCategory(e.id.value, e.name.value), LinkShop, ResaveCategory);
  }

  /* The loop over the goods. */

  /** Good `g` fails at its parameter `m`; 0 when it does not get that far. */
  ghost predicate FailsAt(db: Db, categories: map<Id, string>, g: Good, m: nat) {
    if OnSale(db, categories, g) && g.parameters.Some? then FirstBadParameter(db.parameters, g.parameters.value, m)
    else m == 0
  }

  /** The products looked up or made by then. */
  ghost function KeysLeft(db: Db, categories: map<Id, string>, gs: seq<Good>, k: nat): set<Product>
    requires k < |gs|
  {
    GoodKeys(gs[..k]) + if ProductOk(db.products, categories, gs[k]) then {KeyOf(gs[k])} else {}
  }

  /** The parameter names looked up or made by then. */
  ghost function NamesLeft(db: Db, categories: map<Id, string>, gs: seq<Good>, k: nat, m: nat): set<string>
    requires k < |gs| && m <= |ParametersIn(gs[k])|
  {
    GoodNames(GoodsLeft(db, categories, gs, k, m))
    + if OnSale(db, categories, gs[k]) then NameTriedAt(db.parameters, gs[k], m) else {}
  }

  /** From `a` to `b` goods `left` were appended to the catalogue of `shop`, and these keys and names are there. */
  ghost predicate StockedWith(a: Db, b: Db, shop: Id, left: seq<Good>, keys: set<Product>, names: set<string>) {
    && StockGrows(a, b, shop)
    && CatalogueOf(b, shop) == CatalogueOf(a, shop) + RenderGoods(a.categories, left)
    && b.products.Values == a.products.Values + keys && b.parameters.Values == a.parameters.Values + names
  }

  /** From `a` to `b` the goods loop ran until good `k` of `gs` failed, there at parameter `m`. */
  ghost predicate StockedUpTo(a: Db, b: Db, shop: Id, gs: seq<Good>, k: nat, m: nat)
    requires k < |gs| && m <= |ParametersIn(gs[k])|
  {
    StockedWith(a, b, shop, GoodsLeft(a, a.categories, gs, k, m),
                KeysLeft(a, a.categories, gs, k), NamesLeft(a, a.categories, gs, k, m))
  }

  lemma ProductOkStable(a: Db, b: Db, g: Good)
    requires GrowsByNewKeys(a.products, b.products) && ProductsSound(b.products, b.next.product, b.categories)
    requires b.categories == a.categories
    ensures ProductOk(a.products, a.categories, g) <==> ProductOk(b.products, b.categories, g)
  {
    LookupStable(a.products, b.products, KeyOf(g));
    if x :| x in WithValue(b.products, KeyOf(g)) { assert b.products[x] == KeyOf(g); }
  }

  lemma NameTriedStable(a: Db, b: Db, p: Parameter)
    requires GrowsByNewKeys(a.parameters, b.parameters) && ParametersSound(b.parameters, b.next.parameter)
    ensures NameTried(a.parameters, p) == NameTried(b.parameters, p)
  {
    if p.name.Some? { LookupStable(a.parameters, b.parameters, p.name.value); }
  }

  lemma GrowsReflexive<K>(m: map<Id, K>)
    ensures GrowsByNewKeys(m, m)
  {
  }

  lemma KeysGrow(a: Db, b: Db, shop: Id)
    requires b == a.(products := b.products, parameters := b.parameters,
                     next := a.next.(product := b.next.product, parameter := b.next.parameter))
    requires GrowsByNewKeys(a.products, b.products) && GrowsByNewKeys(a.parameters, b.parameters)
    ensures StockGrows(a, b, shop)
  {
  }

  lemma CatalogueKept(a: Db, b: Db, shop: Id)
    requires Integrity(a) && StockGrows(a, b, shop) && b.infos == a.infos
    ensures CatalogueOf(b, shop) == CatalogueOf(a, shop)
  {
    forall i | i in Sql.InfosOf(a, shop) { StockFrame(a, b, shop, i); }
    ReadListingsFrame(a, b, Sql.InfosOf(a, shop));
  }

  /** Keys no row uses yet are not seen in any catalogue. */
  lemma ThenKeys(a: Db, b: Db, c: Db, shop: Id)
    requires StockGrows(a, b, shop) && Integrity(b)
    requires c == b.(products := c.products, parameters := c.parameters,
                     next := b.next.(product := c.next.product, parameter := c.next.parameter))
    requires GrowsByNewKeys(b.products, c.products) && GrowsByNewKeys(b.parameters, c.parameters)
    ensures StockGrows(a, c, shop) && CatalogueOf(c, shop) == CatalogueOf(b, shop)
  {
    KeysGrow(b, c, shop);
    StockGrowsTransitive(a, b, c, shop);
    CatalogueKept(b, c, shop);
  }

  lemma AddNothing<T>(s: set<T>)
    ensures s + {} == s
  {
  }

  lemma ThenMoreKeys(a: Db, b: Db, c: Db, shop: Id, left: seq<Good>, keys: set<Product>, names: set<string>)
    requires Integrity(b) && Stocked(a, b, shop, left)
    requires c == b.(products := c.products, parameters := c.parameters,
                     next := b.next.(product := c.next.product, parameter := c.next.parameter))
    requires GrowsByNewKeys(b.products, c.products) && c.products.Values == b.products.Values + keys
    requires GrowsByNewKeys(b.parameters, c.parameters) && c.parameters.Values == b.parameters.Values + names
    ensures StockedWith(a, c, shop, left, GoodKeys(left) + keys, GoodNames(left) + names)
  {
    AddTwice(a.products.Values, GoodKeys(left), keys);
    AddTwice(a.parameters.Values, GoodNames(left), names);
    ThenKeys(a, b, c, shop);
  }

  /** Cut before its first bad parameter the good is fine; with that parameter it is not. */
  lemma CutIsOk(db: Db, categories: map<Id, string>, g: Good, m: nat)
    requires OnSale(db, categories, g) && FailsAt(db, categories, g, m)
    ensures m <= |ParametersIn(g)| && GoodOk(db, categories, CutTo(g, m))
    ensures g.parameters.Some? ==> m < |g.parameters.value| && !GoodOk(db, categories, CutTo(g, m + 1))
  {
    if g.parameters.Some? {
      var ps := g.parameters.value;
      var now := ps[..m + 1];
      assert now[m] == ps[m] && ps[m] in now;
      assert forall j | 0 <= j < m :: now[j] == ps[j];
    }
  }

  lemma OneMoreParameter(g: Good, m: nat)
    requires g.parameters.Some? && m < |g.parameters.value|
    ensures GoodProgram(CutTo(g, m + 1)) == GoodProgram(CutTo(g, m)) + ParameterProgram(g.parameters.value[m])
  {
    var p, longer := g.parameters.value[m], CutTo(g, m + 1);
    GoodComesApart(longer, m);
    assert ParametersIn(longer)[..m] == g.parameters.value[..m] && ParametersIn(longer)[m..] == [p];
    assert [p][1..] == [] && ParameterProgram(p) + [] == ParameterProgram(p);
  }

  lemma GoodsAround(gs: seq<Good>, k: nat)
    requires k < |gs|
    ensures GoodsProgram(gs) == GoodsProgram(gs[..k]) + (GoodProgram(gs[k]) + GoodsProgram(gs[k + 1..]))
  {
    assert gs == gs[..k] + gs[k..] && gs[k..][1..] == gs[k + 1..];
    GoodsConcat(gs[..k], gs[k..]);
  }

  /** The run after the goods before `k`. */
  lemma GoodsBefore(c: Run, shop: Id, gs: seq<Good>, k: nat)
    requires !c.failed && Integrity(c.db) && c.vars.shop == Some(shop) && shop in c.db.shops
    requires FirstBadGood(c.db, c.db.categories, gs, k)
    ensures var mid := Exec(c, GoodsProgram(gs[..k]));
      && !mid.failed && mid.vars.shop == Some(shop) && Integrity(mid.db) && Stocked(c.db, mid.db, shop, gs[..k])
  {
    GoodsStage(c, shop, gs[..k]);
    ExecKeepsIntegrity(c, GoodsProgram(gs[..k]));
  }

  lemma GoodFailsUnlisted(c: Run, shop: Id, gs: seq<Good>, k: nat)
    requires !c.failed && Integrity(c.db) && c.vars.shop == Some(shop) && shop in c.db.shops
    requires FirstBadGood(c.db, c.db.categories, gs, k) && !OnSale(c.db, c.db.categories, gs[k])
    ensures var out := Exec(c, GoodsProgram(gs)); out.failed && StockedUpTo(c.db, out.db, shop, gs, k, 0)
  {
    var g, rest := gs[k], GoodsProgram(gs[k + 1..]);
    var mid := Exec(c, GoodsProgram(gs[..k]));
    var out := Exec(mid, GoodProgram(g));
    GoodsAround(gs, k);
    ExecConcat(c, GoodsProgram(gs[..k]), GoodProgram(g) + rest);
    ExecConcat(mid, GoodProgram(g), rest);
    GoodsBefore(c, shop, gs, k);
    ProductOkStable(c.db, mid.db, g);
    FailingGood(mid, shop, g);
    ExecFailed(out, rest);
    ProductFailsNext(c.db, mid.db, out.db, shop, gs, k);
  }

  lemma LeftUnlisted(db: Db, categories: map<Id, string>, gs: seq<Good>, k: nat)
    requires k < |gs| && !OnSale(db, categories, gs[k])
    ensures GoodsLeft(db, categories, gs, k, 0) == gs[..k]
    ensures NamesLeft(db, categories, gs, k, 0) == GoodNames(gs[..k]) + {}
  {
    assert gs[..k] + [] == gs[..k];
  }

  lemma ProductFailsNext(a: Db, b: Db, c: Db, shop: Id, gs: seq<Good>, k: nat)
    requires k < |gs| && !OnSale(a, a.categories, gs[k]) && Integrity(b) && Stocked(a, b, shop, gs[..k])
    requires c == b.(products := c.products, next := b.next.(product := c.next.product))
    requires GrowsByNewKeys(b.products, c.products)
    requires c.products.Values == b.products.Values
               + if ProductOk(a.products, a.categories, gs[k]) then {KeyOf(gs[k])} else {}
    ensures StockedUpTo(a, c, shop, gs, k, 0)
  {
    var keys := if ProductOk(a.products, a.categories, gs[k]) then {KeyOf(gs[k])} else {};
    GrowsReflexive(b.parameters);
    AddNothing(b.parameters.Values);
    ThenMoreKeys(a, b, c, shop, gs[..k], keys, {});
    LeftUnlisted(a, a.categories, gs, k);
  }

  /** The run after the goods before `k` and good `k` cut before its parameter `m`. */
  lemma GoodsListed(c: Run, shop: Id, gs: seq<Good>, k: nat, m: nat)
    requires !c.failed && Integrity(c.db) && c.vars.shop == Some(shop) && shop in c.db.shops
    requires FirstBadGood(c.db, c.db.categories, gs, k) && OnSale(c.db, c.db.categories, gs[k])
    requires FailsAt(c.db, c.db.categories, gs[k], m)
    ensures m <= |ParametersIn(gs[k])|
    ensures var left := gs[..k] + [CutTo(gs[k], m)];
      var mid := Exec(c, GoodsProgram(left));
      && !mid.failed && Integrity(mid.db) && Stocked(c.db, mid.db, shop, left)
      && (gs[k].parameters.Some? ==>
            m < |gs[k].parameters.value| && Exec(mid, ParameterProgram(gs[k].parameters.value[m])).failed)
  {
    var g := gs[k];
    CutIsOk(c.db, c.db.categories, g, m);
    var left := gs[..k] + [CutTo(g, m)];
    GoodsStage(c, shop, left);
    ExecKeepsIntegrity(c, GoodsProgram(left));
    if g.parameters.Some? {
      var longer := gs[..k] + [CutTo(g, m + 1)];
      assert longer[k] in longer;
      GoodsStage(c, shop, longer);
      LongerProgram(gs, k, m);
      ExecConcat(c, GoodsProgram(left), ParameterProgram(g.parameters.value[m]));
    }
  }

  lemma LongerProgram(gs: seq<Good>, k: nat, m: nat)
    requires k < |gs| && gs[k].parameters.Some? && m < |gs[k].parameters.value|
    ensures GoodsProgram(gs[..k] + [CutTo(gs[k], m + 1)])
            == GoodsProgram(gs[..k] + [CutTo(gs[k], m)]) + ParameterProgram(gs[k].parameters.value[m])
  {
    OneMoreParameter(gs[k], m);
    GoodsConcat(gs[..k], [CutTo(gs[k], m + 1)]);
    GoodsConcat(gs[..k], [CutTo(gs[k], m)]);
    OneGood(CutTo(gs[k], m + 1));
    OneGood(CutTo(gs[k], m));
    ThreeParts(GoodsProgram(gs[..k]), GoodProgram(CutTo(gs[k], m)), ParameterProgram(gs[k].parameters.value[m]));
  }

  /** What follows the last parameter that is kept. */
  function Following(gs: seq<Good>, k: nat, m: nat): seq<Stmt>
    requires k < |gs| && m <= |ParametersIn(gs[k])|
  {
    (if gs[k].parameters.None? then [Raise] else ParametersProgram(gs[k].parameters.value[m..]))
    + GoodsProgram(gs[k + 1..])
  }

  lemma FourParts<T>(a: seq<T>, b: seq<T>, c: seq<T>, d: seq<T>)
    ensures a + ((b + c) + d) == (a + b) + (c + d)
  {
  }

  lemma FollowingGoods(gs: seq<Good>, k: nat, m: nat)
    requires k < |gs| && m <= |ParametersIn(gs[k])|
    ensures GoodsProgram(gs) == GoodsProgram(gs[..k] + [CutTo(gs[k], m)]) + Following(gs, k, m)
  {
    FourParts(GoodsProgram(gs[..k]), GoodProgram(CutTo(gs[k], m)),
              if gs[k].parameters.None? then [Raise] else ParametersProgram(gs[k].parameters.value[m..]),
              GoodsProgram(gs[k + 1..]));
    GoodsAround(gs, k);
    GoodComesApart(gs[k], m);
    GoodsConcat(gs[..k], [CutTo(gs[k], m)]);
    OneGood(CutTo(gs[k], m));
  }

  /** The statement after the last parameter that is kept fails, and with it the run. */
  lemma FollowingFails(c: Run, gs: seq<Good>, k: nat, m: nat)
    requires !c.failed && k < |gs| && m <= |ParametersIn(gs[k])|
    requires gs[k].parameters.Some? ==>
      m < |gs[k].parameters.value| && Exec(c, ParameterProgram(gs[k].parameters.value[m])).failed
    ensures Exec(c, Following(gs, k, m))
            == if gs[k].parameters.None? then Fail(c) else Exec(c, ParameterProgram(gs[k].parameters.value[m]))
  {
    var rest := GoodsProgram(gs[k + 1..]);
    if gs[k].parameters.None? {
      ExecConcat(c, [Raise], rest);
      ExecTwo(c, Raise, Raise);
      ExecFailed(Fail(c), rest);
    } else {
      var ps := gs[k].parameters.value[m..];
      ExecConcat(c, ParametersProgram(ps), rest);
      ExecConcat(c, ParameterProgram(ps[0]), ParametersProgram(ps[1..]));
      ExecFailed(Exec(c, ParameterProgram(ps[0])), ParametersProgram(ps[1..]));
      ExecFailed(Exec(c, ParameterProgram(ps[0])), rest);
    }
  }

  lemma GoodFailsListed(c: Run, shop: Id, gs: seq<Good>, k: nat, m: nat)
    requires !c.failed && Integrity(c.db) && c.vars.shop == Some(shop) && shop in c.db.shops
    requires FirstBadGood(c.db, c.db.categories, gs, k) && OnSale(c.db, c.db.categories, gs[k])
    requires FailsAt(c.db, c.db.categories, gs[k], m)
    ensures var out := Exec(c, GoodsProgram(gs)); out.failed && StockedUpTo(c.db, out.db, shop, gs, k, m)
  {
    GoodsListed(c, shop, gs, k, m);
    var left := gs[..k] + [CutTo(gs[k], m)];
    FollowingGoods(gs, k, m);
    ExecConcat(c, GoodsProgram(left), Following(gs, k, m));
    var mid := Exec(c, GoodsProgram(left));
    FollowingTries(c.db, mid, gs, k, m);
    ParameterFailsNext(c.db, mid.db, Exec(mid, Following(gs, k, m)).db, shop, gs, k, m);
  }

  /** It adds no more than the name it looked up. */
  lemma FollowingTries(a: Db, c: Run, gs: seq<Good>, k: nat, m: nat)
    requires !c.failed && Integrity(c.db) && k < |gs| && m <= |ParametersIn(gs[k])|
    requires GrowsByNewKeys(a.parameters, c.db.parameters)
    requires gs[k].parameters.Some? ==>
      m < |gs[k].parameters.value| && Exec(c, ParameterProgram(gs[k].parameters.value[m])).failed
    ensures var out := Exec(c, Following(gs, k, m));
      && out.failed
      && out.db == c.db.(parameters := out.db.parameters, next := c.db.next.(parameter := out.db.next.parameter))
      && GrowsByNewKeys(c.db.parameters, out.db.parameters)
      && out.db.parameters.Values == c.db.parameters.Values + NameTriedAt(a.parameters, gs[k], m)
  {
    FollowingFails(c, gs, k, m);
    if gs[k].parameters.Some? {
      FailingParameter(c, gs[k].parameters.value[m]);
      NameTriedStable(a, c.db, gs[k].parameters.value[m]);
    } else {
      GrowsReflexive(c.db.parameters);
    }
  }

  lemma ParameterFailsNext(a: Db, b: Db, c: Db, shop: Id, gs: seq<Good>, k: nat, m: nat)
    requires k < |gs| && OnSale(a, a.categories, gs[k]) && m <= |ParametersIn(gs[k])|
    requires Integrity(b) && Stocked(a, b, shop, gs[..k] + [CutTo(gs[k], m)])
    requires c == b.(parameters := c.parameters, next := b.next.(parameter := c.next.parameter))
    requires GrowsByNewKeys(b.parameters, c.parameters)
    requires c.parameters.Values == b.parameters.Values + NameTriedAt(a.parameters, gs[k], m)
    ensures StockedUpTo(a, c, shop, gs, k, m)
  {
    GrowsReflexive(b.products);
    AddNothing(b.products.Values);
    ThenMoreKeys(a, b, c, shop, gs[..k] + [CutTo(gs[k], m)], {}, NameTriedAt(a.parameters, gs[k], m));
    KeysOfLeft(gs, k, m);
  }

  lemma KeysOfLeft(gs: seq<Good>, k: nat, m: nat)
    requires k < |gs| && m <= |ParametersIn(gs[k])|
    ensures GoodKeys(gs[..k] + [CutTo(gs[k], m)]) == GoodKeys(gs[..k]) + {KeyOf(gs[k])}
  {
    var cut := CutTo(gs[k], m);
    assert KeyOf(cut) == KeyOf(gs[k]);
    assert forall g :: g in gs[..k] + [cut] <==> g in gs[..k] || g == cut;
  }

  /* The loop over the categories. */

  lemma CategoryEndsRun(db: Db, cs: seq<CategoryEntry>, k: nat)
    requires FirstBadCategory(db, cs, k)
    ensures !CategoriesOk(db.categories, cs[..k] + [cs[k]])
  {
    var now := cs[..k] + [cs[k]];
    assert cs[k] in now;
    if j :| 0 <= j < k && cs[j].id == cs[k].id && cs[j].name != cs[k].name { assert now[j] in now; }
  }

  lemma CategoriesAround(cs: seq<CategoryEntry>, k: nat)
    requires k < |cs|
    ensures CategoriesProgram(cs[..k] + [cs[k]]) == CategoriesProgram(cs[..k]) + CategoryProgram(cs[k])
    ensures CategoriesProgram(cs)
            == CategoriesProgram(cs[..k]) + (CategoryProgram(cs[k]) + CategoriesProgram(cs[k + 1..]))
  {
    assert cs == cs[..k] + cs[k..] && cs[k..][1..] == cs[k + 1..];
    CategoriesConcat(cs[..k], cs[k..]);
    CategoriesConcat(cs[..k], [cs[k]]);
    assert [cs[k]][1..] == [] && CategoryProgram(cs[k]) + [] == CategoryProgram(cs[k]);
  }

  /** The loop keeps the categories and links of the entries before the first bad one, and nothing of that one. */
  lemma CategoriesUpTo(c: Run, shop: Id, cs: seq<CategoryEntry>, k: nat)
    requires !c.failed && Integrity(c.db) && c.vars.shop == Some(shop) && shop in c.db.shops
    requires FirstBadCategory(c.db, cs, k)
    ensures var out := Exec(c, CategoriesProgram(cs));
      && out.failed
      && out.db == c.db.(categories := CategoriesAfter(c.db.categories, cs[..k]),
                         links := c.db.links + LinksTo(shop, cs[..k]))
  {
    var mid := Exec(c, CategoriesProgram(cs[..k]));
    var rest := CategoriesProgram(cs[k + 1..]);
    CategoriesAround(cs, k);
    ExecConcat(c, CategoriesProgram(cs[..k]), CategoryProgram(cs[k]));
    ExecConcat(c, CategoriesProgram(cs[..k]), CategoryProgram(cs[k]) + rest);
    ExecConcat(mid, CategoryProgram(cs[k]), rest);
    CategoriesStage(c, shop, cs[..k]);
    CategoriesStage(c, shop, cs[..k] + [cs[k]]);
    CategoryEndsRun(c.db, cs, k);
    ExecKeepsIntegrity(c, CategoriesProgram(cs[..k]));
    OneCategory(mid, shop, cs[k]);
    FailingCategory(mid, shop, cs[k]);
    ExecFailed(Exec(mid, CategoryProgram(cs[k])), rest);
  }

  /** From `a` to `b` exactly the categories of the entries were added, if missing, and linked to the shop. */
  ghost predicate CategoriesListed(a: Db, b: Db, shop: Id, cs: seq<CategoryEntry>) {
    && (forall id :: id in b.categories <==> id in a.categories || exists e :: e in cs && e.id == Some(id))
    && (forall id | id in a.categories :: b.categories[id] == a.categories[id])
    && (forall e | e in cs :: e.id.Some? && e.id.value in b.categories && e.name == Some(b.categories[e.id.value]))
    && (forall l :: l in b.links <==> l in a.links || (l.1 == shop && exists e :: e in cs && e.id == Some(l.0)))
  }

  lemma AreListed(a: Db, b: Db, shop: Id, cs: seq<CategoryEntry>)
    requires CategoriesOk(a.categories, cs)
    requires b.categories == CategoriesAfter(a.categories, cs) && b.links == a.links + LinksTo(shop, cs)
    ensures CategoriesListed(a, b, shop, cs)
  {
    CategoriesAfterLookup(a.categories, cs);
    forall e | e in cs
      ensures e.id == Some(IdOf(e)) && e.name == Some(Text(e.name))
      ensures IdOf(e) in CategoryIds(cs) && (IdOf(e), shop) in LinksTo(shop, cs)
    {
      assert CategoryFits(a.categories, e);
    }
  }

  /* The first thing wrong can be found. */

  lemma {:induction false} FindBadCategory(db: Db, cs: seq<CategoryEntry>) returns (k: nat)
    requires !CategoriesOk(db.categories, cs)
    ensures FirstBadCategory(db, cs, k)
    decreases |cs|
  {
    var n := |cs| - 1;
    var before := cs[..n];
    assert cs == before + [cs[n]];
    if CategoriesOk(db.categories, before) {
      k := n;
    } else {
      k := FindBadCategory(db, before);
      assert before[..k] == cs[..k];
    }
  }

  lemma {:induction false} FindBadGood(db: Db, categories: map<Id, string>, gs: seq<Good>) returns (k: nat)
    requires !GoodsOk(db, categories, gs)
    ensures FirstBadGood(db, categories, gs, k)
    decreases |gs|
  {
    if GoodOk(db, categories, gs[0]) {
      assert gs == [gs[0]] + gs[1..];
      k := FindBadGood(db, categories, gs[1..]);
      k := k + 1;
    } else {
      k := 0;
    }
  }

  lemma {:induction false} FindBadParameter(parameters: map<Id, string>, ps: seq<Parameter>) returns (m: nat)
    requires !((forall p | p in ps :: ParameterOk(parameters, p)) && NamesDistinct(ps))
    ensures FirstBadParameter(parameters, ps, m)
    decreases |ps|
  {
    var n := |ps| - 1;
    var before := ps[..n];
    assert ps == before + [ps[n]];
    if (forall p | p in before :: ParameterOk(parameters, p)) && NamesDistinct(before) {
      m := n;
    } else {
      m := FindBadParameter(parameters, before);
      assert before[..m] == ps[..m];
    }
  }

  lemma FindFailure(db: Db, categories: map<Id, string>, g: Good) returns (m: nat)
    requires !GoodOk(db, categories, g)
    ensures FailsAt(db, categories, g, m)
  {
    if OnSale(db, categories, g) && g.parameters.Some? {
      m := FindBadParameter(db.parameters, g.parameters.value);
    } else {
      m := 0;
    }
  }

  /* The whole import. */

  /** An import that failed in its categories: it has its shop, and nothing else but the categories before entry `k`. */
  ghost predicate StoppedInCategories(db: Db, out: Db, user: Id, doc: Document, shop: Id, k: nat) {
    && out == db.(shops := out.shops, categories := out.categories, links := out.links,
                  next := db.next.(shop := out.next.shop))
    && Owns(out.shops, user, shop) && doc.shop == Some(out.shops[shop].name)
    && if doc.categories.None? then CategoriesListed(db, out, shop, [])
       else FirstBadCategory(db, doc.categories.value, k)
            && CategoriesListed(db, out, shop, doc.categories.value[..k])
  }

  /** The shop's catalogue reads as these goods, field by field. */
  ghost predicate Offers(db: Db, shop: Id, gs: seq<Good>) {
    && |CatalogueOf(db, shop)| == |gs|
    && forall j | 0 <= j < |gs| :: Shows(CatalogueOf(db, shop)[j], gs[j])
  }

  /** An import that failed in its goods: the old rows are gone, and the shop offers the goods before good `k`, and that
      one with its parameters before the first bad one if it got its row; names and products looked up stay. */
  ghost predicate StoppedInGoods(db: Db, out: Db, user: Id, doc: Document, shop: Id, k: nat, m: nat)
    requires doc.categories.Some?
  {
    && Owns(out.shops, user, shop) && doc.shop == Some(out.shops[shop].name)
    && CategoriesListed(db, out, shop, doc.categories.value)
    && match doc.goods
       case None => CatalogueOf(out, shop) == [] && out.products == db.products && out.parameters == db.parameters
       case Some(gs) =>
         && FirstBadGood(db, out.categories, gs, k) && FailsAt(db, out.categories, gs[k], m)
         && Offers(out, shop, GoodsLeft(db, out.categories, gs, k, m))
         && CatalogueOf(out, shop) == RenderGoods(out.categories, GoodsLeft(db, out.categories, gs, k, m))
         && out.products.Values == db.products.Values + KeysLeft(db, out.categories, gs, k)
         && out.parameters.Values == db.parameters.Values + NamesLeft(db, out.categories, gs, k, m)
  }

  lemma FailingShop(c: Run, user: Id, doc: Document)
    requires Exec(c, ShopProgram(user, doc)).failed
    ensures Exec(c, ShopProgram(user, doc)).db == c.db
  {
    if doc.shop.None? {
      ExecTwo(c, Raise, Raise);
    } else {
      LookupRefused(c, FindShop(doc.shop.value), EnsureShop(doc.shop.value, user));
    }
  }

  /** A run that has failed by its categories ends there. */
  lemma FailedBeforeClear(db: Db, user: Id, doc: Document)
    ensures var run := Exec(Exec(Begin(db), ShopProgram(user, doc)), OptionalCategoriesProgram(doc));
      run.failed ==> Import(db, user, doc) == run
  {
    var run := Exec(Exec(Begin(db), ShopProgram(user, doc)), OptionalCategoriesProgram(doc));
    ImportStages(Begin(db), user, doc);
    if run.failed {
      ExecFailed(run, [ClearShop]);
      ExecFailed(run, OptionalGoodsProgram(doc));
    }
  }

  lemma FailedInShop(db: Db, user: Id, doc: Document)
    requires Integrity(db) && !(doc.shop.Some? && ShopOk(db, user, doc.shop.value))
    ensures Import(db, user, doc).failed && Import(db, user, doc).db == db
  {
    var c := Exec(Begin(db), ShopProgram(user, doc));
    ShopStage(Begin(db), user, doc);
    FailingShop(Begin(db), user, doc);
    ExecFailed(c, OptionalCategoriesProgram(doc));
    FailedBeforeClear(db, user, doc);
  }

  lemma FailedInCategories(db: Db, user: Id, doc: Document) returns (shop: Id, k: nat)
    requires Integrity(db) && doc.shop.Some? && ShopOk(db, user, doc.shop.value)
    requires !(doc.categories.Some? && CategoriesOk(db.categories, doc.categories.value))
    ensures var out := Import(db, user, doc); out.failed && StoppedInCategories(db, out.db, user, doc, shop, k)
  {
    var c := Exec(Begin(db), ShopProgram(user, doc));
    ShopStage(Begin(db), user, doc);
    ExecKeepsIntegrity(Begin(db), ShopProgram(user, doc));
    FailedBeforeClear(db, user, doc);
    shop, k := c.vars.shop.value, 0;
    if doc.categories.None? {
      ExecTwo(c, Raise, Raise);
    } else {
      var cs := doc.categories.value;
      k := FindBadCategory(db, cs);
      CategoriesUpTo(c, shop, cs, k);
      AreListed(db, Exec(c, CategoriesProgram(cs)).db, shop, cs[..k]);
    }
  }

  lemma OffersRendered(db: Db, out: Db, shop: Id, gs: seq<Good>)
    requires CatalogueOf(out, shop) == RenderGoods(out.categories, gs) && GoodsOk(db, out.categories, gs)
    ensures Offers(out, shop, gs)
  {
    if gs != [] { RenderGoodsAt(out.categories, gs, 0); }
    forall j | 0 <= j < |gs|
      ensures |CatalogueOf(out, shop)| == |gs| && Shows(CatalogueOf(out, shop)[j], gs[j])
    {
      RenderGoodsAt(out.categories, gs, j);
      assert GoodOk(db, out.categories, gs[j]);
      RenderedGoodShows(out.categories, db.parameters, gs[j]);
    }
  }

  lemma LeftIsOk(db: Db, categories: map<Id, string>, gs: seq<Good>, k: nat, m: nat)
    requires FirstBadGood(db, categories, gs, k) && FailsAt(db, categories, gs[k], m)
    ensures GoodsOk(db, categories, GoodsLeft(db, categories, gs, k, m))
  {
    if OnSale(db, categories, gs[k]) { CutIsOk(db, categories, gs[k], m); }
  }

  lemma GoodsFail(c: Run, shop: Id, gs: seq<Good>) returns (k: nat, m: nat)
    requires !c.failed && Integrity(c.db) && c.vars.shop == Some(shop) && shop in c.db.shops
    requires !GoodsOk(c.db, c.db.categories, gs)
    ensures FirstBadGood(c.db, c.db.categories, gs, k) && FailsAt(c.db, c.db.categories, gs[k], m)
    ensures var out := Exec(c, GoodsProgram(gs)); out.failed && StockedUpTo(c.db, out.db, shop, gs, k, m)
  {
    k := FindBadGood(c.db, c.db.categories, gs);
    m := FindFailure(c.db, c.db.categories, gs[k]);
    if OnSale(c.db, c.db.categories, gs[k]) {
      GoodFailsListed(c, shop, gs, k, m);
    } else {
      GoodFailsUnlisted(c, shop, gs, k);
    }
  }

  lemma OffersLeft(a: Db, b: Db, shop: Id, gs: seq<Good>, k: nat, m: nat)
    requires FirstBadGood(a, a.categories, gs, k) && FailsAt(a, a.categories, gs[k], m)
    requires Sql.InfosOf(a, shop) == {} && StockedUpTo(a, b, shop, gs, k, m)
    ensures var left := GoodsLeft(a, a.categories, gs, k, m);
      Offers(b, shop, left) && CatalogueOf(b, shop) == RenderGoods(b.categories, left)
  {
    assert CatalogueOf(a, shop) == [];
    LeftIsOk(a, a.categories, gs, k, m);
    OffersRendered(a, b, shop, GoodsLeft(a, a.categories, gs, k, m));
  }

  lemma LeftSame(a: Db, b: Db, categories: map<Id, string>, gs: seq<Good>, k: nat, m: nat)
    requires a.products == b.products && a.parameters == b.parameters && k < |gs| && m <= |ParametersIn(gs[k])|
    ensures GoodsLeft(a, categories, gs, k, m) == GoodsLeft(b, categories, gs, k, m)
    ensures KeysLeft(a, categories, gs, k) == KeysLeft(b, categories, gs, k)
    ensures NamesLeft(a, categories, gs, k, m) == NamesLeft(b, categories, gs, k, m)
    ensures FirstBadGood(a, categories, gs, k) <==> FirstBadGood(b, categories, gs, k)
    ensures FailsAt(a, categories, gs[k], m) <==> FailsAt(b, categories, gs[k], m)
  {
  }

  lemma StockedFromClear(db: Db, cleared: Db, out: Db, user: Id, doc: Document, shop: Id, k: nat, m: nat)
    requires doc.shop.Some? && doc.goods.Some? && doc.categories.Some?
    requires CategoriesOk(db.categories, doc.categories.value) && Cleared(db, cleared, user, doc, shop)
    requires FirstBadGood(cleared, cleared.categories, doc.goods.value, k)
    requires FailsAt(cleared, cleared.categories, doc.goods.value[k], m)
    requires StockedUpTo(cleared, out, shop, doc.goods.value, k, m)
    ensures StoppedInGoods(db, out, user, doc, shop, k, m)
  {
    var gs := doc.goods.value;
    AreListed(db, out, shop, doc.categories.value);
    OffersLeft(cleared, out, shop, gs, k, m);
    LeftSame(db, cleared, out.categories, gs, k, m);
  }

  lemma FailedInGoods(db: Db, user: Id, doc: Document) returns (shop: Id, k: nat, m: nat)
    requires Integrity(db) && !Accepts(db, user, doc) && doc.shop.Some? && ShopOk(db, user, doc.shop.value)
    requires doc.categories.Some? && CategoriesOk(db.categories, doc.categories.value)
    ensures var out := Import(db, user, doc); out.failed && StoppedInGoods(db, out.db, user, doc, shop, k, m)
  {
    var run := Exec(Exec(Exec(Begin(db), ShopProgram(user, doc)), OptionalCategoriesProgram(doc)), [ClearShop]);
    ImportStages(Begin(db), user, doc);
    UpToClear(db, user, doc);
    shop, k, m := run.vars.shop.value, 0, 0;
    if doc.goods.None? {
      ExecTwo(run, Raise, Raise);
      AreListed(db, run.db, shop, doc.categories.value);
      assert CatalogueOf(run.db, shop) == [];
    } else {
      k, m := GoodsFail(run, shop, doc.goods.value);
      StockedFromClear(db, run.db, Exec(run, GoodsProgram(doc.goods.value)).db, user, doc, shop, k, m);
    }
  }

  /** What a failed import leaves, exactly, by the store and the document alone: nothing when the shop is refused; the
      shop and the categories before the first bad one when they are refused; otherwise the new catalogue up to the
      failure in place of the old one. */
  lemma FailedImportExactly(db: Db, user: Id, doc: Document) returns (shop: Id, k: nat, m: nat)
    requires Integrity(db) && !Accepts(db, user, doc)
    ensures var out := Import(db, user, doc);
      && out.failed
      && if doc.shop.None? || !ShopOk(db, user, doc.shop.value) then out.db == db
         else if doc.categories.None? || !CategoriesOk(db.categories, doc.categories.value)
         then StoppedInCategories(db, out.db, user, doc, shop, k)
         else StoppedInGoods(db, out.db, user, doc, shop, k, m)
  {
    shop, k, m := 0, 0, 0;
    if doc.shop.None? || !ShopOk(db, user, doc.shop.value) {
      FailedInShop(db, user, doc);
    } else if doc.categories.None? || !CategoriesOk(db.categories, doc.categories.value) {
      shop, k := FailedInCategories(db, user, doc);
    } else {
      shop, k, m := FailedInGoods(db, user, doc);
    }
  }
}
