/** When an import succeeds, and what a successful one writes, stage by stage. */
module Acceptance {
  import opened Collections
  import opened Schema
  import opened Machine
  import opened PriceList
  import opened Catalogue
  import Sql

  /* Parameters of one good. */

  ghost predicate Lookable<K>(table: map<Id, K>, key: K) { Get(WithValue(table, key)) != Many }

  ghost predicate ParameterOk(parameters: map<Id, string>, p: Parameter) {
    && p.name.Some? && p.value.Some? && |p.value.value| <= PARAMETER_VALUE
    && Lookable(parameters, p.name.value)
    && (WithValue(parameters, p.name.value) == {} ==> |p.name.value| <= PARAMETER_NAME)
  }

  predicate NamesDistinct(ps: seq<Parameter>) {
    forall j, k | 0 <= j < k < |ps| :: ps[j].name != ps[k].name
  }

  function NamesUsed(db: Db, info: Id): set<string> {
    set v | v in ValuesOf(db, info) :: ValueAt(db, v).name
  }

  ghost predicate ParametersOk(db: Db, info: Id, ps: seq<Parameter>) {
    && (forall p | p in ps :: ParameterOk(db.parameters, p) && p.name.value !in NamesUsed(db, info))
    && NamesDistinct(ps)
  }

  function ParameterNames(ps: seq<Parameter>): set<string> { set p | p in ps :: Text(p.name) }

  /** From `a` to `b` only parameter names no one had and values of row `info` were added. */
  ghost predicate ValuesGrow(a: Db, b: Db, info: Id) {
    && b == a.(parameters := b.parameters, values := b.values, next := b.next)
    && b.next == a.next.(parameter := b.next.parameter, value := b.next.value)
    && a.next.value <= b.next.value
    && GrowsByNewKeys(a.parameters, b.parameters)
    && (forall v | v in a.values :: v in b.values && b.values[v] == a.values[v])
    && (forall v | v in b.values && v !in a.values :: b.values[v].info == info && v >= a.next.value)
  }

  lemma ValuesGrowTransitive(a: Db, b: Db, c: Db, info: Id)
    requires ValuesGrow(a, b, info) && ValuesGrow(b, c, info)
    ensures ValuesGrow(a, c, info)
  {
    GrowsTransitive(a.parameters, b.parameters, c.parameters);
  }

  lemma ParameterOkStable(a: Db, b: Db, p: Parameter)
    requires GrowsByNewKeys(a.parameters, b.parameters) && ParametersSound(b.parameters, b.next.parameter)
    ensures ParameterOk(a.parameters, p) <==> ParameterOk(b.parameters, p)
  {
    if p.name.Some? {
      LookupStable(a.parameters, b.parameters, p.name.value);
    }
  }

  /** From `a` to `b` one value was added to row `info`. */
  ghost predicate ValueAdded(a: Db, b: Db, info: Id, row: ProductParameter) {
    && Integrity(a) && row.info == info && row.parameter in b.parameters
    && b.values == a.values[a.next.value := row]
    && GrowsByNewKeys(a.parameters, b.parameters)
    && WithValue(b.parameters, b.parameters[row.parameter]) == {row.parameter}
  }

  lemma OldValuesRead(a: Db, b: Db, info: Id, row: ProductParameter)
    requires ValueAdded(a, b, info, row)
    ensures ValuesOf(b, info) == ValuesOf(a, info) + {a.next.value}
    ensures forall v | v in ValuesOf(a, info) :: v < a.next.value && ValueAt(b, v) == ValueAt(a, v)
    ensures ValueAt(b, a.next.value) == Attribute(b.parameters[row.parameter], row.value, 0)
  {
    forall v | v in ValuesOf(a, info)
      ensures ValueAt(b, v) == ValueAt(a, v)
    {
      CopyStable(a.parameters, b.parameters, a.values[v].parameter);
    }
    CopyOfOnly(b.parameters, row.parameter);
  }

  /** Appending a value to a row reads as appending a pair. */
  lemma ValueAppended(a: Db, b: Db, info: Id, row: ProductParameter)
    requires ValueAdded(a, b, info, row)
    ensures ParametersOf(b, info) == ParametersOf(a, info) + [Attribute(b.parameters[row.parameter], row.value, 0)]
    ensures NamesUsed(b, info) == NamesUsed(a, info) + {b.parameters[row.parameter]}
  {
    var before, id := ValuesOf(a, info), a.next.value;
    OldValuesRead(a, b, info, row);
    MaxOfGrown(before, id);
    ReadValuesFrame(a, b, before);
    NameAdded(a, b, info, id);
  }

  lemma NameAdded(a: Db, b: Db, info: Id, id: Id)
    requires ValuesOf(b, info) == ValuesOf(a, info) + {id}
    requires forall v | v in ValuesOf(a, info) :: ValueAt(b, v) == ValueAt(a, v)
    ensures NamesUsed(b, info) == NamesUsed(a, info) + {ValueAt(b, id).name}
  {
    forall n | n in NamesUsed(a, info) + {ValueAt(b, id).name}
      ensures n in NamesUsed(b, info)
    {
      if n in NamesUsed(a, info) {
        var v :| v in ValuesOf(a, info) && ValueAt(a, v).name == n;
        assert v in ValuesOf(b, info) && ValueAt(b, v).name == n;
      } else {
        assert id in ValuesOf(b, info) && ValueAt(b, id).name == n;
      }
    }
  }

  /** `Parameter.objects.get_or_create(name=name)`: succeeds unless the name is ambiguous or too long,
      and then the name is held by exactly one row. */
  lemma GetOrCreateParameter(c: Run, name: string)
    requires !c.failed && Integrity(c.db)
    ensures var out := Exec(c, [FindParameter(name), EnsureParameter(name)]);
      && (!out.failed <==> Lookable(c.db.parameters, name)
                           && (WithValue(c.db.parameters, name) == {} ==> |name| <= PARAMETER_NAME))
      && (!out.failed ==>
          && out.vars.parameter.At? && out.vars == c.vars.(parameter := out.vars.parameter)
          && WithValue(out.db.parameters, name) == {out.vars.parameter.id}
          && GrowsByNewKeys(c.db.parameters, out.db.parameters)
          && out.db.parameters.Values == c.db.parameters.Values + {name}
          && out.db == c.db.(parameters := out.db.parameters, next := c.db.next.(parameter := out.db.next.parameter)))
  {
    ExecTwo(c, FindParameter(name), EnsureParameter(name));
    var ids := WithValue(c.db.parameters, name);
    if ids == {} && |name| <= PARAMETER_NAME {
      InsertGrows(c.db.parameters, c.db.next.parameter, name);
    } else if x :| x in ids {
      assert name == c.db.parameters[x];
    }
  }

  lemma OneParameter(c: Run, info: Id, p: Parameter)
    requires !c.failed && Integrity(c.db) && c.vars.info == Some(info) && info in c.db.infos
    ensures var out := Exec(c, ParameterProgram(p));
      && (!out.failed <==> ParameterOk(c.db.parameters, p) && p.name.value !in NamesUsed(c.db, info))
      && (!out.failed ==>
          && out.vars == c.vars.(parameter := out.vars.parameter)
          && ValuesGrow(c.db, out.db, info)
          && out.db.parameters.Values == c.db.parameters.Values + {p.name.value}
          && ParametersOf(out.db, info) == ParametersOf(c.db, info) + [Attribute(p.name.value, p.value.value, 0)]
          && NamesUsed(out.db, info) == NamesUsed(c.db, info) + {p.name.value})
  {
    if p.name.None? { ExecTwo(c, Raise, Raise); return; }
    var name := p.name.value;
    var last := if p.value.None? then Raise else CreateValue(p.value.value);
    var found := Exec(c, [FindParameter(name), EnsureParameter(name)]);
    ExecConcat(c, [FindParameter(name), EnsureParameter(name)], [last]);
    GetOrCreateParameter(c, name);
    ExecTwo(found, last, last);
    if found.failed || p.value.None? { return; }
    ValueOfName(c.db, found, info, p);
  }

  /** The insert of a value, once its parameter is known, is refused exactly when the row has that name already. */
  lemma ValueOfName(db: Db, c: Run, info: Id, p: Parameter)
    requires Integrity(db) && info in db.infos && p.name.Some? && p.value.Some?
    requires !c.failed && c.vars.info == Some(info) && c.vars.parameter.At?
    requires WithValue(c.db.parameters, p.name.value) == {c.vars.parameter.id}
    requires GrowsByNewKeys(db.parameters, c.db.parameters)
    requires c.db == db.(parameters := c.db.parameters, next := db.next.(parameter := c.db.next.parameter))
    ensures var out := Step(c, CreateValue(p.value.value));
      && (!out.failed <==> |p.value.value| <= PARAMETER_VALUE && p.name.value !in NamesUsed(db, info))
      && (!out.failed ==>
          && out.vars == c.vars && out.db.parameters == c.db.parameters
          && ValuesGrow(db, out.db, info)
          && ParametersOf(out.db, info) == ParametersOf(db, info) + [Attribute(p.name.value, p.value.value, 0)]
          && NamesUsed(out.db, info) == NamesUsed(db, info) + {p.name.value})
  {
    var name, q := p.name.value, c.vars.parameter.id;
    NameTaken(db, c.db.parameters, info, name, q);
    var row := ProductParameter(info, q, p.value.value);
    assert q in WithValue(c.db.parameters, name);
    var out := Step(c, CreateValue(p.value.value));
    if !out.failed {
      assert out.db.values == db.values[db.next.value := row];
      ValueAppended(db, out.db, info, row);
    }
  }

  /** Row `info` has a value under parameter `q` exactly when it has one under the name that only `q` holds. */
  lemma NameTaken(db: Db, parameters: map<Id, string>, info: Id, name: string, q: Id)
    requires ValuesSound(db.values, db.next.value, db.infos, db.parameters)
    requires GrowsByNewKeys(db.parameters, parameters) && WithValue(parameters, name) == {q}
    ensures (exists v | v in db.values :: Holds(db.values, info, q, v))
            <==> name in NamesUsed(db, info)
  {
    assert q in WithValue(parameters, name);
    if v :| v in db.values && Holds(db.values, info, q, v) {
      assert v in ValuesOf(db, info) && ValueAt(db, v).name == name;
    }
    if name in NamesUsed(db, info) {
      var v :| v in ValuesOf(db, info) && ValueAt(db, v).name == name;
      assert db.values[v].parameter in WithValue(parameters, name);
      assert Holds(db.values, info, q, v);
    }
  }

  /** From `a` to `b` the import appended parameters `ps` to row `info`, and did nothing else. */
  ghost predicate Appended(a: Db, b: Db, info: Id, ps: seq<Parameter>) {
    && ValuesGrow(a, b, info)
    && b.parameters.Values == a.parameters.Values + ParameterNames(ps)
    && ParametersOf(b, info) == ParametersOf(a, info) + RenderParameters(ps)
  }

  lemma AppendedCons(a: Db, b: Db, c: Db, info: Id, p: Parameter, rest: seq<Parameter>)
    requires ValuesGrow(a, b, info) && b.parameters.Values == a.parameters.Values + {Text(p.name)}
    requires ParametersOf(b, info) == ParametersOf(a, info) + [Attribute(Text(p.name), Text(p.value), 0)]
    requires Appended(b, c, info, rest)
    ensures Appended(a, c, info, [p] + rest)
  {
    ValuesGrowTransitive(a, b, c, info);
    NamesOfCons(p, rest);
    assert ([p] + rest)[1..] == rest;
  }

  /** The inner loop: it succeeds exactly on a well-formed list of distinct, unused names, and appends them all. */
  lemma {:induction false} ParametersStage(c: Run, info: Id, ps: seq<Parameter>)
    requires !c.failed && Integrity(c.db) && c.vars.info == Some(info) && info in c.db.infos
    ensures var out := Exec(c, ParametersProgram(ps));
      && (!out.failed <==> ParametersOk(c.db, info, ps))
      && (!out.failed ==> out.vars.shop == c.vars.shop && Appended(c.db, out.db, info, ps))
    decreases |ps|
  {
    if ps == [] {
      return;
    }
    var p, rest := ps[0], ps[1..];
    assert ps == [p] + rest;
    var mid := Exec(c, ParameterProgram(p));
    ExecConcat(c, ParameterProgram(p), ParametersProgram(rest));
    OneParameter(c, info, p);
    if mid.failed {
      ExecFailed(mid, ParametersProgram(rest));
      assert p in ps;
    } else {
      ExecKeepsIntegrity(c, ParameterProgram(p));
      ParametersOkStep(c.db, mid.db, info, ps);
      ParametersStage(mid, info, rest);
      var out := Exec(mid, ParametersProgram(rest));
      if !out.failed {
        AppendedCons(c.db, mid.db, out.db, info, p, rest);
      }
    }
  }

  lemma NamesOfCons(p: Parameter, rest: seq<Parameter>)
    ensures ParameterNames([p] + rest) == {Text(p.name)} + ParameterNames(rest)
  {
    forall n | n in {Text(p.name)} + ParameterNames(rest)
      ensures n in ParameterNames([p] + rest)
    {
      if n in ParameterNames(rest) {
        var q :| q in rest && Text(q.name) == n;
        assert q in [p] + rest;
      } else {
        assert p in [p] + rest;
      }
    }
  }

  lemma ParametersOkStep(a: Db, b: Db, info: Id, ps: seq<Parameter>)
    requires ps != [] && ParameterOk(a.parameters, ps[0]) && ps[0].name.value !in NamesUsed(a, info)
    requires ParametersSound(b.parameters, b.next.parameter) && GrowsByNewKeys(a.parameters, b.parameters)
    requires NamesUsed(b, info) == NamesUsed(a, info) + {ps[0].name.value}
    ensures ParametersOk(a, info, ps) <==> ParametersOk(b, info, ps[1..])
  {
    var p, rest := ps[0], ps[1..];
    assert forall q :: q in ps <==> q == p || q in rest;
    DistinctCons(ps);
    forall q | q in rest { ParameterOkStable(a, b, q); }
  }

  lemma DistinctCons(ps: seq<Parameter>)
    requires ps != []
    ensures NamesDistinct(ps) <==> (forall q | q in ps[1..] :: q.name != ps[0].name) && NamesDistinct(ps[1..])
  {
    var rest := ps[1..];
    assert forall k | 0 <= k < |rest| :: rest[k] == ps[k + 1] && rest[k] in rest;
    assert forall k | 1 <= k < |ps| :: ps[k] == rest[k - 1];
  }

  /* Goods. */

  predicate InfoOk(g: Good) {
    && HasInfo(g) && |g.model.value| <= MODEL
    && Positive(g.id.value) && Positive(g.price.value) && Positive(g.priceRrc.value) && Positive(g.quantity.value)
  }

  ghost predicate ProductOk(products: map<Id, Product>, categories: map<Id, string>, g: Good) {
    && g.name.Some? && g.category.Some?
    && Lookable(products, KeyOf(g))
    && (WithValue(products, KeyOf(g)) == {} ==> |g.name.value| <= PRODUCT_NAME && g.category.value in categories)
  }

  ghost predicate ParameterListOk(parameters: map<Id, string>, g: Good) {
    && g.parameters.Some?
    && (forall p | p in g.parameters.value :: ParameterOk(parameters, p))
    && NamesDistinct(g.parameters.value)
  }

  /** A good imports into `db` once `categories` are there. */
  ghost predicate GoodOk(db: Db, categories: map<Id, string>, g: Good) {
    ProductOk(db.products, categories, g) && InfoOk(g) && ParameterListOk(db.parameters, g)
  }

  function GoodKeys(gs: seq<Good>): set<Product> { set g | g in gs :: KeyOf(g) }

  function GoodNames(gs: seq<Good>): set<string> { set g, p | g in gs && p in ParametersIn(g) :: Text(p.name) }

  /** From `a` to `b` only rows of the catalogue of `shop` were added, with the keys they needed. */
  ghost predicate StockGrows(a: Db, b: Db, shop: Id) {
    && b == a.(products := b.products, infos := b.infos, parameters := b.parameters, values := b.values, next := b.next)
    && b.next == a.next.(product := b.next.product, info := b.next.info, parameter := b.next.parameter,
                         value := b.next.value)
    && a.next.info <= b.next.info
    && GrowsByNewKeys(a.products, b.products)
    && GrowsByNewKeys(a.parameters, b.parameters)
    && (forall i | i in a.infos :: i in b.infos && b.infos[i] == a.infos[i])
    && (forall i | i in b.infos && i !in a.infos :: i >= a.next.info && b.infos[i].shop == shop)
    && (forall v | v in a.values :: v in b.values && b.values[v] == a.values[v])
    && (forall v | v in b.values && v !in a.values :: b.values[v].info !in a.infos)
  }

  lemma StockGrowsTransitive(a: Db, b: Db, c: Db, shop: Id)
    requires StockGrows(a, b, shop) && StockGrows(b, c, shop)
    ensures StockGrows(a, c, shop)
  {
    GrowsTransitive(a.products, b.products, c.products);
    GrowsTransitive(a.parameters, b.parameters, c.parameters);
  }

  lemma StockFrame(a: Db, b: Db, shop: Id, i: Id)
    requires Integrity(a) && StockGrows(a, b, shop) && i in a.infos
    ensures ListingAt(a, i) == ListingAt(b, i)
  {
    assert SameListing(a, b, i) by {
      assert forall v | v in ValuesOf(b, i) :: v in a.values;
      assert forall v | v in ValuesOf(a, i) :: v in ValuesOf(b, i);
      forall v | v in ValuesOf(a, i) { CopyStable(a.parameters, b.parameters, a.values[v].parameter); }
      CopyStable(a.products, b.products, a.infos[i].product);
    }
    ListingFrame(a, b, i);
  }

  /** From `a` to `b` the import appended goods `gs` to the catalogue of `shop`, and did nothing else. */
  ghost predicate Stocked(a: Db, b: Db, shop: Id, gs: seq<Good>) {
    && StockGrows(a, b, shop)
    && b.products.Values == a.products.Values + GoodKeys(gs)
    && b.parameters.Values == a.parameters.Values + GoodNames(gs)
    && CatalogueOf(b, shop) == CatalogueOf(a, shop) + RenderGoods(a.categories, gs)
  }

  lemma StockedCons(a: Db, b: Db, c: Db, shop: Id, g: Good, rest: seq<Good>)
    requires Stocked(a, b, shop, [g]) && Stocked(b, c, shop, rest)
    ensures Stocked(a, c, shop, [g] + rest)
  {
    KeysOfCons(g, rest);
    RenderOfCons(a.categories, g, rest);
    AppendTwice(CatalogueOf(a, shop), RenderGoods(a.categories, [g]), RenderGoods(a.categories, rest));
    AddTwice(a.products.Values, GoodKeys([g]), GoodKeys(rest));
    AddTwice(a.parameters.Values, GoodNames([g]), GoodNames(rest));
    StockGrowsTransitive(a, b, c, shop);
  }

  lemma AppendTwice<T>(a: seq<T>, b: seq<T>, c: seq<T>)
    ensures (a + b) + c == a + (b + c)
  {
  }

  lemma AddTwice<T>(a: set<T>, b: set<T>, c: set<T>)
    ensures (a + b) + c == a + (b + c)
  {
  }

  lemma RenderOfCons(categories: map<Id, string>, g: Good, rest: seq<Good>)
    ensures RenderGoods(categories, [g]) == [RenderGood(categories, g)]
    ensures RenderGoods(categories, [g] + rest) == RenderGoods(categories, [g]) + RenderGoods(categories, rest)
  {
    assert [g][1..] == [] && ([g] + rest)[1..] == rest;
  }

  lemma KeysOfCons(g: Good, rest: seq<Good>)
    ensures GoodKeys([g] + rest) == GoodKeys([g]) + GoodKeys(rest)
    ensures GoodNames([g] + rest) == GoodNames([g]) + GoodNames(rest)
  {
    assert forall h :: h in [g] + rest <==> h in [g] || h in rest;
  }

  lemma GoodOkStable(a: Db, b: Db, shop: Id, g: Good)
    requires StockGrows(a, b, shop) && Integrity(b)
    ensures GoodOk(a, a.categories, g) <==> GoodOk(b, b.categories, g)
  {
    LookupStable(a.products, b.products, KeyOf(g));
    if x :| x in WithValue(b.products, KeyOf(g)) {
      assert b.products[x] == KeyOf(g);
    }
    forall p | p in ParametersIn(g) { ParameterOkStable(a, b, p); }
  }

  /** `Product.objects.get_or_create(name=..., category_id=...)`. */
  lemma GetOrCreateProduct(c: Run, g: Good)
    requires !c.failed && Integrity(c.db)
    ensures var out := Exec(c, ProductProgram(g));
      && (!out.failed <==> ProductOk(c.db.products, c.db.categories, g))
      && (!out.failed ==>
          && out.vars.product.At? && out.vars == c.vars.(product := out.vars.product)
          && out.vars.product.id in out.db.products && out.db.products[out.vars.product.id] == KeyOf(g)
          && WithValue(out.db.products, KeyOf(g)) == {out.vars.product.id}
          && GrowsByNewKeys(c.db.products, out.db.products)
          && out.db.products.Values == c.db.products.Values + {KeyOf(g)}
          && out.db == c.db.(products := out.db.products, next := c.db.next.(product := out.db.next.product)))
  {
    if g.name.None? || g.category.None? { ExecTwo(c, Raise, Raise); return; }
    var key := KeyOf(g);
    ExecTwo(c, FindProduct(key), EnsureProduct(key));
    var ids := WithValue(c.db.products, key);
    if ids == {} && |g.name.value| <= PRODUCT_NAME && g.category.value in c.db.categories {
      InsertGrows(c.db.products, c.db.next.product, key);
    } else if x :| x in ids {
      assert key == c.db.products[x];
    }
  }

  /** The insert of the ProductInfo row. */
  lemma CreateInfoStage(c: Run, shop: Id, g: Good)
    requires !c.failed && Integrity(c.db) && c.vars.shop == Some(shop) && shop in c.db.shops
    requires c.vars.product.At? && c.vars.product.id in c.db.products
    ensures var out := Exec(c, InfoProgram(g));
      && (!out.failed <==> InfoOk(g))
      && (!out.failed ==>
          && out.vars == c.vars.(info := Some(c.db.next.info))
          && out.db == c.db.(infos := c.db.infos[c.db.next.info :=
                               ProductInfo(c.vars.product.id, shop, g.id.value, g.model.value, g.price.value,
                                           g.priceRrc.value, g.quantity.value)],
                             next := c.db.next.(info := c.db.next.info + 1)))
  {
    ExecTwo(c, InfoProgram(g)[0], Raise);
  }

  /** From `a` to `b` the import found or made the product of `g` and added one row for it, without parameters. */
  ghost predicate InfoAdded(a: Db, b: Db, shop: Id, g: Good) {
    && InfoOk(g)
    && b == a.(products := b.products, infos := b.infos, next := b.next)
    && b.next == a.next.(product := b.next.product, info := a.next.info + 1)
    && GrowsByNewKeys(a.products, b.products)
    && b.products.Values == a.products.Values + {KeyOf(g)}
    && b.infos.Keys == a.infos.Keys + {a.next.info}
    && (forall i | i in a.infos :: b.infos[i] == a.infos[i])
    && var row := b.infos[a.next.info];
    && row == ProductInfo(row.product, shop, g.id.value, g.model.value, g.price.value, g.priceRrc.value,
                          g.quantity.value)
    && row.product in b.products && b.products[row.product] == KeyOf(g)
    && WithValue(b.products, KeyOf(g)) == {row.product}
  }

  lemma InfoStage(c: Run, shop: Id, g: Good)
    requires !c.failed && Integrity(c.db) && c.vars.shop == Some(shop) && shop in c.db.shops
    ensures var out := Exec(c, ProductProgram(g) + InfoProgram(g));
      && (!out.failed <==> ProductOk(c.db.products, c.db.categories, g) && InfoOk(g))
      && (!out.failed ==> out.vars.shop == Some(shop) && out.vars.info == Some(c.db.next.info)
                          && InfoAdded(c.db, out.db, shop, g))
  {
    var p := Exec(c, ProductProgram(g));
    ExecConcat(c, ProductProgram(g), InfoProgram(g));
    GetOrCreateProduct(c, g);
    if p.failed {
      ExecFailed(p, InfoProgram(g));
    } else {
      ExecKeepsIntegrity(c, ProductProgram(g));
      CreateInfoStage(p, shop, g);
    }
  }

  lemma GoodGrows(a: Db, i: Db, b: Db, shop: Id, g: Good)
    requires Integrity(a) && InfoAdded(a, i, shop, g) && ValuesGrow(i, b, a.next.info)
    ensures StockGrows(a, b, shop)
    ensures Sql.InfosOf(b, shop) == Sql.InfosOf(a, shop) + {a.next.info}
  {
    var n := a.next.info;
    assert b.infos == i.infos && n !in a.infos && i.infos[n].shop == shop;
    assert forall v | v in a.values :: a.values[v].info in a.infos;
  }

  /** The listing of the new row is the good as the document gives it. */
  lemma GoodListed(a: Db, i: Db, b: Db, shop: Id, g: Good)
    requires Integrity(a) && InfoAdded(a, i, shop, g) && g.parameters.Some?
    requires Appended(i, b, a.next.info, g.parameters.value)
    ensures ListingAt(b, a.next.info) == RenderGood(a.categories, g)
  {
    assert ValuesOf(i, a.next.info) == {};
    CopyOfOnly(b.products, b.infos[a.next.info].product);
  }

  /** What one good adds, put together from its parts. */
  lemma GoodAdded(a: Db, i: Db, b: Db, shop: Id, g: Good)
    requires Integrity(a) && InfoAdded(a, i, shop, g) && g.parameters.Some?
    requires Appended(i, b, a.next.info, g.parameters.value)
    ensures Stocked(a, b, shop, [g])
  {
    GoodGrows(a, i, b, shop, g);
    GoodListed(a, i, b, shop, g);
    ListingAppended(a, b, shop);
    RenderOfCons(a.categories, g, []);
    KeysOfOne(g);
  }

  lemma ListingAppended(a: Db, b: Db, shop: Id)
    requires Integrity(a) && StockGrows(a, b, shop)
    requires Sql.InfosOf(b, shop) == Sql.InfosOf(a, shop) + {a.next.info}
    ensures CatalogueOf(b, shop) == CatalogueOf(a, shop) + [ListingAt(b, a.next.info)]
  {
    var before := Sql.InfosOf(a, shop);
    MaxOfGrown(before, a.next.info);
    forall j | j in before { StockFrame(a, b, shop, j); }
    ReadListingsFrame(a, b, before);
  }

  lemma KeysOfOne(g: Good)
    ensures GoodKeys([g]) == {KeyOf(g)}
    ensures GoodNames([g]) == ParameterNames(ParametersIn(g))
  {
    assert g in [g];
  }

  lemma GoodStage(c: Run, shop: Id, g: Good)
    requires !c.failed && Integrity(c.db) && c.vars.shop == Some(shop) && shop in c.db.shops
    ensures var out := Exec(c, GoodProgram(g));
      && (!out.failed <==> GoodOk(c.db, c.db.categories, g))
      && (!out.failed ==> out.vars.shop == Some(shop) && Stocked(c.db, out.db, shop, [g]))
  {
    var i := Exec(c, ProductProgram(g) + InfoProgram(g));
    ExecConcat(c, ProductProgram(g) + InfoProgram(g), OptionalParametersProgram(g));
    InfoStage(c, shop, g);
    if i.failed {
      ExecFailed(i, OptionalParametersProgram(g));
    } else if g.parameters.None? {
      ExecTwo(i, Raise, Raise);
    } else {
      ExecKeepsIntegrity(c, ProductProgram(g) + InfoProgram(g));
      var info := c.db.next.info;
      ParametersStage(i, info, g.parameters.value);
      assert ValuesOf(i.db, info) == {};
      if !Exec(i, OptionalParametersProgram(g)).failed {
        GoodAdded(c.db, i.db, Exec(i, OptionalParametersProgram(g)).db, shop, g);
      }
    }
  }

  ghost predicate GoodsOk(db: Db, categories: map<Id, string>, gs: seq<Good>) {
    forall g | g in gs :: GoodOk(db, categories, g)
  }

  lemma GoodsOkStep(a: Db, b: Db, shop: Id, g: Good, rest: seq<Good>)
    requires Integrity(b) && StockGrows(a, b, shop) && GoodOk(a, a.categories, g)
    ensures GoodsOk(a, a.categories, [g] + rest) <==> GoodsOk(b, b.categories, rest)
  {
    forall h | h in rest { GoodOkStable(a, b, shop, h); }
    assert forall h :: h in [g] + rest <==> h == g || h in rest;
  }

  /** The outer loop: it succeeds exactly when every good is well formed, and appends them all in order. */
  lemma {:induction false} GoodsStage(c: Run, shop: Id, gs: seq<Good>)
    requires !c.failed && Integrity(c.db) && c.vars.shop == Some(shop) && shop in c.db.shops
    ensures var out := Exec(c, GoodsProgram(gs));
      && (!out.failed <==> GoodsOk(c.db, c.db.categories, gs))
      && (!out.failed ==> out.vars.shop == Some(shop) && Stocked(c.db, out.db, shop, gs))
    decreases |gs|
  {
    if gs == [] { return; }
    var g, rest := gs[0], gs[1..];
    assert gs == [g] + rest;
    var mid := Exec(c, GoodProgram(g));
    ExecConcat(c, GoodProgram(g), GoodsProgram(rest));
    GoodStage(c, shop, g);
    if mid.failed {
      ExecFailed(mid, GoodsProgram(rest));
      assert g in gs;
    } else {
      ExecKeepsIntegrity(c, GoodProgram(g));
      GoodsStage(mid, shop, rest);
      GoodsOkStep(c.db, mid.db, shop, g, rest);
      var out := Exec(mid, GoodsProgram(rest));
      if !out.failed {
        StockedCons(c.db, mid.db, out.db, shop, g, rest);
      }
    }
  }
}
