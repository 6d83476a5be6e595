/** `update_shop_price_list` (backend/tasks.py) over the shared store. Each method carries the run of its
    part of the program as a ghost and ends in the state that run reaches. */
module Tasks {
  import opened Collections
  import opened Schema
  import opened Machine
  import opened PriceList
  import opened Storage

  /** `store` is where run `c` is, and `ok` says whether it may go on. */
  ghost predicate Reached(store: Store, ok: bool, c: Run)
    reads store
  {
    store.State() == c.db && ok == !c.failed
  }

  method ImportShop(store: Store, user: Id, name: string, ghost c: Run) returns (shop: Option<Id>, ghost out: Run)
    requires Reached(store, true, c)
    modifies store
    ensures out == Exec(c, [FindShop(name), EnsureShop(name, user)])
    ensures Reached(store, shop.Some?, out)
    ensures shop.Some? ==> out.vars.shop == shop
  {
    out := Step(Step(c, FindShop(name)), EnsureShop(name, user));
    ExecTwo(c, FindShop(name), EnsureShop(name, user));
    var found := store.GetShop(name);
    match found
    case Missing => shop := store.InsertShop(Shop(name, user));
    case One(s) => shop := if s in store.shops && store.shops[s].user == user then Some(s) else None;
    case Many => shop := None;
  }

  method ImportCategory(store: Store, shop: Id, entry: CategoryEntry, ghost c: Run) returns (ok: bool, ghost out: Run)
    requires Reached(store, true, c) && c.vars.shop == Some(shop)
    modifies store
    ensures out == Exec(c, CategoryProgram(entry)) && Reached(store, ok, out)
    ensures out.vars.shop == Some(shop)
  {
    ok, out := false, Fail(c);
    if entry.id.None? || entry.name.None? { ExecTwo(c, Raise, Raise); return; }
    var id, name := entry.id.value, entry.name.value;
    ghost var c1 := Step(c, EnsureCategory(id, name));
    ghost var c2 := Step(c1, LinkShop);
    out := Step(c2, ResaveCategory);
    ExecThree(c, EnsureCategory(id, name), LinkShop, ResaveCategory);
    ok := store.GetOrCreateCategory(id, name);
    if ok { ok := store.LinkCategory(id, shop); }
    if ok { ok := store.SaveCategory(id, name); }
  }

  method GetOrCreateParameter(store: Store, name: string, ghost c: Run) returns (parameter: Option<Id>, ghost out: Run)
    requires Reached(store, true, c)
    modifies store
    ensures out == Exec(c, [FindParameter(name), EnsureParameter(name)]) && Reached(store, parameter.Some?, out)
    ensures parameter.Some? ==> out.vars == c.vars.(parameter := At(parameter.value))
    ensures out.vars.info == c.vars.info && out.vars.shop == c.vars.shop
  {
    out := Step(Step(c, FindParameter(name)), EnsureParameter(name));
    ExecTwo(c, FindParameter(name), EnsureParameter(name));
    var found := store.GetParameter(name);
    match found
    case Missing => parameter := store.InsertParameter(name);
    case One(p) => parameter := Some(p);
    case Many => parameter := None;
  }

  method ImportParameter(store: Store, info: Id, p: Parameter, ghost c: Run) returns (ok: bool, ghost out: Run)
    requires Reached(store, true, c) && c.vars.info == Some(info)
    modifies store
    ensures out == Exec(c, ParameterProgram(p)) && Reached(store, ok, out)
    ensures out.vars.info == Some(info) && out.vars.shop == c.vars.shop
  {
    ok, out := false, Fail(c);
    if p.name.None? { ExecTwo(c, Raise, Raise); return; }
    var name := p.name.value;
    ghost var last := if p.value.None? then Raise else CreateValue(p.value.value);
    ExecConcat(c, [FindParameter(name), EnsureParameter(name)], [last]);
    var parameter;
    parameter, out := GetOrCreateParameter(store, name, c);
    ExecTwo(out, last, last);
    ghost var found := out;
    out := Step(found, last);
    if parameter.None? || p.value.None? { return; }
    var value := store.InsertValue(ProductParameter(info, parameter.value, p.value.value));
    ok := value.Some?;
  }

  method ImportProduct(store: Store, key: Product, ghost c: Run) returns (product: Option<Id>, ghost out: Run)
    requires Reached(store, true, c)
    modifies store
    ensures out == Exec(c, [FindProduct(key), EnsureProduct(key)]) && Reached(store, product.Some?, out)
    ensures product.Some? ==> out.vars.product == At(product.value)
    ensures out.vars.shop == c.vars.shop
  {
    out := Step(Step(c, FindProduct(key)), EnsureProduct(key));
    ExecTwo(c, FindProduct(key), EnsureProduct(key));
    var found := store.GetProduct(key);
    match found
    case Missing => product := store.InsertProduct(key);
    case One(p) => product := Some(p);
    case Many => product := None;
  }

  /** One good: its product, its ProductInfo row, then the inner loop over its parameters. */
  method ImportGood(store: Store, shop: Id, g: Good, ghost c: Run) returns (ok: bool, ghost out: Run)
    requires Reached(store, true, c) && c.vars.shop == Some(shop)
    modifies store
    ensures out == Exec(c, GoodProgram(g)) && Reached(store, ok, out)
    ensures out.vars.shop == Some(shop)
  {
    ghost var c1 := Exec(c, ProductProgram(g));
    ghost var c2 := Exec(c1, InfoProgram(g));
    ghost var final := Exec(c2, OptionalParametersProgram(g));
    ExecConcat(c, ProductProgram(g), InfoProgram(g));
    ExecConcat(c, ProductProgram(g) + InfoProgram(g), OptionalParametersProgram(g));

    ok, out := false, final;
    if g.name.None? || g.category.None? {
      ExecTwo(c, Raise, Raise);
      ExecFailed(c1, InfoProgram(g));
      ExecFailed(c1, OptionalParametersProgram(g));
      return;
    }
    ghost var run;
    var product;
    product, run := ImportProduct(store, Product(g.name.value, g.category.value), c);
    if product.None? {
      ExecFailed(c1, InfoProgram(g));
      ExecFailed(c1, OptionalParametersProgram(g));
      return;
    }

    ExecTwo(c1, if HasInfo(g) then InfoProgram(g)[0] else Raise, Raise);
    if !HasInfo(g) {
      ExecFailed(c2, OptionalParametersProgram(g));
      return;
    }
    var info := store.InsertInfo(ProductInfo(product.value, shop, g.id.value, g.model.value,
                                             g.price.value, g.priceRrc.value, g.quantity.value));
    if info.None? {
      ExecFailed(c2, OptionalParametersProgram(g));
      return;
    }

    if g.parameters.None? {
      ExecTwo(c2, Raise, Raise);
      return;
    }
    var ps := g.parameters.value;
    run := c2;
    var i := 0;
    while i < |ps|
      invariant 0 <= i <= |ps|
      invariant Reached(store, true, run) && run.vars.info == info && run.vars.shop == Some(shop)
      invariant Exec(run, ParametersProgram(ps[i..])) == final
    {
      ExecConcat(run, ParameterProgram(ps[i]), ParametersProgram(ps[i + 1..]));
      assert ps[i..][1..] == ps[i + 1..];
      ok, run := ImportParameter(store, info.value, ps[i], run);
      if !ok {
        ExecFailed(run, ParametersProgram(ps[i + 1..]));
        return;
      }
      i := i + 1;
    }
    ok := true;
  }

  method UpdateShopPriceList(store: Store, user: Id, doc: Document) returns (ok: bool)
    modifies store
    ensures store.State() == Import(old(store.State()), user, doc).db
    ensures ok == !Import(old(store.State()), user, doc).failed
  {
    ghost var c := Begin(store.State());
    ghost var afterShop := Exec(c, ShopProgram(user, doc));
    ghost var afterCategories := Exec(afterShop, OptionalCategoriesProgram(doc));
    ghost var afterClear := Exec(afterCategories, [ClearShop]);
    ghost var final := Exec(afterClear, OptionalGoodsProgram(doc));
    ImportStages(c, user, doc);

    if doc.shop.None? {
      ExecTwo(c, Raise, Raise);
      StagesFailed(afterShop, doc);
      return false;
    }
    var shop, run := ImportShop(store, user, doc.shop.value, c);
    if shop.None? {
      StagesFailed(afterShop, doc);
      return false;
    }

    if doc.categories.None? {
      ExecTwo(afterShop, Raise, Raise);
      LateStagesFailed(afterCategories, doc);
      return false;
    }
    var categories := doc.categories.value;
    for i := 0 to |categories|
      invariant Reached(store, true, run) && run.vars.shop == shop
      invariant Exec(run, CategoriesProgram(categories[i..])) == afterCategories
    {
      ExecConcat(run, CategoryProgram(categories[i]), CategoriesProgram(categories[i + 1..]));
      assert categories[i..][1..] == categories[i + 1..];
      ok, run := ImportCategory(store, shop.value, categories[i], run);
      if !ok {
        ExecFailed(run, CategoriesProgram(categories[i + 1..]));
        LateStagesFailed(afterCategories, doc);
        return false;
      }
    }

    ExecTwo(run, ClearShop, Raise);
    store.DeleteInfosOf(shop.value);
    run := Step(run, ClearShop);

    if doc.goods.None? {
      ExecTwo(run, Raise, Raise);
      return false;
    }
    var goods := doc.goods.value;
    for i := 0 to |goods|
      invariant Reached(store, true, run) && run.vars.shop == shop
      invariant Exec(run, GoodsProgram(goods[i..])) == final
    {
      ExecConcat(run, GoodProgram(goods[i]), GoodsProgram(goods[i + 1..]));
      assert goods[i..][1..] == goods[i + 1..];
      ok, run := ImportGood(store, shop.value, goods[i], run);
      if !ok {
        ExecFailed(run, GoodsProgram(goods[i + 1..]));
        return false;
      }
    }
    return true;
  }

  /** A run that failed before or in the category loop stays where it is. */
  lemma StagesFailed(c: Run, doc: Document)
    requires c.failed
    ensures Exec(c, OptionalCategoriesProgram(doc)) == Exec(c, [ClearShop]) == Exec(c, OptionalGoodsProgram(doc)) == c
  {
    ExecFailed(c, OptionalCategoriesProgram(doc));
    LateStagesFailed(c, doc);
  }

  lemma LateStagesFailed(c: Run, doc: Document)
    requires c.failed
    ensures Exec(c, [ClearShop]) == Exec(c, OptionalGoodsProgram(doc)) == c
  {
    ExecFailed(c, [ClearShop]);
    ExecFailed(c, OptionalGoodsProgram(doc));
  }
}
