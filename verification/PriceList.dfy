/** A parsed price list, and the program `update_shop_price_list` runs for it (backend/tasks.py). */
module PriceList {
  import opened Collections
  import opened Schema
  import opened Machine

  /* In a document, None stands for a key that is missing, null, or of a type or size its column cannot take;
     texts are as the column renders them. A parameter list keeps the order of the mapping. */

  datatype CategoryEntry = CategoryEntry(id: Option<Id>, name: Option<string>)
  datatype Parameter = Parameter(name: Option<string>, value: Option<string>)
  datatype Good = Good(name: Option<string>, category: Option<Id>, id: Option<int>, model: Option<string>,
                       price: Option<int>, priceRrc: Option<int>, quantity: Option<int>,
                       parameters: Option<seq<Parameter>>)
  datatype Document = Document(shop: Option<string>, categories: Option<seq<CategoryEntry>>, goods: Option<seq<Good>>)

  function CategoryProgram(c: CategoryEntry): seq<Stmt> {
    if c.id.None? || c.name.None? then [Raise]
    else [EnsureCategory(c.id.value, c.name.value), LinkShop, ResaveCategory]
  }

  function CategoriesProgram(cs: seq<CategoryEntry>): seq<Stmt> {
    if cs == [] then [] else CategoryProgram(cs[0]) + CategoriesProgram(cs[1..])
  }

  function ParameterProgram(p: Parameter): seq<Stmt> {
    if p.name.None? then [Raise]
    else [FindParameter(p.name.value), EnsureParameter(p.name.value)]
         + (if p.value.None? then [Raise] else [CreateValue(p.value.value)])
  }

  function ParametersProgram(ps: seq<Parameter>): seq<Stmt> {
    if ps == [] then [] else ParameterProgram(ps[0]) + ParametersProgram(ps[1..])
  }

  predicate HasInfo(g: Good) {
    g.id.Some? && g.model.Some? && g.price.Some? && g.priceRrc.Some? && g.quantity.Some?
  }

  function InfoProgram(g: Good): seq<Stmt> {
    if HasInfo(g) then [CreateInfo(g.id.value, g.model.value, g.price.value, g.priceRrc.value, g.quantity.value)]
    else [Raise]
  }

  function OptionalParametersProgram(g: Good): seq<Stmt> {
    if g.parameters.None? then [Raise] else ParametersProgram(g.parameters.value)
  }

  function ProductProgram(g: Good): seq<Stmt> {
    if g.name.None? || g.category.None? then [Raise]
    else var key := Product(g.name.value, g.category.value); [FindProduct(key), EnsureProduct(key)]
  }

  function GoodProgram(g: Good): seq<Stmt> {
    ProductProgram(g) + InfoProgram(g) + OptionalParametersProgram(g)
  }

  function GoodsProgram(gs: seq<Good>): seq<Stmt> {
    if gs == [] then [] else GoodProgram(gs[0]) + GoodsProgram(gs[1..])
  }

  function ShopProgram(user: Id, doc: Document): seq<Stmt> {
    if doc.shop.None? then [Raise] else [FindShop(doc.shop.value), EnsureShop(doc.shop.value, user)]
  }

  function OptionalCategoriesProgram(doc: Document): seq<Stmt> {
    if doc.categories.None? then [Raise] else CategoriesProgram(doc.categories.value)
  }

  function OptionalGoodsProgram(doc: Document): seq<Stmt> {
    if doc.goods.None? then [Raise] else GoodsProgram(doc.goods.value)
  }

  function ImportProgram(user: Id, doc: Document): seq<Stmt> {
    ShopProgram(user, doc) + OptionalCategoriesProgram(doc) + [ClearShop] + OptionalGoodsProgram(doc)
  }

  /** The whole import, on a store it starts from. */
  ghost function Import(db: Db, user: Id, doc: Document): Run { Exec(Begin(db), ImportProgram(user, doc)) }

  /** The import stopped after `k` of its statements, killed or failed. */
  ghost function ImportPrefix(db: Db, user: Id, doc: Document, k: nat): Run
    requires k <= |ImportProgram(user, doc)|
  {
    Exec(Begin(db), ImportProgram(user, doc)[..k])
  }

  /** The import runs stage by stage. */
  lemma ImportStages(c: Run, user: Id, doc: Document)
    ensures Exec(c, ImportProgram(user, doc))
         == Exec(Exec(Exec(Exec(c, ShopProgram(user, doc)), OptionalCategoriesProgram(doc)), [ClearShop]),
                 OptionalGoodsProgram(doc))
  {
    var shop, categories := ShopProgram(user, doc), OptionalCategoriesProgram(doc);
    ExecConcat(c, shop, categories);
    ExecConcat(c, shop + categories, [ClearShop]);
    ExecConcat(c, shop + categories + [ClearShop], OptionalGoodsProgram(doc));
  }
}
