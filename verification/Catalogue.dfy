/** The catalogue a shop offers, read back through the joins of `ProductInfoSerializer`
    (backend/serializers.py) in id order (backend/views.py, ProductInfoView). */
module Catalogue {
  import opened Collections
  import opened Schema
  import opened PriceList
  import Sql

  /** A parameter of a good. `copy` says which of the parameters of that name it is, if the name repeats. */
  datatype Attribute = Attribute(name: string, value: string, copy: nat)

  /** A good as shown. `copy` says which of the products of that name and category it is, if they repeat. */
  datatype Listing = Listing(externalId: int, name: string, category: Id, copy: nat, categoryName: string,
                             model: string, price: int, priceRrc: int, quantity: int, parameters: seq<Attribute>)

  function ValuesOf(db: Db, info: Id): set<Id> {
    set v | v in db.values && db.values[v].info == info
  }

  function NameOf(names: map<Id, string>, id: Id): string { if id in names then names[id] else "" }

  const NO_ATTRIBUTE := Attribute("", "", 0)

  function ValueAt(db: Db, v: Id): Attribute {
    if v !in db.values then NO_ATTRIBUTE else
      var p := db.values[v].parameter;
      Attribute(NameOf(db.parameters, p), db.values[v].value, CopyOf(db.parameters, p))
  }

  ghost function ReadValues(db: Db, ids: set<Id>): seq<Attribute> {
    if ids == {} then [] else ReadValues(db, ids - {Max(ids)}) + [ValueAt(db, Max(ids))]
  }

  /** The parameters of one ProductInfo row, in id order. */
  ghost function ParametersOf(db: Db, info: Id): seq<Attribute> { ReadValues(db, ValuesOf(db, info)) }

  ghost function ListingAt(db: Db, i: Id): Listing {
    var row := InfoAt(db, i);
    var product := ProductAt(db, row.product);
    Listing(row.externalId, product.name, product.category, CopyOf(db.products, row.product),
            NameOf(db.categories, product.category), row.model,
            row.price, row.priceRrc, row.quantity, ParametersOf(db, i))
  }

  ghost function ReadListings(db: Db, ids: set<Id>): seq<Listing> {
    if ids == {} then [] else ReadListings(db, ids - {Max(ids)}) + [ListingAt(db, Max(ids))]
  }

  ghost function CatalogueOf(db: Db, shop: Id): seq<Listing> { ReadListings(db, Sql.InfosOf(db, shop)) }

  /* What a document says the catalogue is. */

  function Text(s: Option<string>): string { if s.Some? then s.value else "" }

  function Number(n: Option<int>): int { if n.Some? then n.value else 0 }

  function RenderParameters(ps: seq<Parameter>): seq<Attribute> {
    if ps == [] then [] else [Attribute(Text(ps[0].name), Text(ps[0].value), 0)] + RenderParameters(ps[1..])
  }

  function KeyOf(g: Good): Product {
    Product(Text(g.name), if g.category.Some? then g.category.value else 0)
  }

  function ParametersIn(g: Good): seq<Parameter> { if g.parameters.Some? then g.parameters.value else [] }

  function RenderGood(categories: map<Id, string>, g: Good): Listing {
    var key := KeyOf(g);
    Listing(Number(g.id), key.name, key.category, 0, NameOf(categories, key.category), Text(g.model),
            Number(g.price), Number(g.priceRrc), Number(g.quantity), RenderParameters(ParametersIn(g)))
  }

  function RenderGoods(categories: map<Id, string>, gs: seq<Good>): seq<Listing> {
    if gs == [] then [] else [RenderGood(categories, gs[0])] + RenderGoods(categories, gs[1..])
  }

  /* Frames: reads depend only on the rows they reach. */

  lemma {:induction false} ReadValuesFrame(a: Db, b: Db, ids: set<Id>)
    requires forall v | v in ids :: ValueAt(a, v) == ValueAt(b, v)
    ensures ReadValues(a, ids) == ReadValues(b, ids)
    decreases |ids|
  {
    if ids == {} {
    } else {
      ReadValuesFrame(a, b, ids - {Max(ids)});
    }
  }

  lemma {:induction false} ReadListingsFrame(a: Db, b: Db, ids: set<Id>)
    requires forall i | i in ids :: ListingAt(a, i) == ListingAt(b, i)
    ensures ReadListings(a, ids) == ReadListings(b, ids)
    decreases |ids|
  {
    if ids == {} {
    } else {
      ReadListingsFrame(a, b, ids - {Max(ids)});
    }
  }

  /** `b` has every row that row `i` of `a` reads, unchanged, and no new parameter of it. */
  ghost predicate SameListing(a: Db, b: Db, i: Id) {
    && i in a.infos && i in b.infos && a.infos[i] == b.infos[i]
    && ProductAt(a, a.infos[i].product) == ProductAt(b, a.infos[i].product)
    && CopyOf(a.products, a.infos[i].product) == CopyOf(b.products, a.infos[i].product)
    && NameOf(a.categories, ProductAt(a, a.infos[i].product).category)
       == NameOf(b.categories, ProductAt(a, a.infos[i].product).category)
    && ValuesOf(a, i) == ValuesOf(b, i)
    && forall v | v in ValuesOf(a, i) :: ValueAt(a, v) == ValueAt(b, v)
  }

  lemma ListingFrame(a: Db, b: Db, i: Id)
    requires SameListing(a, b, i)
    ensures ListingAt(a, i) == ListingAt(b, i)
  {
    ReadValuesFrame(a, b, ValuesOf(a, i));
  }
}
