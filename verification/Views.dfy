/** The store with its generated ids abstracted away: shops are known by their owner, products and parameters by
    what they hold and how many rows hold it, catalogues by their content in order, the good of an order line by its
    place in the catalogue of its shop. Two stores with one view differ only in generated ids (Renaming.dfy). */
module Views {
  import opened Collections
  import opened Schema
  import opened PriceList
  import opened Catalogue
  import opened Acceptance
  import opened Underway
  import opened Outcome
  import Sql

  /** What `OrderItemSerializer` shows of an order line, with the owners of the shop that sells the good and of the
      shop recorded in the line, and the place of the good in the seller's catalogue. */
  datatype Line = Line(order: Id, product: string, priceRrc: int, quantity: int, seller: Id, place: nat, shop: Id)

  datatype View = View(
    users: map<Id, User>,
    contacts: map<Id, Id>,
    orders: map<Id, Order>,
    shops: map<Id, string>,
    categories: map<Id, string>,
    links: set<(Id, Id)>,
    products: map<Product, nat>,
    parameters: map<string, nat>,
    catalogues: map<Id, seq<Listing>>,
    lines: map<Id, Line>)

  ghost function ShopOf(shops: map<Id, Shop>, user: Id): (s: Id)
    requires user in Owners(shops)
    ensures Owns(shops, user, s)
  {
    var s :| s in shops && shops[s].user == user;
    s
  }

  function LineAt(db: Db, i: Id): Line
    requires i in db.items
  {
    var item := db.items[i];
    var info := InfoAt(db, item.info);
    Line(item.order, ProductAt(db, info.product).name, info.priceRrc, item.quantity,
         ShopAt(db, info.shop).user, Rank(Sql.InfosOf(db, info.shop), item.info), ShopAt(db, item.shop).user)
  }

  ghost function ShopNames(shops: map<Id, Shop>): map<Id, string> {
    map u | u in Owners(shops) :: shops[ShopOf(shops, u)].name
  }

  function OwnerLinks(db: Db): set<(Id, Id)> { set l | l in db.links :: (l.0, ShopAt(db, l.1).user) }

  ghost function Catalogues(db: Db): map<Id, seq<Listing>> {
    map u | u in Owners(db.shops) :: CatalogueOf(db, ShopOf(db.shops, u))
  }

  function Lines(db: Db): map<Id, Line> { map i | i in db.items :: LineAt(db, i) }

  ghost function ViewOf(db: Db): View {
    View(db.users, db.contacts, db.orders, ShopNames(db.shops), db.categories, OwnerLinks(db),
         RowsOf(db.products), RowsOf(db.parameters), Catalogues(db), Lines(db))
  }

  /** How many rows hold each value. */
  function RowsOf<K(==)>(table: map<Id, K>): map<K, nat> { map k | k in table.Values :: |WithValue(table, k)| }

  /** One row for each of the keys no row holds yet. */
  function WithKeys<K(==)>(rows: map<K, nat>, keys: set<K>): map<K, nat> { (map k | k in keys :: 1) + rows }

  ghost predicate Between<K>(a: map<K, nat>, b: map<K, nat>, keys: set<K>) {
    && (forall k | k in a :: k in b && b[k] == a[k])
    && (forall k | k in b && k !in a :: k in keys && b[k] == 1)
  }

  function LinesOfOthers(lines: map<Id, Line>, user: Id): map<Id, Line> {
    map i | i in lines && lines[i].seller != user :: lines[i]
  }

  /** What importing `doc` for `user` is for: the shop, its categories and exactly its goods are there, and
      the order lines that sold its former goods are gone. */
  function Apply(v: View, user: Id, doc: Document): View {
    var cs, gs := CategoriesIn(doc), GoodsIn(doc);
    var categories := CategoriesAfter(v.categories, cs);
    v.(shops := v.shops[user := Text(doc.shop)],
       categories := categories,
       links := v.links + LinksTo(user, cs),
       products := WithKeys(v.products, GoodKeys(gs)),
       parameters := WithKeys(v.parameters, GoodNames(gs)),
       catalogues := v.catalogues[user := RenderGoods(categories, gs)],
       lines := LinesOfOthers(v.lines, user))
  }

  /** `w` is somewhere between `v` and what the import makes of it. */
  ghost predicate Partway(v: View, w: View, user: Id, doc: Document) {
    && w.users == v.users && w.contacts == v.contacts && w.orders == v.orders
    && (w.shops == v.shops || w.shops == v.shops[user := Text(doc.shop)])
    && (forall c | c in v.categories :: c in w.categories && w.categories[c] == v.categories[c])
    && (forall c | c in w.categories && c !in v.categories ::
          CategoryEntry(Some(c), Some(w.categories[c])) in CategoriesIn(doc))
    && v.links <= w.links <= v.links + LinksTo(user, CategoriesIn(doc))
    && Between(v.products, w.products, GoodKeys(GoodsIn(doc)))
    && Between(v.parameters, w.parameters, GoodNames(GoodsIn(doc)))
    && (forall u | u in w.catalogues && u != user :: u in v.catalogues)
    && (forall u | u in v.catalogues && u != user :: u in w.catalogues && w.catalogues[u] == v.catalogues[u])
    && (w.lines == v.lines || w.lines == LinesOfOthers(v.lines, user))
  }

  lemma ShopOfOwner(shops: map<Id, Shop>, next: Id, users: map<Id, User>, user: Id, s: Id)
    requires ShopsSound(shops, next, users) && Owns(shops, user, s)
    ensures user in Owners(shops) && ShopOf(shops, user) == s
  {
    assert Owns(shops, user, ShopOf(shops, user));
  }

  lemma OwnersGrown(shops: map<Id, Shop>, n: Id, row: Shop)
    requires n !in shops
    ensures Owners(shops[n := row]) == Owners(shops) + {row.user}
  {
    var grown := shops[n := row];
    assert grown[n].user == row.user;
    forall u | u in Owners(shops)
      ensures u in Owners(grown)
    {
      var s :| s in shops && shops[s].user == u;
      assert grown[s].user == u;
    }
  }

  lemma ShopsPartway(a: Db, b: Db, user: Id, doc: Document)
    requires ShopsSound(a.shops, a.next.shop, a.users) && ShopsSound(b.shops, b.next.shop, b.users)
    requires ShopsMoved(a, b.shops, b.next.shop, user, doc)
    ensures forall s | s in a.shops :: s in b.shops && b.shops[s] == a.shops[s]
    ensures Owners(b.shops) == Owners(a.shops)
            || (user !in Owners(a.shops) && Owners(b.shops) == Owners(a.shops) + {user})
    ensures forall u | u in Owners(a.shops) :: ShopOf(b.shops, u) == ShopOf(a.shops, u)
    ensures ShopNames(b.shops) == ShopNames(a.shops) || ShopNames(b.shops) == ShopNames(a.shops)[user := Text(doc.shop)]
  {
    if b.shops != a.shops {
      var n := a.next.shop;
      OwnersGrown(a.shops, n, b.shops[n]);
      ShopOfOwner(b.shops, b.next.shop, b.users, user, n);
    }
    forall u | u in Owners(a.shops)
      ensures ShopOf(b.shops, u) == ShopOf(a.shops, u)
    {
      assert Owns(b.shops, u, ShopOf(a.shops, u));
      ShopOfOwner(b.shops, b.next.shop, b.users, u, ShopOf(a.shops, u));
    }
  }

  lemma LinksPartway(a: Db, b: Db, user: Id, doc: Document)
    requires LinksSound(a.links, a.categories, a.shops)
    requires forall s | s in a.shops :: s in b.shops && b.shops[s] == a.shops[s]
    requires LinksMoved(a, b.links, b.categories, b.shops, user, CategoriesIn(doc))
    ensures OwnerLinks(a) <= OwnerLinks(b) <= OwnerLinks(a) + LinksTo(user, CategoriesIn(doc))
  {
    forall x | x in OwnerLinks(a)
      ensures x in OwnerLinks(b)
    {
      var l :| l in a.links && (l.0, ShopAt(a, l.1).user) == x;
      assert l in b.links && (l.0, ShopAt(b, l.1).user) == x;
    }
    forall x | x in OwnerLinks(b)
      ensures x in OwnerLinks(a) + LinksTo(user, CategoriesIn(doc))
    {
      var l :| l in b.links && (l.0, ShopAt(b, l.1).user) == x;
      if l in a.links {
        assert (l.0, ShopAt(a, l.1).user) == x;
      } else {
        var e := CategoryEntry(Some(l.0), Some(b.categories[l.0]));
        assert e in CategoriesIn(doc) && (IdOf(e), user) == x;
      }
    }
  }

  lemma ValueHeld<K>(table: map<Id, K>, k: K)
    ensures k in table.Values <==> WithValue(table, k) != {}
  {
    if k in table.Values {
      var p :| p in table && table[p] == k;
      assert p in WithValue(table, k);
    }
    if p :| p in WithValue(table, k) { assert table[p] == k; }
  }

  lemma KeysPartway<K>(a: map<Id, K>, b: map<Id, K>, keys: set<K>)
    requires KeysMoved(a, b, keys)
    ensures Between(RowsOf(a), RowsOf(b), keys)
  {
    forall k | k in a.Values
      ensures k in b.Values && WithValue(b, k) == WithValue(a, k)
    {
      ValueHeld(a, k);
      LookupStable(a, b, k);
      ValueHeld(b, k);
    }
    forall k | k in b.Values && k !in a.Values
      ensures k in keys && |WithValue(b, k)| == 1
    {
      var p :| p in b && b[p] == k;
      ValueHeld(a, k);
      assert p !in WithValue(a, k);
    }
  }

  lemma KeysDone<K>(a: map<Id, K>, b: map<Id, K>, keys: set<K>)
    requires KeysMoved(a, b, keys) && b.Values == a.Values + keys
    ensures RowsOf(b) == WithKeys(RowsOf(a), keys)
  {
    KeysPartway(a, b, keys);
    assert RowsOf(b).Keys == WithKeys(RowsOf(a), keys).Keys;
  }

  /** Nothing any other shop offers, or is read through, has moved. */
  lemma OtherListingKept(a: Db, b: Db, user: Id, doc: Document, i: Id)
    requires Integrity(a) && Moved(a, b, user, doc) && i in a.infos && !Sells(a, user, i)
    ensures ListingAt(b, i) == ListingAt(a, i)
  {
    assert ValuesOf(b, i) == ValuesOf(a, i);
    forall v | v in ValuesOf(a, i)
      ensures ValueAt(b, v) == ValueAt(a, v)
    {
      CopyStable(a.parameters, b.parameters, a.values[v].parameter);
    }
    CopyStable(a.products, b.products, a.infos[i].product);
    ListingFrame(a, b, i);
  }

  lemma OtherCatalogueKept(a: Db, b: Db, user: Id, doc: Document, s: Id)
    requires Integrity(a) && Moved(a, b, user, doc) && s in a.shops && !Owns(a.shops, user, s)
    requires s in b.shops && b.shops[s] == a.shops[s]
    ensures CatalogueOf(b, s) == CatalogueOf(a, s)
  {
    assert Sql.InfosOf(b, s) == Sql.InfosOf(a, s) by {
      forall i | i in Sql.InfosOf(a, s)
        ensures i in b.infos
      {
        assert !Sells(a, user, i);
      }
    }
    forall i | i in Sql.InfosOf(a, s) { OtherListingKept(a, b, user, doc, i); }
    ReadListingsFrame(b, a, Sql.InfosOf(a, s));
  }

  lemma LineKept(a: Db, b: Db, user: Id, doc: Document, i: Id)
    requires Integrity(a) && Integrity(b) && Moved(a, b, user, doc) && i in b.items
    requires forall s | s in a.shops :: s in b.shops && b.shops[s] == a.shops[s]
    ensures i in a.items && LineAt(b, i) == LineAt(a, i)
  {
    assert i in a.items && b.items[i] == a.items[i];
    var info := a.items[i].info;
    assert info in a.infos && info in b.infos && b.infos[info] == a.infos[info];
    assert a.infos[info].product in a.products;
    PlaceKept(a, b, user, info);
  }

  /** A good that is still offered keeps its place: old rows of its shop are all there, and new ones come after it. */
  lemma PlaceKept(a: Db, b: Db, user: Id, info: Id)
    requires InfosSound(a.infos, a.next.info, a.products, a.shops)
    requires InfosMoved(a, b.infos, b.next.info, b.shops, user) && info in a.infos && info in b.infos
    ensures Rank(Sql.InfosOf(b, b.infos[info].shop), info) == Rank(Sql.InfosOf(a, a.infos[info].shop), info)
  {
    var before, after := Sql.InfosOf(a, a.infos[info].shop), Sql.InfosOf(b, a.infos[info].shop);
    forall j | j < info
      ensures j in before <==> j in after
    {
      assert j in before ==> (Sells(a, user, j) <==> Sells(a, user, info));
    }
    RankFrame(before, after, info);
  }

  lemma SellerOfLine(a: Db, user: Id, i: Id)
    requires Integrity(a) && i in a.items
    ensures LineAt(a, i).seller == user <==> Sells(a, user, a.items[i].info)
  {
    assert a.items[i].info in a.infos;
  }

  lemma SellersOfLines(a: Db, user: Id)
    requires Integrity(a)
    ensures forall i | i in Lines(a) :: Lines(a)[i].seller == user <==> Sells(a, user, a.items[i].info)
  {
    forall i | i in a.items { SellerOfLine(a, user, i); }
  }

  lemma KeysOfLines(db: Db)
    ensures Lines(db).Keys == db.items.Keys
  {
  }

  lemma LinesKept(a: Db, b: Db, user: Id, doc: Document)
    requires Integrity(a) && Integrity(b) && Moved(a, b, user, doc)
    requires forall s | s in a.shops :: s in b.shops && b.shops[s] == a.shops[s]
    ensures forall i | i in b.items :: i in Lines(a) && Lines(b)[i] == Lines(a)[i]
  {
    forall i | i in b.items { LineKept(a, b, user, doc, i); }
  }

  lemma LinesPartway(a: Db, b: Db, user: Id, doc: Document)
    requires Integrity(a) && Integrity(b) && Moved(a, b, user, doc)
    requires forall s | s in a.shops :: s in b.shops && b.shops[s] == a.shops[s]
    ensures Lines(b) == Lines(a) || Lines(b) == LinesOfOthers(Lines(a), user)
  {
    KeysOfLines(a);
    KeysOfLines(b);
    LinesKept(a, b, user, doc);
    SellersOfLines(a, user);
    LinesOfItems(a, b.items, Lines(a), Lines(b), user);
  }

  lemma LinesOfItems(a: Db, items: map<Id, OrderItem>, was: map<Id, Line>, now: map<Id, Line>, user: Id)
    requires was.Keys == a.items.Keys && now.Keys == items.Keys
    requires items == a.items || items == ItemsOfOthers(a, user)
    requires forall i | i in items :: i in was && now[i] == was[i]
    requires forall i | i in was :: was[i].seller == user <==> Sells(a, user, a.items[i].info)
    ensures items == a.items ==> now == was
    ensures items == ItemsOfOthers(a, user) ==> now == LinesOfOthers(was, user)
  {
  }

  lemma CatalogueOfOtherKept(a: Db, b: Db, user: Id, doc: Document, u: Id)
    requires Integrity(a) && Integrity(b) && Moved(a, b, user, doc)
    requires u != user && u in Owners(a.shops)
    ensures u in Catalogues(b) && Catalogues(b)[u] == Catalogues(a)[u]
  {
    ShopsPartway(a, b, user, doc);
    OtherCatalogueKept(a, b, user, doc, ShopOf(a.shops, u));
  }

  lemma CataloguesPartway(a: Db, b: Db, user: Id, doc: Document)
    requires Integrity(a) && Integrity(b) && Moved(a, b, user, doc)
    ensures forall u | u in Catalogues(b) && u != user :: u in Catalogues(a)
    ensures forall u | u in Catalogues(a) && u != user :: u in Catalogues(b) && Catalogues(b)[u] == Catalogues(a)[u]
  {
    assert Owners(b.shops) <= Owners(a.shops) + {user} by { ShopsPartway(a, b, user, doc); }
    forall u | u in Catalogues(a) && u != user
      ensures u in Catalogues(b) && Catalogues(b)[u] == Catalogues(a)[u]
    {
      CatalogueOfOtherKept(a, b, user, doc, u);
    }
  }

  /** A store under way looks partway. */
  lemma MovedIsPartway(a: Db, b: Db, user: Id, doc: Document)
    requires Integrity(a) && Integrity(b) && Moved(a, b, user, doc)
    ensures Partway(ViewOf(a), ViewOf(b), user, doc)
  {
    ShopsPartway(a, b, user, doc);
    LinksPartway(a, b, user, doc);
    KeysPartway(a.products, b.products, GoodKeys(GoodsIn(doc)));
    KeysPartway(a.parameters, b.parameters, GoodNames(GoodsIn(doc)));
    CataloguesPartway(a, b, user, doc);
    LinesPartway(a, b, user, doc);
  }

  /** Between `v` and its image, the import leads to the same image. */
  lemma ApplyPartway(v: View, w: View, user: Id, doc: Document)
    requires Partway(v, w, user, doc) && CategoriesSound(w.categories)
    requires CategoriesOk(v.categories, CategoriesIn(doc))
    ensures Apply(w, user, doc) == Apply(v, user, doc)
  {
    var cs := CategoriesIn(doc);
    var a := Empty(map[]).(categories := v.categories);
    assert CategoriesMoved(a, w.categories, cs);
    CategoriesOkMoved(a, w.categories, cs);
    CategoriesAfterMoved(a, w.categories, cs);
    SetsMeet(v.links, w.links, LinksTo(user, cs));
    KeysMeet(v.products, w.products, GoodKeys(GoodsIn(doc)));
    KeysMeet(v.parameters, w.parameters, GoodNames(GoodsIn(doc)));
    LinesMeet(v.lines, w.lines, user);
    var goods := RenderGoods(CategoriesAfter(v.categories, cs), GoodsIn(doc));
    CataloguesMeet(v.catalogues, w.catalogues, user, goods);
  }

  lemma CataloguesMeet(a: map<Id, seq<Listing>>, b: map<Id, seq<Listing>>, user: Id, goods: seq<Listing>)
    requires forall u | u in b && u != user :: u in a
    requires forall u | u in a && u != user :: u in b && b[u] == a[u]
    ensures b[user := goods] == a[user := goods]
  {
  }

  lemma SetsMeet<T>(a: set<T>, b: set<T>, added: set<T>)
    requires a <= b <= a + added
    ensures b + added == a + added
  {
  }

  lemma KeysMeet<K>(a: map<K, nat>, b: map<K, nat>, keys: set<K>)
    requires Between(a, b, keys)
    ensures WithKeys(b, keys) == WithKeys(a, keys)
  {
  }

  lemma LinesMeet(a: map<Id, Line>, b: map<Id, Line>, user: Id)
    requires b == a || b == LinesOfOthers(a, user)
    ensures LinesOfOthers(b, user) == LinesOfOthers(a, user)
  {
  }

  /* A finished import is all the way there. */

  lemma LinksDone(db: Db, out: Db, shop: Id, user: Id, cs: seq<CategoryEntry>)
    requires LinksTo(shop, cs) <= out.links && Owns(out.shops, user, shop)
    ensures LinksTo(user, cs) <= OwnerLinks(out)
  {
    forall x | x in LinksTo(user, cs)
      ensures x in OwnerLinks(out)
    {
      var e :| e in cs && (IdOf(e), user) == x;
      assert (IdOf(e), shop) in LinksTo(shop, cs);
      assert (IdOf(e), ShopAt(out, shop).user) == x;
    }
  }

  /** No line of the finished store sells the user's goods: the old rows went, and no line knows the new ones. */
  lemma LinesDone(db: Db, cleared: Db, out: Db, user: Id, doc: Document, shop: Id)
    requires Integrity(db) && Integrity(out) && Moved(db, out, user, doc)
    requires Cleared(db, cleared, user, doc, shop) && StockGrows(cleared, out, shop)
    ensures Lines(out) == LinesOfOthers(Lines(db), user)
  {
    ShopsPartway(db, out, user, doc);
    LinesPartway(db, out, user, doc);
    forall i | i in Lines(out)
      ensures Lines(out)[i].seller != user
    {
      LineDone(db, cleared, out, user, doc, shop, i);
    }
    LinesAllOthers(Lines(db), Lines(out), user);
  }

  lemma LineDone(db: Db, cleared: Db, out: Db, user: Id, doc: Document, shop: Id, i: Id)
    requires Integrity(db) && Integrity(out) && Moved(db, out, user, doc)
    requires Cleared(db, cleared, user, doc, shop) && StockGrows(cleared, out, shop)
    requires i in out.items
    ensures LineAt(out, i).seller != user
  {
    ShopsPartway(db, out, user, doc);
    LineKept(db, out, user, doc, i);
    SellerOfLine(out, user, i);
    NotSold(db, cleared, out, user, shop, out.items[i].info);
  }

  lemma LinesAllOthers(a: map<Id, Line>, b: map<Id, Line>, user: Id)
    requires b == a || b == LinesOfOthers(a, user)
    requires forall i | i in b :: b[i].seller != user
    ensures b == LinesOfOthers(a, user)
  {
  }

  lemma NotSold(db: Db, cleared: Db, out: Db, user: Id, shop: Id, info: Id)
    requires InfosSound(db.infos, db.next.info, db.products, db.shops) && info in db.infos
    requires ShopsSound(out.shops, out.next.shop, out.users) && Owns(out.shops, user, shop)
    requires Sql.InfosOf(cleared, shop) == {} && db.next.info == cleared.next.info && StockGrows(cleared, out, shop)
    ensures !Sells(out, user, info)
  {
    assert info !in Sql.InfosOf(cleared, shop);
  }

  lemma CatalogueDone(db: Db, cleared: Db, out: Db, user: Id, doc: Document, shop: Id)
    requires Integrity(out) && Cleared(db, cleared, user, doc, shop) && Stocked(cleared, out, shop, GoodsIn(doc))
    ensures user in Catalogues(out)
    ensures Catalogues(out)[user] == RenderGoods(CategoriesAfter(db.categories, CategoriesIn(doc)), GoodsIn(doc))
    ensures ShopNames(out.shops)[user] == Text(doc.shop)
  {
    ShopOfOwner(out.shops, out.next.shop, out.users, user, shop);
    assert CatalogueOf(cleared, shop) == [];
  }

  /** The nested loops over the tables compute exactly what the import is for. */
  lemma ImportRefinesApply(db: Db, user: Id, doc: Document)
    requires Integrity(db) && !Import(db, user, doc).failed
    ensures ViewOf(Import(db, user, doc).db) == Apply(ViewOf(db), user, doc)
  {
    var out := Import(db, user, doc).db;
    var v, w := ViewOf(db), ViewOf(out);
    var cleared, shop := ImportSucceedsExactlyWhenAccepted(db, user, doc);
    WholePrefix(db, user, doc);
    PrefixUnderway(db, user, doc, |ImportProgram(user, doc)|);
    MovedIsPartway(db, out, user, doc);
    LinksDone(db, out, shop, user, CategoriesIn(doc));
    LinesDone(db, cleared, out, user, doc, shop);
    CatalogueDone(db, cleared, out, user, doc, shop);
    KeysDone(db.products, out.products, GoodKeys(GoodsIn(doc)));
    KeysDone(db.parameters, out.parameters, GoodNames(GoodsIn(doc)));
    ViewDone(v, w, user, doc);
  }

  lemma ViewDone(v: View, w: View, user: Id, doc: Document)
    requires Partway(v, w, user, doc)
    requires user in w.shops && w.shops[user] == Text(doc.shop)
    requires w.categories == CategoriesAfter(v.categories, CategoriesIn(doc))
    requires LinksTo(user, CategoriesIn(doc)) <= w.links
    requires w.products == WithKeys(v.products, GoodKeys(GoodsIn(doc)))
    requires w.parameters == WithKeys(v.parameters, GoodNames(GoodsIn(doc)))
    requires user in w.catalogues && w.catalogues[user] == RenderGoods(w.categories, GoodsIn(doc))
    requires w.lines == LinesOfOthers(v.lines, user)
    ensures w == Apply(v, user, doc)
  {
    assert w.shops == v.shops[user := Text(doc.shop)];
    assert w.links == v.links + LinksTo(user, CategoriesIn(doc));
    assert w.catalogues == v.catalogues[user := w.catalogues[user]];
  }
}
