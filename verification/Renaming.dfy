/** What a view leaves out is only generated ids: two stores with one view are the same store up to a renaming of the
    ids of shops, products, parameters, ProductInfo rows and their values. */
module Renaming {
  import opened Collections
  import opened Schema
  import opened PriceList
  import opened Catalogue
  import opened Underway
  import opened Outcome
  import opened Views
  import opened ImportTheorems
  import Sql

  datatype Ids = Ids(shop: map<Id, Id>, product: map<Id, Id>, parameter: map<Id, Id>, info: map<Id, Id>,
                     value: map<Id, Id>)

  /** `f` is one-to-one from `from` onto `to`. */
  ghost predicate Pairs(f: map<Id, Id>, from: set<Id>, to: set<Id>) {
    f.Keys == from && f.Values == to && forall x, y | x in f && y in f && f[x] == f[y] :: x == y
  }

  function Image(f: map<Id, Id>, x: Id): Id { if x in f then f[x] else x }

  /** `b` is `a` with every generated id of those five tables replaced throughout; users, contacts, orders, categories
      and the ids of order lines are the same. */
  ghost predicate Renamed(a: Db, b: Db, r: Ids) {
    && b.users == a.users && b.contacts == a.contacts && b.orders == a.orders && b.categories == a.categories
    && Pairs(r.shop, a.shops.Keys, b.shops.Keys) && RowsRenamed(a.shops, b.shops, r.shop)
    && Pairs(r.product, a.products.Keys, b.products.Keys) && RowsRenamed(a.products, b.products, r.product)
    && Pairs(r.parameter, a.parameters.Keys, b.parameters.Keys) && RowsRenamed(a.parameters, b.parameters, r.parameter)
    && Pairs(r.info, a.infos.Keys, b.infos.Keys) && InfosRenamed(a.infos, b.infos, r)
    && Pairs(r.value, a.values.Keys, b.values.Keys) && ValuesRenamed(a.values, b.values, r)
    && b.links == LinksRenamed(a.links, r.shop)
    && ItemsRenamed(a.items, b.items, r)
  }

  ghost predicate RowsRenamed<K>(a: map<Id, K>, b: map<Id, K>, f: map<Id, Id>) {
    forall x | x in a :: x in f && f[x] in b && b[f[x]] == a[x]
  }

  ghost predicate InfosRenamed(a: map<Id, ProductInfo>, b: map<Id, ProductInfo>, r: Ids) {
    forall i | i in a :: i in r.info && r.info[i] in b
      && b[r.info[i]] == a[i].(product := Image(r.product, a[i].product), shop := Image(r.shop, a[i].shop))
  }

  ghost predicate ValuesRenamed(a: map<Id, ProductParameter>, b: map<Id, ProductParameter>, r: Ids) {
    forall v | v in a :: v in r.value && r.value[v] in b
      && b[r.value[v]] == a[v].(info := Image(r.info, a[v].info), parameter := Image(r.parameter, a[v].parameter))
  }

  function LinksRenamed(links: set<(Id, Id)>, shop: map<Id, Id>): set<(Id, Id)> {
    set l | l in links :: (l.0, Image(shop, l.1))
  }

  ghost predicate ItemsRenamed(a: map<Id, OrderItem>, b: map<Id, OrderItem>, r: Ids) {
    b.Keys == a.Keys
    && forall i | i in a :: b[i] == a[i].(info := Image(r.info, a[i].info), shop := Image(r.shop, a[i].shop))
  }

  /* Matching two sets of ids in order. */

  ghost function Match(a: set<Id>, b: set<Id>, x: Id): (y: Id)
    requires |a| == |b| && x in a
    ensures y in b && Rank(b, y) == Rank(a, x)
  {
    RankInRange(a, x);
    Nth(b, Rank(a, x))
  }

  /** Rows are in groups; `h` pairs the groups of one table with those of the other, of the same sizes. */
  ghost predicate Paired<G, H>(ga: map<Id, G>, gb: map<Id, H>, h: map<G, H>) {
    && (forall x | x in ga :: ga[x] in h)
    && (forall y | y in gb :: gb[y] in h.Values)
    && (forall g, k | g in h && k in h && h[g] == h[k] :: g == k)
    && (forall g | g in h :: |WithValue(ga, g)| == |WithValue(gb, h[g])|)
  }

  /** Each row goes to the row of the same rank in the group its group is paired with. */
  ghost function Counterpart<G, H>(ga: map<Id, G>, gb: map<Id, H>, h: map<G, H>, x: Id): (y: Id)
    requires Paired(ga, gb, h) && x in ga
    ensures y in gb && gb[y] == h[ga[x]] && Rank(WithValue(gb, gb[y]), y) == Rank(WithValue(ga, ga[x]), x)
  {
    Match(WithValue(ga, ga[x]), WithValue(gb, h[ga[x]]), x)
  }

  /** The counterpart is the only row of that group and rank. */
  lemma OnlyCounterpart<G, H>(ga: map<Id, G>, gb: map<Id, H>, h: map<G, H>, x: Id, y: Id)
    requires Paired(ga, gb, h) && x in ga && y in gb && gb[y] == h[ga[x]]
    requires Rank(WithValue(gb, gb[y]), y) == Rank(WithValue(ga, ga[x]), x)
    ensures y == Counterpart(ga, gb, h, x)
  {
    RankInjective(WithValue(gb, gb[y]), y, Counterpart(ga, gb, h, x));
  }

  lemma CounterpartsPair<G, H>(ga: map<Id, G>, gb: map<Id, H>, h: map<G, H>, f: map<Id, Id>)
    requires Paired(ga, gb, h) && f.Keys == ga.Keys && forall x | x in ga :: f[x] == Counterpart(ga, gb, h, x)
    ensures Pairs(f, ga.Keys, gb.Keys)
  {
    forall x, y | x in f && y in f && f[x] == f[y]
      ensures x == y
    {
      RankInjective(WithValue(ga, ga[x]), x, y);
    }
    forall y | y in gb
      ensures y in f.Values
    {
      var g :| g in h && h[g] == gb[y];
      var x := Match(WithValue(gb, gb[y]), WithValue(ga, g), y);
      OnlyCounterpart(ga, gb, h, x, y);
      assert f[x] == y;
    }
  }

  ghost function Matching<G, H>(ga: map<Id, G>, gb: map<Id, H>, h: map<G, H>): (f: map<Id, Id>)
    requires Paired(ga, gb, h)
    ensures Pairs(f, ga.Keys, gb.Keys)
    ensures forall x | x in ga :: f[x] == Counterpart(ga, gb, h, x)
  {
    var f := map x | x in ga :: Counterpart(ga, gb, h, x);
    CounterpartsPair(ga, gb, h, f);
    f
  }

  /* Products and parameters: groups of rows that hold one value. */

  function Same<K(==)>(table: map<Id, K>): map<K, K> { map k | k in table.Values :: k }

  lemma RowsPaired<K>(a: map<Id, K>, b: map<Id, K>)
    requires RowsOf(a) == RowsOf(b)
    ensures Paired(a, b, Same(a))
  {
    var h := Same(a);
    assert a.Values == RowsOf(a).Keys && b.Values == RowsOf(b).Keys;
    forall y | y in b
      ensures b[y] in h.Values
    {
      assert b[y] in b.Values;
      assert h[b[y]] == b[y];
    }
    forall k | k in h
      ensures |WithValue(a, k)| == |WithValue(b, k)|
    {
      assert RowsOf(a)[k] == RowsOf(b)[k];
    }
  }

  ghost function RowMatching<K>(a: map<Id, K>, b: map<Id, K>): map<Id, Id>
    requires RowsOf(a) == RowsOf(b)
  {
    RowsPaired(a, b);
    Matching(a, b, Same(a))
  }

  lemma RowsMatch<K>(a: map<Id, K>, b: map<Id, K>)
    requires RowsOf(a) == RowsOf(b)
    ensures Pairs(RowMatching(a, b), a.Keys, b.Keys) && RowsRenamed(a, b, RowMatching(a, b))
  {
    RowsPaired(a, b);
  }

  /** A row of the same value and the same copy is the counterpart. */
  lemma SameRow<K>(a: map<Id, K>, b: map<Id, K>, p: Id, q: Id)
    requires RowsOf(a) == RowsOf(b) && p in a && q in b && b[q] == a[p] && CopyOf(b, q) == CopyOf(a, p)
    ensures q == Image(RowMatching(a, b), p)
  {
    RowsPaired(a, b);
    OnlyCounterpart(a, b, Same(a), p, q);
  }

  /* Shops: one for each owner. */

  function OwnerOf(shops: map<Id, Shop>): map<Id, Id> { map s | s in shops :: shops[s].user }

  lemma OneShopEach(shops: map<Id, Shop>, next: Id, users: map<Id, User>, u: Id)
    requires ShopsSound(shops, next, users) && u in OwnerOf(shops).Values
    ensures u in Owners(shops) && WithValue(OwnerOf(shops), u) == {ShopOf(shops, u)}
  {
    var s :| s in shops && shops[s].user == u;
    ShopOfOwner(shops, next, users, u, s);
    forall t | t in WithValue(OwnerOf(shops), u)
      ensures t == s
    {
      assert Owns(shops, u, s) && Owns(shops, u, t);
    }
  }

  lemma ShopsPaired(a: Db, b: Db)
    requires ShopsSound(a.shops, a.next.shop, a.users) && ShopsSound(b.shops, b.next.shop, b.users)
    requires ShopNames(a.shops) == ShopNames(b.shops)
    ensures Paired(OwnerOf(a.shops), OwnerOf(b.shops), Same(OwnerOf(a.shops)))
  {
    var oa, ob := OwnerOf(a.shops), OwnerOf(b.shops);
    OwnersAre(a.shops);
    OwnersAre(b.shops);
    assert Owners(a.shops) == ShopNames(a.shops).Keys && Owners(b.shops) == ShopNames(b.shops).Keys;
    forall u | u in oa.Values
      ensures |WithValue(oa, u)| == |WithValue(ob, u)|
    {
      OneShopEach(a.shops, a.next.shop, a.users, u);
      OneShopEach(b.shops, b.next.shop, b.users, u);
    }
    forall y | y in ob
      ensures ob[y] in Same(oa).Values
    {
      assert ob[y] in ob.Values && Same(oa)[ob[y]] == ob[y];
    }
  }

  lemma OwnersAre(shops: map<Id, Shop>)
    ensures OwnerOf(shops).Values == Owners(shops)
  {
    forall u | u in Owners(shops)
      ensures u in OwnerOf(shops).Values
    {
      var s :| s in shops && shops[s].user == u;
      assert OwnerOf(shops)[s] == u;
    }
  }

  ghost function ShopMatching(a: Db, b: Db): (f: map<Id, Id>)
    requires ShopsSound(a.shops, a.next.shop, a.users) && ShopsSound(b.shops, b.next.shop, b.users)
    requires ShopNames(a.shops) == ShopNames(b.shops)
    ensures Pairs(f, a.shops.Keys, b.shops.Keys)
  {
    ShopsPaired(a, b);
    Matching(OwnerOf(a.shops), OwnerOf(b.shops), Same(OwnerOf(a.shops)))
  }

  lemma ShopOwnerMatch(a: Db, b: Db, s: Id)
    requires ShopsSound(a.shops, a.next.shop, a.users) && ShopsSound(b.shops, b.next.shop, b.users)
    requires ShopNames(a.shops) == ShopNames(b.shops) && s in a.shops
    ensures s in ShopMatching(a, b) && Owns(b.shops, a.shops[s].user, ShopMatching(a, b)[s])
  {
    ShopsPaired(a, b);
    assert OwnerOf(b.shops)[ShopMatching(a, b)[s]] == OwnerOf(a.shops)[s];
  }

  lemma ShopsMatch(a: Db, b: Db)
    requires ShopsSound(a.shops, a.next.shop, a.users) && ShopsSound(b.shops, b.next.shop, b.users)
    requires ShopNames(a.shops) == ShopNames(b.shops)
    ensures RowsRenamed(a.shops, b.shops, ShopMatching(a, b))
  {
    forall s | s in a.shops
      ensures ShopMatching(a, b)[s] in b.shops && b.shops[ShopMatching(a, b)[s]] == a.shops[s]
    {
      ShopOwnerMatch(a, b, s);
      var u, t := a.shops[s].user, ShopMatching(a, b)[s];
      ShopOfOwner(a.shops, a.next.shop, a.users, u, s);
      ShopOfOwner(b.shops, b.next.shop, b.users, u, t);
      assert ShopNames(a.shops)[u] == ShopNames(b.shops)[u];
    }
  }

  /** A shop of the same owner is the counterpart. */
  lemma SameShopOwner(a: Db, b: Db, s: Id, t: Id)
    requires ShopsSound(a.shops, a.next.shop, a.users) && ShopsSound(b.shops, b.next.shop, b.users)
    requires ShopNames(a.shops) == ShopNames(b.shops)
    requires s in a.shops && t in b.shops && b.shops[t].user == a.shops[s].user
    ensures t == Image(ShopMatching(a, b), s)
  {
    var u := a.shops[s].user;
    ShopsMatch(a, b);
    assert Owns(b.shops, u, t) && Owns(b.shops, u, ShopMatching(a, b)[s]);
  }

  lemma CataloguesMatch(a: Db, b: Db, s: Id)
    requires Integrity(a) && Integrity(b) && ViewOf(a) == ViewOf(b) && s in a.shops
    ensures ShopNames(a.shops) == ShopNames(b.shops)
    ensures CatalogueOf(b, Image(ShopMatching(a, b), s)) == CatalogueOf(a, s)
  {
    var u := a.shops[s].user;
    assert ViewOf(a).shops == ViewOf(b).shops && ViewOf(a).catalogues == ViewOf(b).catalogues;
    ShopsMatch(a, b);
    var t := ShopMatching(a, b)[s];
    ShopOfOwner(a.shops, a.next.shop, a.users, u, s);
    ShopOfOwner(b.shops, b.next.shop, b.users, u, t);
    assert Catalogues(a)[u] == Catalogues(b)[u];
  }

  /* ProductInfo rows: groups are shops. */

  lemma {:induction false} ListingsLength(db: Db, ids: set<Id>)
    ensures |ReadListings(db, ids)| == |ids|
    decreases |ids|
  {
    if ids == {} {
    } else {
      ListingsLength(db, ids - {Max(ids)});
    }
  }

  lemma {:induction false} ListingAtRank(db: Db, ids: set<Id>, i: Id)
    requires i in ids
    ensures Rank(ids, i) < |ReadListings(db, ids)| == |ids| && ReadListings(db, ids)[Rank(ids, i)] == ListingAt(db, i)
    decreases |ids|
  {
    var last := Max(ids);
    var rest := ids - {last};
    ListingsLength(db, ids);
    ListingsLength(db, rest);
    RankInRange(ids, i);
    RankOfMax(ids);
    if i == last {
    } else {
      RankFrame(ids, rest, i);
      ListingAtRank(db, rest, i);
    }
  }

  function ShopOfInfo(infos: map<Id, ProductInfo>): map<Id, Id> { map i | i in infos :: infos[i].shop }

  lemma InfosInShop(db: Db, shop: Id)
    ensures WithValue(ShopOfInfo(db.infos), shop) == Sql.InfosOf(db, shop)
  {
  }

  /** `shop` pairs the shops of the two stores, with one catalogue each. */
  ghost predicate ShopsPair(a: Db, b: Db, shop: map<Id, Id>) {
    Pairs(shop, a.shops.Keys, b.shops.Keys) && forall s | s in a.shops :: CatalogueOf(b, shop[s]) == CatalogueOf(a, s)
  }

  lemma InfosPaired(a: Db, b: Db, shop: map<Id, Id>)
    requires Integrity(a) && Integrity(b) && ShopsPair(a, b, shop)
    ensures Paired(ShopOfInfo(a.infos), ShopOfInfo(b.infos), shop)
  {
    forall s | s in shop
      ensures |WithValue(ShopOfInfo(a.infos), s)| == |WithValue(ShopOfInfo(b.infos), shop[s])|
    {
      InfosInShop(a, s);
      InfosInShop(b, shop[s]);
      ListingsLength(a, Sql.InfosOf(a, s));
      ListingsLength(b, Sql.InfosOf(b, shop[s]));
    }
  }

  ghost function InfoMatching(a: Db, b: Db, shop: map<Id, Id>): (f: map<Id, Id>)
    requires Integrity(a) && Integrity(b) && ShopsPair(a, b, shop)
    ensures Pairs(f, a.infos.Keys, b.infos.Keys)
  {
    InfosPaired(a, b, shop);
    Matching(ShopOfInfo(a.infos), ShopOfInfo(b.infos), shop)
  }

  lemma InfosMatch(a: Db, b: Db, shop: map<Id, Id>, i: Id)
    requires Integrity(a) && Integrity(b) && ShopsPair(a, b, shop) && i in a.infos
    ensures var j := InfoMatching(a, b, shop)[i];
      j in b.infos && b.infos[j].shop == Image(shop, a.infos[i].shop) && ListingAt(b, j) == ListingAt(a, i)
  {
    InfosPaired(a, b, shop);
    var s, j := a.infos[i].shop, InfoMatching(a, b, shop)[i];
    InfosInShop(a, s);
    InfosInShop(b, shop[s]);
    ListingAtRank(a, Sql.InfosOf(a, s), i);
    ListingAtRank(b, Sql.InfosOf(b, shop[s]), j);
  }

  /** A row at the same place of the paired catalogue is the counterpart. */
  lemma SamePlace(a: Db, b: Db, shop: map<Id, Id>, i: Id, j: Id)
    requires Integrity(a) && Integrity(b) && ShopsPair(a, b, shop) && i in a.infos && j in b.infos
    requires b.infos[j].shop == Image(shop, a.infos[i].shop)
    requires Rank(Sql.InfosOf(b, b.infos[j].shop), j) == Rank(Sql.InfosOf(a, a.infos[i].shop), i)
    ensures j == Image(InfoMatching(a, b, shop), i)
  {
    InfosPaired(a, b, shop);
    InfosInShop(a, a.infos[i].shop);
    InfosInShop(b, b.infos[j].shop);
    OnlyCounterpart(ShopOfInfo(a.infos), ShopOfInfo(b.infos), shop, i, j);
  }

  lemma InfoRowMatch(a: Db, b: Db, shop: map<Id, Id>, i: Id)
    requires Integrity(a) && Integrity(b) && ShopsPair(a, b, shop) && RowsOf(a.products) == RowsOf(b.products)
    requires i in a.infos
    ensures var j := InfoMatching(a, b, shop)[i];
      && j in b.infos
      && b.infos[j] == a.infos[i].(product := Image(RowMatching(a.products, b.products), a.infos[i].product),
                                   shop := Image(shop, a.infos[i].shop))
  {
    InfosMatch(a, b, shop, i);
    var j := InfoMatching(a, b, shop)[i];
    assert a.infos[i].product in a.products && b.infos[j].product in b.products;
    SameRow(a.products, b.products, a.infos[i].product, b.infos[j].product);
  }

  /* Values: groups are ProductInfo rows. */

  lemma {:induction false} ValuesLength(db: Db, ids: set<Id>)
    ensures |ReadValues(db, ids)| == |ids|
    decreases |ids|
  {
    if ids == {} {
    } else {
      ValuesLength(db, ids - {Max(ids)});
    }
  }

  lemma {:induction false} ValueAtRank(db: Db, ids: set<Id>, v: Id)
    requires v in ids
    ensures Rank(ids, v) < |ReadValues(db, ids)| == |ids| && ReadValues(db, ids)[Rank(ids, v)] == ValueAt(db, v)
    decreases |ids|
  {
    var last := Max(ids);
    var rest := ids - {last};
    ValuesLength(db, ids);
    ValuesLength(db, rest);
    RankInRange(ids, v);
    RankOfMax(ids);
    if v == last {
    } else {
      RankFrame(ids, rest, v);
      ValueAtRank(db, rest, v);
    }
  }

  function InfoOfValue(values: map<Id, ProductParameter>): map<Id, Id> { map v | v in values :: values[v].info }

  lemma ValuesInInfo(db: Db, info: Id)
    ensures WithValue(InfoOfValue(db.values), info) == ValuesOf(db, info)
  {
  }

  /** `info` pairs the rows of the two stores, with one parameter list each. */
  ghost predicate InfosPair(a: Db, b: Db, info: map<Id, Id>) {
    Pairs(info, a.infos.Keys, b.infos.Keys) && forall i | i in a.infos :: ParametersOf(b, info[i]) == ParametersOf(a, i)
  }

  lemma ValuesPaired(a: Db, b: Db, info: map<Id, Id>)
    requires Integrity(a) && Integrity(b) && InfosPair(a, b, info)
    ensures Paired(InfoOfValue(a.values), InfoOfValue(b.values), info)
  {
    forall i | i in info
      ensures |WithValue(InfoOfValue(a.values), i)| == |WithValue(InfoOfValue(b.values), info[i])|
    {
      ValuesInInfo(a, i);
      ValuesInInfo(b, info[i]);
      ValuesLength(a, ValuesOf(a, i));
      ValuesLength(b, ValuesOf(b, info[i]));
    }
  }

  ghost function ValueMatching(a: Db, b: Db, info: map<Id, Id>): (f: map<Id, Id>)
    requires Integrity(a) && Integrity(b) && InfosPair(a, b, info)
    ensures Pairs(f, a.values.Keys, b.values.Keys)
  {
    ValuesPaired(a, b, info);
    Matching(InfoOfValue(a.values), InfoOfValue(b.values), info)
  }

  lemma ValueShownAlike(a: Db, b: Db, info: map<Id, Id>, v: Id)
    requires Integrity(a) && Integrity(b) && InfosPair(a, b, info) && v in a.values
    ensures var w := ValueMatching(a, b, info)[v];
      w in b.values && b.values[w].info == Image(info, a.values[v].info) && ValueAt(b, w) == ValueAt(a, v)
  {
    ValuePlace(a, b, info, v);
    var i, w := a.values[v].info, ValueMatching(a, b, info)[v];
    ValueAtRank(a, ValuesOf(a, i), v);
    ValueAtRank(b, ValuesOf(b, info[i]), w);
  }

  lemma ValuePlace(a: Db, b: Db, info: map<Id, Id>, v: Id)
    requires Integrity(a) && Integrity(b) && InfosPair(a, b, info) && v in a.values
    ensures var (i, w) := (a.values[v].info, ValueMatching(a, b, info)[v]);
      i in info && w in ValuesOf(b, info[i]) && Rank(ValuesOf(b, info[i]), w) == Rank(ValuesOf(a, i), v)
  {
    ValuesPaired(a, b, info);
    ValuesInInfo(a, a.values[v].info);
    ValuesInInfo(b, info[a.values[v].info]);
  }

  lemma ValueMatch(a: Db, b: Db, info: map<Id, Id>, v: Id)
    requires Integrity(a) && Integrity(b) && InfosPair(a, b, info) && v in a.values
    requires RowsOf(a.parameters) == RowsOf(b.parameters)
    ensures var w := ValueMatching(a, b, info)[v];
      && w in b.values
      && b.values[w] == a.values[v].(info := Image(info, a.values[v].info),
                                     parameter := Image(RowMatching(a.parameters, b.parameters), a.values[v].parameter))
  {
    ValueShownAlike(a, b, info, v);
    var w := ValueMatching(a, b, info)[v];
    assert a.values[v].parameter in a.parameters && b.values[w].parameter in b.parameters;
    SameRow(a.parameters, b.parameters, a.values[v].parameter, b.values[w].parameter);
  }

  /* Links and order lines. */

  lemma LinkMatch(a: Db, b: Db, l: (Id, Id))
    requires Integrity(a) && Integrity(b) && ShopNames(a.shops) == ShopNames(b.shops) && OwnerLinks(a) == OwnerLinks(b)
    requires l in b.links
    ensures l in LinksRenamed(a.links, ShopMatching(a, b))
  {
    var x := (l.0, ShopAt(b, l.1).user);
    assert x in OwnerLinks(b);
    var k :| k in a.links && (k.0, ShopAt(a, k.1).user) == x;
    SameShopOwner(a, b, k.1, l.1);
    assert (k.0, Image(ShopMatching(a, b), k.1)) == l;
  }

  lemma LinkKept(a: Db, b: Db, k: (Id, Id))
    requires Integrity(a) && Integrity(b) && ShopNames(a.shops) == ShopNames(b.shops) && OwnerLinks(a) == OwnerLinks(b)
    requires k in a.links
    ensures (k.0, Image(ShopMatching(a, b), k.1)) in b.links
  {
    var x := (k.0, ShopAt(a, k.1).user);
    assert x in OwnerLinks(a);
    var l :| l in b.links && (l.0, ShopAt(b, l.1).user) == x;
    SameShopOwner(a, b, k.1, l.1);
  }

  lemma LinksMatch(a: Db, b: Db)
    requires Integrity(a) && Integrity(b) && ShopNames(a.shops) == ShopNames(b.shops) && OwnerLinks(a) == OwnerLinks(b)
    ensures b.links == LinksRenamed(a.links, ShopMatching(a, b))
  {
    forall l | l in b.links { LinkMatch(a, b, l); }
    forall k | k in a.links { LinkKept(a, b, k); }
  }

  lemma ItemMatch(a: Db, b: Db, i: Id)
    requires Integrity(a) && Integrity(b) && ShopNames(a.shops) == ShopNames(b.shops)
    requires ShopsPair(a, b, ShopMatching(a, b))
    requires i in a.items && i in b.items && LineAt(b, i) == LineAt(a, i)
    ensures b.items[i] == a.items[i].(info := Image(InfoMatching(a, b, ShopMatching(a, b)), a.items[i].info),
                                      shop := Image(ShopMatching(a, b), a.items[i].shop))
  {
    var x, y := a.items[i], b.items[i];
    assert x.info in a.infos && y.info in b.infos;
    SameShopOwner(a, b, x.shop, y.shop);
    SameShopOwner(a, b, a.infos[x.info].shop, b.infos[y.info].shop);
    SamePlace(a, b, ShopMatching(a, b), x.info, y.info);
  }

  /* The whole store. */

  lemma SameViewShops(a: Db, b: Db)
    requires Integrity(a) && Integrity(b) && ViewOf(a) == ViewOf(b)
    ensures ShopNames(a.shops) == ShopNames(b.shops) && ShopsPair(a, b, ShopMatching(a, b))
  {
    assert ViewOf(a).shops == ViewOf(b).shops;
    ShopsMatch(a, b);
    forall s | s in a.shops { CataloguesMatch(a, b, s); }
  }

  lemma SameViewInfos(a: Db, b: Db, shop: map<Id, Id>)
    requires Integrity(a) && Integrity(b) && ShopsPair(a, b, shop)
    ensures InfosPair(a, b, InfoMatching(a, b, shop))
  {
    forall i | i in a.infos
      ensures ParametersOf(b, InfoMatching(a, b, shop)[i]) == ParametersOf(a, i)
    {
      InfosMatch(a, b, shop, i);
      assert ListingAt(b, InfoMatching(a, b, shop)[i]).parameters == ListingAt(a, i).parameters;
    }
  }

  lemma SameViewInfoRows(a: Db, b: Db, r: Ids)
    requires Integrity(a) && Integrity(b) && ShopsPair(a, b, r.shop) && RowsOf(a.products) == RowsOf(b.products)
    requires r.product == RowMatching(a.products, b.products) && r.info == InfoMatching(a, b, r.shop)
    ensures InfosRenamed(a.infos, b.infos, r)
  {
    forall i | i in a.infos
      ensures i in r.info && r.info[i] in b.infos
      ensures b.infos[r.info[i]] == a.infos[i].(product := Image(r.product, a.infos[i].product),
                                               shop := Image(r.shop, a.infos[i].shop))
    {
      InfoRowMatch(a, b, r.shop, i);
    }
  }

  lemma SameViewValueRows(a: Db, b: Db, r: Ids)
    requires Integrity(a) && Integrity(b) && InfosPair(a, b, r.info) && RowsOf(a.parameters) == RowsOf(b.parameters)
    requires r.parameter == RowMatching(a.parameters, b.parameters) && r.value == ValueMatching(a, b, r.info)
    ensures ValuesRenamed(a.values, b.values, r)
  {
    forall v | v in a.values
      ensures v in r.value && r.value[v] in b.values
      ensures b.values[r.value[v]] == a.values[v].(info := Image(r.info, a.values[v].info),
                                                  parameter := Image(r.parameter, a.values[v].parameter))
    {
      ValueMatch(a, b, r.info, v);
    }
  }

  lemma SameViewItems(a: Db, b: Db, r: Ids)
    requires Integrity(a) && Integrity(b) && ShopNames(a.shops) == ShopNames(b.shops) && Lines(a) == Lines(b)
    requires r.shop == ShopMatching(a, b) && ShopsPair(a, b, r.shop) && r.info == InfoMatching(a, b, r.shop)
    ensures ItemsRenamed(a.items, b.items, r)
  {
    KeysOfLines(a);
    KeysOfLines(b);
    forall i | i in a.items
      ensures b.items[i] == a.items[i].(info := Image(r.info, a.items[i].info), shop := Image(r.shop, a.items[i].shop))
    {
      assert Lines(a)[i] == Lines(b)[i];
      ItemMatch(a, b, i);
    }
  }

  /** Two stores with one view differ only in generated ids. */
  lemma SameViewIsRenaming(a: Db, b: Db) returns (r: Ids)
    requires Integrity(a) && Integrity(b) && ViewOf(a) == ViewOf(b)
    ensures Renamed(a, b, r)
  {
    SameViewTables(a, b);
    SameViewShops(a, b);
    var shop := ShopMatching(a, b);
    SameViewInfos(a, b, shop);
    var info := InfoMatching(a, b, shop);
    r := Ids(shop, RowMatching(a.products, b.products), RowMatching(a.parameters, b.parameters), info,
             ValueMatching(a, b, info));
    ShopsMatch(a, b);
    RowsMatch(a.products, b.products);
    RowsMatch(a.parameters, b.parameters);
    SameViewInfoRows(a, b, r);
    SameViewValueRows(a, b, r);
    LinksMatch(a, b);
    SameViewItems(a, b, r);
  }

  lemma SameViewTables(a: Db, b: Db)
    requires ViewOf(a) == ViewOf(b)
    ensures b.users == a.users && b.contacts == a.contacts && b.orders == a.orders && b.categories == a.categories
    ensures RowsOf(a.products) == RowsOf(b.products) && RowsOf(a.parameters) == RowsOf(b.parameters)
    ensures OwnerLinks(a) == OwnerLinks(b) && Lines(a) == Lines(b)
  {
    var v, w := ViewOf(a), ViewOf(b);
    assert v.products == w.products && v.parameters == w.parameters && v.lines == w.lines && v.links == w.links;
    assert v.users == w.users && v.contacts == w.contacts && v.orders == w.orders && v.categories == w.categories;
  }

  /* Imports, up to generated ids. */

  /** Wherever an import stopped, running it again leads to the store of the undisturbed run, up to generated ids. */
  lemma RetryIsRenaming(db: Db, user: Id, doc: Document, k: nat) returns (r: Ids)
    requires Integrity(db) && k <= |ImportProgram(user, doc)| && !Import(db, user, doc).failed
    ensures Renamed(Import(db, user, doc).db, Import(ImportPrefix(db, user, doc, k).db, user, doc).db, r)
  {
    CrashThenRetryConverges(db, user, doc, k);
    PrefixUnderway(db, user, doc, k);
    AcceptedFits(db, user, doc);
    AcceptedFits(ImportPrefix(db, user, doc, k).db, user, doc);
    r := SameViewIsRenaming(Import(db, user, doc).db, Import(ImportPrefix(db, user, doc, k).db, user, doc).db);
  }

  /** A second import of the document leaves the store as it is, up to generated ids. */
  lemma RepeatIsRenaming(db: Db, user: Id, doc: Document) returns (r: Ids)
    requires Integrity(db) && !Import(db, user, doc).failed
    ensures Renamed(Import(db, user, doc).db, Import(Import(db, user, doc).db, user, doc).db, r)
  {
    RepeatSucceeds(db, user, doc);
    r := SameViewIsRenaming(Import(db, user, doc).db, Import(Import(db, user, doc).db, user, doc).db);
  }

  /** Imports of two users that succeed in either order lead to one store, up to generated ids. */
  lemma OrderIsRenaming(db: Db, u1: Id, d1: Document, u2: Id, d2: Document) returns (r: Ids)
    requires Integrity(db) && u1 != u2
    requires !Import(db, u1, d1).failed && !Import(Import(db, u1, d1).db, u2, d2).failed
    requires !Import(db, u2, d2).failed && !Import(Import(db, u2, d2).db, u1, d1).failed
    ensures Renamed(Import(Import(db, u1, d1).db, u2, d2).db, Import(Import(db, u2, d2).db, u1, d1).db, r)
  {
    ImportsCommute(db, u1, d1, u2, d2);
    AcceptedFits(db, u1, d1);
    AcceptedFits(db, u2, d2);
    AcceptedFits(Import(db, u1, d1).db, u2, d2);
    AcceptedFits(Import(db, u2, d2).db, u1, d1);
    r := SameViewIsRenaming(Import(Import(db, u1, d1).db, u2, d2).db, Import(Import(db, u2, d2).db, u1, d1).db);
  }
}
