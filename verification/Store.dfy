/** The database the handlers share. Each method is one SQL statement; it changes the tables in place. */
module Storage {
  import opened Collections
  import opened Schema
  import opened Machine
  import Sql

  class Store {
    var users: map<Id, User>
    var contacts: map<Id, Id>
    var shops: map<Id, Shop>
    var categories: map<Id, string>
    var links: set<(Id, Id)>
    var products: map<Id, Product>
    var infos: map<Id, ProductInfo>
    var parameters: map<Id, string>
    var values: map<Id, ProductParameter>
    var orders: map<Id, Order>
    var items: map<Id, OrderItem>
    var next: Sequences

    constructor (users: map<Id, User>)
      ensures State() == Empty(users)
    {
      this.users := users;
      contacts, shops, categories, links, products := map[], map[], map[], {}, map[];
      infos, parameters, values, orders, items := map[], map[], map[], map[], map[];
      next := Sequences(1, 1, 1, 1, 1, 1, 1, 1);
    }

    ghost function State(): Db
      reads this
    {
      Db(users, contacts, shops, categories, links, products, infos, parameters, values, orders, items, next)
    }

    /** An insert either takes the next id and leaves the state the statement describes, or changes nothing. */
    twostate predicate Inserted(new id: Option<Id>, nextId: Id, r: Option<Db>)
      reads this
    {
      match r
      case None => id == None && State() == old(State())
      case Some(db) => id == Some(nextId) && State() == db
    }

    /** A statement either leaves the state it describes or changes nothing. */
    twostate predicate Applied(ok: bool, r: Option<Db>)
      reads this
    {
      ok == r.Some? && State() == if r.Some? then r.value else old(State())
    }

    static method Only(ids: set<Id>) returns (r: Lookup)
      ensures r == Get(ids)
    {
      if ids == {} { return Missing; }
      var x :| x in ids;
      if ids == {x} { return One(x); }
      return Many;
    }

    method GetShop(name: string) returns (r: Lookup)
      ensures r == Get(ShopsNamed(State().shops, name))
    {
      r := Only(ShopsNamed(shops, name));
    }

    method GetProduct(key: Product) returns (r: Lookup)
      ensures r == Get(WithValue(State().products, key))
    {
      r := Only(WithValue(products, key));
    }

    method GetParameter(name: string) returns (r: Lookup)
      ensures r == Get(WithValue(State().parameters, name))
    {
      r := Only(WithValue(parameters, name));
    }

    method GetBasket(user: Id) returns (r: Lookup)
      ensures r == Get(BasketsOf(State().orders, user))
    {
      r := Only(BasketsOf(orders, user));
    }

    method InsertShop(row: Shop) returns (id: Option<Id>)
      modifies this
      ensures Inserted(id, old(next.shop), Sql.InsertShop(old(State()), row))
    {
      if |row.name| > SHOP_NAME || row.user !in users || (exists s | s in shops :: Owns(shops, row.user, s)) {
        return None;
      }
      id := Some(next.shop);
      shops := shops[next.shop := row];
      next := next.(shop := next.shop + 1);
    }

    /** `Category.objects.get_or_create(id=id, name=name)`: the primary key decides. */
    method GetOrCreateCategory(id: Id, name: string) returns (ok: bool)
      modifies this
      ensures id !in old(categories) ==> Applied(ok, Sql.InsertCategory(old(State()), id, name))
      ensures id in old(categories) ==> ok == (old(categories)[id] == name) && State() == old(State())
    {
      if id in categories { return categories[id] == name; }
      if |name| > CATEGORY_NAME || !BigInt(id) { return false; }
      categories := categories[id := name];
      return true;
    }

    method LinkCategory(category: Id, shop: Id) returns (ok: bool)
      modifies this
      ensures Applied(ok, Sql.LinkCategory(old(State()), category, shop))
    {
      if category !in categories || shop !in shops { return false; }
      links := links + {(category, shop)};
      return true;
    }

    method SaveCategory(id: Id, name: string) returns (ok: bool)
      modifies this
      ensures Applied(ok, Sql.SaveCategory(old(State()), id, name))
    {
      if |name| > CATEGORY_NAME || !BigInt(id) { return false; }
      categories := categories[id := name];
      return true;
    }

    method DeleteInfosOf(shop: Id)
      modifies this
      ensures State() == Sql.DeleteInfosOf(old(State()), shop)
    {
      var gone := set i | i in infos && infos[i].shop == shop;
      infos := infos - gone;
      values := map v | v in values && values[v].info !in gone :: values[v];
      items := map i | i in items && items[i].info !in gone :: items[i];
    }

    method InsertProduct(row: Product) returns (id: Option<Id>)
      modifies this
      ensures Inserted(id, old(next.product), Sql.InsertProduct(old(State()), row))
    {
      if |row.name| > PRODUCT_NAME || row.category !in categories { return None; }
      id := Some(next.product);
      products := products[next.product := row];
      next := next.(product := next.product + 1);
    }

    method InsertInfo(row: ProductInfo) returns (id: Option<Id>)
      modifies this
      ensures Inserted(id, old(next.info), Sql.InsertInfo(old(State()), row))
    {
      if !InfoInRange(row) || row.product !in products || row.shop !in shops { return None; }
      id := Some(next.info);
      infos := infos[next.info := row];
      next := next.(info := next.info + 1);
    }

    method InsertParameter(name: string) returns (id: Option<Id>)
      modifies this
      ensures Inserted(id, old(next.parameter), Sql.InsertParameter(old(State()), name))
    {
      if |name| > PARAMETER_NAME { return None; }
      id := Some(next.parameter);
      parameters := parameters[next.parameter := name];
      next := next.(parameter := next.parameter + 1);
    }

    method InsertValue(row: ProductParameter) returns (id: Option<Id>)
      modifies this
      ensures Inserted(id, old(next.value), Sql.InsertValue(old(State()), row))
    {
      if |row.value| > PARAMETER_VALUE || row.info !in infos || row.parameter !in parameters
         || (exists v | v in values :: Holds(values, row.info, row.parameter, v)) {
        return None;
      }
      id := Some(next.value);
      values := values[next.value := row];
      next := next.(value := next.value + 1);
    }

    method InsertBasket(user: Id) returns (id: Option<Id>)
      modifies this
      ensures Inserted(id, old(next.order), Sql.InsertBasket(old(State()), user))
    {
      if user !in users { return None; }
      id := Some(next.order);
      orders := orders[next.order := Order(user, Basket, None)];
      next := next.(order := next.order + 1);
    }

    method SaveEntry(e: Entry) returns (ok: bool)
      modifies this
      ensures Applied(ok, Machine.SaveEntry(old(State()), e))
    {
      if e.NotAnObject? { return false; }
      // is_valid
      if !KeyAccepted(e.info, infos) || !KeyAccepted(e.shop, shops) || !KeyAccepted(e.order, orders) { return false; }
      if !e.quantity.Given? || !Positive(e.quantity.value) { return false; }
      // save
      if e.info.Omitted? || e.shop.Omitted? || e.order.Omitted? { return false; }
      items := items[next.item := OrderItem(e.order.value, e.info.value, e.shop.value, e.quantity.value)];
      next := next.(item := next.item + 1);
      return true;
    }

    method UpdateQuantity(basket: Id, id: int, quantity: int) returns (updated: Option<nat>)
      modifies this
      ensures match Sql.UpdateQuantity(old(State()), basket, id, quantity)
              case None => updated == None && State() == old(State())
              case Some((db, n)) => updated == Some(n) && State() == db
    {
      if !BigInt(id) { return Some(0); }
      if !(-MAX_INT - 1 <= quantity <= MAX_INT) { return None; }
      if id !in items || items[id].order != basket { return Some(0); }
      if quantity < 0 { return None; }
      items := items[id := items[id].(quantity := quantity)];
      return Some(1);
    }

    method DeleteItems(basket: Id, ids: seq<int>) returns (deleted: nat)
      modifies this
      ensures (State(), deleted) == Sql.DeleteItems(old(State()), basket, ids)
    {
      var gone := set i | i in items && items[i].order == basket && i in ids;
      items := items - gone;
      return |gone|;
    }

    method DeleteProduct(product: int) returns (ok: bool)
      modifies this
      ensures Applied(ok, if product in old(products) then Some(Sql.DeleteProduct(old(State()), product)) else None)
    {
      if product !in products { return false; }
      var gone := set i | i in infos && infos[i].product == product;
      products := map p | p in products && p != product :: products[p];
      infos := infos - gone;
      values := map v | v in values && values[v].info !in gone :: values[v];
      items := map i | i in items && items[i].info !in gone :: items[i];
      return true;
    }

    method SaveOrder(id: Id, row: Order) returns (ok: bool)
      modifies this
      ensures Applied(ok, Sql.SaveOrder(old(State()), id, row))
    {
      if row.user !in users || (row.contact.Some? && row.contact.value !in contacts) || id >= next.order {
        return false;
      }
      orders := orders[id := row];
      return true;
    }

    method DeleteContacts(user: Id, ids: seq<int>) returns (deleted: nat)
      modifies this
      ensures (State(), deleted) == Sql.DeleteContacts(old(State()), user, ids)
    {
      var goneContacts := set c | c in contacts && contacts[c] == user && c in ids;
      var goneOrders := set o | o in orders && orders[o].contact.Some? && orders[o].contact.value in goneContacts;
      var goneItems := set i | i in items && items[i].order in goneOrders;
      contacts, orders, items := contacts - goneContacts, orders - goneOrders, items - goneItems;
      return |goneContacts| + |goneOrders| + |goneItems|;
    }
  }
}
