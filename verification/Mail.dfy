/** Who is told about a new order: `send_new_order_email_task` (backend/tasks.py). */
module Mail {
  import opened Collections
  import opened Schema
  import opened Money
  import opened Storage

  /** The shops recorded in the lines of an order. */
  function RecordedShops(db: Db, order: Id): set<Id> {
    set i | i in db.items && db.items[i].order == order :: db.items[i].shop
  }

  function EmailOf(db: Db, shop: Id): string {
    var user := ShopAt(db, shop).user;
    if user in db.users then db.users[user].email else ""
  }

  /** `order_items.values_list('shop__user__email').distinct()` */
  function ShopEmails(db: Db, order: Id): set<string> {
    set s | s in RecordedShops(db, order) :: EmailOf(db, s)
  }

  /** The address of the owner of the shop recorded in line `i`. */
  ghost predicate WritesFor(db: Db, order: Id, i: Id, e: string)
    requires Integrity(db)
  {
    i in db.items && db.items[i].order == order && db.users[db.shops[db.items[i].shop].user].email == e
  }

  /** The shop addresses are those of the owners of the shops recorded in the lines, whoever sells the goods. */
  lemma AddressesAreOfRecordedOwners(db: Db, order: Id, e: string)
    requires Integrity(db)
    ensures e in ShopEmails(db, order) <==> exists i :: WritesFor(db, order, i, e)
  {
    if e in ShopEmails(db, order) {
      var s :| s in RecordedShops(db, order) && EmailOf(db, s) == e;
      var i :| i in db.items && db.items[i].order == order && db.items[i].shop == s;
      assert WritesFor(db, order, i, e);
    }
    if i :| WritesFor(db, order, i, e) {
      assert db.items[i].shop in RecordedShops(db, order) && EmailOf(db, db.items[i].shop) == e;
    }
  }

  predicate NoRepeats<T(==)>(s: seq<T>) { forall j, k | 0 <= j < k < |s| :: s[j] != s[k] }

  /** The addresses written to, in order: first the customer's, then each shop address once. It raises
      before any mail when the user is unknown, and after the first when the order is. */
  method SendNewOrderEmail(store: Store, user: Id, order: Id) returns (sent: seq<string>, ok: bool)
    ensures user !in store.users ==> !ok && sent == []
    ensures user in store.users && order !in store.orders ==> !ok && sent == [store.users[user].email]
    ensures user in store.users && order in store.orders ==>
      && ok && sent != [] && sent[0] == store.users[user].email
      && NoRepeats(sent[1..]) && (set e | e in sent[1..]) == ShopEmails(store.State(), order)
    ensures ok && Integrity(store.State()) ==>
      forall e :: e in sent[1..] <==> exists i :: WritesFor(store.State(), order, i, e)
  {
    if user !in store.users { return [], false; }
    sent := [store.users[user].email];
    if order !in store.orders { return sent, false; }
    var items, shops, users := store.items, store.shops, store.users;
    var emails := set i | i in items && items[i].order == order ::
      (var s := if items[i].shop in shops then shops[items[i].shop] else NO_SHOP;
       if s.user in users then users[s.user].email else "");
    assert emails == ShopEmails(store.State(), order) by {
      ghost var db := store.State();
      forall e | e in emails
        ensures e in ShopEmails(db, order)
      {
        var i :| i in items && items[i].order == order && e == EmailOf(db, items[i].shop);
        assert items[i].shop in RecordedShops(db, order);
      }
      forall e | e in ShopEmails(db, order)
        ensures e in emails
      {
        var s :| s in RecordedShops(db, order) && e == EmailOf(db, s);
        var i :| i in items && items[i].order == order && items[i].shop == s;
      }
    }
    var rest := emails;
    while rest != {}
      invariant rest <= emails && sent != [] && sent[0] == store.users[user].email
      invariant NoRepeats(sent[1..])
      invariant forall e :: e in sent[1..] <==> e in emails && e !in rest
    {
      var email :| email in rest;
      assert (sent + [email])[1..] == sent[1..] + [email];
      rest := rest - {email};
      sent := sent + [email];
    }
    if Integrity(store.State()) {
      forall e
        ensures e in sent[1..] <==> exists i :: WritesFor(store.State(), order, i, e)
      {
        AddressesAreOfRecordedOwners(store.State(), order, e);
      }
    }
    return sent, true;
  }

  lemma {:induction false} ImageOfDistinct(db: Db, shops: set<Id>)
    requires forall s, t | s in shops && t in shops && EmailOf(db, s) == EmailOf(db, t) :: s == t
    ensures |set s | s in shops :: EmailOf(db, s)| == |shops|
    decreases |shops|
  {
    var emails := set s | s in shops :: EmailOf(db, s);
    if s :| s in shops {
      var rest := shops - {s};
      ImageOfDistinct(db, rest);
      var fewer := set t | t in rest :: EmailOf(db, t);
      assert EmailOf(db, s) !in fewer;
      assert emails == fewer + {EmailOf(db, s)};
    } else {
      assert emails == {};
    }
  }

  /** Addresses are unique and a shop has one owner, so there is one shop address for each shop recorded in the
      order. */
  lemma OneAddressPerShop(db: Db, order: Id)
    requires Integrity(db) && EmailsUnique(db.users)
    ensures |ShopEmails(db, order)| == |RecordedShops(db, order)|
  {
    forall s | s in RecordedShops(db, order)
      ensures s in db.shops && db.shops[s].user in db.users
    {
      var i :| i in db.items && db.items[i].order == order && db.items[i].shop == s;
    }
    forall s, t | s in RecordedShops(db, order) && t in RecordedShops(db, order) && EmailOf(db, s) == EmailOf(db, t)
      ensures s == t
    {
      assert db.shops[s].user == db.shops[t].user;
      assert Owns(db.shops, db.shops[s].user, s) && Owns(db.shops, db.shops[s].user, t);
    }
    ImageOfDistinct(db, RecordedShops(db, order));
  }

  /** When every line records the shop that sells its product, the shops told are exactly those whose own list
      shows the placed order. */
  lemma ShopsToldAreShopsListed(db: Db, order: Id)
    requires Integrity(db) && order in db.orders && db.orders[order].status != Basket
    requires forall i | i in db.items && db.items[i].order == order ::
      db.items[i].shop == InfoAt(db, db.items[i].info).shop
    ensures forall s | s in db.shops :: s in RecordedShops(db, order) <==> order in ListedFor(db, s)
  {
    forall s | s in db.shops
      ensures s in RecordedShops(db, order) <==> order in ListedFor(db, s)
    {
      if s in RecordedShops(db, order) {
        var i :| i in db.items && db.items[i].order == order && db.items[i].shop == s;
        assert i in ShopLineValues(db, s, order);
      }
      if i :| i in ShopLineValues(db, s, order) {
        assert db.items[i].shop == s;
      }
    }
  }
}
