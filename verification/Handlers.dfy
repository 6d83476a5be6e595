/** The handlers that change orders and contacts (backend/views.py), over the shared store. */
module Handlers {
  import opened Collections
  import opened Schema
  import opened Machine
  import opened Requests
  import opened IdList
  import opened Storage
  import opened Tasks

  /** `Order.objects.get_or_create(user_id=user, status='basket')` */
  method OpenBasketOf(store: Store, user: Id, ghost c: Run) returns (basket: Option<Id>, ghost out: Run)
    requires Reached(store, true, c)
    modifies store
    ensures out == Exec(c, OpenBasket(user)) && Reached(store, basket.Some?, out)
    ensures basket.Some? ==> out.vars == c.vars.(basket := At(basket.value))
  {
    out := Step(Step(c, FindBasket(user)), EnsureBasket(user));
    ExecTwo(c, FindBasket(user), EnsureBasket(user));
    var found := store.GetBasket(user);
    match found
    case Missing => basket := store.InsertBasket(user);
    case One(b) => basket := Some(b);
    case Many => basket := None;
  }

  /** BasketView.post: the number of created lines, or None for an error answer. */
  method PostBasketOf(store: Store, user: Id, entries: seq<Entry>) returns (created: Option<nat>)
    modifies store
    ensures store.State() == Serve(old(store.State()), PostBasket(user, entries)).db
    ensures created == if Serve(old(store.State()), PostBasket(user, entries)).failed then None else Some(|entries|)
  {
    ghost var c := Begin(store.State());
    ExecConcat(c, OpenBasket(user), AddLines(entries));
    var basket, run := OpenBasketOf(store, user, c);
    ghost var final := Exec(run, AddLines(entries));
    if basket.None? {
      ExecFailed(run, AddLines(entries));
      return None;
    }
    for i := 0 to |entries|
      invariant Reached(store, true, run) && run.vars.basket == At(basket.value)
      invariant Exec(run, AddLines(entries[i..])) == final
    {
      var e := entries[i];
      assert entries[i..][1..] == entries[i + 1..];
      ExecConcat(run, [AddLine(e)], AddLines(entries[i + 1..]));
      ExecTwo(run, AddLine(e), Raise);
      var ok := false;
      if e.Entry? { ok := store.SaveEntry(e.(order := Given(basket.value))); }
      run := Step(run, AddLine(e));
      if !ok {
        ExecFailed(run, AddLines(entries[i + 1..]));
        return None;
      }
    }
    return Some(|entries|);
  }

  /** One entry of a PUT: how many lines it updated, or None when it raises. */
  method ChangeLine(store: Store, basket: Id, e: PutEntry, ghost c: Run) returns (updated: Option<nat>, ghost out: Run)
    requires Reached(store, true, c) && c.vars.basket == At(basket)
    modifies store
    ensures out == Exec(c, ChangeProgram(e)) && Reached(store, updated.Some?, out)
    ensures updated.Some? ==> out.vars == c.vars.(count := c.vars.count + updated.value)
  {
    out := Exec(c, ChangeProgram(e));
    if e.NotAnEntry? || e.id.Omitted? || (e.id.Given? && e.quantity.Omitted?) {
      ExecTwo(c, Raise, Raise);
      return None, out;
    }
    if e.id.Invalid? || e.quantity.Invalid? { return Some(0), out; }
    ExecTwo(c, SetLine(e.id.value, e.quantity.value), Raise);
    updated := store.UpdateQuantity(basket, e.id.value, e.quantity.value);
  }

  /** BasketView.put: the number of updated lines, or None when an exception ends the request. */
  method PutBasketOf(store: Store, user: Id, changes: seq<PutEntry>) returns (updated: Option<nat>)
    modifies store
    ensures store.State() == Serve(old(store.State()), PutBasket(user, changes)).db
    ensures var out := Serve(old(store.State()), PutBasket(user, changes));
      updated == if out.failed then None else Some(out.vars.count)
  {
    ghost var c := Begin(store.State());
    ExecConcat(c, OpenBasket(user), SetLines(changes));
    var basket, run := OpenBasketOf(store, user, c);
    ghost var final := Exec(run, SetLines(changes));
    if basket.None? {
      ExecFailed(run, SetLines(changes));
      return None;
    }
    var objectsUpdated := 0;
    for i := 0 to |changes|
      invariant Reached(store, true, run) && run.vars.basket == At(basket.value) && run.vars.count == objectsUpdated
      invariant Exec(run, SetLines(changes[i..])) == final
    {
      assert changes[i..][1..] == changes[i + 1..];
      ExecConcat(run, ChangeProgram(changes[i]), SetLines(changes[i + 1..]));
      var n;
      n, run := ChangeLine(store, basket.value, changes[i], run);
      if n.None? {
        ExecFailed(run, SetLines(changes[i + 1..]));
        return None;
      }
      objectsUpdated := objectsUpdated + n.value;
    }
    return Some(objectsUpdated);
  }

  /** BasketView.delete: the number of deleted lines, or None for an error answer. */
  method DeleteBasketOf(store: Store, user: Id, items: string) returns (deleted: Option<nat>)
    modifies store
    ensures store.State() == Serve(old(store.State()), DeleteBasket(user, items)).db
    ensures var out := Serve(old(store.State()), DeleteBasket(user, items));
      deleted == if items == "" || out.failed then None else Some(out.vars.count)
  {
    if items == "" { return None; }
    DeleteBasketServed(store.State(), user, items);
    var basket, run := OpenBasketOf(store, user, Begin(store.State()));
    if basket.None? { return None; }
    var n := store.DeleteItems(basket.value, LenientIds(items));
    return Some(n);
  }

  /** OrderView.post: whether the order was placed, and the mail task it queues, for this user and order. */
  method PostOrderOf(store: Store, user: Id, id: Field, contact: ContactField)
    returns (placed: bool, mail: Option<(Id, int)>)
    modifies store
    ensures store.State() == Serve(old(store.State()), PostOrder(user, id, contact)).db
    ensures placed <==> id.Given? && !Serve(old(store.State()), PostOrder(user, id, contact)).failed
    ensures mail == if placed then Some((user, id.value)) else None
  {
    if !id.Given? {
      ExecTwo(Begin(store.State()), Raise, Raise);
      return false, None;
    }
    OrderRequestServed(store.State(), user, id.value, contact);
    if id.value !in store.orders || store.orders[id.value].user != user || contact.NotAContact? { return false, None; }
    var row := store.orders[id.value];
    placed := store.SaveOrder(id.value, Order(row.user, New, if contact.NoContact? then None else Some(contact.id)));
    mail := if placed then Some((user, id.value)) else None;
  }

  /** ProductImageViewSet.destroy, open to every user: whether the product was there. */
  method DeleteProductOf(store: Store, user: Id, product: int) returns (deleted: bool)
    modifies store
    ensures store.State() == Serve(old(store.State()), DeleteProduct(user, product)).db
    ensures deleted == !Serve(old(store.State()), DeleteProduct(user, product)).failed
  {
    DeleteProductServed(store.State(), user, product);
    deleted := store.DeleteProduct(product);
  }

  /** ContactView.delete: the number of deleted rows, or None for an error answer. */
  method DeleteContactsOf(store: Store, user: Id, items: string) returns (deleted: Option<nat>)
    modifies store
    ensures store.State() == Serve(old(store.State()), DeleteContacts(user, items)).db
    ensures deleted == if items == "" || StrictIds(items).None? then None
                       else Some(Serve(old(store.State()), DeleteContacts(user, items)).vars.count)
  {
    if items == "" { return None; }
    var ids := StrictIds(items);
    if ids.None? { return None; }
    ghost var c := Begin(store.State());
    ExecTwo(c, RemoveContacts(user, ids.value), Raise);
    var n := store.DeleteContacts(user, ids.value);
    return Some(n);
  }
}
