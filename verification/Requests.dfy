/** The requests that change the store, and the program each handler runs for one (backend/views.py). */
module Requests {
  import opened Collections
  import opened Schema
  import opened Machine
  import opened PriceList
  import opened IdList

  /** One element of the list sent to change quantities. */
  datatype PutEntry = NotAnEntry | PutEntry(id: Field, quantity: Field)

  /** The `contact` of an order request: null, an id, or something that is no id. */
  datatype ContactField = NoContact | ContactId(id: Id) | NotAContact

  /** Requests whose body lacks a required key or is not JSON are answered before any statement; they appear
      here only where a later piece of the body can be at fault. */
  datatype Request =
    | ImportPriceList(user: Id, doc: Document)
    | AddContact(user: Id)
    | DeleteContacts(user: Id, items: string)
    | PostBasket(user: Id, entries: seq<Entry>)
    | PutBasket(user: Id, changes: seq<PutEntry>)
    | DeleteBasket(user: Id, items: string)
    | PostOrder(user: Id, id: Field, contact: ContactField)
    | DeleteProduct(user: Id, product: int)

  function AddLines(entries: seq<Entry>): seq<Stmt> {
    if entries == [] then [] else [AddLine(entries[0])] + AddLines(entries[1..])
  }

  /** A missing key raises; a value of another type skips the entry, and then the quantity is not even read
      when it is the id that has it. */
  function ChangeProgram(e: PutEntry): seq<Stmt> {
    if e.NotAnEntry? || e.id.Omitted? then [Raise]
    else if e.id.Invalid? then []
    else if e.quantity.Omitted? then [Raise]
    else if e.quantity.Invalid? then []
    else [SetLine(e.id.value, e.quantity.value)]
  }

  function SetLines(changes: seq<PutEntry>): seq<Stmt> {
    if changes == [] then [] else ChangeProgram(changes[0]) + SetLines(changes[1..])
  }

  function OpenBasket(user: Id): seq<Stmt> { [FindBasket(user), EnsureBasket(user)] }

  function Placing(contact: ContactField): Stmt {
    match contact
    case NotAContact => Raise
    case NoContact => PlaceOrder(None)
    case ContactId(c) => PlaceOrder(Some(c))
  }

  function OrderProgram(user: Id, id: Field, contact: ContactField): seq<Stmt> {
    match id
    case Omitted => []
    case Invalid => [Raise]
    case Given(order) => [LoadOrder(order, user), Placing(contact)]
  }

  function Program(r: Request): seq<Stmt> {
    match r
    case ImportPriceList(user, doc) => ImportProgram(user, doc)
    case AddContact(user) => [CreateContact(user)]
    case DeleteContacts(user, items) =>
      if items == "" || StrictIds(items).None? then [] else [RemoveContacts(user, StrictIds(items).value)]
    case PostBasket(user, entries) => OpenBasket(user) + AddLines(entries)
    case PutBasket(user, changes) => OpenBasket(user) + SetLines(changes)
    case DeleteBasket(user, items) =>
      if items == "" then [] else OpenBasket(user) + [RemoveLines(LenientIds(items))]
    case PostOrder(user, id, contact) => OrderProgram(user, id, contact)
    case DeleteProduct(_, product) => [RemoveProduct(product)]
  }

  /** The request served alone, to its end. */
  ghost function Serve(db: Db, r: Request): Run { Exec(Begin(db), Program(r)) }

  lemma DeleteBasketServed(db: Db, user: Id, items: string)
    requires items != ""
    ensures var basket := Exec(Begin(db), OpenBasket(user));
      Serve(db, DeleteBasket(user, items))
      == if basket.failed then basket else StepRemoveLines(basket, LenientIds(items))
  {
    var last := RemoveLines(LenientIds(items));
    ExecConcat(Begin(db), OpenBasket(user), [last]);
    ExecTwo(Exec(Begin(db), OpenBasket(user)), last, last);
  }

  lemma DeleteProductServed(db: Db, user: Id, product: int)
    ensures Serve(db, DeleteProduct(user, product)) == StepRemoveProduct(Begin(db), product)
  {
    ExecTwo(Begin(db), RemoveProduct(product), Raise);
  }

  lemma OrderRequestServed(db: Db, user: Id, order: int, contact: ContactField)
    ensures var loaded := StepLoadOrder(Begin(db), order, user);
      Serve(db, PostOrder(user, Given(order), contact)) ==
      if loaded.failed || contact.NotAContact? then Fail(loaded) else StepPlaceOrder(loaded, Placing(contact).contact)
  {
    ExecTwo(Begin(db), LoadOrder(order, user), Placing(contact));
  }

  /** The part of the program that is run when it is killed after `cut` statements, if it has that many. */
  function Issued(r: Request, cut: nat): seq<Stmt> {
    if cut <= |Program(r)| then Program(r)[..cut] else Program(r)
  }

  ghost function ServeUpTo(db: Db, r: Request, cut: nat): Run { Exec(Begin(db), Issued(r, cut)) }
}
