/** Exactly when a line of a placed order goes, in one request and over serial runs, each request finished, failed or
    killed midway. */
module LineLoss {
  import opened Collections
  import opened Schema
  import opened Machine
  import opened PriceList
  import opened Requests
  import opened IdList
  import opened Underway
  import opened Outcome
  import opened Money
  import opened Serial
  import opened OrderLife
  import Sql

  predicate LineOf(db: Db, o: Id, i: Id) { i in db.items && db.items[i].order == o }

  /** The statements of an import before it deletes the old rows. */
  function UntilClear(user: Id, doc: Document): seq<Stmt> {
    ShopProgram(user, doc) + OptionalCategoriesProgram(doc)
  }

  /** The import gets as far as deleting the old rows of the shop. */
  ghost predicate Clears(db: Db, user: Id, doc: Document, cut: nat) {
    && doc.shop.Some? && ShopOk(db, user, doc.shop.value)
    && doc.categories.Some? && CategoriesOk(db.categories, doc.categories.value)
    && cut > |UntilClear(user, doc)|
  }

  /** The request takes line `i` of order `o`: it deletes the old rows of the shop that sells it, or the product it
      sells, or the contact of the order. */
  ghost predicate Takes(db: Db, r: Request, cut: nat, o: Id, i: Id) {
    || (ImportsSellerOf(db, r, i) && Clears(db, r.user, r.doc, cut))
    || (DeletesProductOf(db, r, i) && cut > 0)
    || (DeletesContactOf(db, r, o) && cut > 0)
  }

  /* Imports. */

  predicate LeavesLines(s: Stmt) { (OfImport(s) && !s.ClearShop?) || s.Raise? }

  lemma {:induction false} ExecLeavesLines(c: Run, program: seq<Stmt>)
    requires forall s | s in program :: LeavesLines(s)
    ensures Exec(c, program).db.items == c.db.items
    decreases |program|
  {
    if program == [] {
    } else {
      assert LeavesLines(program[0]);
      StepFramed(c, program[0]);
      ExecLeavesLines(Step(c, program[0]), program[1..]);
    }
  }

  lemma {:induction false} CategoriesLeaveLines(cs: seq<CategoryEntry>)
    ensures forall s | s in CategoriesProgram(cs) :: LeavesLines(s)
  {
    if cs == [] {
    } else {
      CategoriesLeaveLines(cs[1..]);
    }
  }

  lemma {:induction false} ParametersLeaveLines(ps: seq<Parameter>)
    ensures forall s | s in ParametersProgram(ps) :: LeavesLines(s)
  {
    if ps == [] {
    } else {
      ParametersLeaveLines(ps[1..]);
    }
  }

  lemma {:induction false} GoodsLeaveLines(gs: seq<Good>)
    ensures forall s | s in GoodsProgram(gs) :: LeavesLines(s)
  {
    if gs == [] {
    } else {
      GoodLeavesLines(gs[0]);
      GoodsLeaveLines(gs[1..]);
    }
  }

  lemma GoodLeavesLines(g: Good)
    ensures forall s | s in GoodProgram(g) :: LeavesLines(s)
  {
    if g.parameters.Some? { ParametersLeaveLines(g.parameters.value); }
  }

  lemma UntilClearLeavesLines(user: Id, doc: Document)
    ensures forall s | s in UntilClear(user, doc) :: LeavesLines(s)
  {
    if doc.categories.Some? { CategoriesLeaveLines(doc.categories.value); }
  }

  lemma GoodsProgramLeavesLines(doc: Document)
    ensures forall s | s in OptionalGoodsProgram(doc) :: LeavesLines(s)
  {
    if doc.goods.Some? { GoodsLeaveLines(doc.goods.value); }
  }

  /** The run up to the deletion of the old rows and with it. */
  ghost function ToClear(db: Db, user: Id, doc: Document): Run {
    Exec(Exec(Begin(db), UntilClear(user, doc)), [ClearShop])
  }

  lemma ToClearSucceeds(db: Db, user: Id, doc: Document)
    requires Integrity(db)
    ensures var run := ToClear(db, user, doc);
      && (!run.failed <==> Clears(db, user, doc, |UntilClear(user, doc)| + 1))
      && (!run.failed ==> run.vars.shop.Some? && Cleared(db, run.db, user, doc, run.vars.shop.value))
      && (run.failed ==> run.db.items == db.items)
  {
    ExecConcat(Begin(db), ShopProgram(user, doc), OptionalCategoriesProgram(doc));
    UpToClear(db, user, doc);
    UntilClearLeavesLines(user, doc);
    ExecLeavesLines(Begin(db), UntilClear(user, doc));
    ExecTwo(Exec(Begin(db), UntilClear(user, doc)), ClearShop, ClearShop);
  }

  lemma IssuedWithin(r: Request, cut: nat, head: seq<Stmt>, rest: seq<Stmt>)
    requires Program(r) == head + rest && cut <= |head|
    ensures Issued(r, cut) == head[..cut]
  {
  }

  lemma IssuedBeyond(r: Request, cut: nat, head: seq<Stmt>, rest: seq<Stmt>) returns (issued: seq<Stmt>)
    requires Program(r) == head + rest && cut >= |head|
    ensures Issued(r, cut) == head + issued && forall s | s in issued :: s in rest
  {
    issued := if cut <= |Program(r)| then rest[..cut - |head|] else rest;
  }

  /** An import stopped late enough: the deletion, and statements that leave lines alone. */
  lemma StoppedAfterClear(db: Db, user: Id, doc: Document, cut: nat)
    requires cut > |UntilClear(user, doc)|
    ensures ServeUpTo(db, ImportPriceList(user, doc), cut).db.items == ToClear(db, user, doc).db.items
  {
    var head, goods := UntilClear(user, doc) + [ClearShop], OptionalGoodsProgram(doc);
    assert ImportProgram(user, doc) == head + goods;
    var rest := IssuedBeyond(ImportPriceList(user, doc), cut, head, goods);
    ExecConcat(Begin(db), UntilClear(user, doc), [ClearShop]);
    ExecConcat(Begin(db), head, rest);
    GoodsProgramLeavesLines(doc);
    ExecLeavesLines(ToClear(db, user, doc), rest);
  }

  lemma Associates<T>(a: seq<T>, b: seq<T>, c: seq<T>)
    ensures a + b + c == a + (b + c)
  {
  }

  lemma ImportComesApart(user: Id, doc: Document)
    ensures ImportProgram(user, doc) == UntilClear(user, doc) + ([ClearShop] + OptionalGoodsProgram(doc))
  {
    Associates(UntilClear(user, doc), [ClearShop], OptionalGoodsProgram(doc));
  }

  lemma StoppedBeforeClear(db: Db, user: Id, doc: Document, cut: nat)
    requires cut <= |UntilClear(user, doc)|
    ensures ServeUpTo(db, ImportPriceList(user, doc), cut).db.items == db.items
  {
    var head, rest := UntilClear(user, doc), [ClearShop] + OptionalGoodsProgram(doc);
    ImportComesApart(user, doc);
    IssuedWithin(ImportPriceList(user, doc), cut, head, rest);
    UntilClearLeavesLines(user, doc);
    assert forall s | s in head[..cut] :: s in head;
    ExecLeavesLines(Begin(db), head[..cut]);
  }

  /** It is a prefix of the import. */
  lemma ToClearIsPrefix(db: Db, user: Id, doc: Document)
    requires Integrity(db)
    ensures var k := |UntilClear(user, doc)| + 1;
      && k <= |ImportProgram(user, doc)| && ImportProgram(user, doc)[k..] == OptionalGoodsProgram(doc)
      && ToClear(db, user, doc) == ImportPrefix(db, user, doc, k)
    ensures Moved(db, ToClear(db, user, doc).db, user, doc)
  {
    var head, k := UntilClear(user, doc) + [ClearShop], |UntilClear(user, doc)| + 1;
    assert ImportProgram(user, doc) == head + OptionalGoodsProgram(doc);
    assert ImportProgram(user, doc)[..k] == head;
    ExecConcat(Begin(db), UntilClear(user, doc), [ClearShop]);
    PrefixUnderway(db, user, doc, k);
  }

  /** Once the old rows are deleted, no line sells them. */
  lemma ClearTakesLine(db: Db, user: Id, doc: Document, i: Id)
    requires Integrity(db) && i in db.items && Sells(db, user, db.items[i].info) && !ToClear(db, user, doc).failed
    ensures i !in ToClear(db, user, doc).db.items
  {
    var run := ToClear(db, user, doc);
    ToClearSucceeds(db, user, doc);
    ToClearIsPrefix(db, user, doc);
    OldLinesGone(db, run.db, user, doc, run.vars.shop.value, i);
  }

  lemma OldLinesGone(db: Db, cleared: Db, user: Id, doc: Document, shop: Id, i: Id)
    requires Integrity(db) && Moved(db, cleared, user, doc) && Cleared(db, cleared, user, doc, shop)
    requires i in db.items && Sells(db, user, db.items[i].info)
    ensures i !in cleared.items
  {
    var info := db.items[i].info;
    SoldByShop(db, cleared.shops, cleared.next.shop, user, doc, shop, info);
    assert info !in Sql.InfosOf(cleared, shop);
  }

  lemma ImportTakesLineExactly(db: Db, r: Request, cut: nat, i: Id)
    requires Integrity(db) && ImportsSellerOf(db, r, i)
    ensures i !in ServeUpTo(db, r, cut).db.items <==> Clears(db, r.user, r.doc, cut)
  {
    var user, doc := r.user, r.doc;
    assert r == ImportPriceList(user, doc);
    if cut <= |UntilClear(user, doc)| {
      StoppedBeforeClear(db, user, doc, cut);
    } else {
      StoppedAfterClear(db, user, doc, cut);
      ToClearSucceeds(db, user, doc);
      if !ToClear(db, user, doc).failed { ClearTakesLine(db, user, doc, i); }
    }
  }

  lemma ImportMoves(db: Db, user: Id, doc: Document, cut: nat)
    requires Integrity(db)
    ensures var out := ServeUpTo(db, ImportPriceList(user, doc), cut).db; Moved(db, out, user, doc) && Integrity(out)
  {
    var n := |ImportProgram(user, doc)|;
    WholePrefix(db, user, doc);
    PrefixUnderway(db, user, doc, if cut <= n then cut else n);
  }

  lemma AllOrNone(db: Db, items: map<Id, OrderItem>, user: Id, clears: bool)
    requires items == db.items || items == ItemsOfOthers(db, user)
    requires forall i | i in db.items && Sells(db, user, db.items[i].info) :: i !in items <==> clears
    ensures items == if clears then ItemsOfOthers(db, user) else db.items
  {
  }

  /** An import deletes all lines that sell the user's goods if it gets as far as deleting their rows, and no line
      otherwise. */
  lemma ImportItemsExactly(db: Db, user: Id, doc: Document, cut: nat)
    requires Integrity(db)
    ensures ServeUpTo(db, ImportPriceList(user, doc), cut).db.items
            == if Clears(db, user, doc, cut) then ItemsOfOthers(db, user) else db.items
  {
    var r := ImportPriceList(user, doc);
    var items := ServeUpTo(db, r, cut).db.items;
    ImportMoves(db, user, doc, cut);
    forall i | i in db.items && Sells(db, user, db.items[i].info)
      ensures i !in items <==> Clears(db, user, doc, cut)
    {
      assert ImportsSellerOf(db, r, i);
      ImportTakesLineExactly(db, r, cut, i);
    }
    AllOrNone(db, items, user, Clears(db, user, doc, cut));
  }

  /** So what every order is worth drops by exactly the share of the user's shop if the import gets as far as that,
      and stays otherwise. */
  lemma ImportSumExactly(db: Db, user: Id, doc: Document, cut: nat, order: Id)
    requires Integrity(db)
    ensures var out := ServeUpTo(db, ImportPriceList(user, doc), cut).db;
      if Clears(db, user, doc, cut) then
        && Splits(LineValues(db, order), LineValues(out, order), ShareOf(db, user, order))
        && Sum(LineValues(out, order)) == Sum(LineValues(db, order)) - Sum(ShareOf(db, user, order))
      else LineValues(out, order) == LineValues(db, order)
  {
    var out := ServeUpTo(db, ImportPriceList(user, doc), cut).db;
    ImportMoves(db, user, doc, cut);
    ImportItemsExactly(db, user, doc, cut);
    ValuesMovedWithItems(db, out, user, order);
    if Clears(db, user, doc, cut) {
      SumSplit(LineValues(db, order), LineValues(out, order), ShareOf(db, user, order));
    }
  }

  /** And so does the total the customer is shown, down to null when every line was the shop's. */
  lemma ImportTotalExactly(db: Db, user: Id, doc: Document, cut: nat, order: Id)
    requires Integrity(db)
    ensures var out := ServeUpTo(db, ImportPriceList(user, doc), cut).db;
      if Clears(db, user, doc, cut) then AnswerWithout(db, out, order, ShareOf(db, user, order))
      else OrderTotal(out, order) == OrderTotal(db, order)
  {
    ImportSumExactly(db, user, doc, cut, order);
    if Clears(db, user, doc, cut) {
      AnswerLoses(db, ServeUpTo(db, ImportPriceList(user, doc), cut).db, order, ShareOf(db, user, order));
    }
  }

  /* Deletions. */

  lemma ProductTakesLineExactly(db: Db, r: Request, cut: nat, i: Id)
    requires Integrity(db) && DeletesProductOf(db, r, i)
    ensures i !in ServeUpTo(db, r, cut).db.items <==> cut > 0
  {
    if cut > 0 {
      assert Issued(r, cut) == Program(r);
      DeleteProductServed(db, r.user, r.product);
      assert db.items[i].info in db.infos;
    } else {
      assert Issued(r, cut) == [];
    }
  }

  lemma ContactTakesLineExactly(db: Db, r: Request, cut: nat, o: Id, i: Id)
    requires LineOf(db, o, i) && DeletesContactOf(db, r, o)
    ensures i !in ServeUpTo(db, r, cut).db.items <==> cut > 0
  {
    if cut > 0 {
      var s := RemoveContacts(r.user, StrictIds(r.items).value);
      assert Issued(r, cut) == [s];
      ExecTwo(Begin(db), s, s);
    } else {
      assert Issued(r, cut) == [];
    }
  }

  lemma OtherRequestsKeepLine(db: Db, r: Request, cut: nat, o: Id, i: Id)
    requires Integrity(db) && Placed(db.orders, o) && LineOf(db, o, i) && !MayTake(db, r, o, i)
    ensures i in ServeUpTo(db, r, cut).db.items
  {
    RequestKeepsPlacedOrder(db, r, cut, o);
  }

  /** At most one of the causes applies to a request. */
  lemma OneCause(db: Db, r: Request, cut: nat, o: Id, i: Id)
    ensures ImportsSellerOf(db, r, i) ==> (Takes(db, r, cut, o, i) <==> Clears(db, r.user, r.doc, cut))
    ensures DeletesProductOf(db, r, i) || DeletesContactOf(db, r, o) ==> (Takes(db, r, cut, o, i) <==> cut > 0)
    ensures !MayTake(db, r, o, i) ==> !Takes(db, r, cut, o, i)
  {
  }

  /** One request, finished or cut short, takes a line of a placed order if and only if it deletes the old rows of its
      seller, its product or the contact of its order. */
  lemma LineTakenExactly(db: Db, r: Request, cut: nat, o: Id, i: Id)
    requires Integrity(db) && Placed(db.orders, o) && LineOf(db, o, i)
    ensures i !in ServeUpTo(db, r, cut).db.items <==> Takes(db, r, cut, o, i)
  {
    OneCause(db, r, cut, o, i);
    if ImportsSellerOf(db, r, i) {
      ImportTakesLineExactly(db, r, cut, i);
    } else if DeletesProductOf(db, r, i) {
      ProductTakesLineExactly(db, r, cut, i);
    } else if DeletesContactOf(db, r, o) {
      ContactTakesLineExactly(db, r, cut, o, i);
    } else {
      OtherRequestsKeepLine(db, r, cut, o, i);
    }
  }

  /** A line that is not taken stays a line of the placed order, as it was. */
  lemma OtherLineStays(db: Db, r: Request, cut: nat, o: Id, i: Id)
    requires Integrity(db) && Placed(db.orders, o) && LineOf(db, o, i)
    ensures var next := ServeUpTo(db, r, cut).db;
      Integrity(next) && (i in next.items ==> next.items[i] == db.items[i] && Placed(next.orders, o))
  {
    RequestKeepsPlacedOrder(db, r, cut, o);
    ExecKeepsIntegrity(Begin(db), Issued(r, cut));
  }

  /* Whole runs. */

  lemma {:induction false} AfterConcat(db: Db, a: seq<Call>, b: seq<Call>)
    ensures After(db, a + b) == After(After(db, a), b)
    decreases |a|
  {
    if a == [] {
      assert a + b == b;
    } else {
      assert (a + b)[0] == a[0] && (a + b)[1..] == a[1..] + b;
      AfterConcat(ServeUpTo(db, a[0].request, a[0].cut).db, a[1..], b);
    }
  }

  /** Call `j` of the run finds the line there and takes it. */
  ghost predicate TakenAt(db: Db, calls: seq<Call>, j: nat, o: Id, i: Id)
    requires j < |calls|
  {
    LineOf(After(db, calls[..j]), o, i) && Takes(After(db, calls[..j]), calls[j].request, calls[j].cut, o, i)
  }

  /** Why a line of a placed order went: at one point of the run its seller's price list was imported, its product
      was deleted, or the contact of its order was deleted. */
  lemma {:induction false} LineLossExplained(db: Db, calls: seq<Call>, o: Id, i: Id) returns (j: nat)
    requires Integrity(db) && Placed(db.orders, o) && LineOf(db, o, i) && !LineOf(After(db, calls), o, i)
    ensures j < |calls| && TakenAt(db, calls, j, o, i)
    decreases |calls|
  {
    var next := ServeUpTo(db, calls[0].request, calls[0].cut).db;
    LineTakenExactly(db, calls[0].request, calls[0].cut, o, i);
    OtherLineStays(db, calls[0].request, calls[0].cut, o, i);
    if i !in next.items {
      j := 0;
    } else {
      j := LineLossExplained(next, calls[1..], o, i);
      assert calls[..j + 1][0] == calls[0] && calls[..j + 1][1..] == calls[1..][..j];
      j := j + 1;
    }
  }

  lemma {:induction false} RunKeepsGone(db: Db, calls: seq<Call>, o: Id)
    requires Integrity(db) && Gone(db, o)
    ensures Gone(After(db, calls), o) && Integrity(After(db, calls))
    decreases |calls|
  {
    if calls == [] {
    } else {
      RequestKeepsGone(db, calls[0].request, calls[0].cut, o);
      ExecKeepsIntegrity(Begin(db), Issued(calls[0].request, calls[0].cut));
      RunKeepsGone(ServeUpTo(db, calls[0].request, calls[0].cut).db, calls[1..], o);
    }
  }

  /** A line that is gone from a placed order does not come back. */
  lemma LineStaysGone(db: Db, calls: seq<Call>, o: Id, i: Id)
    requires Integrity(db) && (Placed(db.orders, o) || Gone(db, o)) && !LineOf(db, o, i)
    ensures !LineOf(After(db, calls), o, i)
  {
    if Placed(db.orders, o) {
      PlacedOrderLife(db, calls, o);
    } else {
      RunKeepsGone(db, calls, o);
      var out := After(db, calls);
      assert i in out.items ==> out.items[i].order in out.orders;
    }
  }

  /** The run is the calls before `j`, that call, and the rest. */
  lemma AfterThrough(db: Db, calls: seq<Call>, j: nat)
    requires j < |calls|
    ensures After(db, calls)
            == After(ServeUpTo(After(db, calls[..j]), calls[j].request, calls[j].cut).db, calls[j + 1..])
  {
    assert calls == calls[..j] + calls[j..];
    AfterConcat(db, calls[..j], calls[j..]);
    assert calls[j..][1..] == calls[j + 1..];
  }

  lemma OrderOfLinePlaced(db: Db, calls: seq<Call>, o: Id, i: Id)
    requires Integrity(db) && Placed(db.orders, o) && LineOf(After(db, calls), o, i)
    ensures Integrity(After(db, calls)) && Placed(After(db, calls).orders, o)
  {
    RunKeepsSettled(db, db, calls, o);
  }

  lemma LineTakenIsLost(db: Db, calls: seq<Call>, j: nat, o: Id, i: Id)
    requires Integrity(db) && Placed(db.orders, o) && j < |calls| && TakenAt(db, calls, j, o, i)
    ensures !LineOf(After(db, calls), o, i)
  {
    var before, call := After(db, calls[..j]), calls[j];
    OrderOfLinePlaced(db, calls[..j], o, i);
    LineTakenExactly(before, call.request, call.cut, o, i);
    RequestKeepsSettled(before, before, call.request, call.cut, o);
    LineStaysGone(ServeUpTo(before, call.request, call.cut).db, calls[j + 1..], o, i);
    AfterThrough(db, calls, j);
  }

  /** A line of a placed order is gone after a serial run if and only if one of its calls took it. */
  lemma LineLostExactlyWhenTaken(db: Db, calls: seq<Call>, o: Id, i: Id)
    requires Integrity(db) && Placed(db.orders, o) && LineOf(db, o, i)
    ensures !LineOf(After(db, calls), o, i) <==> exists j | 0 <= j < |calls| :: TakenAt(db, calls, j, o, i)
  {
    if !LineOf(After(db, calls), o, i) { var j := LineLossExplained(db, calls, o, i); }
    if j :| 0 <= j < |calls| && TakenAt(db, calls, j, o, i) { LineTakenIsLost(db, calls, j, o, i); }
  }
}
