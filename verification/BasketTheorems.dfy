/** What the basket, contact, order and product requests do to the store, for any input. */
module BasketTheorems {
  import opened Collections
  import opened Schema
  import opened Machine
  import opened Requests
  import opened IdList
  import opened IdTexts
  import opened Money
  import Sql

  /* Opening the basket. */

  /** The store in which the user has a basket `b`, changed from `db` at most by creating it. */
  ghost predicate BasketOpened(db: Db, out: Db, user: Id, b: Id) {
    && b in out.orders && out.orders[b].user == user && out.orders[b].status == Basket
    && if b in db.orders then out == db
       else BasketsOf(db.orders, user) == {} && Sql.InsertBasket(db, user) == Some(out) && b == db.next.order
  }

  lemma OpenBasketStage(db: Db, user: Id)
    requires Integrity(db)
    ensures var out := Exec(Begin(db), OpenBasket(user));
      && (out.failed <==> Get(BasketsOf(db.orders, user)) == Many
                          || (BasketsOf(db.orders, user) == {} && user !in db.users))
      && (!out.failed ==> out.vars.basket.At? && out.vars == NO_VARS.(basket := out.vars.basket)
                          && BasketOpened(db, out.db, user, out.vars.basket.id))
      && (out.failed ==> out.db == db)
  {
    ExecTwo(Begin(db), FindBasket(user), EnsureBasket(user));
    if x :| x in BasketsOf(db.orders, user) { assert x in db.orders; }
  }

  /* Changing quantities: PUT. */

  /** An entry that raises: it is no object, or a key the code reads is missing. */
  predicate Raises(e: PutEntry) { e.NotAnEntry? || e.id.Omitted? || (e.id.Given? && e.quantity.Omitted?) }

  predicate WellTyped(e: PutEntry) { e.PutEntry? && e.id.Given? && e.quantity.Given? }

  predicate Names(e: PutEntry, i: Id) { WellTyped(e) && BigInt(e.id.value) && e.id.value == i }

  predicate InBasket(db: Db, b: Id, i: int) { i in db.items && db.items[i].order == b }

  /** The entry ends the request: it raises, or the database refuses its quantity. */
  predicate Refused(db: Db, b: Id, e: PutEntry) {
    || Raises(e)
    || (WellTyped(e) && BigInt(e.id.value)
        && (!(-MAX_INT - 1 <= e.quantity.value <= MAX_INT) || (e.quantity.value < 0 && InBasket(db, b, e.id.value))))
  }

  /** The quantity of line `i` after the entries: that of the last well-typed entry that names it. */
  function LastWrite(changes: seq<PutEntry>, i: Id, quantity: int): int {
    if changes == [] then quantity
    else
      var last := changes[|changes| - 1];
      if Names(last, i) then last.quantity.value else LastWrite(changes[..|changes| - 1], i, quantity)
  }

  /** How many entries name a line of the basket, counting repeats. */
  function Matches(db: Db, b: Id, changes: seq<PutEntry>): nat {
    if changes == [] then 0
    else
      var last := changes[|changes| - 1];
      Matches(db, b, changes[..|changes| - 1])
      + if WellTyped(last) && BigInt(last.id.value) && InBasket(db, b, last.id.value) then 1 else 0
  }

  function Rewritten(db: Db, b: Id, changes: seq<PutEntry>): map<Id, OrderItem> {
    map i | i in db.items ::
      if db.items[i].order == b then db.items[i].(quantity := LastWrite(changes, i, db.items[i].quantity))
      else db.items[i]
  }

  lemma {:induction false} SetLinesConcat(a: seq<PutEntry>, b: seq<PutEntry>)
    ensures SetLines(a + b) == SetLines(a) + SetLines(b)
  {
    if a == [] {
      assert a + b == b;
    } else {
      assert (a + b)[0] == a[0] && (a + b)[1..] == a[1..] + b;
      SetLinesConcat(a[1..], b);
    }
  }

  /** One more accepted entry rewrites the one line it names, if it is in the basket. */
  lemma RewriteOneMore(db: Db, b: Id, before: seq<PutEntry>, e: PutEntry)
    requires !Refused(db, b, e)
    ensures var now := db.(items := Rewritten(db, b, before));
      && (WellTyped(e) ==>
            Sql.UpdateQuantity(now, b, e.id.value, e.quantity.value)
            == Some((db.(items := Rewritten(db, b, before + [e])),
                     Matches(db, b, before + [e]) - Matches(db, b, before))))
      && (!WellTyped(e) ==> Rewritten(db, b, before + [e]) == Rewritten(db, b, before)
                            && Matches(db, b, before + [e]) == Matches(db, b, before))
  {
    assert (before + [e])[..|before|] == before;
    forall i | i in db.items
      ensures LastWrite(before + [e], i, db.items[i].quantity)
              == if Names(e, i) then e.quantity.value else LastWrite(before, i, db.items[i].quantity)
    {
    }
    if WellTyped(e) {
      var now := Rewritten(db, b, before);
      if BigInt(e.id.value) && InBasket(db, b, e.id.value) {
        assert now[e.id.value := now[e.id.value].(quantity := e.quantity.value)] == Rewritten(db, b, before + [e]);
      } else {
        assert now == Rewritten(db, b, before + [e]);
      }
    }
  }

  /** The run after the entries: every line of the basket has the last quantity written to it. */
  ghost function Changed(c: Run, b: Id, changes: seq<PutEntry>): Run {
    Run(c.db.(items := Rewritten(c.db, b, changes)), c.vars.(count := c.vars.count + Matches(c.db, b, changes)), false)
  }

  lemma OneChange(c: Run, b: Id, before: seq<PutEntry>, e: PutEntry)
    requires c.vars.basket == At(b) && !Refused(c.db, b, e)
    ensures Exec(Changed(c, b, before), ChangeProgram(e)) == Changed(c, b, before + [e])
  {
    RewriteOneMore(c.db, b, before, e);
    if WellTyped(e) {
      ExecTwo(Changed(c, b, before), SetLine(e.id.value, e.quantity.value), Raise);
    }
  }

  lemma {:induction false} ChangesStage(c: Run, b: Id, changes: seq<PutEntry>)
    requires !c.failed && c.vars.basket == At(b)
    requires forall e | e in changes :: !Refused(c.db, b, e)
    ensures Exec(c, SetLines(changes)) == Changed(c, b, changes)
    decreases |changes|
  {
    if changes == [] {
      assert Rewritten(c.db, b, changes) == c.db.items;
    } else {
      var before, e := changes[..|changes| - 1], changes[|changes| - 1];
      assert changes == before + [e] && e in changes;
      ChangesStage(c, b, before);
      SetLinesOfOne(before, e);
      ExecConcat(c, SetLines(before), ChangeProgram(e));
      OneChange(c, b, before, e);
    }
  }

  lemma SetLinesOfOne(before: seq<PutEntry>, e: PutEntry)
    ensures SetLines(before + [e]) == SetLines(before) + ChangeProgram(e)
  {
    SetLinesConcat(before, [e]);
    assert [e][1..] == [];
    assert ChangeProgram(e) + [] == ChangeProgram(e);
  }

  lemma SetLinesAround(changes: seq<PutEntry>, n: nat)
    requires n < |changes|
    ensures SetLines(changes) == SetLines(changes[..n]) + (ChangeProgram(changes[n]) + SetLines(changes[n + 1..]))
  {
    assert changes == changes[..n] + changes[n..];
    SetLinesConcat(changes[..n], changes[n..]);
    assert changes[n..][1..] == changes[n + 1..];
  }

  /** How many entries are accepted before the first refused one. */
  function Accepted(db: Db, b: Id, changes: seq<PutEntry>): (n: nat)
    ensures n <= |changes|
    ensures forall k | 0 <= k < n :: !Refused(db, b, changes[k])
    ensures n < |changes| ==> Refused(db, b, changes[n])
  {
    if changes == [] || Refused(db, b, changes[0]) then 0 else 1 + Accepted(db, b, changes[1..])
  }

  lemma RefusedStops(c: Run, b: Id, before: seq<PutEntry>, e: PutEntry)
    requires c.vars.basket == At(b) && Refused(c.db, b, e)
    ensures Exec(Changed(c, b, before), ChangeProgram(e)) == Fail(Changed(c, b, before))
  {
    if Raises(e) {
      ExecTwo(Changed(c, b, before), Raise, Raise);
    } else {
      ExecTwo(Changed(c, b, before), SetLine(e.id.value, e.quantity.value), Raise);
    }
  }

  /** The loop stops at the first refused entry and keeps what the entries before it wrote. */
  lemma ChangesUpToRefusal(c: Run, b: Id, changes: seq<PutEntry>)
    requires !c.failed && c.vars.basket == At(b)
    ensures var n := Accepted(c.db, b, changes);
      Exec(c, SetLines(changes)) == if n == |changes| then Changed(c, b, changes) else Fail(Changed(c, b, changes[..n]))
  {
    var n := Accepted(c.db, b, changes);
    var before := changes[..n];
    ChangesStage(c, b, before);
    if n < |changes| {
      var e, rest := changes[n], changes[n + 1..];
      SetLinesAround(changes, n);
      ExecConcat(c, SetLines(before), ChangeProgram(e) + SetLines(rest));
      ExecConcat(Changed(c, b, before), ChangeProgram(e), SetLines(rest));
      RefusedStops(c, b, before, e);
      ExecFailed(Fail(Changed(c, b, before)), SetLines(rest));
    } else {
      assert before == changes;
    }
  }

  /** PUT, served alone, for any list of entries: the caller's basket ends with the last well-typed quantity
      written to each of its lines before the first refused entry; nothing else in the store moves; and the
      answer counts the entries that matched, with repeats. */
  lemma PutIsLastWriteWins(db: Db, user: Id, changes: seq<PutEntry>) returns (b: Id, basketStore: Db)
    requires Integrity(db)
    ensures var out := Serve(db, PutBasket(user, changes));
      && (Exec(Begin(db), OpenBasket(user)).failed ==> out.failed && out.db == db)
      && (!Exec(Begin(db), OpenBasket(user)).failed ==>
          && BasketOpened(db, basketStore, user, b)
          && var n := Accepted(basketStore, b, changes);
          && (out.failed <==> n < |changes|)
          && out.db == basketStore.(items := Rewritten(basketStore, b, changes[..n]))
          && (!out.failed ==> out.vars.count == Matches(basketStore, b, changes)))
  {
    var run := Exec(Begin(db), OpenBasket(user));
    ExecConcat(Begin(db), OpenBasket(user), SetLines(changes));
    OpenBasketStage(db, user);
    basketStore := run.db;
    b := if run.vars.basket.At? then run.vars.basket.id else 0;
    if run.failed {
      ExecFailed(run, SetLines(changes));
    } else {
      ChangesUpToRefusal(run, b, changes);
      assert changes[..|changes|] == changes;
    }
  }

  /** What the entries change each line of an order by: (new - old) * price. */
  function Difference(db: Db, b: Id, changes: seq<PutEntry>, order: Id): map<Id, int> {
    map i | i in LineValues(db, order) ::
      (Rewritten(db, b, changes)[i].quantity - db.items[i].quantity) * InfoAt(db, db.items[i].info).priceRrc
  }

  lemma RewriteTotal(db: Db, b: Id, changes: seq<PutEntry>, order: Id)
    ensures var out := db.(items := Rewritten(db, b, changes));
      && Sum(LineValues(out, order)) == Sum(LineValues(db, order)) + Sum(Difference(db, b, changes, order))
      && LineValues(out, order).Keys == LineValues(db, order).Keys
      && (order != b ==> LineValues(out, order) == LineValues(db, order))
  {
    var out, difference := db.(items := Rewritten(db, b, changes)), Difference(db, b, changes, order);
    assert LineValues(out, order).Keys == LineValues(db, order).Keys;
    forall i | i in LineValues(db, order)
      ensures LineValues(out, order)[i] == LineValues(db, order)[i] + difference[i]
    {
      Distribute(out.items[i].quantity, db.items[i].quantity, InfoAt(db, db.items[i].info).priceRrc);
    }
    SumAdd(LineValues(db, order), difference, LineValues(out, order));
  }

  lemma ValuesWhenOpened(db: Db, basketStore: Db, user: Id, b: Id, order: Id)
    requires BasketOpened(db, basketStore, user, b)
    ensures LineValues(basketStore, order) == LineValues(db, order)
    ensures basketStore.items == db.items && basketStore.next.item == db.next.item && basketStore.infos == db.infos
  {
  }

  /** A served PUT moves the sum of the caller's basket by the sum of (new - old) * price over its lines, up to the
      first refused entry, and leaves the values of every other order alone. */
  lemma PutSum(db: Db, user: Id, changes: seq<PutEntry>, order: Id) returns (b: Id, basketStore: Db)
    requires Integrity(db) && !Exec(Begin(db), OpenBasket(user)).failed
    ensures var out := Serve(db, PutBasket(user, changes)).db;
      && BasketOpened(db, basketStore, user, b)
      && var written := changes[..Accepted(basketStore, b, changes)];
      && Sum(LineValues(out, order)) == Sum(LineValues(db, order)) + Sum(Difference(basketStore, b, written, order))
      && LineValues(out, order).Keys == LineValues(db, order).Keys
      && (order != b ==> LineValues(out, order) == LineValues(db, order))
  {
    b, basketStore := PutIsLastWriteWins(db, user, changes);
    ValuesWhenOpened(db, basketStore, user, b, order);
    RewriteTotal(basketStore, b, changes[..Accepted(basketStore, b, changes)], order);
  }

  /** So the total the customer is shown moves by as much, is null when it was, and stays for every other order. */
  lemma PutTotal(db: Db, user: Id, changes: seq<PutEntry>, order: Id) returns (b: Id, basketStore: Db)
    requires Integrity(db) && !Exec(Begin(db), OpenBasket(user)).failed
    ensures BasketOpened(db, basketStore, user, b)
    ensures var written := changes[..Accepted(basketStore, b, changes)];
      AnswerMovedBy(db, Serve(db, PutBasket(user, changes)).db, order,
                    Sum(Difference(basketStore, b, written, order)))
    ensures order != b ==> OrderTotal(Serve(db, PutBasket(user, changes)).db, order) == OrderTotal(db, order)
  {
    b, basketStore := PutSum(db, user, changes, order);
    var out := Serve(db, PutBasket(user, changes)).db;
    AnswerMoved(db, out, order, Sum(Difference(basketStore, b, changes[..Accepted(basketStore, b, changes)], order)));
    assert order != b ==> LineValues(out, order) == LineValues(db, order);
  }

  lemma Distribute(x: int, y: int, p: int)
    ensures x * p == y * p + (x - y) * p
  {
  }

  /* Adding lines: POST. */

  /** An entry the serializer and the insert both take. Its own `order` does not matter. */
  predicate Good(db: Db, e: Entry) {
    && e.Entry? && e.info.Given? && e.info.value in db.infos && e.shop.Given? && e.shop.value in db.shops
    && e.quantity.Given? && Positive(e.quantity.value)
  }

  function RowFor(db: Db, b: Id, e: Entry): OrderItem
    requires Good(db, e)
  {
    OrderItem(b, e.info.value, e.shop.value, e.quantity.value)
  }

  /** The next `n` ids. */
  function NextIds(first: Id, n: nat): (ids: set<Id>)
    ensures forall i: Id :: i in ids <==> first <= i < first + n
    ensures |ids| == n
  {
    if n == 0 then {} else NextIds(first, n - 1) + {first + n - 1}
  }

  /** The lines made from good entries: one each, in order, under the next ids, all in basket `b`. */
  function NewLines(db: Db, b: Id, entries: seq<Entry>): map<Id, OrderItem>
    requires forall e | e in entries :: Good(db, e)
  {
    map i | i in NextIds(db.next.item, |entries|) :: RowFor(db, b, entries[i - db.next.item])
  }

  function WithLines(db: Db, b: Id, entries: seq<Entry>): Db
    requires forall e | e in entries :: Good(db, e)
  {
    db.(items := db.items + NewLines(db, b, entries), next := db.next.(item := db.next.item + |entries|))
  }

  lemma {:induction false} AddLinesConcat(a: seq<Entry>, b: seq<Entry>)
    ensures AddLines(a + b) == AddLines(a) + AddLines(b)
  {
    if a == [] {
      assert a + b == b;
    } else {
      assert (a + b)[0] == a[0] && (a + b)[1..] == a[1..] + b;
      AddLinesConcat(a[1..], b);
    }
  }

  lemma OneMoreRow(db: Db, b: Id, before: seq<Entry>, e: Entry)
    requires (forall x | x in before :: Good(db, x)) && Good(db, e)
    ensures forall x | x in before + [e] :: Good(db, x)
    ensures NewLines(db, b, before + [e]) == NewLines(db, b, before)[db.next.item + |before| := RowFor(db, b, e)]
  {
  }

  lemma OneMoreLine(db: Db, b: Id, before: seq<Entry>, e: Entry)
    requires (forall x | x in before :: Good(db, x)) && Good(db, e) && b in db.orders
    ensures forall x | x in before + [e] :: Good(db, x)
    ensures SaveEntry(WithLines(db, b, before), e.(order := Given(b))) == Some(WithLines(db, b, before + [e]))
  {
    var entries, id := before + [e], db.next.item + |before|;
    OneMoreRow(db, b, before, e);
    assert db.items + NewLines(db, b, entries) == (db.items + NewLines(db, b, before))[id := RowFor(db, b, e)];
  }

  lemma ExecOneLine(c: Run, e: Entry)
    requires !c.failed
    ensures Exec(c, AddLines([e])) == StepAddLine(c, e)
  {
    assert AddLines([e]) == [AddLine(e)] by { assert [e][1..] == []; }
    ExecTwo(c, AddLine(e), Raise);
  }

  lemma GoodLineAdds(c: Run, b: Id, before: seq<Entry>, e: Entry)
    requires !c.failed && c.vars.basket == At(b) && b in c.db.orders
    requires (forall x | x in before :: Good(c.db, x)) && Good(c.db, e)
    ensures forall x | x in before + [e] :: Good(c.db, x)
    ensures Exec(c.(db := WithLines(c.db, b, before)), AddLines([e])) == c.(db := WithLines(c.db, b, before + [e]))
  {
    StepOneMoreLine(c, b, before, e);
    ExecOneLine(c.(db := WithLines(c.db, b, before)), e);
  }

  lemma StepOneMoreLine(c: Run, b: Id, before: seq<Entry>, e: Entry)
    requires !c.failed && c.vars.basket == At(b) && b in c.db.orders
    requires (forall x | x in before :: Good(c.db, x)) && Good(c.db, e)
    ensures forall x | x in before + [e] :: Good(c.db, x)
    ensures StepAddLine(c.(db := WithLines(c.db, b, before)), e) == c.(db := WithLines(c.db, b, before + [e]))
  {
    OneMoreLine(c.db, b, before, e);
  }

  lemma {:induction false} GoodLinesStage(c: Run, b: Id, entries: seq<Entry>)
    requires !c.failed && c.vars.basket == At(b) && b in c.db.orders
    requires forall e | e in entries :: Good(c.db, e)
    ensures Exec(c, AddLines(entries)) == c.(db := WithLines(c.db, b, entries))
    decreases |entries|
  {
    if entries == [] {
      assert c.db.items + NewLines(c.db, b, entries) == c.db.items;
    } else {
      var before, e := entries[..|entries| - 1], entries[|entries| - 1];
      assert entries == before + [e] && e in entries;
      GoodLinesStage(c, b, before);
      AddLinesConcat(before, [e]);
      ExecConcat(c, AddLines(before), AddLines([e]));
      GoodLineAdds(c, b, before, e);
    }
  }

  lemma BadLineStops(c: Run, b: Id, before: seq<Entry>, e: Entry)
    requires !c.failed && c.vars.basket == At(b) && !Good(c.db, e)
    requires forall x | x in before :: Good(c.db, x)
    ensures var at := c.(db := WithLines(c.db, b, before)); Step(at, AddLine(e)) == Fail(at)
  {
  }

  /** How many entries come before the first bad one. */
  function GoodPrefix(db: Db, entries: seq<Entry>): (n: nat)
    ensures n <= |entries|
    ensures forall k | 0 <= k < n :: Good(db, entries[k])
    ensures n < |entries| ==> !Good(db, entries[n])
  {
    if entries == [] || !Good(db, entries[0]) then 0 else 1 + GoodPrefix(db, entries[1..])
  }

  lemma BadLineEnds(c: Run, b: Id, before: seq<Entry>, rest: seq<Entry>)
    requires !c.failed && c.vars.basket == At(b) && rest != [] && !Good(c.db, rest[0])
    requires forall x | x in before :: Good(c.db, x)
    ensures var kept := c.(db := WithLines(c.db, b, before)); Exec(kept, AddLines(rest)) == Fail(kept)
  {
    var kept := c.(db := WithLines(c.db, b, before));
    ExecConcat(kept, [AddLine(rest[0])], AddLines(rest[1..]));
    ExecTwo(kept, AddLine(rest[0]), Raise);
    BadLineStops(c, b, before, rest[0]);
    ExecFailed(Fail(kept), AddLines(rest[1..]));
  }

  lemma LinesUpToBadOne(c: Run, b: Id, entries: seq<Entry>)
    requires !c.failed && c.vars.basket == At(b) && b in c.db.orders
    ensures var n := GoodPrefix(c.db, entries);
      && (forall e | e in entries[..n] :: Good(c.db, e))
      && var kept := c.(db := WithLines(c.db, b, entries[..n]));
      Exec(c, AddLines(entries)) == if n == |entries| then kept else Fail(kept)
  {
    var n := GoodPrefix(c.db, entries);
    GoodLinesStage(c, b, entries[..n]);
    if n < |entries| {
      LinesInTwoParts(c, entries, n);
      BadLineEnds(c, b, entries[..n], entries[n..]);
    } else {
      assert entries[..n] == entries;
    }
  }

  lemma LinesInTwoParts(c: Run, entries: seq<Entry>, n: nat)
    requires n <= |entries|
    ensures Exec(c, AddLines(entries)) == Exec(Exec(c, AddLines(entries[..n])), AddLines(entries[n..]))
  {
    assert entries == entries[..n] + entries[n..];
    AddLinesConcat(entries[..n], entries[n..]);
    ExecConcat(c, AddLines(entries[..n]), AddLines(entries[n..]));
  }

  lemma LineCount(db: Db, b: Id, entries: seq<Entry>)
    requires forall e | e in entries :: Good(db, e)
    requires forall i | i in db.items :: i < db.next.item
    ensures |WithLines(db, b, entries).items| == |db.items| + |entries|
  {
    var was, added := db.items.Keys, NextIds(db.next.item, |entries|);
    assert (db.items + NewLines(db, b, entries)).Keys == was + added && was !! added;
  }

  /** POST, served alone, for any list: the entries before the first bad one become lines of the caller's
      basket, whatever order they named, and stay even when a later entry ends the request in an error;
      nothing else in the store moves. On success there is one new line for each entry reported. */
  lemma PostKeepsLongestGoodPrefix(db: Db, user: Id, entries: seq<Entry>) returns (b: Id, basketStore: Db)
    requires Integrity(db)
    ensures var out := Serve(db, PostBasket(user, entries));
      && (Exec(Begin(db), OpenBasket(user)).failed ==> out.failed && out.db == db)
      && (!Exec(Begin(db), OpenBasket(user)).failed ==>
          && BasketOpened(db, basketStore, user, b)
          && var n := GoodPrefix(basketStore, entries);
          && (out.failed <==> n < |entries|)
          && (forall e | e in entries[..n] :: Good(basketStore, e))
          && out.db == WithLines(basketStore, b, entries[..n])
          && |out.db.items| == |db.items| + n)
  {
    var run := Exec(Begin(db), OpenBasket(user));
    ExecConcat(Begin(db), OpenBasket(user), AddLines(entries));
    OpenBasketStage(db, user);
    basketStore := run.db;
    b := if run.vars.basket.At? then run.vars.basket.id else 0;
    if run.failed {
      ExecFailed(run, AddLines(entries));
    } else {
      LinesUpToBadOne(run, b, entries);
      LineCount(basketStore, b, entries[..GoodPrefix(basketStore, entries)]);
    }
  }

  function ValuesOfLines(db: Db, lines: map<Id, OrderItem>): map<Id, int> {
    map i | i in lines :: lines[i].quantity * InfoAt(db, lines[i].info).priceRrc
  }

  /** Lines added to one order raise its total by their values. */
  lemma AddedLinesTotal(db: Db, out: Db, b: Id, lines: map<Id, OrderItem>)
    requires db.items.Keys !! lines.Keys && out.items == db.items + lines && out.infos == db.infos
    requires forall i | i in lines :: lines[i].order == b
    ensures Sum(LineValues(out, b)) == Sum(LineValues(db, b)) + Sum(ValuesOfLines(db, lines))
  {
    assert LineValues(out, b).Keys == LineValues(db, b).Keys + lines.Keys;
    forall i | i in lines
      ensures i in out.items && out.items[i] == lines[i]
    {
    }
    SumSplit(LineValues(out, b), LineValues(db, b), ValuesOfLines(db, lines));
  }

  /** They do not touch another order's total. */
  lemma OtherTotalKept(db: Db, out: Db, b: Id, lines: map<Id, OrderItem>, order: Id)
    requires db.items.Keys !! lines.Keys && out.items == db.items + lines && out.infos == db.infos
    requires order != b && forall i | i in lines :: lines[i].order == b
    ensures LineValues(out, order) == LineValues(db, order)
  {
    assert LineValues(out, order).Keys == LineValues(db, order).Keys;
  }

  lemma NewLinesAreNew(db: Db, b: Id, entries: seq<Entry>)
    requires forall e | e in entries :: Good(db, e)
    requires forall i | i in db.items :: i < db.next.item
    ensures var lines := NewLines(db, b, entries);
      && lines.Keys == NextIds(db.next.item, |entries|) && db.items.Keys !! lines.Keys
      && forall i | i in lines :: lines[i].order == b
  {
    var lines, added := NewLines(db, b, entries), NextIds(db.next.item, |entries|);
    assert lines.Keys == added && db.items.Keys !! added;
    forall i | i in lines
      ensures lines[i].order == b
    {
      assert i in added;
    }
  }

  /** The basket's total grows by the sum of the new lines' values, and no other total moves. */
  lemma NewLinesTotal(db: Db, b: Id, entries: seq<Entry>, order: Id)
    requires forall e | e in entries :: Good(db, e)
    requires forall i | i in db.items :: i < db.next.item
    ensures var (out, lines) := (WithLines(db, b, entries), NewLines(db, b, entries));
      && Sum(LineValues(out, b)) == Sum(LineValues(db, b)) + Sum(ValuesOfLines(db, lines))
      && (order != b ==> LineValues(out, order) == LineValues(db, order))
  {
    var lines := NewLines(db, b, entries);
    NewLinesAreNew(db, b, entries);
    AddedLinesTotal(db, WithLines(db, b, entries), b, lines);
    if order != b { OtherTotalKept(db, WithLines(db, b, entries), b, lines, order); }
  }

  /** A served POST raises the sum of the caller's basket by the values of the lines it stored, whether or not a
      later entry fails, and leaves the values of every other order alone. */
  lemma PostSum(db: Db, user: Id, entries: seq<Entry>, order: Id) returns (b: Id, basketStore: Db)
    requires Integrity(db) && !Exec(Begin(db), OpenBasket(user)).failed
    ensures var out := Serve(db, PostBasket(user, entries)).db;
      && BasketOpened(db, basketStore, user, b)
      && var stored := entries[..GoodPrefix(basketStore, entries)];
      && (forall e | e in stored :: Good(basketStore, e))
      && Sum(LineValues(out, b))
         == Sum(LineValues(db, b)) + Sum(ValuesOfLines(basketStore, NewLines(basketStore, b, stored)))
      && LineValues(out, b).Keys == LineValues(db, b).Keys + NextIds(db.next.item, |stored|)
      && (order != b ==> LineValues(out, order) == LineValues(db, order))
  {
    b, basketStore := PostKeepsLongestGoodPrefix(db, user, entries);
    ValuesWhenOpened(db, basketStore, user, b, order);
    ValuesWhenOpened(db, basketStore, user, b, b);
    NewLinesTotal(basketStore, b, entries[..GoodPrefix(basketStore, entries)], order);
    NewLinesKeys(basketStore, b, entries[..GoodPrefix(basketStore, entries)]);
  }

  lemma NewLinesKeys(db: Db, b: Id, entries: seq<Entry>)
    requires forall e | e in entries :: Good(db, e)
    requires forall i | i in db.items :: i < db.next.item
    ensures LineValues(WithLines(db, b, entries), b).Keys == LineValues(db, b).Keys + NextIds(db.next.item, |entries|)
  {
    NewLinesAreNew(db, b, entries);
    AddedLineKeys(db, WithLines(db, b, entries), b, NewLines(db, b, entries));
  }

  lemma AddedLineKeys(db: Db, out: Db, b: Id, lines: map<Id, OrderItem>)
    requires out.items == db.items + lines && forall i | i in lines :: lines[i].order == b && i !in db.items
    ensures LineValues(out, b).Keys == LineValues(db, b).Keys + lines.Keys
  {
  }

  /** So the total the customer is shown rises by as much, from null if it was null and any line was stored, and stays
      for every other order. */
  lemma PostTotal(db: Db, user: Id, entries: seq<Entry>, order: Id) returns (b: Id, basketStore: Db)
    requires Integrity(db) && !Exec(Begin(db), OpenBasket(user)).failed
    ensures BasketOpened(db, basketStore, user, b)
    ensures var out, stored := Serve(db, PostBasket(user, entries)).db, entries[..GoodPrefix(basketStore, entries)];
      && (forall e | e in stored :: Good(basketStore, e))
      && (if stored == [] then OrderTotal(out, b) == OrderTotal(db, b)
          else AnswerGrownBy(db, out, b, Sum(ValuesOfLines(basketStore, NewLines(basketStore, b, stored)))))
      && (order != b ==> OrderTotal(out, order) == OrderTotal(db, order))
  {
    b, basketStore := PostSum(db, user, entries, order);
    var out, stored := Serve(db, PostBasket(user, entries)).db, entries[..GoodPrefix(basketStore, entries)];
    StoredAnswer(db, out, basketStore, b, stored);
    SameLinesSameAnswer(db, out, order);
  }

  lemma SameLinesSameAnswer(a: Db, b: Db, order: Id)
    ensures LineValues(b, order) == LineValues(a, order) ==> OrderTotal(b, order) == OrderTotal(a, order)
  {
  }

  lemma StoredAnswer(db: Db, out: Db, basketStore: Db, b: Id, stored: seq<Entry>)
    requires forall e | e in stored :: Good(basketStore, e)
    requires LineValues(out, b).Keys == LineValues(db, b).Keys + NextIds(db.next.item, |stored|)
    requires Sum(LineValues(out, b))
             == Sum(LineValues(db, b)) + Sum(ValuesOfLines(basketStore, NewLines(basketStore, b, stored)))
    ensures if stored == [] then OrderTotal(out, b) == OrderTotal(db, b)
            else AnswerGrownBy(db, out, b, Sum(ValuesOfLines(basketStore, NewLines(basketStore, b, stored))))
  {
    var added := NextIds(db.next.item, |stored|);
    var change := Sum(ValuesOfLines(basketStore, NewLines(basketStore, b, stored)));
    if stored == [] {
      assert NewLines(basketStore, b, stored) == map[];
      AnswerMoved(db, out, b, change);
    } else {
      assert db.next.item in added;
      AnswerGrown(db, out, b, added, change);
    }
  }

  /* Removing lines and contacts. */

  function RowCount(db: Db): nat {
    |db.users| + |db.contacts| + |db.shops| + |db.categories| + |db.links| + |db.products| + |db.infos|
    + |db.parameters| + |db.values| + |db.orders| + |db.items|
  }

  lemma RemovedLines(db: Db, b: Id, ids: seq<int>)
    ensures var (out, n) := Sql.DeleteItems(db, b, ids);
      && out == db.(items := out.items)
      && (forall i | i in db.items :: i in out.items <==> !(db.items[i].order == b && i in ids))
      && (forall i | i in out.items :: i in db.items && out.items[i] == db.items[i])
      && n == |db.items| - |out.items|
  {
    Removed(db.items, set i | i in db.items && db.items[i].order == b && i in ids);
  }

  /** DELETE of basket lines, for any text: it takes exactly the listed lines of the caller's own basket, whoever
      owns the other listed ids, and answers how many lines went. */
  lemma LineDeletionIsExact(db: Db, user: Id, items: string) returns (b: Id, basketStore: Db)
    requires Integrity(db) && items != ""
    ensures var out := Serve(db, DeleteBasket(user, items));
      && out.failed == Exec(Begin(db), OpenBasket(user)).failed
      && (out.failed ==> out.db == db)
      && (!out.failed ==>
          && BasketOpened(db, basketStore, user, b)
          && out.db == basketStore.(items := out.db.items)
          && (forall i | i in basketStore.items ::
                i in out.db.items <==> !(basketStore.items[i].order == b && i in LenientIds(items)))
          && (forall i | i in out.db.items :: i in basketStore.items && out.db.items[i] == basketStore.items[i])
          && out.vars.count == |basketStore.items| - |out.db.items|)
  {
    var run := Exec(Begin(db), OpenBasket(user));
    DeleteBasketServed(db, user, items);
    OpenBasketStage(db, user);
    basketStore := run.db;
    b := if run.vars.basket.At? then run.vars.basket.id else 0;
    RemovedLines(basketStore, b, LenientIds(items));
  }

  /** The listed lines of basket `b`. */
  function ShareOfListed(db: Db, b: Id, ids: seq<int>): map<Id, int> {
    map i | i in db.items && db.items[i].order == b && i in ids :: LineValue(db, i)
  }

  /** From `db` to `out` exactly the listed lines of order `b` went. */
  ghost predicate ListedGone(db: Db, out: Db, b: Id, ids: seq<int>) {
    && out.infos == db.infos
    && (forall i | i in db.items :: i in out.items <==> !(db.items[i].order == b && i in ids))
    && (forall i | i in out.items :: i in db.items && out.items[i] == db.items[i])
  }

  lemma DeletionServed(db: Db, user: Id, items: string) returns (b: Id, basketStore: Db)
    requires Integrity(db) && items != "" && !Exec(Begin(db), OpenBasket(user)).failed
    ensures BasketOpened(db, basketStore, user, b)
    ensures ListedGone(db, Serve(db, DeleteBasket(user, items)).db, b, LenientIds(items))
  {
    b, basketStore := LineDeletionIsExact(db, user, items);
    ValuesWhenOpened(db, basketStore, user, b, b);
  }

  /** The basket's total falls by what those lines were worth, to null when they were all, and no other total moves. */
  lemma LineDeletionTotal(db: Db, user: Id, items: string, order: Id) returns (b: Id, basketStore: Db)
    requires Integrity(db) && items != "" && !Exec(Begin(db), OpenBasket(user)).failed
    ensures var out := Serve(db, DeleteBasket(user, items)).db;
      && BasketOpened(db, basketStore, user, b)
      && AnswerWithout(db, out, b, ShareOfListed(db, b, LenientIds(items)))
      && (order != b ==> OrderTotal(out, order) == OrderTotal(db, order))
  {
    b, basketStore := DeletionServed(db, user, items);
    var out := Serve(db, DeleteBasket(user, items)).db;
    ListedSplitOff(db, out, b, LenientIds(items));
    AnswerLoses(db, out, b, ShareOfListed(db, b, LenientIds(items)));
    if order != b { UnlistedKept(db, out, b, LenientIds(items), order); }
  }

  lemma ListedSplitOff(db: Db, out: Db, b: Id, ids: seq<int>)
    requires ListedGone(db, out, b, ids)
    ensures Splits(LineValues(db, b), LineValues(out, b), ShareOfListed(db, b, ids))
  {
    var was, now, share := LineValues(db, b), LineValues(out, b), ShareOfListed(db, b, ids);
    assert forall i | i in now :: i in was && i !in share && now[i] == was[i];
    assert forall i | i in was :: i in now || i in share;
  }

  lemma UnlistedKept(db: Db, out: Db, b: Id, ids: seq<int>, order: Id)
    requires ListedGone(db, out, b, ids) && order != b
    ensures LineValues(out, order) == LineValues(db, order)
  {
  }

  /** A request without its arguments changes nothing; a basket deletion with an empty list does not even open the
      basket. */
  lemma WithoutArguments(db: Db, user: Id, contact: ContactField)
    ensures Serve(db, DeleteBasket(user, "")) == Begin(db)
    ensures Serve(db, DeleteContacts(user, "")) == Begin(db)
    ensures Serve(db, PostOrder(user, Omitted, contact)) == Begin(db)
    ensures Serve(db, PostOrder(user, Invalid, contact)) == Fail(Begin(db))
  {
    ExecTwo(Begin(db), Raise, Raise);
  }

  /** The contacts of the user among the listed ids. */
  function Listed(db: Db, user: Id, ids: seq<int>): set<Id> {
    set c | c in db.contacts && db.contacts[c] == user && c in ids
  }

  /** From `db` to `out` exactly the contacts `gone` went, the orders that refer to them and the lines of those. */
  ghost predicate ContactsGone(db: Db, out: Db, gone: set<Id>) {
    && out == db.(contacts := db.contacts - gone, orders := out.orders, items := out.items)
    && (forall o | o in db.orders ::
          o in out.orders <==> !(db.orders[o].contact.Some? && db.orders[o].contact.value in gone))
    && (forall i | i in db.items :: i in out.items <==> db.items[i].order in out.orders)
    && (forall o | o in out.orders :: o in db.orders && out.orders[o] == db.orders[o])
    && (forall i | i in out.items :: i in db.items && out.items[i] == db.items[i])
  }

  lemma ContactDeletionServed(db: Db, user: Id, items: string)
    requires items != "" && StrictIds(items).Some?
    ensures Serve(db, DeleteContacts(user, items)) == StepRemoveContacts(Begin(db), user, StrictIds(items).value)
  {
    var s := RemoveContacts(user, StrictIds(items).value);
    assert Program(DeleteContacts(user, items)) == [s];
    ExecTwo(Begin(db), s, s);
  }

  /** Deleting contacts, for any id list with repeats or unknown ids, takes exactly the caller's listed contacts,
      cascades to exactly their orders and those orders' lines, and answers the number of rows that went. */
  lemma ContactDeletionIsExact(db: Db, user: Id, items: string)
    requires Integrity(db) && items != "" && StrictIds(items).Some?
    ensures var out := Serve(db, DeleteContacts(user, items));
      && !out.failed && ContactsGone(db, out.db, Listed(db, user, StrictIds(items).value))
      && out.vars.count == RowCount(db) - RowCount(out.db)
  {
    DeletedRows(db, user, StrictIds(items).value);
    DeletedCount(db, user, StrictIds(items).value);
    ContactDeletionServed(db, user, items);
  }

  /** So it does on a list of numbers written in decimal, each padded in any way, and with any repeats: it takes the
      caller's contacts among those numbers. */
  lemma PaddedContactDeletion(db: Db, user: Id, texts: seq<string>, ns: seq<int>)
    requires Integrity(db) && |texts| == |ns| > 0 && forall k | 0 <= k < |ns| :: Writes(texts[k], ns[k])
    ensures var out := Serve(db, DeleteContacts(user, JoinTexts(texts)));
      && !out.failed
      && ContactsGone(db, out.db, set c | c in db.contacts && db.contacts[c] == user && c in ns)
      && out.vars.count == RowCount(db) - RowCount(out.db)
  {
    PaddedListRoundTrip(texts, ns);
    ContactDeletionIsExact(db, user, JoinTexts(texts));
  }

  /** A list with one text between commas that does not read deletes nothing. */
  lemma UnreadableListDeletesNothing(db: Db, user: Id, texts: seq<string>, t: string)
    requires texts != [] && (forall u | u in texts :: CommaFree(u)) && t in texts && ParseInt(t).None?
    ensures Serve(db, DeleteContacts(user, JoinTexts(texts))) == Begin(db)
  {
    var read := StrictIds(JoinTexts(texts));
    if read.Some? { StrictReadsExactly(texts, read.value); }
  }

  /** A user who is registered gets one more contact, under an id no contact had. */
  lemma ContactAdditionIsExact(db: Db, user: Id)
    requires Integrity(db)
    ensures var out := Serve(db, AddContact(user));
      && (out.failed <==> user !in db.users)
      && (out.failed ==> out.db == db)
      && (!out.failed ==>
          && db.next.contact !in db.contacts
          && out.db == db.(contacts := db.contacts[db.next.contact := user],
                           next := db.next.(contact := db.next.contact + 1)))
  {
    ExecTwo(Begin(db), CreateContact(user), Raise);
  }

  /** Deleting the new contact by its id, however the id is padded, takes that contact and nothing else: no order can
      refer to it yet. */
  lemma ContactAdditionUndone(db: Db, user: Id, text: string)
    requires Integrity(db) && user in db.users && Writes(text, db.next.contact)
    ensures var out := Serve(Serve(db, AddContact(user)).db, DeleteContacts(user, text));
      !out.failed && out.vars.count == 1 && out.db == db.(next := db.next.(contact := db.next.contact + 1))
  {
    var added := Serve(db, AddContact(user)).db;
    ContactAdditionIsExact(db, user);
    WrittenIsRead(text, db.next.contact);
    PaddedListRoundTrip([text], [db.next.contact]);
    ContactDeletionServed(added, user, text);
    NewContactGoesAlone(db, user);
  }

  lemma NewContactGoesAlone(db: Db, user: Id)
    requires Integrity(db)
    ensures var id := db.next.contact;
      var added := db.(contacts := db.contacts[id := user], next := db.next.(contact := id + 1));
      Sql.DeleteContacts(added, user, [id]) == (added.(contacts := db.contacts), 1)
  {
    var id := db.next.contact;
    var added := db.(contacts := db.contacts[id := user], next := db.next.(contact := id + 1));
    assert Listed(added, user, [id]) == {id};
    assert OrdersTo(added, {id}) == {} && LinesIn(added, {}) == {};
    assert added.contacts - {id} == db.contacts && db.orders - {} == db.orders && db.items - {} == db.items;
  }

  lemma DeletedRows(db: Db, user: Id, ids: seq<int>)
    requires ItemsSound(db.items, db.next.item, db.orders, db.infos, db.shops)
    ensures ContactsGone(db, Sql.DeleteContacts(db, user, ids).0, Listed(db, user, ids))
  {
    assert forall i | i in db.items :: db.items[i].order in db.orders;
  }

  lemma DeletedCount(db: Db, user: Id, ids: seq<int>)
    ensures var (out, n) := Sql.DeleteContacts(db, user, ids); n == RowCount(db) - RowCount(out)
  {
    var contacts := Listed(db, user, ids);
    Removed(db.contacts, contacts);
    Removed(db.orders, OrdersTo(db, contacts));
    Removed(db.items, LinesIn(db, OrdersTo(db, contacts)));
  }

  function OrdersTo(db: Db, contacts: set<Id>): set<Id> {
    set o | o in db.orders && db.orders[o].contact.Some? && db.orders[o].contact.value in contacts
  }

  function LinesIn(db: Db, orders: set<Id>): set<Id> { set i | i in db.items && db.items[i].order in orders }

  lemma Removed<V>(m: map<Id, V>, gone: set<Id>)
    requires gone <= m.Keys
    ensures |m - gone| == |m| - |gone|
  {
    assert (m - gone).Keys == m.Keys - gone;
    assert |m.Keys| == |m| && |(m - gone).Keys| == |m - gone|;
  }

  /* Deleting a product. */

  /** From `db` to `out` exactly product `product` went, the ProductInfo rows of it, and what refers to those. */
  ghost predicate ProductGone(db: Db, out: Db, product: int) {
    && out == db.(products := out.products, infos := out.infos, values := out.values, items := out.items)
    && (forall p | p in db.products :: p in out.products <==> p != product)
    && (forall i | i in db.infos :: i in out.infos <==> db.infos[i].product != product)
    && (forall v | v in db.values :: v in out.values <==> db.values[v].info in out.infos)
    && (forall i | i in db.items :: i in out.items <==> db.items[i].info in out.infos)
    && (forall p | p in out.products :: p in db.products && out.products[p] == db.products[p])
    && (forall i | i in out.infos :: i in db.infos && out.infos[i] == db.infos[i])
    && (forall v | v in out.values :: v in db.values && out.values[v] == db.values[v])
    && (forall i | i in out.items :: i in db.items && out.items[i] == db.items[i])
  }

  /** Any user may delete any product: it takes exactly that product and its cascade, in every shop. */
  lemma ProductDeletionIsExact(db: Db, user: Id, product: int)
    requires Integrity(db)
    ensures var out := Serve(db, DeleteProduct(user, product));
      && (out.failed <==> product !in db.products)
      && if out.failed then out.db == db else ProductGone(db, out.db, product)
  {
    DeleteProductServed(db, user, product);
    if product in db.products { DeletedProductGone(db, product); }
  }

  lemma DeletedProductGone(db: Db, product: int)
    requires ValuesSound(db.values, db.next.value, db.infos, db.parameters)
    requires ItemsSound(db.items, db.next.item, db.orders, db.infos, db.shops)
    ensures ProductGone(db, Sql.DeleteProduct(db, product), product)
  {
    assert forall v | v in db.values :: db.values[v].info in db.infos;
    assert forall i | i in db.items :: db.items[i].info in db.infos;
  }

  /** The lines of an order that sell a product. */
  function ShareOfProduct(db: Db, product: int, order: Id): map<Id, int> {
    map i | i in db.items && db.items[i].order == order && InfoAt(db, db.items[i].info).product == product ::
      LineValue(db, i)
  }

  /** What every order is worth then drops by exactly what its lines of that product were worth. */
  lemma ProductDeletionSum(db: Db, user: Id, product: int, order: Id)
    requires Integrity(db) && product in db.products
    ensures var (was, now) := (LineValues(db, order), LineValues(Serve(db, DeleteProduct(user, product)).db, order));
      && Splits(was, now, ShareOfProduct(db, product, order))
      && Sum(now) == Sum(was) - Sum(ShareOfProduct(db, product, order))
  {
    var out := Serve(db, DeleteProduct(user, product)).db;
    ProductDeletionIsExact(db, user, product);
    ShareSplitsOff(db, out, product, order);
    SumSplit(LineValues(db, order), LineValues(out, order), ShareOfProduct(db, product, order));
  }

  /** So does the total the customer is shown, down to null when all its lines are of that product. */
  lemma ProductDeletionTotal(db: Db, user: Id, product: int, order: Id)
    requires Integrity(db) && product in db.products
    ensures AnswerWithout(db, Serve(db, DeleteProduct(user, product)).db, order, ShareOfProduct(db, product, order))
  {
    ProductDeletionSum(db, user, product, order);
    AnswerLoses(db, Serve(db, DeleteProduct(user, product)).db, order, ShareOfProduct(db, product, order));
  }

  lemma ShareSplitsOff(db: Db, out: Db, product: int, order: Id)
    requires ItemsSound(db.items, db.next.item, db.orders, db.infos, db.shops) && ProductGone(db, out, product)
    ensures Splits(LineValues(db, order), LineValues(out, order), ShareOfProduct(db, product, order))
  {
    var was, now, share := LineValues(db, order), LineValues(out, order), ShareOfProduct(db, product, order);
    assert forall i | i in db.items :: db.items[i].info in db.infos;
    assert forall i | i in now :: i in was && i !in share && now[i] == was[i];
    assert forall i | i in was :: i in now || i in share;
  }

  /* Checkout. */

  /** An order request succeeds exactly on an order of the caller and a contact that is stored or null, whoever's
      the contact is. It then makes that one order new, and the user is left without it as a basket; otherwise it
      changes nothing. */
  lemma CheckoutIsExact(db: Db, user: Id, order: int, contact: ContactField)
    requires Integrity(db)
    ensures var out := Serve(db, PostOrder(user, Given(order), contact));
      && (!out.failed <==> order in db.orders && db.orders[order].user == user
                           && (contact.NoContact? || (contact.ContactId? && contact.id in db.contacts)))
      && (out.failed ==> out.db == db)
      && (!out.failed ==>
          && out.db == db.(orders := out.db.orders)
          && out.db.orders.Keys == db.orders.Keys
          && (forall o | o in db.orders && o != order :: out.db.orders[o] == db.orders[o])
          && out.db.orders[order].status == New && out.db.orders[order].user == user
          && out.db.orders[order].contact == (if contact.NoContact? then None else Some(contact.id))
          && BasketsOf(out.db.orders, user) == BasketsOf(db.orders, user) - {order})
  {
    OrderRequestServed(db, user, order, contact);
    var loaded := StepLoadOrder(Begin(db), order, user);
    if !loaded.failed && !contact.NotAContact? {
      SavedOrder(loaded, user, order, Placing(contact).contact);
    }
  }

  lemma SavedOrder(c: Run, user: Id, order: Id, contact: Option<Id>)
    requires Integrity(c.db) && order in c.db.orders && c.vars.order == Some((order, c.db.orders[order]))
    requires c.db.orders[order].user == user
    ensures var out := StepPlaceOrder(c, contact);
      && (!out.failed <==> contact.Some? ==> contact.value in c.db.contacts)
      && out.db == (if out.failed then c.db else c.db.(orders := c.db.orders[order := Order(user, New, contact)]))
      && (!out.failed ==> BasketsOf(out.db.orders, user) == BasketsOf(c.db.orders, user) - {order})
  {
  }
}
