/** Finite sets and maps of ids: lookup by value, reading in id order, and sums. */
module Collections {

  /** A bigint key. Sequences count up from 1; only the lower end of the column is part of the type. */
  type Id = x: int | -0x8000_0000_0000_0000 <= x witness 0

  /** The ids of the rows that hold exactly this value: `Model.objects.filter(...)`. */
  function WithValue<K(==)>(m: map<Id, K>, k: K): set<Id> {
    set p | p in m && m[p] == k
  }

  /** What `objects.get` finds: no row, exactly one, or MultipleObjectsReturned. */
  datatype Lookup = Missing | One(id: Id) | Many

  ghost function Get(ids: set<Id>): (r: Lookup)
    ensures r == Missing <==> ids == {}
    ensures forall x: Id :: r == One(x) <==> ids == {x}
  {
    if ids == {} then Missing else
      var x :| x in ids;
      if ids == {x} then One(x) else Many
  }

  /** The rows of `a` are still in `b`, and every row added shares its value with no other row. */
  ghost predicate GrowsByNewKeys<K>(a: map<Id, K>, b: map<Id, K>) {
    && (forall p | p in a :: p in b && b[p] == a[p])
    && (forall p | p in b && p !in a :: WithValue(b, b[p]) == {p})
  }

  /** A lookup answers the same in a table grown by new keys, except that a missing key may be there now. */
  lemma LookupStable<K>(a: map<Id, K>, b: map<Id, K>, k: K)
    requires GrowsByNewKeys(a, b)
    ensures WithValue(a, k) != {} ==> WithValue(b, k) == WithValue(a, k)
    ensures WithValue(a, k) == {} ==> WithValue(b, k) == {} || exists x :: WithValue(b, k) == {x}
    ensures WithValue(a, k) <= WithValue(b, k)
  {
    if x :| x in WithValue(a, k) {
      forall q | q in WithValue(b, k)
        ensures q in a
      {
        assert x in WithValue(b, b[q]);
      }
    } else if x :| x in WithValue(b, k) {
      assert x in a ==> x in WithValue(a, k);
      assert WithValue(b, k) == {x};
    }
  }

  lemma GrowsTransitive<K>(a: map<Id, K>, b: map<Id, K>, c: map<Id, K>)
    requires GrowsByNewKeys(a, b) && GrowsByNewKeys(b, c)
    ensures GrowsByNewKeys(a, c)
  {
    forall p | p in c && p !in a
      ensures WithValue(c, c[p]) == {p}
    {
      if p in b { LookupStable(b, c, b[p]); }
    }
  }

  /** Inserting a value no row holds grows a table by a new key. */
  lemma InsertGrows<K>(a: map<Id, K>, id: Id, k: K)
    requires id !in a && WithValue(a, k) == {}
    ensures GrowsByNewKeys(a, a[id := k])
    ensures WithValue(a[id := k], k) == {id}
    ensures a[id := k].Values == a.Values + {k}
  {
    var b := a[id := k];
    forall q | q in a
      ensures a[q] != k
    {
      assert q !in WithValue(a, k);
    }
    assert WithValue(b, k) == {id};
    forall v | v in a.Values + {k}
      ensures v in b.Values
    {
      if v == k { assert b[id] == v; } else { var q :| q in a && a[q] == v; assert b[q] == v; }
    }
  }

  /* Reading rows in id order. */

  ghost function Max(s: set<Id>): (m: Id)
    requires s != {}
    ensures m in s && forall x | x in s :: x <= m
  {
    var x :| x in s;
    if s == {x} then x else
      var y := Max(s - {x});
      assert forall z | z in s :: z == x || z in s - {x};
      if x > y then x else y
  }

  lemma MaxOfGrown(s: set<Id>, n: Id)
    requires forall x | x in s :: x < n
    ensures Max(s + {n}) == n && (s + {n}) - {n} == s
  {
    var m := Max(s + {n});
    assert n in s + {n};
  }

  /** How many ids of the set come before this one. */
  function Rank(ids: set<Id>, x: Id): nat { |set y: Id | y in ids && y < x| }

  lemma RankBelow(ids: set<Id>, x: Id, y: Id)
    requires x in ids && x < y
    ensures Rank(ids, x) < Rank(ids, y)
  {
    var below, upTo := set z: Id | z in ids && z < x, set z: Id | z in ids && z < y;
    assert below + {x} <= upTo;
    Smaller(below + {x}, upTo);
  }

  lemma Smaller(a: set<Id>, b: set<Id>)
    requires a <= b
    ensures |a| <= |b|
  {
    assert b == a + (b - a);
  }

  lemma RankInjective(ids: set<Id>, x: Id, y: Id)
    requires x in ids && y in ids && Rank(ids, x) == Rank(ids, y)
    ensures x == y
  {
    if x < y { RankBelow(ids, x, y); } else if y < x { RankBelow(ids, y, x); }
  }

  lemma RankInRange(ids: set<Id>, x: Id)
    requires x in ids
    ensures Rank(ids, x) < |ids|
  {
    var below := set y: Id | y in ids && y < x;
    Smaller(below + {x}, ids);
  }

  /** Ids past `x` do not move it. */
  lemma RankFrame(a: set<Id>, b: set<Id>, x: Id)
    requires forall y | y < x :: y in a <==> y in b
    ensures Rank(a, x) == Rank(b, x)
  {
    assert (set y: Id | y in a && y < x) == (set y: Id | y in b && y < x);
  }

  /** The id with `k` ids of the set before it. */
  ghost function Nth(ids: set<Id>, k: nat): (x: Id)
    requires k < |ids|
    ensures x in ids && Rank(ids, x) == k
    decreases |ids|
  {
    var last := Max(ids);
    var rest := ids - {last};
    RankOfMax(ids);
    if k == |ids| - 1 then last else
      var x := Nth(rest, k);
      assert x < last;
      RankFrame(rest, ids, x);
      x
  }

  lemma RankOfMax(ids: set<Id>)
    requires ids != {}
    ensures Rank(ids, Max(ids)) == |ids| - 1 == |ids - {Max(ids)}|
  {
    var last := Max(ids);
    var below := set y: Id | y in ids && y < last;
    assert below == ids - {last};
    assert Rank(ids, last) == |below|;
  }

  /** Which of the rows with its value row `id` is, counting from 0 in id order: 0 unless the value repeats. */
  function CopyOf<K(==)>(table: map<Id, K>, id: Id): nat {
    if id in table then Rank(WithValue(table, table[id]), id) else 0
  }

  lemma CopyStable<K>(a: map<Id, K>, b: map<Id, K>, id: Id)
    requires GrowsByNewKeys(a, b) && id in a
    ensures CopyOf(b, id) == CopyOf(a, id)
  {
    assert id in WithValue(a, a[id]);
    LookupStable(a, b, a[id]);
  }

  lemma CopyOfOnly<K>(table: map<Id, K>, id: Id)
    requires id in table && WithValue(table, table[id]) == {id}
    ensures CopyOf(table, id) == 0
  {
    var only := WithValue(table, table[id]);
    assert (set y: Id | y in only && y < id) == {};
  }

  /* Sums over a table of numbers. */

  ghost function Sum(m: map<Id, int>): int {
    if m == map[] then 0 else
      var k :| k in m;
      m[k] + Sum(m - {k})
  }

  lemma {:induction false} SumRemove(m: map<Id, int>, k: Id)
    requires k in m
    ensures Sum(m) == m[k] + Sum(m - {k})
    decreases |m|
  {
    var j :| j in m && Sum(m) == m[j] + Sum(m - {j});
    if j != k {
      SumRemove(m - {j}, k);
      SumRemove(m - {k}, j);
      assert m - {j} - {k} == m - {k} - {j};
    }
  }

  /** A table splits into two disjoint parts, and so does its sum. */
  ghost predicate Splits(m: map<Id, int>, a: map<Id, int>, b: map<Id, int>) {
    && a.Keys !! b.Keys && m.Keys == a.Keys + b.Keys
    && (forall k | k in a :: m[k] == a[k])
    && (forall k | k in b :: m[k] == b[k])
  }

  lemma SplitsOffNothing(m: map<Id, int>, a: map<Id, int>, b: map<Id, int>)
    requires Splits(m, a, b) && a.Keys == {}
    ensures m == b
  {
  }

  lemma SplitsRest(m: map<Id, int>, a: map<Id, int>, b: map<Id, int>, k: Id)
    requires Splits(m, a, b) && k in a
    ensures k in m && m[k] == a[k] && Splits(m - {k}, a - {k}, b) && |a - {k}| < |a|
  {
  }

  lemma {:induction false} SumSplit(m: map<Id, int>, a: map<Id, int>, b: map<Id, int>)
    requires Splits(m, a, b)
    ensures Sum(m) == Sum(a) + Sum(b)
    decreases |a|
  {
    if k :| k in a {
      SplitsRest(m, a, b, k);
      SumRemove(m, k);
      SumRemove(a, k);
      SumSplit(m - {k}, a - {k}, b);
    } else {
      SplitsOffNothing(m, a, b);
    }
  }

  /** Sums add up row by row. */
  lemma {:induction false} SumAdd(a: map<Id, int>, b: map<Id, int>, c: map<Id, int>)
    requires a.Keys == b.Keys == c.Keys
    requires forall k | k in a :: c[k] == a[k] + b[k]
    ensures Sum(c) == Sum(a) + Sum(b)
    decreases |a|
  {
    if k :| k in a {
      SumRemove(a, k);
      SumRemove(b, k);
      SumRemove(c, k);
      SumAdd(a - {k}, b - {k}, c - {k});
    } else {
      assert a == map[] && b == map[] && c == map[];
    }
  }

  lemma {:induction false} SumNonNegative(m: map<Id, int>)
    requires forall k | k in m :: m[k] >= 0
    ensures Sum(m) >= 0
    decreases |m|
  {
    if k :| k in m {
      SumRemove(m, k);
      SumNonNegative(m - {k});
    } else {
      assert m == map[];
    }
  }

  ghost function InGroup(m: map<Id, int>, group: map<Id, Id>, g: Id): map<Id, int> {
    map k | k in m && k in group && group[k] == g :: m[k]
  }

  ghost function SumsByGroup(m: map<Id, int>, group: map<Id, Id>, groups: set<Id>): map<Id, int> {
    map g | g in groups :: Sum(InGroup(m, group, g))
  }

  ghost function OutOfGroup(m: map<Id, int>, group: map<Id, Id>, g: Id): map<Id, int>
    requires forall k | k in m :: k in group
  {
    map k | k in m && group[k] != g :: m[k]
  }

  lemma OtherGroups(m: map<Id, int>, group: map<Id, Id>, g: Id, groups: set<Id>)
    requires forall k | k in m :: k in group
    requires g !in groups
    ensures SumsByGroup(m, group, groups) == SumsByGroup(OutOfGroup(m, group, g), group, groups)
  {
    forall h | h in groups
      ensures InGroup(m, group, h) == InGroup(OutOfGroup(m, group, g), group, h)
    {
      assert InGroup(m, group, h).Keys == InGroup(OutOfGroup(m, group, g), group, h).Keys;
    }
  }

  /** Summing group by group, over any set of groups that covers the table, sums the table. */
  lemma {:induction false} SumByGroup(m: map<Id, int>, group: map<Id, Id>, groups: set<Id>)
    requires forall k | k in m :: k in group && group[k] in groups
    ensures Sum(SumsByGroup(m, group, groups)) == Sum(m)
    decreases |groups|
  {
    if g :| g in groups {
      var rest := OutOfGroup(m, group, g);
      SumSplit(m, InGroup(m, group, g), rest);
      SumByGroup(rest, group, groups - {g});
      OtherGroups(m, group, g, groups - {g});
      SumRemove(SumsByGroup(m, group, groups), g);
      assert SumsByGroup(m, group, groups) - {g} == SumsByGroup(m, group, groups - {g});
    } else {
      assert m == map[];
      assert SumsByGroup(m, group, groups) == map[];
    }
  }
}
