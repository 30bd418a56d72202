/** Positions of staged rows and the "ORDER BY ... LIMIT n" reading of a set of
    them. */
module Scan {
  import opened Hlc

  // A row of the combined staging query. The data column is found by looking
  // the position up, since (nanos, logical, key) is each table's primary key.
  datatype Pos = Pos(table: nat, time: Time, key: string)

  // The two orderings of the outer query.
  datatype Order = ByTime | ByTable

  predicate KeyLt(a: string, b: string) {
    if b == [] then false
    else if a == [] then true
    else a[0] < b[0] || (a[0] == b[0] && KeyLt(a[1..], b[1..]))
  }

  // (nanos, logical, key) < (nanos, logical, key)
  predicate RowLt(t: Time, k: string, t': Time, k': string) {
    Lt(t, t') || (t == t' && KeyLt(k, k'))
  }

  predicate PosLt(ord: Order, a: Pos, b: Pos) {
    match ord
    case ByTime =>
      Lt(a.time, b.time) || (a.time == b.time && (a.table < b.table || (a.table == b.table && KeyLt(a.key, b.key))))
    case ByTable =>
      a.table < b.table || (a.table == b.table && RowLt(a.time, a.key, b.time, b.key))
  }

  lemma KeyLtTrichotomy(a: string, b: string)
    ensures a == b || KeyLt(a, b) || KeyLt(b, a)
    ensures !(KeyLt(a, b) && KeyLt(b, a))
    ensures !KeyLt(a, a)
  {
    if a != [] && b != [] {
      KeyLtTrichotomy(a[1..], b[1..]);
      assert a == [a[0]] + a[1..] && b == [b[0]] + b[1..];
    }
    if a != [] {
      KeyLtTrichotomy(a[1..], a[1..]);
    }
  }

  // The order of strings as such: the first difference decides, and what ends
  // there comes first.
  ghost predicate TextBefore(a: string, b: string) {
    exists n :: DiffersAt(a, b, n)
  }

  predicate DiffersAt(a: string, b: string, n: int) {
    0 <= n <= |a| && n < |b| && a[..n] == b[..n] && (n == |a| || a[n] < b[n])
  }

  lemma {:induction false} KeyLtIff(a: string, b: string)
    ensures KeyLt(a, b) <==> TextBefore(a, b)
  {
    if a == [] || b == [] || a[0] != b[0] {
      assert KeyLt(a, b) ==> DiffersAt(a, b, 0);
      forall n ensures DiffersAt(a, b, n) && n > 0 ==> a != [] && b != [] && a[0] == b[0] {
        SameFirst(a, b, n);
      }
    } else {
      KeyLtIff(a[1..], b[1..]);
      forall n ensures DiffersAt(a, b, n) <==> DiffersAt(a[1..], b[1..], n - 1) {
        TailDiffers(a, b, n);
      }
      if n :| DiffersAt(a[1..], b[1..], n) {
        assert DiffersAt(a, b, n + 1);
      }
    }
  }

  lemma SameFirst(a: string, b: string, n: int)
    ensures DiffersAt(a, b, n) && n > 0 ==> a != [] && b != [] && a[0] == b[0]
  {
    if DiffersAt(a, b, n) && n > 0 {
      assert a[..n][0] == b[..n][0];
    }
  }

  lemma TailDiffers(a: string, b: string, n: int)
    requires a != [] && b != [] && a[0] == b[0]
    ensures DiffersAt(a, b, n) <==> DiffersAt(a[1..], b[1..], n - 1)
  {
    if 0 < n <= |a| && n <= |b| {
      var a', b' := a[1..][..n - 1], b[1..][..n - 1];
      assert a[..n] == [a[0]] + a' && b[..n] == [b[0]] + b';
      if a[..n] == b[..n] {
        assert a' == a[..n][1..] == b[..n][1..] == b';
      }
    }
  }

  lemma KeyLtTransitive(a: string, b: string, c: string)
    requires KeyLt(a, b) && KeyLt(b, c)
    ensures KeyLt(a, c)
  {
    if a != [] {
      if a[0] == b[0] == c[0] {
        KeyLtTransitive(a[1..], b[1..], c[1..]);
      }
    }
  }

  lemma PosLtTrichotomy(ord: Order, a: Pos, b: Pos)
    ensures a == b || PosLt(ord, a, b) || PosLt(ord, b, a)
    ensures !(PosLt(ord, a, b) && PosLt(ord, b, a))
    ensures !PosLt(ord, a, a)
  {
    KeyLtTrichotomy(a.key, b.key);
  }

  lemma PosLtTransitive(ord: Order, a: Pos, b: Pos, c: Pos)
    requires PosLt(ord, a, b) && PosLt(ord, b, c)
    ensures PosLt(ord, a, c)
  {
    if KeyLt(a.key, b.key) && KeyLt(b.key, c.key) {
      KeyLtTransitive(a.key, b.key, c.key);
    }
  }

  predicate IsLeast(ord: Order, s: set<Pos>, m: Pos) {
    m in s && forall x | x in s && x != m :: PosLt(ord, m, x)
  }

  lemma LeastExists(ord: Order, s: set<Pos>)
    requires s != {}
    ensures exists m :: IsLeast(ord, s, m)
  {
    var a :| a in s;
    if s == {a} {
      assert IsLeast(ord, s, a);
    } else {
      LeastExists(ord, s - {a});
      var m :| IsLeast(ord, s - {a}, m);
      PosLtTrichotomy(ord, a, m);
      if PosLt(ord, m, a) {
        assert IsLeast(ord, s, m);
      } else {
        forall x | x in s && x != a ensures PosLt(ord, a, x) {
          if x != m { PosLtTransitive(ord, a, m, x); }
        }
        assert IsLeast(ord, s, a);
      }
    }
  }

  lemma LeastUnique(ord: Order, s: set<Pos>, m: Pos, m': Pos)
    requires IsLeast(ord, s, m) && IsLeast(ord, s, m')
    ensures m == m'
  {
    PosLtTrichotomy(ord, m, m');
  }

  function Least(ord: Order, s: set<Pos>): (m: Pos)
    requires s != {}
    ensures IsLeast(ord, s, m)
  {
    LeastExists(ord, s);
    assert forall m, m' | IsLeast(ord, s, m) && IsLeast(ord, s, m') :: m == m' by {
      forall m, m' | IsLeast(ord, s, m) && IsLeast(ord, s, m') ensures m == m' {
        LeastUnique(ord, s, m, m');
      }
    }
    var m :| m in s && IsLeast(ord, s, m);
    m
  }

  // SELECT ... FROM s ORDER BY ord LIMIT limit
  function First(ord: Order, s: set<Pos>, limit: nat): (r: seq<Pos>)
    decreases limit
  {
    if limit == 0 || s == {} then []
    else var m := Least(ord, s); [m] + First(ord, s - {m}, limit - 1)
  }

  // SELECT ... FROM s ORDER BY ord
  function All(ord: Order, s: set<Pos>): seq<Pos> {
    First(ord, s, |s|)
  }

  predicate Sorted(ord: Order, r: seq<Pos>) {
    forall i, j | 0 <= i < j < |r| :: PosLt(ord, r[i], r[j])
  }

  function Elems(r: seq<Pos>): set<Pos> {
    set x | x in r
  }

  // The page is as long as the limit allows, sorted, drawn from s, and sorts
  // before everything of s it leaves out.
  lemma {:induction false} FirstSpec(ord: Order, s: set<Pos>, limit: nat)
    ensures var r := First(ord, s, limit);
            && |r| == (if limit <= |s| then limit else |s|)
            && Sorted(ord, r)
            && Elems(r) <= s
            && (forall x, y | x in r && y in s && y !in r :: PosLt(ord, x, y))
    decreases limit
  {
    if limit != 0 && s != {} {
      var m := Least(ord, s);
      var rest := First(ord, s - {m}, limit - 1);
      FirstSpec(ord, s - {m}, limit - 1);
      var r := [m] + rest;
      assert First(ord, s, limit) == r;
      forall i, j | 0 <= i < j < |r| ensures PosLt(ord, r[i], r[j]) {
        assert r[j] == rest[j - 1] && rest[j - 1] in Elems(rest);
      }
      forall x | x in r ensures x in s {
        assert x == m || x in Elems(rest);
      }
    }
  }

  lemma SortedHead(ord: Order, r: seq<Pos>)
    requires Sorted(ord, r) && r != []
    ensures IsLeast(ord, Elems(r), r[0])
    ensures r[0] !in r[1..] && Sorted(ord, r[1..]) && Elems(r[1..]) == Elems(r) - {r[0]}
  {
    var rest := r[1..];
    assert forall i | 0 <= i < |rest| :: rest[i] == r[i + 1] && PosLt(ord, r[0], rest[i]);
    PosLtTrichotomy(ord, r[0], r[0]);
    assert r == [r[0]] + rest;
  }

  lemma AllHead(ord: Order, s: set<Pos>, m: Pos)
    requires IsLeast(ord, s, m)
    ensures All(ord, s) == [m] + All(ord, s - {m}) && |s| == |s - {m}| + 1
  {
    LeastUnique(ord, s, m, Least(ord, s));
    assert s == (s - {m}) + {m};
  }

  // A sorted sequence is determined by its elements.
  lemma {:induction false} SortedUnique(ord: Order, r: seq<Pos>, s: set<Pos>)
    requires Sorted(ord, r) && Elems(r) == s
    ensures r == All(ord, s) && |r| == |s|
    decreases |r|
  {
    hide PosLt, Sorted, IsLeast;
    if r == [] {
      assert s == {};
    } else {
      hide First, All;
      SortedHead(ord, r);
      SortedUnique(ord, r[1..], s - {r[0]});
      AllHead(ord, s, r[0]);
      assert r == [r[0]] + r[1..];
    }
  }

  function After(ord: Order, s: set<Pos>, p: Pos): set<Pos> {
    set x | x in s && PosLt(ord, p, x)
  }

  // After a full page, the rest of the scan is the scan of what sorts after
  // the page's last row; after a short page there is no rest.
  lemma PageThenRest(ord: Order, s: set<Pos>, limit: nat)
    requires limit >= 1
    ensures var r := First(ord, s, limit);
            if |r| < limit then r == All(ord, s) && Elems(r) == s
            else
              && |r| == limit
              && All(ord, s) == r + All(ord, After(ord, s, r[|r| - 1]))
              && After(ord, s, r[|r| - 1]) == s - Elems(r)
              && |After(ord, s, r[|r| - 1])| < |s|
  {
    hide First, PosLt, Sorted, IsLeast;
    var r := First(ord, s, limit);
    FirstSpec(ord, s, limit);
    CardinalityOfSorted(ord, r);
    if |r| < limit {
      Subset(Elems(r), s);
      SortedUnique(ord, r, s);
    } else {
      AfterLast(ord, s, r);
      var rest := After(ord, s, r[|r| - 1]);
      Subset(rest, s);
      AllSpec(ord, rest);
      var whole := r + All(ord, rest);
      SortedConcat(ord, r, All(ord, rest));
      assert Elems(whole) == Elems(r) + Elems(All(ord, rest));
      SortedUnique(ord, whole, s);
    }
  }

  lemma SortedConcat(ord: Order, a: seq<Pos>, b: seq<Pos>)
    requires Sorted(ord, a) && Sorted(ord, b)
    requires forall x, y | x in Elems(a) && y in Elems(b) :: PosLt(ord, x, y)
    ensures Sorted(ord, a + b)
  {
    hide PosLt;
    forall i, j | 0 <= i < j < |a + b| ensures PosLt(ord, (a + b)[i], (a + b)[j]) {
      if i < |a| <= j {
        assert (a + b)[i] in Elems(a) && (a + b)[j] in Elems(b);
      }
    }
  }

  lemma AfterLast(ord: Order, s: set<Pos>, r: seq<Pos>)
    requires r != [] && Sorted(ord, r) && Elems(r) <= s
    requires forall x, y | x in r && y in s && y !in r :: PosLt(ord, x, y)
    ensures var rest := After(ord, s, r[|r| - 1]);
            rest == s - Elems(r) && rest < s
  {
    var last := r[|r| - 1];
    forall x | x in s ensures PosLt(ord, last, x) <==> x !in r {
      PosLtTrichotomy(ord, x, last);
    }
    assert last in r && last in Elems(r);
  }

  lemma Subset(a: set<Pos>, b: set<Pos>)
    requires a <= b
    ensures |a| <= |b|
    ensures |a| == |b| ==> a == b
    ensures a != b ==> |a| < |b|
  {
    assert b == a + (b - a);
    assert |b| == |a| + |b - a|;
  }

  lemma CardinalityOfSorted(ord: Order, r: seq<Pos>)
    requires Sorted(ord, r)
    ensures |Elems(r)| == |r|
  {
    SortedUnique(ord, r, Elems(r));
  }

  // The complete scan contains exactly the set.
  lemma AllSpec(ord: Order, s: set<Pos>)
    ensures Sorted(ord, All(ord, s)) && Elems(All(ord, s)) == s && |All(ord, s)| == |s|
  {
    FirstSpec(ord, s, |s|);
    CardinalityOfSorted(ord, All(ord, s));
    Subset(Elems(All(ord, s)), s);
  }

  // ---- Limits in the sub-queries do not change the outer page ----

  function OfTable(s: set<Pos>, t: nat): set<Pos> {
    set x | x in s && x.table == t
  }

  // What table t's sub-query, itself ordered by (time, key) and limited,
  // contributes to the union.
  function Kept(s: set<Pos>, t: nat, limit: nat): set<Pos> {
    Elems(First(ByTable, OfTable(s, t), limit))
  }

  lemma FirstIgnoresOuterOrder(ord: Order, s: set<Pos>, t: nat, limit: nat)
    requires forall x | x in s :: x.table == t
    ensures First(ord, s, limit) == First(ByTable, s, limit)
    decreases limit
  {
    if limit != 0 && s != {} {
      var m := Least(ord, s);
      assert IsLeast(ByTable, s, m);
      LeastUnique(ByTable, s, m, Least(ByTable, s));
      FirstIgnoresOuterOrder(ord, s - {m}, t, limit - 1);
    }
  }

  lemma KeptMonotone(s: set<Pos>, t: nat, limit: nat)
    ensures limit >= 1 ==> Kept(s, t, limit - 1) <= Kept(s, t, limit)
  {
    if limit >= 1 {
      FirstPrefix(ByTable, OfTable(s, t), limit);
      var a, b := First(ByTable, OfTable(s, t), limit - 1), First(ByTable, OfTable(s, t), limit);
      forall x | x in a ensures x in b {
        var i :| 0 <= i < |a| && a[i] == x;
        assert b[i] == x;
      }
    }
  }

  lemma FirstPrefix(ord: Order, s: set<Pos>, limit: nat)
    requires limit >= 1
    ensures First(ord, s, limit - 1) <= First(ord, s, limit)
    decreases limit
  {
    if limit > 1 && s != {} {
      FirstPrefix(ord, s - {Least(ord, s)}, limit - 1);
    }
  }

  lemma KeptWithoutLeast(s: set<Pos>, m: Pos, t: nat, limit: nat)
    requires m in s && limit >= 1 && IsLeast(ByTable, OfTable(s, m.table), m)
    ensures Kept(s - {m}, t, limit - 1) <= Kept(s, t, limit) - {m}
  {
    FirstSpec(ByTable, OfTable(s - {m}, t), limit - 1);
    assert m !in Kept(s - {m}, t, limit - 1);
    if t == m.table {
      var own := OfTable(s, t);
      assert OfTable(s - {m}, t) == own - {m};
      LeastUnique(ByTable, own, m, Least(ByTable, own));
      assert First(ByTable, own, limit) == [m] + First(ByTable, own - {m}, limit - 1);
    } else {
      assert OfTable(s - {m}, t) == OfTable(s, t);
      KeptMonotone(s, t, limit);
    }
  }

  ghost predicate KeepsAll(s: set<Pos>, limit: nat, u: set<Pos>) {
    forall t: nat :: Kept(s, t, limit) <= u
  }

  // Limiting every table's sub-query loses nothing of the limited union.
  lemma {:induction false} UnionOfLimitedScans(ord: Order, s: set<Pos>, u: set<Pos>, limit: nat)
    requires u <= s
    requires KeepsAll(s, limit, u)
    ensures First(ord, u, limit) == First(ord, s, limit)
    decreases limit
  {
    if limit == 0 || s == {} {
    } else {
      var m := Least(ord, s);
      var own := OfTable(s, m.table);
      assert IsLeast(ord, own, m);
      assert IsLeast(ByTable, own, m);
      LeastUnique(ByTable, own, m, Least(ByTable, own));
      assert m == First(ByTable, own, limit)[0] && m in Kept(s, m.table, limit);
      assert IsLeast(ord, u, m);
      LeastUnique(ord, u, m, Least(ord, u));
      assert KeepsAll(s - {m}, limit - 1, u - {m}) by {
        var s', limit' := s - {m}, limit - 1;
        forall t: nat ensures Kept(s', t, limit') <= u - {m} {
          KeptWithoutLeast(s, m, t, limit);
        }
      }
      UnionOfLimitedScans(ord, s - {m}, u - {m}, limit - 1);
    }
  }
}
