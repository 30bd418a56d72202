/** The map that tracks its least stamp (stamp.MinMap), over container/heap. */
module MinMap {
  import opened Wrappers
  import opened StampOrder

  function Parent(i: nat): (p: nat)
    ensures p <= i && (i > 0 ==> p < i)
  {
    if i == 0 then 0 else (i - 1) / 2
  }

  // The link from slot i of a heap to the slot above it is in order.
  predicate Link<S(==)>(less: (S, S) -> bool, s: seq<Option<S>>, i: nat)
    requires i < |s|
  {
    Compare(less, s[Parent(i)], s[i]) <= 0
  }

  ghost predicate Heap<S>(less: (S, S) -> bool, s: seq<Option<S>>, n: nat)
    requires n <= |s|
  {
    forall i: nat | i < n :: Link(less, s, i)
  }

  // A heap with a hole: only links touching slot j may be out of order, and
  // the slots below j are in order with the slot above it.
  ghost predicate HeapBut<S>(less: (S, S) -> bool, s: seq<Option<S>>, n: nat, j: nat)
    requires j < n <= |s|
  {
    && (forall i: nat | i < n && i != j && Parent(i) != j :: Link(less, s, i))
    && (forall i: nat | i < n && i != j && Parent(i) == j :: Compare(less, s[Parent(j)], s[i]) <= 0 || j == 0)
  }

  // What up needs: only the link above j may be out of order.
  ghost predicate Rising<S>(less: (S, S) -> bool, s: seq<Option<S>>, n: nat, j: nat)
    requires j < n <= |s|
  {
    HeapBut(less, s, n, j) && forall i: nat | i < n && i != j && Parent(i) == j :: Link(less, s, i)
  }

  ghost predicate Sinking<S>(less: (S, S) -> bool, s: seq<Option<S>>, n: nat, j: nat)
    requires j < n <= |s|
  {
    HeapBut(less, s, n, j) && Link(less, s, j)
  }

  function Swapped<T>(s: seq<T>, i: nat, j: nat): seq<T>
    requires i < |s| && j < |s|
  {
    s[i := s[j]][j := s[i]]
  }

  lemma RiseStep<S(!new)>(less: (S, S) -> bool, s: seq<Option<S>>, n: nat, j: nat)
    requires StrictWeakOrder(less) && j < n <= |s| && Rising(less, s, n, j) && !Link(less, s, j)
    ensures Rising(less, Swapped(s, Parent(j), j), n, Parent(j))
  {
    var p, s' := Parent(j), Swapped(s, Parent(j), j);
    CompareIsOrder(less, s[p], s[j], None);
    forall i: nat | i < n && i != p && Parent(i) == p
      ensures Link(less, s', i) && (Compare(less, s'[Parent(p)], s'[i]) <= 0 || p == 0)
    {
      if i != j {
        CompareIsOrder(less, s[j], s[p], s[i]);
        CompareIsOrder(less, s[Parent(p)], s[p], s[i]);
      }
    }
  }

  lemma SinkStep<S(!new)>(less: (S, S) -> bool, s: seq<Option<S>>, n: nat, i: nat, j: nat)
    requires StrictWeakOrder(less) && i < j < n <= |s| && HeapBut(less, s, n, i)
    requires Parent(j) == i && Compare(less, s[j], s[i]) < 0
    requires forall c: nat | c < n && c != i && Parent(c) == i :: Compare(less, s[j], s[c]) <= 0
    ensures Sinking(less, Swapped(s, i, j), n, j)
  {
    var s' := Swapped(s, i, j);
    forall k: nat | k < n && k != j && Parent(k) != j ensures Link(less, s', k) {
      if k != i && Parent(k) == i {
        assert Compare(less, s[j], s[k]) <= 0;
      }
    }
    forall k: nat | k < n && k != j && Parent(k) == j ensures Compare(less, s'[i], s'[k]) <= 0 {
      assert k != i && Link(less, s, k);
    }
  }

  lemma {:induction false} RootIsLeast<S(!new)>(less: (S, S) -> bool, s: seq<Option<S>>, i: nat)
    requires StrictWeakOrder(less) && i < |s| && Heap(less, s, |s|)
    ensures Compare(less, s[0], s[i]) <= 0
  {
    if i > 0 {
      RootIsLeast(less, s, Parent(i));
      assert Link(less, s, i);
      CompareIsOrder(less, s[0], s[Parent(i)], s[i]);
    }
  }

  lemma NoHoleIsHeap<S(!new)>(less: (S, S) -> bool, s: seq<Option<S>>, n: nat, j: nat)
    requires j < n <= |s| && Rising(less, s, n, j) && Link(less, s, j)
    ensures Heap(less, s, n)
  {
    forall i: nat | i < n ensures Link(less, s, i) {
      if i != j && Parent(i) != j {
        assert Link(less, s, i);
      }
    }
  }

  lemma LastSlotRises<S(!new)>(less: (S, S) -> bool, s: seq<Option<S>>, n: nat, i: nat)
    requires i < n <= |s| && HeapBut(less, s, n, i) && 2 * i + 1 >= n
    ensures Rising(less, s, n, i)
  {
  }

  // The smaller of the slots below i is no greater than any of them.
  lemma SmallerChild<S(!new)>(less: (S, S) -> bool, s: seq<Option<S>>, n: nat, i: nat, j: nat)
    requires StrictWeakOrder(less) && 2 * i + 1 < n <= |s|
    requires j == if 2 * i + 2 < n && Compare(less, s[2 * i + 2], s[2 * i + 1]) < 0 then 2 * i + 2 else 2 * i + 1
    ensures Parent(j) == i < j < n
    ensures forall c: nat | c < n && c != i && Parent(c) == i :: Compare(less, s[j], s[c]) <= 0
    ensures HeapBut(less, s, n, i) && Compare(less, s[j], s[i]) >= 0 ==> Rising(less, s, n, i)
  {
    forall c: nat | c < n && c != i && Parent(c) == i
      ensures Compare(less, s[j], s[c]) <= 0
      ensures Compare(less, s[j], s[i]) >= 0 ==> Compare(less, s[i], s[c]) <= 0
    {
      assert c == 2 * i + 1 || c == 2 * i + 2;
      CompareIsOrder(less, s[j], s[c], None);
      CompareIsOrder(less, s[i], s[j], s[c]);
    }
  }

  // Overwriting one slot of a heap leaves a hole there.
  lemma HoleAt<S(!new)>(less: (S, S) -> bool, s: seq<Option<S>>, n: nat, j: nat, v: Option<S>)
    requires StrictWeakOrder(less) && j < n <= |s| && Heap(less, s, n)
    ensures HeapBut(less, s[j := v], n, j)
  {
    var s' := s[j := v];
    forall i: nat | i < n && i != j && Parent(i) == j ensures Compare(less, s'[Parent(j)], s'[i]) <= 0 || j == 0 {
      assert Link(less, s, i) && Link(less, s, j);
      CompareIsOrder(less, s[Parent(j)], s[j], s[i]);
    }
    forall i: nat | i < n && i != j && Parent(i) != j ensures Link(less, s', i) {
      assert Link(less, s, i);
    }
  }

  lemma {:induction false} RemovalHole<S(!new)>(less: (S, S) -> bool, s: seq<Option<S>>, n: nat, j: nat)
    requires StrictWeakOrder(less) && j < n && |s| == n + 1 && Heap(less, s, n + 1)
    ensures HeapBut(less, Swapped(s, j, n), n, j)
  {
    var s', t := Swapped(s, j, n), s[j := s[n]];
    assert Heap(less, s, n) by {
      forall i: nat | i < n ensures Link(less, s, i) {}
    }
    HoleAt(less, s, n, j, s[n]);
    assert forall i: nat | i < n :: s'[i] == t[i] && s'[Parent(i)] == t[Parent(i)];
    forall i: nat | i < n && i != j && Parent(i) != j ensures Link(less, s', i) {
      assert Link(less, t, i);
    }
  }

  lemma HeapPrefix<S(!new)>(less: (S, S) -> bool, s: seq<Option<S>>, m: nat, n: nat)
    requires n <= m <= |s| && Heap(less, s, m)
    ensures Heap(less, s[..n], n)
  {
    forall i: nat | i < n ensures Link(less, s[..n], i) {
      assert Link(less, s, i);
    }
  }

  lemma AppendedRises<S(!new)>(less: (S, S) -> bool, s: seq<Option<S>>, v: Option<S>)
    requires Heap(less, s, |s|)
    ensures Rising(less, s + [v], |s| + 1, |s|)
  {
    forall i: nat | i < |s| ensures Link(less, s + [v], i) {
      assert Link(less, s, i);
    }
  }

  // The least stamp of a plain map, or a nil stamp if the map is empty.
  ghost predicate Least<K(!new), S>(less: (S, S) -> bool, view: map<K, Option<S>>, least: Option<S>) {
    && (view.Keys == {} ==> least == None)
    && (view.Keys != {} ==> exists k :: k in view && view[k] == least)
    && (forall k | k in view :: Compare(less, least, view[k]) <= 0)
  }

  lemma LeastIsOneClass<K(!new), S(!new)>(less: (S, S) -> bool, view: map<K, Option<S>>, a: Option<S>, b: Option<S>)
    requires StrictWeakOrder(less) && Least(less, view, a) && Least(less, view, b)
    ensures Compare(less, a, b) == 0
  {
    if view.Keys != {} {
      var k :| k in view && view[k] == a;
      var l :| l in view && view[l] == b;
      CompareIsOrder(less, a, b, None);
    }
  }

  lemma SameChange<K(!new), S(!new)>(less: (S, S) -> bool, view: map<K, Option<S>>, startMin: Option<S>,
                                     endMin: Option<S>)
    requires StrictWeakOrder(less) && Least(less, view, startMin)
    ensures forall before | Least(less, view, before) ::
              Compare(less, startMin, endMin) != 0 <==> Compare(less, before, endMin) != 0
  {
    forall before | Least(less, view, before)
      ensures Compare(less, startMin, endMin) != 0 <==> Compare(less, before, endMin) != 0
    {
      LeastIsOneClass(less, view, before, startMin);
      CompareIsOrder(less, before, startMin, endMin);
      CompareIsOrder(less, startMin, before, endMin);
      CompareIsOrder(less, endMin, startMin, before);
      CompareIsOrder(less, endMin, before, startMin);
    }
  }

  // When a Put changes the minimum: the first stamp, one below the minimum, or
  // the only holder of the minimum moving up.
  lemma PutChangesMinIff<K(!new), S(!new)>(less: (S, S) -> bool, view: map<K, Option<S>>, key: K, stamp: Option<S>,
                                           before: Option<S>, after: Option<S>)
    requires StrictWeakOrder(less) && Least(less, view, before) && Least(less, view[key := stamp], after)
    ensures Compare(less, before, after) != 0 <==>
            || (view.Keys == {} && stamp.Some?)
            || Compare(less, stamp, before) < 0
            || (key in view && Compare(less, before, stamp) < 0
                && forall k | k in view && k != key :: Compare(less, before, view[k]) < 0)
  {
    var put := view[key := stamp];
    assert key in put;
    var k :| k in put && put[k] == after;
    CompareIsOrder(less, before, stamp, after);
    CompareIsOrder(less, before, after, stamp);
    CompareIsOrder(less, after, stamp, before);
    if view.Keys != {} {
      var l :| l in view && view[l] == before;
      if l != key {
        assert put[l] == before;
      }
    }
    if other :| other in view && other != key && Compare(less, before, view[other]) >= 0 {
      assert put[other] == view[other];
      CompareIsOrder(less, after, view[other], before);
      CompareIsOrder(less, before, view[other], None);
    }
  }

  class Elt<K, S> {
    ghost const key: K
    var Index: nat
    var Stamp: Option<S>

    constructor (key: K, stamp: Option<S>)
      ensures this.key == key && Stamp == stamp
    {
      this.key, Index, Stamp := key, 0, stamp;
    }
  }

  function StampsOf<K, S>(es: seq<Elt<K, S>>): (s: seq<Option<S>>)
    reads es
    ensures |s| == |es| && forall i | 0 <= i < |es| :: s[i] == es[i].Stamp
  {
    if es == [] then [] else [es[0].Stamp] + StampsOf(es[1..])
  }

  // The first n slots hold the same elements and the others are untouched.
  ghost predicate Shuffled<K, S>(a: seq<Elt<K, S>>, b: seq<Elt<K, S>>, n: nat)
    requires n <= |a|
  {
    && |a| == |b| && a[n..] == b[n..]
    && (forall e | e in a[..n] :: e in b[..n]) && (forall e | e in b[..n] :: e in a[..n])
  }

  lemma ShuffledMembers<K, S>(a: seq<Elt<K, S>>, b: seq<Elt<K, S>>, n: nat)
    requires n <= |a| && Shuffled(a, b, n)
    ensures |a| == |b| && (forall e | e in a :: e in b) && (forall e | e in b :: e in a)
  {
    assert a == a[..n] + a[n..] && b == b[..n] + b[n..];
  }

  lemma ShuffledSelf<K, S>(a: seq<Elt<K, S>>, n: nat)
    requires n <= |a|
    ensures Shuffled(a, a, n)
  {
  }

  lemma ShuffledTrans<K, S>(a: seq<Elt<K, S>>, b: seq<Elt<K, S>>, c: seq<Elt<K, S>>, n: nat)
    requires n <= |a| && Shuffled(a, b, n) && Shuffled(b, c, n)
    ensures Shuffled(a, c, n)
  {
  }

  lemma SwapShuffles<K, S>(a: seq<Elt<K, S>>, b: seq<Elt<K, S>>, n: nat, i: nat, j: nat)
    requires i < n && j < n && n <= |a| == |b| && Shuffled(a, b, n)
    ensures Shuffled(a, Swapped(b, i, j), n)
  {
    var c := Swapped(b, i, j);
    forall e | e in b[..n] ensures e in c[..n] {
      var k :| 0 <= k < n && b[k] == e;
      assert c[..n][i] == b[j] && c[..n][j] == b[i];
      assert k != i && k != j ==> c[..n][k] == e;
    }
    forall e | e in c[..n] ensures e in b[..n] {
      var k :| 0 <= k < n && c[k] == e;
      assert b[..n][i] == b[i] && b[..n][j] == b[j] && b[..n][k] == b[k];
    }
  }

  // What is left of h once the last slot takes slot i and the rest is shuffled.
  lemma RemovedMembers<K, S>(a: seq<Elt<K, S>>, b: seq<Elt<K, S>>, c: seq<Elt<K, S>>, n: nat, i: nat)
    requires i <= n && |a| == n + 1 && (forall k, l | 0 <= k < l < |a| :: a[k] != a[l])
    requires Shuffled(Swapped(a, i, n), b, n) && Shuffled(b, c, n)
    ensures forall e | e in c[..n] :: e in a && e != a[i]
    ensures forall e | e in a && e != a[i] :: e in c[..n]
  {
    var s := Swapped(a, i, n);
    forall e | e in c[..n] ensures e in a && e != a[i] {
      assert e in s[..n];
      var k :| 0 <= k < n && s[k] == e;
    }
    forall e | e in a && e != a[i] ensures e in c[..n] {
      var k :| 0 <= k <= n && a[k] == e;
      assert s[..n][if k == n then i else k] == e;
      assert e in s[..n];
      assert e in b[..n];
    }
  }

  class MinMap<K(==,!new), S(==,!new)> {
    const less: (S, S) -> bool
    var m: map<K, Elt<K, S>>
    var h: seq<Elt<K, S>>

    // Every element knows its slot.
    ghost predicate Indexed()
      reads this, h
    {
      forall i | 0 <= i < |h| :: h[i].Index == i
    }

    // The keys and the slots are in bijection.
    ghost predicate Bijective()
      reads this, h
    {
      && (forall k | k in m :: m[k] in h && m[k].key == k)
      && (forall e | e in h :: e.key in m && m[e.key] == e)
    }

    ghost predicate Valid()
      reads this, h
    {
      StrictWeakOrder(less) && Indexed() && Bijective() && Heap(less, StampsOf(h), |h|)
    }

    ghost function Slots(): set<Elt<K, S>>
      reads this
    {
      set e | e in h
    }

    ghost function View(): map<K, Option<S>>
      reads this, h
      requires Bijective()
    {
      map k | k in m :: m[k].Stamp
    }

    constructor (less: (S, S) -> bool)
      requires StrictWeakOrder(less)
      ensures Valid() && this.less == less && View() == map[]
    {
      this.less, m, h := less, map[], [];
    }

    method Get(key: K) returns (r: Option<Option<S>>)
      requires Valid()
      ensures r == if key in View() then Some(View()[key]) else None
    {
      r := if key in m then Some(m[key].Stamp) else None;
    }

    method Min() returns (r: Option<S>)
      requires Valid()
      ensures Least(less, View(), r)
    {
      MinIsLeast();
      r := if |h| > 0 then h[0].Stamp else None;
    }

    lemma MinIsLeast()
      requires Valid()
      ensures Least(less, View(), if |h| > 0 then h[0].Stamp else None)
    {
      if |h| > 0 {
        assert h[0] in h && h[0].key in View();
        forall k | k in View() ensures Compare(less, h[0].Stamp, View()[k]) <= 0 {
          var i :| 0 <= i < |h| && h[i] == m[k];
          RootIsLeast(less, StampsOf(h), i);
        }
      }
    }

    // The heap interface.

    method Swap(i: nat, j: nat)
      requires i < |h| && j < |h| && Indexed()
      modifies `h, Slots()`Index
      ensures Indexed() && h == Swapped(old(h), i, j)
      ensures StampsOf(h) == Swapped(old(StampsOf(h)), i, j)
    {
      hide StampsOf;
      h := Swapped(h, i, j);
      h[i].Index, h[j].Index := i, j;
    }

    // heap.up: true to the heap order above slot j0.
    method Up(j0: nat, n: nat)
      requires StrictWeakOrder(less) && Indexed() && j0 < n <= |h| && Rising(less, StampsOf(h), n, j0)
      modifies `h, Slots()`Index
      ensures Indexed() && Shuffled(old(h), h, n) && Heap(less, StampsOf(h), n)
    {
      hide StampsOf, Rising, HeapBut, Heap, Shuffled, Swapped, StrictWeakOrder, Compare;
      var j: nat := j0;
      ShuffledSelf(h, n);
      while true
        invariant j < n <= |h| == |old(h)| && Indexed() && Shuffled(old(h), h, n) && Rising(less, StampsOf(h), n, j)
        decreases j
      {
        var i := Parent(j);
        if i == j || Compare(less, h[j].Stamp, h[i].Stamp) >= 0 {
          CompareIsOrder(less, h[i].Stamp, h[j].Stamp, None);
          NoHoleIsHeap(less, StampsOf(h), n, j);
          break;
        }
        CompareIsOrder(less, h[i].Stamp, h[j].Stamp, None);
        RiseStep(less, StampsOf(h), n, j);
        ShuffledMembers(old(h), h, n);
        SwapShuffles(old(h), h, n, i, j);
        Swap(i, j);
        j := i;
      }
    }

    // heap.down: whether the element of slot i0 moved.
    method Down(i0: nat, n: nat) returns (moved: bool)
      requires StrictWeakOrder(less) && Indexed() && i0 < n <= |h| && HeapBut(less, StampsOf(h), n, i0)
      modifies `h, Slots()`Index
      ensures Indexed() && Shuffled(old(h), h, n)
      ensures moved ==> Heap(less, StampsOf(h), n)
      ensures !moved ==> Rising(less, StampsOf(h), n, i0)
    {
      hide StampsOf, Rising, HeapBut, Heap, Shuffled, Swapped, StrictWeakOrder, Compare, Parent;
      var i: nat := i0;
      ShuffledSelf(h, n);
      while true
        invariant i0 <= i < n <= |h| == |old(h)| && Indexed() && Shuffled(old(h), h, n)
        invariant if i == i0 then HeapBut(less, StampsOf(h), n, i) else Sinking(less, StampsOf(h), n, i)
        decreases n - i
      {
        var j1 := 2 * i + 1;
        if j1 >= n {
          LastSlotRises(less, StampsOf(h), n, i);
          break;
        }
        var j := j1;
        if j1 + 1 < n && Compare(less, h[j1 + 1].Stamp, h[j1].Stamp) < 0 {
          j := j1 + 1;
        }
        SmallerChild(less, StampsOf(h), n, i, j);
        if Compare(less, h[j].Stamp, h[i].Stamp) >= 0 {
          break;
        }
        SinkStep(less, StampsOf(h), n, i, j);
        ShuffledMembers(old(h), h, n);
        SwapShuffles(old(h), h, n, i, j);
        Swap(i, j);
        i := j;
      }
      moved := i > i0;
      if moved {
        NoHoleIsHeap(less, StampsOf(h), n, i);
      }
    }

    // heap.Fix
    method Fix(i: nat)
      requires StrictWeakOrder(less) && Indexed() && i < |h| && HeapBut(less, StampsOf(h), |h|, i)
      modifies `h, Slots()`Index
      ensures Indexed() && Shuffled(old(h), h, |old(h)|) && Heap(less, StampsOf(h), |h|)
    {
      hide StampsOf, Rising, HeapBut, Heap, Shuffled, Swapped, StrictWeakOrder;
      ghost var h0, n := h, |h|;
      var moved := Down(i, |h|);
      ShuffledMembers(h0, h, n);
      if !moved {
        ghost var h1 := h;
        Up(i, |h|);
        ShuffledMembers(h1, h, n);
        ShuffledTrans(h0, h1, h, n);
      }
    }

    // heap.Push
    method Push(elt: Elt<K, S>)
      requires StrictWeakOrder(less) && Indexed() && elt !in h && Heap(less, StampsOf(h), |h|)
      modifies `h, Slots()`Index, elt`Index
      ensures Indexed() && Shuffled(old(h) + [elt], h, |old(h)| + 1) && Heap(less, StampsOf(h), |h|)
    {
      hide StampsOf, Rising, HeapBut, Heap, Shuffled, Swapped, StrictWeakOrder;
      ghost var s := StampsOf(h);
      elt.Index := |h|;
      h := h + [elt];
      assert StampsOf(h) == s + [elt.Stamp];
      AppendedRises(less, s, elt.Stamp);
      ghost var h0 := h;
      Up(|h| - 1, |h|);
      ShuffledMembers(h0, h, |h0|);
    }

    // heap.Remove
    method Remove(i: nat)
      requires StrictWeakOrder(less) && Indexed() && i < |h| && Heap(less, StampsOf(h), |h|)
      modifies `h, Slots()`Index
      ensures Indexed() && Heap(less, StampsOf(h), |h|)
      ensures forall e | e in h :: e in old(h) && e != old(h)[i]
      ensures forall e | e in old(h) && e != old(h)[i] :: e in h
    {
      hide StampsOf, Rising, HeapBut, Heap, Shuffled, StrictWeakOrder;
      var n := |h| - 1;
      ghost var h0 := h;
      if n != i {
        RemovalHole(less, StampsOf(h), n, i);
        Swap(i, n);
        ghost var h1 := h;
        var moved := Down(i, n);
        ghost var h2 := h;
        ShuffledMembers(h1, h, n);
        ShuffledSelf(h, n);
        if !moved {
          Up(i, n);
          ShuffledMembers(h2, h, n);
        }
        RemovedMembers(h0, h2, h, n, i);
      } else {
        ShuffledSelf(h, n);
        RemovedMembers(h0, h, h, n, i);
      }
      HeapPrefix(less, StampsOf(h), if n == i then n + 1 else n, n);
      ghost var s := StampsOf(h);
      h := h[..n];
      assert StampsOf(h) == s[..n];
    }

    method Delete(key: K)
      requires Valid()
      modifies `m, `h, Slots()`Index
      ensures Valid() && View() == old(View()) - {key} && Slots() <= old(Slots())
    {
      hide StampsOf, Heap, StrictWeakOrder;
      if key !in m {
        return;
      }
      var elt := m[key];
      m := m - {key};
      Remove(elt.Index);
    }

    method Restamp(elt: Elt<K, S>, stamp: Option<S>)
      requires StrictWeakOrder(less) && Indexed() && Heap(less, StampsOf(h), |h|) && elt in h
      modifies `h, Slots()`Index, elt`Stamp
      ensures Indexed() && Heap(less, StampsOf(h), |h|) && elt.Stamp == stamp
      ensures (forall e | e in h :: e in old(h)) && forall e | e in old(h) :: e in h
    {
      hide StampsOf, HeapBut, Heap, Shuffled, StrictWeakOrder;
      HoleAt(less, StampsOf(h), |h|, elt.Index, stamp);
      ghost var h0, s := h, StampsOf(h);
      elt.Stamp := stamp;
      assert StampsOf(h) == s[elt.Index := stamp];
      Fix(elt.Index);
      ShuffledMembers(h0, h, |h0|);
    }

    method Update(key: K, stamp: Option<S>)
      requires Valid() && key in m
      modifies `h, Slots()
      ensures Valid() && View() == old(View())[key := stamp] && |h| > 0
      ensures Slots() == old(Slots())
    {
      hide StampsOf, Heap, StrictWeakOrder;
      Restamp(m[key], stamp);
    }

    method Enter(elt: Elt<K, S>)
      requires StrictWeakOrder(less) && Indexed() && Heap(less, StampsOf(h), |h|) && elt !in h
      modifies `h, Slots()`Index, elt`Index
      ensures Indexed() && Heap(less, StampsOf(h), |h|)
      ensures forall e | e in h :: e == elt || e in old(h)
      ensures elt in h && forall e | e in old(h) :: e in h
    {
      hide StampsOf, HeapBut, Heap, Shuffled, StrictWeakOrder, Compare, Least, Link;
      ghost var h0 := h;
      Push(elt);
      ShuffledMembers(h0 + [elt], h, |h0| + 1);
      assert (h0 + [elt])[|h0|] == elt;
    }

    method Insert(key: K, stamp: Option<S>)
      requires Valid() && key !in m
      modifies `m, `h, Slots()`Index
      ensures Valid() && View() == old(View())[key := stamp] && |h| > 0
      ensures fresh(Slots() - old(Slots()))
    {
      hide StampsOf, Heap, StrictWeakOrder;
      var elt := new Elt(key, stamp);
      Enter(elt);
      m := m[key := elt];
    }

    // A change is reported exactly if the order class of the minimum changed.
    method Put(key: K, stamp: Option<S>) returns (minStamp: Option<S>, minChanged: bool)
      requires Valid()
      modifies `m, `h, Slots()
      ensures Valid() && View() == old(View())[key := stamp] && Least(less, View(), minStamp)
      ensures fresh(Slots() - old(Slots()))
      ensures forall before | Least(less, old(View()), before) :: minChanged <==> Compare(less, before, minStamp) != 0
    {
      hide StampsOf, Heap, StrictWeakOrder, Least, Compare;
      var startMin := Min();
      if key in m {
        Update(key, stamp);
      } else {
        Insert(key, stamp);
      }
      MinIsLeast();
      var endMin := h[0].Stamp;
      SameChange(less, old(View()), startMin, endMin);
      return endMin, Compare(less, startMin, endMin) != 0;
    }
  }
}
