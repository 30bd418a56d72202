/** In-place removal of all but the latest mutation of each key (UniqueByKey). */
module Msort {
  import opened Hlc

  datatype Mutation = Mutation(key: string, time: Time, data: string, delete: bool)

  // ---- Specification ----

  ghost predicate Latest(s: seq<Mutation>, m: Mutation) {
    m in s && forall x | x in s && x.key == m.key :: Le(x.time, m.time)
  }

  // r holds, for every key of s, exactly one mutation, and that one is a latest.
  ghost predicate UniqueLatest(s: seq<Mutation>, r: seq<Mutation>) {
    && (forall i, j | 0 <= i < j < |r| :: r[i].key != r[j].key)
    && (forall m | m in r :: Latest(s, m))
    && (forall m | m in s :: HasKey(r, m.key))
  }

  predicate HasKey(r: seq<Mutation>, k: string) {
    exists m :: m in r && m.key == k
  }

  // ---- The program ----

  // The slots from dest on are found by their keys, and hold mutations of s.
  ghost predicate Indexed(s: seq<Mutation>, x: seq<Mutation>, seenIdx: map<string, nat>, dest: nat) {
    && (forall k | k in seenIdx :: dest <= seenIdx[k] < |x| && x[seenIdx[k]].key == k)
    && (forall i | dest <= i < |x| :: x[i].key in seenIdx && seenIdx[x[i].key] == i && x[i] in s)
  }

  // Everything from src on has been seen, and its key's slot is not older.
  ghost predicate Seen(s: seq<Mutation>, x: seq<Mutation>, seenIdx: map<string, nat>, src: nat) {
    forall j | src <= j < |s| ::
      && s[j].key != "" && s[j].key in seenIdx && seenIdx[s[j].key] < |x|
      && Le(s[j].time, x[seenIdx[s[j].key]].time)
  }

  // The state of the backward loop: what is from src on has been seen, the slots
  // from dest on hold a latest mutation of each key seen, and nothing to the left of
  // src has been written.
  ghost predicate Compacted(s: seq<Mutation>, x: seq<Mutation>, seenIdx: map<string, nat>, src: nat, dest: nat) {
    && |x| == |s| && src <= dest <= |s|
    && (forall i | 0 <= i < src :: x[i] == s[i])
    && Indexed(s, x, seenIdx, dest) && Seen(s, x, seenIdx, src)
  }

  lemma KeepOrReplace(s: seq<Mutation>, x: seq<Mutation>, seenIdx: map<string, nat>, src: nat, dest: nat)
    requires src < |s| && Compacted(s, x, seenIdx, src + 1, dest) && x[src].key != "" && x[src].key in seenIdx
    ensures var cur := seenIdx[x[src].key];
            && dest <= cur < |s|
            && Compacted(s, if Lt(x[cur].time, x[src].time) then x[cur := x[src]] else x, seenIdx, src, dest)
  {
    var cur := seenIdx[x[src].key];
    assert x[src] == s[src] && s[src] in s;
    var y := if Lt(x[cur].time, x[src].time) then x[cur := x[src]] else x;
    assert Seen(s, y, seenIdx, src);
    hide Seen;
  }

  lemma TakeSlot(s: seq<Mutation>, x: seq<Mutation>, seenIdx: map<string, nat>, src: nat, dest: nat)
    requires src < |s| && Compacted(s, x, seenIdx, src + 1, dest) && x[src].key != "" && x[src].key !in seenIdx
    ensures dest > src && Compacted(s, x[dest - 1 := x[src]], seenIdx[x[src].key := dest - 1], src, dest - 1)
  {
    var m, y, seen := x[src], x[dest - 1 := x[src]], seenIdx[x[src].key := dest - 1];
    assert m == s[src] && s[src] in s;
    SlotIndexed(s, x, seenIdx, m, dest);
    SlotSeen(s, x, seenIdx, m, src, dest);
    hide Indexed, Seen;
  }

  lemma SlotIndexed(s: seq<Mutation>, x: seq<Mutation>, seenIdx: map<string, nat>, m: Mutation, dest: nat)
    requires Indexed(s, x, seenIdx, dest) && 0 < dest <= |x| && m.key !in seenIdx && m in s
    ensures Indexed(s, x[dest - 1 := m], seenIdx[m.key := dest - 1], dest - 1)
  {
  }

  lemma SlotSeen(s: seq<Mutation>, x: seq<Mutation>, seenIdx: map<string, nat>, m: Mutation, src: nat, dest: nat)
    requires Indexed(s, x, seenIdx, dest) && Seen(s, x, seenIdx, src + 1)
    requires 0 < dest <= |x| && src < |s| && m == s[src] && m.key != "" && m.key !in seenIdx
    ensures Seen(s, x[dest - 1 := m], seenIdx[m.key := dest - 1], src)
  {
  }

  // The returned dest is where the compacted suffix starts. An empty key makes the
  // program panic.
  method UniqueByKey(x: array<Mutation>) returns (panicked: bool, dest: nat)
    modifies x
    ensures panicked <==> exists i :: 0 <= i < x.Length && old(x[i].key) == ""
    ensures !panicked ==> dest <= x.Length && UniqueLatest(old(x[..]), x[dest..])
  {
    hide Indexed, Seen, Compacted, UniqueLatest;
    ghost var s := x[..];
    assert Compacted(s, s, map[], x.Length, x.Length) by { CompactedAtFirst(s); }
    var seenIdx: map<string, nat> := map[];
    dest := x.Length;
    var src := x.Length;
    while src > 0
      invariant 0 <= src <= dest <= x.Length
      invariant Compacted(s, x[..], seenIdx, src, dest)
    {
      src := src - 1;
      ghost var was := x[..];
      assert forall i | 0 <= i <= src :: was[i] == s[i] by { NotWritten(s, was, seenIdx, src + 1, dest); }
      if x[src].key == "" {
        assert s[src] == was[src] && old(x[src].key) == "";
        return true, dest;
      }
      var key := x[src].key;
      if key in seenIdx {
        KeepOrReplace(s, was, seenIdx, src, dest);
        var curIdx := seenIdx[key];
        if Lt(x[curIdx].time, x[src].time) {
          x[curIdx] := x[src];
          assert x[..] == was[curIdx := was[src]];
        }
      } else {
        TakeSlot(s, was, seenIdx, src, dest);
        dest := dest - 1;
        seenIdx := seenIdx[key := dest];
        x[dest] := x[src];
        assert x[..] == was[dest := was[src]];
      }
    }
    panicked := false;
    NotWritten(s, x[..], seenIdx, 0, dest);
    assert forall i | 0 <= i < x.Length :: s[i] == old(x[i]);
    SuffixIsUnique(s, x[dest..], x[..], dest, seenIdx);
  }

  lemma CompactedAtFirst(s: seq<Mutation>)
    ensures Compacted(s, s, map[], |s|, |s|)
  {
  }

  lemma NotWritten(s: seq<Mutation>, x: seq<Mutation>, seenIdx: map<string, nat>, src: nat, dest: nat)
    requires Compacted(s, x, seenIdx, src, dest)
    ensures |x| == |s| && src <= dest <= |s| && forall i | 0 <= i < src :: x[i] == s[i]
    ensures src == 0 ==> forall j | 0 <= j < |s| :: s[j].key != ""
  {
  }

  lemma SuffixIsUnique(s: seq<Mutation>, r: seq<Mutation>, x: seq<Mutation>, dest: nat, seenIdx: map<string, nat>)
    requires Compacted(s, x, seenIdx, 0, dest) && r == x[dest..]
    ensures UniqueLatest(s, r)
  {
    forall m | m in r ensures Latest(s, m) {
      var i :| 0 <= i < |r| && r[i] == m;
      assert x[dest + i] == m;
    }
    forall m | m in s ensures HasKey(r, m.key) {
      var i := seenIdx[m.key];
      assert r[i - dest] == x[i] && x[i] in r;
    }
  }

  // ---- What it means for the target table ----

  function ApplyOne(t: map<string, string>, m: Mutation): map<string, string> {
    if m.delete then t - {m.key} else t[m.key := m.data]
  }

  function ApplyAll(t: map<string, string>, s: seq<Mutation>): map<string, string> {
    if s == [] then t else ApplyOne(ApplyAll(t, s[..|s| - 1]), s[|s| - 1])
  }

  // Mutations that agree on key and time are the same.
  predicate DistinctTimes(s: seq<Mutation>) {
    forall i, j | 0 <= i < |s| && 0 <= j < |s| && s[i].key == s[j].key && s[i].time == s[j].time :: s[i] == s[j]
  }

  predicate InTimeOrder(s: seq<Mutation>) {
    forall i, j | 0 <= i <= j < |s| :: Le(s[i].time, s[j].time)
  }

  // Row k is what the mutation m makes of it.
  predicate RowIs(t: map<string, string>, k: string, m: Mutation) {
    if m.delete then k !in t else k in t && t[k] == m.data
  }

  lemma {:induction false} Untouched(t: map<string, string>, s: seq<Mutation>, k: string)
    requires !HasKey(s, k)
    ensures (k in ApplyAll(t, s) <==> k in t) && (k in t ==> ApplyAll(t, s)[k] == t[k])
  {
    if s != [] {
      assert s[|s| - 1] in s;
      assert forall m | m in s[..|s| - 1] :: m in s;
      Untouched(t, s[..|s| - 1], k);
    }
  }

  // In a sequence that ends, for key k, in m, the row of k is m's.
  lemma {:induction false} LastWins(t: map<string, string>, s: seq<Mutation>, i: nat)
    requires i < |s| && forall j | i < j < |s| :: s[j].key != s[i].key
    ensures RowIs(ApplyAll(t, s), s[i].key, s[i])
  {
    var init := s[..|s| - 1];
    if i < |s| - 1 {
      assert init[i] == s[i];
      LastWins(t, init, i);
    }
  }

  // Applying the compacted mutations, in any order, gives the same table as
  // applying all of them in time order.
  lemma CompactionPreservesTable(t: map<string, string>, s: seq<Mutation>, inOrder: seq<Mutation>, r: seq<Mutation>)
    requires UniqueLatest(s, r) && DistinctTimes(s)
    requires InTimeOrder(inOrder) && multiset(inOrder) == multiset(s)
    ensures ApplyAll(t, r) == ApplyAll(t, inOrder)
  {
    hide ApplyAll, UniqueLatest, DistinctTimes, InTimeOrder;
    forall m ensures m in inOrder <==> m in s {
      assert m in inOrder <==> m in multiset(inOrder);
      assert m in s <==> m in multiset(s);
    }
    var a, b := ApplyAll(t, r), ApplyAll(t, inOrder);
    forall k | k in a ensures k in b && a[k] == b[k] {
      SameRow(t, s, inOrder, r, k);
    }
    forall k | k in b ensures k in a {
      SameRow(t, s, inOrder, r, k);
    }
  }

  predicate RowsAgree(a: map<string, string>, b: map<string, string>, k: string) {
    (k in a <==> k in b) && (k in a ==> a[k] == b[k])
  }

  lemma SameRow(t: map<string, string>, s: seq<Mutation>, inOrder: seq<Mutation>, r: seq<Mutation>, k: string)
    requires UniqueLatest(s, r) && DistinctTimes(s) && InTimeOrder(inOrder) && forall m :: m in inOrder <==> m in s
    ensures RowsAgree(ApplyAll(t, r), ApplyAll(t, inOrder), k)
  {
    hide ApplyAll;
    if HasKey(r, k) {
      var m :| m in r && m.key == k;
      var i :| 0 <= i < |r| && r[i] == m;
      LastWins(t, r, i);
      var j := LastOf(inOrder, k);
      assert inOrder[j] in inOrder;
      SameMutation(s, inOrder, m, j);
      LastWins(t, inOrder, j);
    } else {
      Untouched(t, r, k);
      Untouched(t, inOrder, k);
    }
  }

  lemma {:induction false} LastOf(s: seq<Mutation>, k: string) returns (j: nat)
    requires HasKey(s, k)
    ensures j < |s| && s[j].key == k && forall i | j < i < |s| :: s[i].key != k
    decreases |s|
  {
    j := |s| - 1;
    if s[j].key != k {
      var init := s[..j];
      var m :| m in s && m.key == k;
      assert m in init;
      j := LastOf(init, k);
      assert forall i | 0 <= i < |init| :: init[i] == s[i];
    }
  }

  lemma SameMutation(s: seq<Mutation>, inOrder: seq<Mutation>, m: Mutation, j: nat)
    requires Latest(s, m) && DistinctTimes(s) && InTimeOrder(inOrder) && m in inOrder
    requires j < |inOrder| && inOrder[j] in s && inOrder[j].key == m.key
    requires forall i | j < i < |inOrder| :: inOrder[i].key != m.key
    ensures inOrder[j] == m
  {
    var i :| 0 <= i < |inOrder| && inOrder[i] == m;
    assert Le(m.time, inOrder[j].time);
    var a :| 0 <= a < |s| && s[a] == m;
    var b :| 0 <= b < |s| && s[b] == inOrder[j];
  }
}
