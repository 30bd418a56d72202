/** What the target shows, and the reference it is compared with: the log applied
    once, in time order. */
module ResolverTarget {
  import opened Hlc
  import opened Scan
  import opened Resolver

  function RowAt(k: RowKey, t: Time): Pos {
    Pos(k.0, t, k.1)
  }

  // The target row of x's key shows x or a later mutation.
  predicate Shown(applied: map<RowKey, Time>, x: Pos) {
    KeyOf(x) in applied && Le(x.time, applied[KeyOf(x)])
  }

  // The target rows are the effects of the mutations named by applied.
  ghost predicate Renders(target: map<RowKey, Data>, log: map<Pos, Data>, applied: map<RowKey, Time>) {
    && (forall k | k in applied :: RowAt(k, applied[k]) in log)
    && (forall k :: k in target <==> k in applied && log[RowAt(k, applied[k])].Upsert?)
    && (forall k | k in target :: target[k] == log[RowAt(k, applied[k])])
  }

  lemma ApplyRenders(target: map<RowKey, Data>, log: map<Pos, Data>, applied: map<RowKey, Time>, b: set<Pos>)
    requires Renders(target, log, applied) && b <= log.Keys
    ensures Renders(Apply(target, log, b), log, Touch(applied, b))
  {
    forall k | k in Keys(b) ensures RowAt(k, Newest(b, k).time) == Newest(b, k) && Newest(b, k) in log {
    }
  }

  ghost predicate ShowsNewest(target: map<RowKey, Data>, log: map<Pos, Data>, rows: set<Pos>)
    requires rows <= log.Keys
  {
    && (forall k :: k in target <==> k in Keys(rows) && log[Newest(rows, k)].Upsert?)
    && (forall k | k in target :: target[k] == log[Newest(rows, k)])
  }

  lemma ShowsNewestAppend(target: map<RowKey, Data>, log: map<Pos, Data>, rows: set<Pos>, p: Pos)
    requires rows <= log.Keys && p in log && ShowsNewest(target, log, rows)
    requires forall x | x in rows :: Le(x.time, p.time)
    ensures ShowsNewest(SetRow(target, KeyOf(p), log[p]), log, rows + {p})
  {
    var k, rows' := KeyOf(p), rows + {p};
    assert p in rows' && k in Keys(rows') && IsNewest(rows', k, p);
    NewestUnique(rows', k, p, Newest(rows', k));
    forall j | j != k
      ensures j in Keys(rows') <==> j in Keys(rows)
      ensures j in Keys(rows) ==> Newest(rows', j) == Newest(rows, j)
    {
      NewestOther(rows, p, j);
    }
  }

  // Running through rows in time order leaves each key at its newest row.
  lemma {:induction false} ReplayShowsNewest(log: map<Pos, Data>, r: seq<Pos>)
    requires Sorted(ByTime, r) && Elems(r) <= log.Keys
    ensures (forall p | p in r :: p in log) && ShowsNewest(Replay(log, r), log, Elems(r))
  {
    assert forall p | p in r :: p in Elems(r);
    if r != [] {
      var init, p := r[..|r| - 1], r[|r| - 1];
      assert r == init + [p];
      assert Elems(r) == Elems(init) + {p};
      ReplayShowsNewest(log, init);
      forall x | x in Elems(init) ensures Le(x.time, p.time) {
        var i :| 0 <= i < |init| && init[i] == x;
        assert PosLt(ByTime, r[i], r[|r| - 1]);
      }
      hide ShowsNewest, Sorted;
      ShowsNewestAppend(Replay(log, init), log, Elems(init), p);
    }
  }

  lemma NewestOther(b: set<Pos>, p: Pos, j: RowKey)
    requires j != KeyOf(p)
    ensures j in Keys(b + {p}) <==> j in Keys(b)
    ensures j in Keys(b) ==> Newest(b + {p}, j) == Newest(b, j)
  {
    if j in Keys(b + {p}) {
      var q := Newest(b + {p}, j);
      assert q in b && KeyOf(q) in Keys(b);
      assert IsNewest(b, j, q);
      NewestUnique(b, j, q, Newest(b, j));
    }
    if j in Keys(b) {
      var q := Newest(b, j);
      assert q in b + {p} && KeyOf(q) in Keys(b + {p});
    }
  }
}
