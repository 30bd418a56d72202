/** Transactions that respect foreign keys, over a pool of workers (logical.orderedEvents). */
module OrderedEvents {
  import opened Wrappers
  import opened FanBatch

  type Call<T, M> = (T, seq<M>)

  function Lv<T>(levels: map<T, nat>, t: T): nat {
    if t in levels then levels[t] else 0
  }

  // The calls for one level, in the order in which they were made.
  function Level<T, M>(levels: map<T, nat>, calls: seq<Call<T, M>>, k: nat): seq<Call<T, M>> {
    if calls == [] then [] else
    var n := |calls| - 1;
    Level(levels, calls[..n], k) + if Lv(levels, calls[n].0) == k then [calls[n]] else []
  }

  // They are all the calls of that level, each once and as they came.
  lemma {:induction false} LevelInOrder<T, M>(levels: map<T, nat>, calls: seq<Call<T, M>>, k: nat)
    returns (places: seq<nat>)
    ensures |places| == |Level(levels, calls, k)|
    ensures forall i, j | 0 <= i < j < |places| :: places[i] < places[j]
    ensures forall i | 0 <= i < |places| :: places[i] < |calls| && Level(levels, calls, k)[i] == calls[places[i]]
    ensures forall p: nat | p < |calls| :: Lv(levels, calls[p].0) == k <==> p in places
  {
    places := [];
    if calls != [] {
      var n := |calls| - 1;
      places := LevelInOrder(levels, calls[..n], k);
      if Lv(levels, calls[n].0) == k {
        places := places + [n];
      }
    }
  }

  // The calls sorted by level, without changing the order within a level.
  function ByLevel<T, M>(levels: map<T, nat>, calls: seq<Call<T, M>>, n: nat): seq<Call<T, M>> {
    if n == 0 then [] else ByLevel(levels, calls, n - 1) + Level(levels, calls, n - 1)
  }

  // The mutations of a sequence of calls.
  function Flat<T, M>(calls: seq<Call<T, M>>): seq<(T, M)> {
    if calls == [] then [] else
    var n := |calls| - 1;
    Flat(calls[..n]) + Tagged(calls[n].0, calls[n].1)
  }

  lemma {:induction false} FlatSplit<T, M>(a: seq<Call<T, M>>, b: seq<Call<T, M>>)
    ensures Flat(a + b) == Flat(a) + Flat(b)
  {
    hide Tagged;
    if b == [] {
      assert a + b == a;
    } else {
      hide Flat;
      var init, last := b[..|b| - 1], b[|b| - 1];
      assert b == init + [last];
      FlatSplit(a, init);
      FlatSplitLast(a, init, last);
    }
  }

  lemma FlatSplitLast<T, M>(a: seq<Call<T, M>>, init: seq<Call<T, M>>, last: Call<T, M>)
    requires Flat(a + init) == Flat(a) + Flat(init)
    ensures Flat(a + (init + [last])) == Flat(a) + Flat(init + [last])
  {
    hide Flat, Tagged;
    var tagged := Tagged(last.0, last.1);
    calc {
      Flat(a + (init + [last]));
      { Regroup(a, init, [last]); }
      Flat((a + init) + [last]);
      { FlatLast(a + init, last); }
      (Flat(a) + Flat(init)) + tagged;
      { Regroup(Flat(a), Flat(init), tagged); }
      Flat(a) + (Flat(init) + tagged);
      { FlatLast(init, last); }
      Flat(a) + Flat(init + [last]);
    }
  }

  lemma Regroup<X>(a: seq<X>, b: seq<X>, c: seq<X>)
    ensures a + (b + c) == (a + b) + c
  {
  }

  lemma FlatLast<T, M>(calls: seq<Call<T, M>>, last: Call<T, M>)
    ensures Flat(calls + [last]) == Flat(calls) + Tagged(last.0, last.1)
  {
    hide Tagged;
    assert (calls + [last])[..|calls|] == calls;
  }

  lemma {:induction false} ByLevelAppended<T, M>(levels: map<T, nat>, calls: seq<Call<T, M>>, c: Call<T, M>, n: nat)
    ensures multiset(ByLevel(levels, calls + [c], n))
         == multiset(ByLevel(levels, calls, n)) + if Lv(levels, c.0) < n then multiset{c} else multiset{}
  {
    hide Level, Lv;
    if n > 0 {
      ByLevelAppended(levels, calls, c, n - 1);
      LevelAppended(levels, calls, c, n - 1);
      if Lv(levels, c.0) == n - 1 {
        InsertLast(ByLevel(levels, calls + [c], n - 1), ByLevel(levels, calls, n - 1), Level(levels, calls, n - 1), c);
      } else {
        KeepLast(ByLevel(levels, calls + [c], n - 1), ByLevel(levels, calls, n - 1), Level(levels, calls, n - 1),
                 if Lv(levels, c.0) < n then multiset{c} else multiset{});
      }
    }
  }

  lemma KeepLast<X>(a: seq<X>, b: seq<X>, l: seq<X>, extra: multiset<X>)
    requires multiset(a) == multiset(b) + extra
    ensures multiset(a + l) == multiset(b + l) + extra
  {
    AppendBoth(a, l);
    AppendBoth(b, l);
  }

  lemma InsertLast<X>(a: seq<X>, b: seq<X>, l: seq<X>, c: X)
    requires multiset(a) == multiset(b)
    ensures multiset(a + (l + [c])) == multiset(b + l) + multiset{c}
  {
    AppendBoth(a, l + [c]);
    AppendBoth(l, [c]);
    AppendBoth(b, l);
    assert multiset([c]) == multiset{c};
  }

  lemma AppendBoth<X>(a: seq<X>, b: seq<X>)
    ensures multiset(a + b) == multiset(a) + multiset(b)
  {
  }

  lemma LevelAppended<T, M>(levels: map<T, nat>, calls: seq<Call<T, M>>, c: Call<T, M>, k: nat)
    ensures Level(levels, calls + [c], k)
         == if Lv(levels, c.0) == k then Level(levels, calls, k) + [c] else Level(levels, calls, k)
  {
    assert (calls + [c])[..|calls|] == calls;
  }

  // Sorting by level loses no call and repeats none.
  lemma {:induction false} ByLevelIsPermutation<T, M>(levels: map<T, nat>, calls: seq<Call<T, M>>, n: nat)
    requires forall i | 0 <= i < |calls| :: Lv(levels, calls[i].0) < n
    ensures multiset(ByLevel(levels, calls, n)) == multiset(calls)
  {
    if calls == [] {
      EmptyByLevel<T, M>(levels, n);
    } else {
      var m := |calls| - 1;
      ByLevelIsPermutation(levels, calls[..m], n);
      ByLevelAppended(levels, calls[..m], calls[m], n);
      assert calls[..m] + [calls[m]] == calls;
    }
  }

  lemma {:induction false} EmptyByLevel<T, M>(levels: map<T, nat>, n: nat)
    ensures ByLevel<T, M>(levels, [], n) == []
  {
    if n > 0 {
      EmptyByLevel<T, M>(levels, n - 1);
    }
  }

  // A chunk of a lower level was written before anything of a higher one was
  // given to the workers: position p was accepted when p others had been.
  ghost predicate ParentsFirst<T, M>(levels: map<T, nat>, accepted: seq<(T, M)>, log: seq<Chunk<T, M>>) {
    forall i, p | 0 <= i < |log| && 0 <= p < |accepted| && Lv(levels, log[i].table) < Lv(levels, accepted[p].0) ::
      !log[i].fate.InFlight? && log[i].fate.at <= p
  }

  // No lower level is waiting any more.
  ghost predicate NoneLower<T(!new), M>(levels: map<T, nat>, accepted: seq<(T, M)>, data: map<T, seq<M>>) {
    forall t, p | QueueOf(data, t) != [] && 0 <= p < |accepted| :: Lv(levels, accepted[p].0) <= Lv(levels, t)
  }

  // Everything below level k is finished, and nothing above it has been given away.
  ghost predicate Barrier<T(!new), M>(levels: map<T, nat>, accepted: seq<(T, M)>, log: seq<Chunk<T, M>>,
                                      data: map<T, seq<M>>, k: nat) {
    && (forall i | 0 <= i < |log| && Lv(levels, log[i].table) < k ::
          !log[i].fate.InFlight? && log[i].fate.at <= |accepted|)
    && (forall t | QueueOf(data, t) != [] :: k <= Lv(levels, t))
    && (forall p | 0 <= p < |accepted| :: Lv(levels, accepted[p].0) <= k)
  }

  // The workers keep all of this, in any interleaving.
  lemma WorkersKeepOrder<T(!new), M>(levels: map<T, nat>, accepted: seq<(T, M)>, log0: seq<Chunk<T, M>>,
                                     data0: map<T, seq<M>>, log: seq<Chunk<T, M>>, data: map<T, seq<M>>, k: nat)
    requires Progressed(log0, data0, log, data)
    requires ParentsFirst(levels, accepted, log0) && NoneLower(levels, accepted, data0)
    requires Barrier(levels, accepted, log0, data0, k)
    ensures ParentsFirst(levels, accepted, log) && NoneLower(levels, accepted, data)
    ensures Barrier(levels, accepted, log, data, k)
  {
    assert forall i | |log0| <= i < |log| :: QueueOf(data0, log[i].table) != [];
    forall i, p | 0 <= i < |log| && 0 <= p < |accepted| && Lv(levels, log[i].table) < Lv(levels, accepted[p].0)
      ensures !log[i].fate.InFlight? && log[i].fate.at <= p
    {
      if i < |log0| {
        assert !log0[i].fate.InFlight? && log0[i].fate.at <= p;
      }
    }
    forall i | 0 <= i < |log| && Lv(levels, log[i].table) < k
      ensures !log[i].fate.InFlight? && log[i].fate.at <= |accepted|
    {
      if i < |log0| {
        assert !log0[i].fate.InFlight? && log0[i].fate.at <= |accepted|;
      }
    }
  }

  // Giving mutations of level k to the workers keeps the order behind the barrier.
  lemma AcceptKeepsOrder<T(!new), M>(levels: map<T, nat>, accepted: seq<(T, M)>, log: seq<Chunk<T, M>>,
                                     data: map<T, seq<M>>, k: nat, table: T, muts: seq<M>)
    requires ParentsFirst(levels, accepted, log) && NoneLower(levels, accepted, data)
    requires Barrier(levels, accepted, log, data, k) && Lv(levels, table) == k
    ensures var accepted', data' := accepted + Tagged(table, muts), data[table := QueueOf(data, table) + muts];
            && ParentsFirst(levels, accepted', log) && NoneLower(levels, accepted', data')
            && Barrier(levels, accepted', log, data', k)
  {
    hide Tagged;
    var accepted', data' := accepted + Tagged(table, muts), data[table := QueueOf(data, table) + muts];
    forall p | 0 <= p < |accepted'|
      ensures Lv(levels, accepted'[p].0) <= k && (p >= |accepted| ==> accepted'[p].0 == table)
    {
      if p >= |accepted| {
        assert accepted'[p] == Tagged(table, muts)[p - |accepted|];
      }
    }
    forall t | QueueOf(data', t) != [] ensures k <= Lv(levels, t) {
      if t != table {
        assert QueueOf(data', t) == QueueOf(data, t);
      }
    }
  }

  // A quiet pool is behind a new barrier.
  lemma QuietIsBarrier<T(!new), M>(levels: map<T, nat>, accepted: seq<(T, M)>, log: seq<Chunk<T, M>>,
                                   data: map<T, seq<M>>, k: nat)
    requires forall i | 0 <= i < |log| :: !log[i].fate.InFlight? && log[i].fate.at <= |accepted|
    requires forall t :: QueueOf(data, t) == []
    requires Barrier(levels, accepted, log, data, k)
    ensures Barrier(levels, accepted, log, data, k + 1)
  {
  }

  // Every deferred call is at its level.
  ghost predicate Sorted<T, M>(levels: map<T, nat>, calls: seq<Call<T, M>>, deferred: seq<seq<Call<T, M>>>) {
    && (forall t | t in levels :: levels[t] <= |deferred|)
    && (forall i | 0 <= i < |calls| :: calls[i].0 in levels)
    && (forall k | 0 <= k < |deferred| :: deferred[k] == Level(levels, calls, k + 1))
  }

  lemma CallSorted<T, M>(levels: map<T, nat>, calls: seq<Call<T, M>>, deferred: seq<seq<Call<T, M>>>, c: Call<T, M>)
    requires Sorted(levels, calls, deferred) && c.0 in levels
    ensures levels[c.0] == 0 ==> Sorted(levels, calls + [c], deferred)
    ensures levels[c.0] > 0 ==>
              var l := levels[c.0] - 1;
              Sorted(levels, calls + [c], deferred[l := deferred[l] + [c]])
  {
    hide Level;
    var l: int := levels[c.0] as int - 1;
    var after := if l < 0 then deferred else deferred[l := deferred[l] + [c]];
    forall k | 0 <= k < |after| ensures after[k] == Level(levels, calls + [c], k + 1) {
      LevelAppended(levels, calls, c, k + 1);
    }
  }

  class OrderedBatch<T(==,!new), M(==,!new)> {
    const levels: map<T, nat>
    const fan: FanBatch<T, M>
    var deferred: seq<seq<Call<T, M>>>
    // Every call that returned no error.
    ghost var calls: seq<Call<T, M>>

    ghost predicate InOrder(k: nat)
      reads this, fan
    {
      && ParentsFirst(levels, fan.accepted, fan.log) && NoneLower(levels, fan.accepted, fan.data)
      && Barrier(levels, fan.accepted, fan.log, fan.data, k)
    }

    // Until the transaction ends.
    ghost predicate Valid()
      reads this, fan
    {
      && fan.Valid() && !fan.drain && InOrder(0)
      && fan.accepted == Flat(Level(levels, calls, 0))
      && Sorted(levels, calls, deferred)
    }

    constructor (levels: map<T, nat>, deferrable: nat, fan: FanBatch<T, M>)
      requires fan.Valid() && !fan.drain && fan.accepted == [] && fan.log == [] && fan.data == map[]
      requires forall t | t in levels :: levels[t] <= deferrable
      ensures Valid() && this.levels == levels && this.fan == fan && calls == [] && |deferred| == deferrable
    {
      this.levels, this.fan := levels, fan;
      deferred, calls := seq(deferrable, _ => []), [];
    }

    // The workers go on.
    method Work(ghost k: nat)
      requires fan.Valid() && InOrder(k)
      modifies fan`data, fan`pending, fan`workers, fan`workerExited, fan`cancelled, fan`log, fan`slot
      ensures fan.Valid() && InOrder(k) && |fan.workers| == |old(fan.workers)|
    {
      hide ParentsFirst, NoneLower, Barrier, Progressed;
      var schedule: seq<Event<T>> := *;
      ghost var log0, data0 := fan.log, fan.data;
      fan.Run(schedule);
      WorkersKeepOrder(levels, fan.accepted, log0, data0, fan.log, fan.data, k);
    }

    // Root tables pass through; all other calls wait for the commit.
    method OnData(table: T, muts: seq<M>) returns (ok: bool)
      requires Valid()
      modifies this`deferred, this`calls, fan
      ensures Valid() && ok == (table in levels) && |deferred| == |old(deferred)|
      ensures calls == old(calls) + if ok then [(table, muts)] else []
    {
      ok := table in levels;
      if ok {
        if levels[table] == 0 {
          PassThrough(table, muts);
        } else {
          Defer(table, muts);
        }
      }
    }

    method PassThrough(table: T, muts: seq<M>)
      requires Valid() && table in levels && levels[table] == 0
      modifies this`calls, fan
      ensures Valid() && calls == old(calls) + [(table, muts)]
    {
      hide Level, Flat, Tagged, ParentsFirst, NoneLower, Barrier, Sorted;
      ghost var call := (table, muts);
      CallSorted(levels, calls, deferred, call);
      LevelAppended(levels, calls, call, 0);
      Pass(table, muts, 0);
      FlatSplit(Level(levels, calls, 0), [call]);
      FlatOne(table, muts);
      calls := calls + [call];
    }

    method Defer(table: T, muts: seq<M>)
      requires Valid() && table in levels && levels[table] > 0
      modifies this`deferred, this`calls
      ensures Valid() && calls == old(calls) + [(table, muts)] && |deferred| == |old(deferred)|
    {
      hide Level, Flat, Tagged, ParentsFirst, NoneLower, Barrier;
      CallSorted(levels, calls, deferred, (table, muts));
      LevelAppended(levels, calls, (table, muts), 0);
      var l := levels[table] - 1;
      deferred := deferred[l := deferred[l] + [(table, muts)]];
      calls := calls + [(table, muts)];
    }

    lemma FlatOne(table: T, muts: seq<M>)
      ensures Flat([(table, muts)]) == Tagged(table, muts)
    {
      assert [(table, muts)][..0] == [];
    }

    // One call to the pool, behind the barrier of its level.
    method Pass(table: T, muts: seq<M>, ghost k: nat)
      requires fan.Valid() && !fan.drain && InOrder(k) && Lv(levels, table) == k
      modifies fan
      ensures fan.Valid() && !fan.drain && InOrder(k) && |fan.workers| == |old(fan.workers)|
      ensures fan.accepted == old(fan.accepted) + Tagged(table, muts)
    {
      hide ParentsFirst, NoneLower, Barrier, Progressed, Tagged;
      Work(k);
      AcceptKeepsOrder(levels, fan.accepted, fan.log, fan.data, k, table, muts);
      var ok := fan.OnData(table, muts);
    }

    // Flush, which raises the barrier if it returns without an error.
    method Flush(ctxDone: bool, ghost k: nat) returns (r: Option<bool>)
      requires fan.Valid() && InOrder(k)
      modifies fan`data, fan`pending, fan`workers, fan`workerExited, fan`cancelled, fan`log, fan`slot
      ensures fan.Valid() && InOrder(k) && |fan.workers| == |old(fan.workers)|
      ensures r == Some(true) ==> InOrder(k + 1)
      ensures r == Some(false) ==> ctxDone || (AllDone(fan.workers) && AnyFailed(fan.log))
      ensures r == None ==> fan.Waits(ctxDone)
    {
      hide ParentsFirst, NoneLower, Barrier, Progressed;
      ghost var log0, data0 := fan.log, fan.data;
      r := fan.Flush(ctxDone);
      WorkersKeepOrder(levels, fan.accepted, log0, data0, fan.log, fan.data, k);
      if r == Some(true) {
        fan.QuietMeansSettled();
        FinishedInTime(fan.log, fan.workers, fan.slot, |fan.accepted|);
        QuietIsBarrier(levels, fan.accepted, fan.log, fan.data, k);
      }
    }

    // The deferred calls of one level, while the workers go on.
    method PassAll(defs: seq<Call<T, M>>, ghost k: nat)
      requires fan.Valid() && !fan.drain && InOrder(k)
      requires forall j | 0 <= j < |defs| :: Lv(levels, defs[j].0) == k
      modifies fan
      ensures fan.Valid() && !fan.drain && InOrder(k) && |fan.workers| == |old(fan.workers)|
      ensures fan.accepted == old(fan.accepted) + Flat(defs)
    {
      hide ParentsFirst, NoneLower, Barrier, Progressed, Tagged;
      for j := 0 to |defs|
        invariant fan.Valid() && !fan.drain && InOrder(k) && |fan.workers| == |old(fan.workers)|
        invariant fan.accepted == old(fan.accepted) + Flat(defs[..j])
      {
        Pass(defs[j].0, defs[j].1, k);
        assert defs[..j + 1][..j] == defs[..j];
      }
      assert defs[..|defs|] == defs;
    }

    // One level after the other, each once the one before is written.
    method WriteLevels(ctxDone: bool) returns (r: Option<bool>)
      requires Valid()
      modifies fan
      ensures fan.Valid() && |fan.workers| == |old(fan.workers)| && !fan.drain
      ensures ParentsFirst(levels, fan.accepted, fan.log)
      ensures r == Some(true) ==> InOrder(|deferred|) && fan.accepted == Flat(ByLevel(levels, calls, |deferred| + 1))
      ensures r == Some(false) ==> ctxDone || (AllDone(fan.workers) && AnyFailed(fan.log))
      ensures r == None ==> fan.Waits(ctxDone)
    {
      hide ParentsFirst, NoneLower, Tagged, Flat, Level, Barrier;
      FirstLevel();
      var k := 0;
      while k < |deferred|
        invariant k <= |deferred|
        invariant fan.Valid() && !fan.drain && InOrder(k) && |fan.workers| == |old(fan.workers)|
        invariant fan.accepted == Flat(ByLevel(levels, calls, k + 1))
      {
        var flushed := Flush(ctxDone, k);
        if flushed != Some(true) {
          return flushed;
        }
        LevelOnly(levels, calls, k + 1);
        PassAll(deferred[k], k + 1);
        FlatSplit(ByLevel(levels, calls, k + 1), deferred[k]);
        k := k + 1;
      }
      return Some(true);
    }

    // The result of the transaction, if there is one yet.
    method OnCommit(ctxDone: bool) returns (r: Option<bool>)
      requires Valid()
      modifies this`deferred, fan
      ensures fan.Valid() && ParentsFirst(levels, fan.accepted, fan.log) && |fan.workers| == |old(fan.workers)|
      ensures r == Some(true) ==>
                && fan.accepted == Flat(ByLevel(levels, calls, |old(deferred)| + 1))
                && multiset(ByLevel(levels, calls, |old(deferred)| + 1)) == multiset(calls)
                && forall i | 0 <= i < |fan.log| :: !fan.log[i].fate.Failed?
      ensures r == Some(true) && fan.workers != [] && fan.batchSize > 0 && !fan.cancelled ==> fan.AppliedOnce()
      // An error has a cause, and so has a missing result.
      ensures r == Some(false) ==> ctxDone || (AllDone(fan.workers) && AnyFailed(fan.log))
      ensures r == None ==> fan.Waits(ctxDone) || !AllDone(fan.workers)
    {
      hide ParentsFirst, NoneLower, Tagged, Flat, Level, Barrier;
      ByLevelIsPermutation(levels, calls, |deferred| + 1);
      r := WriteLevels(ctxDone);
      if r == Some(true) {
        r := Finish(|deferred|);
      }
      deferred := [];
    }

    // Nothing deferred ever reaches the pool, and what nobody has taken is dropped.
    method OnRollback()
      requires Valid()
      modifies this`deferred, fan
      ensures fan.Valid() && fan.rolledBack && fan.data == map[] && deferred == []
      ensures fan.accepted == Flat(Level(levels, calls, 0)) && fan.log == old(fan.log)
    {
      deferred := [];
      fan.NotifyOnCompletion(false);
    }

    method Finish(ghost k: nat) returns (r: Option<bool>)
      requires fan.Valid() && !fan.drain && InOrder(k)
      modifies fan
      ensures fan.Valid() && InOrder(k) && |fan.workers| == |old(fan.workers)| && fan.accepted == old(fan.accepted)
      ensures r.Some? <==> AllDone(fan.workers)
      ensures r.Some? ==> (r.value <==> !AnyFailed(fan.log))
      ensures r == Some(true) && fan.workers != [] && fan.batchSize > 0 && !fan.cancelled ==> fan.AppliedOnce()
    {
      hide ParentsFirst, NoneLower, Barrier;
      fan.NotifyOnCompletion(true);
      Work(k);
      if !AllDone(fan.workers) {
        return None;
      }
      var ok := fan.WorkerStatus();
      if ok {
        NoneFailed();
      }
      return Some(ok);
    }

    lemma NoneFailed()
      requires fan.Valid() && AllDone(fan.workers) && !AnyError(fan.workers) && fan.drain && !fan.rolledBack
      ensures forall i | 0 <= i < |fan.log| :: !fan.log[i].fate.Failed?
      ensures fan.workers != [] && fan.batchSize > 0 && !fan.cancelled ==> fan.AppliedOnce()
    {
      forall i | 0 <= i < |fan.log| ensures !fan.log[i].fate.Failed? {
        if fan.log[i].fate.Failed? {
          fan.FailureIsReported(i);
        }
      }
      if fan.workers != [] && fan.batchSize > 0 && !fan.cancelled {
        fan.CommitMeansApplied();
      }
    }

    lemma FirstLevel()
      ensures ByLevel(levels, calls, 1) == Level(levels, calls, 0)
    {
      assert ByLevel(levels, calls, 0) == [];
    }
  }

  lemma FinishedInTime<T, M>(log: seq<Chunk<T, M>>, ws: seq<Worker<T, M>>, slot: map<nat, nat>, now: nat)
    requires Fated(log, ws, slot, now)
    ensures forall i | 0 <= i < |log| && !log[i].fate.InFlight? :: log[i].fate.at <= now
  {
    forall i | 0 <= i < |log| && !log[i].fate.InFlight? ensures log[i].fate.at <= now {
      assert FateOk(log[i].fate, i, ws, slot, now);
    }
  }

  lemma {:induction false} LevelOnly<T, M>(levels: map<T, nat>, calls: seq<Call<T, M>>, k: nat)
    ensures forall j | 0 <= j < |Level(levels, calls, k)| :: Lv(levels, Level(levels, calls, k)[j].0) == k
  {
    if calls != [] {
      LevelOnly(levels, calls[..|calls| - 1], k);
    }
  }

  // The events of a source: the dependency levels of the target's tables.
  class OrderedEvents<T(==,!new), M(==,!new)> {
    var lastDeps: seq<seq<T>>
    var levels: map<T, nat>

    ghost predicate Valid()
      reads this
    {
      LevelsOf(lastDeps, levels)
    }

    constructor ()
      ensures Valid()
    {
      lastDeps, levels := [], map[];
    }

    // No levels at all make the program panic.
    method OnBegin(deps: seq<seq<T>>, fan: FanBatch<T, M>) returns (batch: Option<OrderedBatch<T, M>>)
      requires Valid() && fan.Valid() && !fan.drain && fan.accepted == [] && fan.log == [] && fan.data == map[]
      modifies this
      ensures Valid() && lastDeps == deps && (batch.None? <==> deps == [])
      ensures batch.Some? ==>
                && fresh(batch.value) && batch.value.Valid() && batch.value.fan == fan && batch.value.calls == []
                && |batch.value.deferred| == |deps| - 1 && LevelsOf(deps, batch.value.levels)
    {
      if deps != lastDeps {
        lastDeps, levels := deps, map[];
        for l := 0 to |deps|
          invariant lastDeps == deps && LevelsOf(deps[..l], levels)
        {
          hide LevelsOf;
          NewRow(deps[..l], levels);
          for i := 0 to |deps[l]|
            invariant lastDeps == deps && LevelsOf(deps[..l] + [deps[l][..i]], levels)
          {
            PutLevel(deps[..l], deps[l][..i], levels, deps[l][i]);
            assert deps[l][..i + 1] == deps[l][..i] + [deps[l][i]];
            levels := levels[deps[l][i] := l];
          }
          assert deps[l][..|deps[l]|] == deps[l];
          assert deps[..l] + [deps[l][..|deps[l]|]] == deps[..l + 1];
        }
        assert deps[..|deps|] == deps;
      }
      if deps == [] {
        return None;
      }
      var b := new OrderedBatch(levels, |deps| - 1, fan);
      return Some(b);
    }
  }

  lemma NewRow<T(!new)>(done: seq<seq<T>>, levels: map<T, nat>)
    requires LevelsOf(done, levels)
    ensures LevelsOf(done + [[]], levels)
  {
    forall t: T
      ensures if t in levels
              then forall l | levels[t] < l < |done + [[]]| :: t !in (done + [[]])[l]
              else forall l | 0 <= l < |done + [[]]| :: t !in (done + [[]])[l]
    {
    }
  }

  lemma PutLevel<T(!new)>(done: seq<seq<T>>, row: seq<T>, levels: map<T, nat>, t: T)
    requires LevelsOf(done + [row], levels)
    ensures LevelsOf(done + [row + [t]], levels[t := |done|])
  {
    var before, after := done + [row], done + [row + [t]];
    forall u: T
      ensures u !in levels && u != t ==> forall l | 0 <= l < |after| :: u !in after[l]
      ensures u in levels && u != t ==>
                levels[u] < |after| && u in after[levels[u]] && forall l | levels[u] < l < |after| :: u !in after[l]
    {
      assert forall l | 0 <= l < |before| && u != t :: u in after[l] ==> u in before[l];
    }
    assert t in after[|done|];
  }

  // The level of a table is the last one that lists it.
  ghost predicate LevelsOf<T(!new)>(deps: seq<seq<T>>, levels: map<T, nat>) {
    forall t: T ::
      if t in levels
      then levels[t] < |deps| && t in deps[levels[t]] && forall l | levels[t] < l < |deps| :: t !in deps[l]
      else forall l | 0 <= l < |deps| :: t !in deps[l]
  }
}
