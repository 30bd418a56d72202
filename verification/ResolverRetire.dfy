/** The retire loop as the program writes it: rounds of batched DELETEs over all
    staging tables, next to a resolver, incoming rows and other instances. Whatever
    it does is a run of the resolver's state machine. */
module ResolverRetire {
  import opened Calls
  import opened Hlc
  import opened Scan
  import opened Resolver
  import opened ResolverProtocol
  import opened ResolverCoverage
  import opened ResolverProcess
  import opened Retire

  // Steps taken by anyone but the retire loop while its process lives.
  predicate OfRest(step: Step) {
    !step.SampleRetirement? && !step.Crash?
  }

  // Nothing is staged below the bound of a table, and no such row will be: the
  // bound does not lie above all marks.
  ghost predicate Clear(s: State, table: nat, from: Time) {
    && Le(ZERO, from) && (from == ZERO || exists m | m in s.marks :: Le(from, m))
    && forall x | x in s.staged && x.table == table :: Le(from, x.time)
  }

  ghost predicate AllClear(s: State, from: map<nat, Time>) {
    forall t | t in from :: Clear(s, t, from[t])
  }

  // The rows that retirement may still remove do not become more.
  ghost predicate NoNewBelow(s: State, s': State, end: Time) {
    forall x | x in s'.staged && Le(x.time, end) :: x in s.staged
  }

  function Low(staged: set<Pos>, table: nat, hi: Time): set<Pos> {
    set x | x in staged && x.table == table && Le(x.time, hi)
  }

  lemma ClearStep(cfg: Config, s: State, step: Step, s': State, table: nat, from: Time)
    requires Next(cfg, s, step, s') && Clear(s, table, from)
    ensures Clear(s', table, from)
  {
    MarksStay(cfg, s, step, s');
    StagedGrowsAbove(cfg, s, step, s');
    hide Next;
    if from != ZERO {
      var m :| m in s.marks && Le(from, m);
      assert m in s'.marks;
    }
  }

  lemma MarksStay(cfg: Config, s: State, step: Step, s': State)
    requires Next(cfg, s, step, s')
    ensures s.marks.Keys <= s'.marks.Keys
  {
  }

  // What is staged lies above all marks.
  lemma StagedGrowsAbove(cfg: Config, s: State, step: Step, s': State)
    requires Next(cfg, s, step, s')
    ensures forall x | x in s'.staged && x !in s.staged :: Le(ZERO, x.time) && NewestMark(s.marks, x.time)
  {
  }

  lemma RestKeepsSample(cfg: Config, s: State, step: Step, s': State)
    requires Safe(cfg, s) && Next(cfg, s, step, s') && OfRest(step)
    ensures s'.sample == s.sample && (Lt(ZERO, s.sample) ==> NoNewBelow(s, s', s.sample))
  {
    StagedGrowsAbove(cfg, s, step, s');
    hide Protocol, Coverage;
    assert s'.sample == s.sample;
    hide Next;
  }

  lemma {:induction false} RestKeepsClear(cfg: Config, origin: State, run: seq<Event>, n: nat, from: map<nat, Time>)
    requires IsRun(cfg, origin, run) && n <= |run| && forall i | n <= i < |run| :: OfRest(run[i].step)
    requires AllClear(StateAt(origin, run, n), from)
    ensures var s, s' := StateAt(origin, run, n), StateAt(origin, run, |run|);
            AllClear(s', from) && s'.sample == s.sample && (Lt(ZERO, s.sample) ==> NoNewBelow(s, s', s.sample))
    decreases |run| - n
  {
    hide Next, Init, Clear, Safe;
    if n < |run| {
      var s, s' := StateAt(origin, run, n), run[n].after;
      SafeAlways(cfg, origin, run, n);
      assert Next(cfg, s, run[n].step, s');
      RestKeepsSample(cfg, s, run[n].step, s');
      forall t | t in from ensures Clear(s', t, from[t]) {
        ClearStep(cfg, s, run[n].step, s', t, from[t]);
      }
      RestKeepsClear(cfg, origin, run, n + 1, from);
    }
  }

  // Any number of steps of the rest: a caller may rely on this contract only.
  method Elsewhere(w: World)
    requires w.Valid()
    modifies w
    ensures w.Continues() && forall i | |old(w.trace)| <= i < |w.trace| :: OfRest(w.trace[i].step)
  {
  }

  // The state is one that the machine reaches.
  lemma ReachedIsSafe(cfg: Config, origin: State, trace: seq<Event>, s: State)
    requires HasRun(cfg, origin, trace, s)
    ensures Safe(cfg, s)
  {
    SafeAlways(cfg, origin, trace, |trace|);
  }

  lemma ClearAtZero(cfg: Config, s: State, table: nat)
    requires Safe(cfg, s)
    ensures Clear(s, table, ZERO)
  {
    hide Protocol, CutoffsOk, StampCovers, ProcCovers;
  }

  lemma SampleIsMark(cfg: Config, s: State)
    requires Safe(cfg, s) && Lt(ZERO, s.sample)
    ensures s.sample in s.marks
  {
    hide Protocol, Coverage;
  }

  lemma ClearLess(s: State, staged: set<Pos>, from: map<nat, Time>)
    requires AllClear(s, from) && staged <= s.staged
    ensures AllClear(s.(staged := staged), from)
  {
    forall t | t in from ensures Clear(s.(staged := staged), t, from[t]) {
      assert Clear(s, t, from[t]);
    }
  }

  lemma ClearPut(s: State, from: map<nat, Time>, table: nat, bound: Time)
    requires AllClear(s, from) && Clear(s, table, bound)
    ensures AllClear(s, from[table := bound])
  {
    hide Clear;
  }

  // The first rows of the range are the oldest rows of the table, as the machine
  // demands, and the bound may move to the last of them.
  lemma RemovesOldest(s: State, table: nat, lo: Time, hi: Time, limit: nat, d: seq<Pos>)
    requires Clear(s, table, lo) && limit >= 1 && d != []
    requires d == First(ByTime, Range(OfTable(s.staged, table), lo, hi), limit)
    ensures OldestOf(s.staged, table, Elems(d), hi)
    ensures var last := d[|d| - 1].time;
            && Le(lo, last) && Le(last, hi)
            && forall x | x in s.staged - Elems(d) && x.table == table :: Le(last, x.time)
    ensures |Low(s.staged - Elems(d), table, hi)| < |Low(s.staged, table, hi)|
  {
    hide First;
    var rows, r := OfTable(s.staged, table), Last(d[|d| - 1].time);
    var after := rows - Elems(d);
    DeletingTheFirst(rows, lo, hi, limit, d);
    BoundMoves(rows, after, lo, hi, limit, r);
    DeleteIsOldest(s.staged, table, after, lo, hi, limit, r);
    OldestSpec(Range(rows, lo, hi), limit);
    hide DeletesOldest;
    assert rows - after == Elems(d);
    assert d[0] in Elems(d) && d[0] in Range(rows, lo, hi);
    SmallerSet(Low(s.staged - Elems(d), table, hi), Low(s.staged, table, hi), d[0]);
  }

  // At most as many rows as the limit were deleted, and fewer only if no more were left.
  predicate Batch(left: set<Pos>, d: set<Pos>, table: nat, hi: Time, limit: nat) {
    |d| <= limit && (|d| < limit ==> forall x | x in left && x.table == table :: Lt(hi, x.time))
  }

  lemma RemovesBatch(s: State, table: nat, lo: Time, hi: Time, limit: nat, d: seq<Pos>)
    requires Clear(s, table, lo) && limit >= 1
    requires d == First(ByTime, Range(OfTable(s.staged, table), lo, hi), limit)
    ensures Batch(s.staged - Elems(d), Elems(d), table, hi, limit)
  {
    hide First;
    OldestSpec(Range(OfTable(s.staged, table), lo, hi), limit);
    assert forall x | x in s.staged && x.table == table && Le(x.time, hi) ::
        x in Range(OfTable(s.staged, table), lo, hi);
  }

  lemma SmallerSet(a: set<Pos>, b: set<Pos>, x: Pos)
    requires a <= b && x in b && x !in a
    ensures |a| < |b|
  {
    Subset(a, b - {x});
  }

  // The cut-offs of a round are never later than the sampled time.
  lemma {:induction false} CutOffAtMost(committed: Time, offset: int, k: nat)
    ensures Le(CutOff(committed, offset, k), committed)
  {
    if offset >= 0 {
      CutOffBelow(committed, offset, k);
    }
  }

  lemma AboveZero(s: State, table: nat, from: Time, hi: Time)
    requires Clear(s, table, from) && Lt(from, hi)
    ensures Lt(ZERO, hi)
  {
  }

  lemma FewerLow(s: State, s': State, table: nat, hi: Time)
    requires NoNewBelow(s, s', hi)
    ensures |Low(s'.staged, table, hi)| <= |Low(s.staged, table, hi)|
  {
    Subset(Low(s'.staged, table, hi), Low(s.staged, table, hi));
  }

  lemma NothingInRange(s: State, table: nat, lo: Time, hi: Time, limit: nat)
    requires Clear(s, table, lo) && limit >= 1 && First(ByTime, Range(OfTable(s.staged, table), lo, hi), limit) == []
    ensures forall x | x in s.staged && x.table == table :: Lt(hi, x.time)
  {
    var range := Range(OfTable(s.staged, table), lo, hi);
    OldestSpec(range, limit);
    hide First;
    assert forall x | x in s.staged && x.table == table && Le(x.time, hi) :: x in range;
  }

  lemma NoNewTrans(a: State, b: State, c: State, end: Time)
    ensures NoNewBelow(a, a, end)
    ensures NoNewBelow(a, b, end) && NoNewBelow(b, c, end) ==> NoNewBelow(a, c, end)
  {
  }

  class RetireLoop {
    const w: World
    // retireFrom of the stagers that have one.
    var from: map<nat, Time>

    constructor (w: World)
      requires w.Valid()
      ensures Valid() && this.w == w && from == map[]
    {
      this.w, from := w, map[];
    }

    ghost predicate Valid()
      reads this, w
    {
      w.Valid() && AllClear(w.s, from)
    }

    function From(table: nat): Time
      reads this
    {
      if table in from then from[table] else ZERO
    }

    // What others did meanwhile.
    twostate predicate Passed()
      reads this, w
    {
      && Valid() && w.Continues() && w.s.sample == old(w.s.sample)
      && (Lt(ZERO, w.s.sample) ==> NoNewBelow(old(w.s), w.s, w.s.sample))
    }

    method Meanwhile()
      requires Valid()
      modifies w
      ensures Passed()
    {
      Elsewhere(w);
      RestKeepsClear(w.cfg, w.origin, w.trace, |old(w.trace)|, from);
      assert StateAt(w.origin, w.trace, |old(w.trace)|) == old(w.s);
    }

    lemma BoundIsClear(table: nat)
      requires Valid()
      ensures Clear(w.s, table, From(table))
    {
      hide Clear, HasRun;
      ReachedIsSafe(w.cfg, w.origin, w.trace, w.s);
      ClearAtZero(w.cfg, w.s, table);
    }

    method Remove(table: nat, hi: Time, limit: nat, d: seq<Pos>)
      requires Valid() && limit >= 1 && Lt(From(table), hi) && Le(hi, w.s.sample) && d != []
      requires d == First(ByTime, Range(OfTable(w.s.staged, table), From(table), hi), limit)
      modifies w
      ensures Valid() && w.Continues() && w.s == old(w.s).(staged := old(w.s.staged) - Elems(d))
      ensures w.trace == old(w.trace) + [Event(DeleteStaged(table, Elems(d), hi), w.s)]
    {
      hide First, HasRun, Clear, OldestOf;
      BoundIsClear(table);
      RemovesOldest(w.s, table, From(table), hi, limit, d);
      ghost var s, after := w.s, w.s.(staged := w.s.staged - Elems(d));
      AboveZero(w.s, table, From(table), hi);
      assert Next(w.cfg, w.s, DeleteStaged(table, Elems(d), hi), after);
      hide Next;
      ClearLess(w.s, w.s.staged - Elems(d), from);
      w.Take(DeleteStaged(table, Elems(d), hi), w.s.(staged := w.s.staged - Elems(d)));
    }

    // One DELETE statement: it may be refused, or its answer may be lost.
    method DeleteBatch(calls: Calls, table: nat, hi: Time, limit: nat) returns (r: Deleted)
      requires Valid() && limit >= 1 && Lt(From(table), hi) && Le(hi, w.s.sample)
      modifies w, calls
      ensures Passed() && w.s.sample in w.s.marks
      ensures calls.failed == old(calls.failed) + if r.Failed? then 1 else 0
      ensures r.NoRows? ==> forall x | x in w.s.staged && x.table == table :: Lt(hi, x.time)
      ensures r.Last? ==>
                && Le(From(table), r.time) && Le(r.time, hi)
                && (forall x | x in w.s.staged && x.table == table :: Le(r.time, x.time))
                && |Low(w.s.staged, table, hi)| < |Low(old(w.s.staged), table, hi)|
      ensures r.Last? ==>
                && w.trace != [] && w.trace[|w.trace| - 1].step.DeleteStaged?
                && Batch(w.s.staged, w.trace[|w.trace| - 1].step.rows, table, hi, limit)
    {
      hide First, HasRun, OldestOf, Range;
      Meanwhile();
      BoundIsClear(table);
      FewerLow(old(w.s), w.s, table, hi);
      AboveZero(w.s, table, From(table), hi);
      ReachedIsSafe(w.cfg, w.origin, w.trace, w.s);
      SampleIsMark(w.cfg, w.s);
      hide Safe, Clear, AllClear, Batch;
      var sent := calls.Try();
      if !sent {
        return Failed;
      }
      var d := First(ByTime, Range(OfTable(w.s.staged, table), From(table), hi), limit);
      if d == [] {
        NothingInRange(w.s, table, From(table), hi, limit);
        return NoRows;
      }
      RemovesOldest(w.s, table, From(table), hi, limit, d);
      RemovesBatch(w.s, table, From(table), hi, limit, d);
      Remove(table, hi, limit, d);
      var answered := calls.Try();
      r := if answered then Last(d[|d| - 1].time) else Failed;
    }

    method Advance(table: nat, bound: Time)
      requires Valid() && Le(From(table), bound) && Le(bound, w.s.sample) && w.s.sample in w.s.marks
      requires forall x | x in w.s.staged && x.table == table :: Le(bound, x.time)
      modifies `from
      ensures Valid() && from == old(from)[table := bound]
    {
      BoundIsClear(table);
      ClearPut(w.s, from, table, bound);
      hide AllClear, HasRun;
      from := from[table := bound];
    }

    // stage.Retire, for one table.
    method RetireTable(calls: Calls, table: nat, end: Time, limit: nat) returns (ok: bool)
      requires Valid() && limit >= 1 && Le(end, w.s.sample)
      modifies this, w, calls
      ensures Passed() && calls.failed == old(calls.failed) + if ok then 0 else 1
      ensures forall t | t != table :: From(t) == old(From(t))
      ensures Le(old(From(table)), From(table)) && Le(From(table), Max(old(From(table)), end))
      ensures ok ==> From(table) == Max(old(From(table)), end)
      ensures ok ==> forall x | x in w.s.staged && x.table == table :: Le(end, x.time)
    {
      hide HasRun, AllClear, Low, NoNewBelow;
      NoNewTrans(w.s, w.s, w.s, w.s.sample);
      while Lt(From(table), end)
        invariant Passed() && calls.failed == old(calls.failed)
        invariant forall t | t != table :: From(t) == old(From(t))
        invariant Le(old(From(table)), From(table)) && Le(From(table), Max(old(From(table)), end))
        decreases |Low(w.s.staged, table, end)|
      {
        ghost var before := w.s;
        var r := DeleteBatch(calls, table, end, limit);
        NoNewTrans(old(w.s), before, w.s, w.s.sample);
        if r.Failed? {
          return false;
        }
        if r.NoRows? {
          break;
        }
        Advance(table, r.time);
      }
      if Lt(From(table), end) {
        Advance(table, end);
      }
      BoundIsClear(table);
      ok := true;
    }

    // One round over the tables whose stagers could be had; a table that fails is
    // passed over. The tables that did not fail hold no row below their cut-off.
    method Round(calls: Calls, tables: seq<nat>, committed: Time, offset: int, limit: nat)
      returns (ghost done: seq<bool>)
      requires Valid() && limit >= 1 && committed == w.s.sample
      modifies this, w, calls
      ensures Passed() && |done| == |tables| && calls.failed == old(calls.failed) + Missed(done)
      ensures forall t :: Le(old(From(t)), From(t))
      ensures forall k: nat | k < |tables| && done[k] :: Le(CutOff(w.s.sample, offset, k), From(tables[k]))
      ensures forall k: nat, x | k < |tables| && done[k] && x in w.s.staged && x.table == tables[k] ::
                Le(CutOff(w.s.sample, offset, k), x.time)
    {
      OneMore([], true, []);
      hide HasRun, AllClear, NoNewBelow, CutOff, Missed;
      NoNewTrans(w.s, w.s, w.s, w.s.sample);
      done := [];
      var next := committed;
      for k := 0 to |tables|
        invariant Passed() && |done| == k && calls.failed == old(calls.failed) + Missed(done)
        invariant forall t :: Le(old(From(t)), From(t))
        invariant next == if k == 0 then w.s.sample else CutOff(w.s.sample, offset, k - 1)
        invariant forall i: nat | i < k && done[i] :: Le(CutOff(w.s.sample, offset, i), From(tables[i]))
      {
        if offset > 0 {
          next := Time(next.nanos - offset, next.logical);
        }
        CutOffNext(w.s.sample, offset, k);
        CutOffAtMost(w.s.sample, offset, k);
        ghost var before := w.s;
        var ok := RetireTable(calls, tables[k], next, limit);
        NoNewTrans(old(w.s), before, w.s, w.s.sample);
        OneMore(done, ok, []);
        done := done + [ok];
      }
      forall k: nat, x | k < |tables| && done[k] && x in w.s.staged && x.table == tables[k]
        ensures Le(CutOff(w.s.sample, offset, k), x.time)
      {
        BoundIsClear(tables[k]);
      }
    }

    method Sample() returns (next: Time)
      requires Valid()
      modifies w
      ensures Valid() && w.Continues() && next == w.s.sample == w.s.retirements
      ensures |w.trace| > |old(w.trace)| && w.trace[|w.trace| - 1] == Event(SampleRetirement, w.s)
    {
      hide HasRun, NoNewBelow;
      Meanwhile();
      ghost var after := w.s.(sample := w.s.retirements);
      assert Next(w.cfg, w.s, SampleRetirement, after);
      hide Next;
      forall t | t in from ensures Clear(after, t, from[t]) {
        assert Clear(w.s, t, from[t]);
      }
      hide Clear;
      w.Take(SampleRetirement, w.s.(sample := w.s.retirements));
      next := w.s.sample;
    }

    // The tables that did not fail in a round that sampled at that event.
    predicate Retired(tables: seq<nat>, done: seq<bool>, sampled: Time, offset: int)
      reads this
    {
      && |done| == |tables|
      && forall k: nat | k < |tables| && done[k] :: Le(CutOff(sampled, offset, k), From(tables[k]))
    }

    // retireLoop: a round whenever it is notified. Afterwards no row below the
    // cut-off of any of the rounds is staged in a table that did not fail in it.
    method Loop(calls: Calls, rounds: seq<seq<nat>>, offset: int, limit: nat)
      returns (ghost done: seq<seq<bool>>, ghost at: seq<nat>)
      requires Valid() && limit >= 1
      modifies this, w, calls
      ensures Valid() && w.Continues()
      ensures |done| == |at| == |rounds| && calls.failed == old(calls.failed) + AllMissed(done)
      ensures forall i: nat | i < |rounds| ::
                |done[i]| == |rounds[i]| && at[i] < |w.trace| && w.trace[at[i]].step == SampleRetirement
      ensures forall i: nat | i < |rounds| :: w.trace[at[i]].after.sample == w.trace[at[i]].after.retirements
      ensures forall i: nat, k: nat, x |
                i < |rounds| && k < |rounds[i]| && done[i][k] && x in w.s.staged && x.table == rounds[i][k] ::
                Le(CutOff(w.trace[at[i]].after.sample, offset, k), x.time)
    {
      OneMore([], true, []);
      hide HasRun, AllClear, NoNewBelow, CutOff, Missed, AllMissed;
      done, at := [], [];
      for n := 0 to |rounds|
        invariant Valid() && w.Continues() && |done| == |at| == n
        invariant calls.failed == old(calls.failed) + AllMissed(done)
        invariant forall i: nat | i < n ::
                    && at[i] < |w.trace| && w.trace[at[i]].step == SampleRetirement
                    && w.trace[at[i]].after.sample == w.trace[at[i]].after.retirements
        invariant forall i: nat | i < n :: Retired(rounds[i], done[i], w.trace[at[i]].after.sample, offset)
      {
        var next := Sample();
        at := at + [|w.trace| - 1];
        ghost var sampled := w.trace;
        ghost var ok := Round(calls, rounds[n], next, offset, limit);
        OneMore(ok, true, done);
        done := done + [ok];
        assert forall i: nat | i <= n :: w.trace[at[i]] == sampled[at[i]];
        forall i: nat | i <= n ensures Retired(rounds[i], done[i], w.trace[at[i]].after.sample, offset) {
        }
      }
      forall i: nat, k: nat, x |
        i < |rounds| && k < |rounds[i]| && done[i][k] && x in w.s.staged && x.table == rounds[i][k]
        ensures Le(CutOff(w.trace[at[i]].after.sample, offset, k), x.time)
      {
        assert Retired(rounds[i], done[i], w.trace[at[i]].after.sample, offset);
        BoundIsClear(rounds[i][k]);
      }
    }
  }
}
