/** Deleting staged rows that have been applied: the batched DELETE loop of one
    staging table and the round over all tables that drives it. */
module Retire {
  import opened Calls
  import opened Hlc
  import opened Scan
  import opened Resolver

  predicate Between(lo: Time, hi: Time, x: Pos) {
    Le(lo, x.time) && Le(x.time, hi)
  }

  function Range(rows: set<Pos>, lo: Time, hi: Time): set<Pos> {
    set x | x in rows && Between(lo, hi, x)
  }

  datatype Deleted = NoRows | Last(time: Time) | Failed

  // What one DELETE ... ORDER BY time LIMIT n may remove. One whose answer is lost
  // may have done so or not.
  ghost predicate DeletesOldest(before: set<Pos>, after: set<Pos>, lo: Time, hi: Time, limit: nat, r: Deleted) {
    var d := before - after;
    && after <= before && d <= Range(before, lo, hi) && |d| <= limit
    && (forall x, y | x in d && y in Range(after, lo, hi) :: Le(x.time, y.time))
    && (r.NoRows? ==> Range(before, lo, hi) == {} && after == before)
    && (r.Last? ==>
          && d != {} && (exists x :: x in d && x.time == r.time) && (forall x | x in d :: Le(x.time, r.time))
          && (|d| < limit ==> Range(after, lo, hi) == {}))
  }

  // One staging table and the bound that makes later calls faster.
  class Stage {
    var rows: set<Pos>
    var retireFrom: Time

    constructor (rows: set<Pos>)
      ensures this.rows == rows && retireFrom == ZERO
    {
      this.rows, retireFrom := rows, ZERO;
    }

    method Delete(calls: Calls, hi: Time, limit: nat) returns (r: Deleted)
      requires limit >= 1
      modifies this`rows, calls
      ensures DeletesOldest(old(rows), rows, retireFrom, hi, limit, r)
      ensures calls.failed == old(calls.failed) + if r.Failed? then 1 else 0
    {
      var sent := calls.Try();
      if !sent {
        return Failed;
      }
      hide PosLt, First;
      var range := Range(rows, retireFrom, hi);
      var d := First(ByTime, range, limit);
      OldestSpec(range, limit);
      if d == [] {
        return NoRows;
      }
      DeletingTheFirst(rows, retireFrom, hi, limit, d);
      rows := rows - Elems(d);
      var answered := calls.Try();
      r := if answered then Last(d[|d| - 1].time) else Failed;
    }

    // Retire: delete batches until the bound reaches the end or nothing is left.
    method Retire(calls: Calls, end: Time, limit: nat) returns (ok: bool)
      requires limit >= 1
      modifies this, calls
      ensures calls.failed == old(calls.failed) + if ok then 0 else 1
      // Whatever happens, only rows of the range go, and none stays below the bound.
      ensures rows <= old(rows) && old(rows) - rows <= Range(old(rows), old(retireFrom), end)
      ensures forall x | x in rows :: !(Le(old(retireFrom), x.time) && Lt(x.time, retireFrom))
      ensures Le(old(retireFrom), retireFrom) && Le(retireFrom, Max(old(retireFrom), end))
      // On success the bound has arrived, however many rows share one time.
      ensures ok ==> retireFrom == Max(old(retireFrom), end)
      ensures ok ==> forall x | x in rows :: !(Le(old(retireFrom), x.time) && Lt(x.time, end))
    {
      hide DeletesOldest;
      while Lt(retireFrom, end)
        invariant calls.failed == old(calls.failed)
        invariant Cleared(old(rows), rows, old(retireFrom), retireFrom, end)
        invariant Le(old(retireFrom), retireFrom) && Le(retireFrom, Max(old(retireFrom), end))
        decreases |rows|
      {
        ghost var before := rows;
        var r := Delete(calls, end, limit);
        BatchClears(old(rows), before, rows, old(retireFrom), retireFrom, end, limit, r);
        if r.Failed? {
          return false;
        }
        if r.NoRows? {
          break;
        }
        retireFrom := r.time;
      }
      if Lt(retireFrom, end) {
        retireFrom := end;
      }
      ok := true;
    }
  }

  lemma DeletingTheFirst(rows: set<Pos>, lo: Time, hi: Time, limit: nat, d: seq<Pos>)
    requires limit >= 1 && d == First(ByTime, Range(rows, lo, hi), limit) && d != []
    ensures DeletesOldest(rows, rows - Elems(d), lo, hi, limit, Last(d[|d| - 1].time))
  {
    OldestSpec(Range(rows, lo, hi), limit);
    hide First;
    TakingOldest(rows, lo, hi, limit, Elems(d), d[|d| - 1]);
  }

  lemma TakingOldest(rows: set<Pos>, lo: Time, hi: Time, limit: nat, d: set<Pos>, last: Pos)
    requires d <= Range(rows, lo, hi) && |d| <= limit && last in d && (forall x | x in d :: Le(x.time, last.time))
    requires forall x, y | x in d && y in Range(rows, lo, hi) && y !in d :: Le(x.time, y.time)
    requires |d| < limit ==> d == Range(rows, lo, hi)
    ensures DeletesOldest(rows, rows - d, lo, hi, limit, Last(last.time))
  {
    assert rows - (rows - d) == d;
  }

  lemma OldestSpec(range: set<Pos>, limit: nat)
    requires limit >= 1
    ensures var d := First(ByTime, range, limit);
            && Elems(d) <= range && |Elems(d)| <= limit && (d == [] ==> range == {})
            && (forall x, y | x in d && y in range && y !in d :: Le(x.time, y.time))
            && (d != [] ==> forall x | x in d :: Le(x.time, d[|d| - 1].time))
            && (|Elems(d)| < limit ==> Elems(d) == range)
  {
    var d := First(ByTime, range, limit);
    FirstSpec(ByTime, range, limit);
    CardinalityOfSorted(ByTime, d);
    forall x | x in d ensures Le(x.time, d[|d| - 1].time) {
      var i :| 0 <= i < |d| && d[i] == x;
      assert i < |d| - 1 ==> PosLt(ByTime, d[i], d[|d| - 1]);
    }
    Subset(Elems(d), range);
  }

  lemma BoundMoves(before: set<Pos>, after: set<Pos>, lo: Time, hi: Time, limit: nat, r: Deleted)
    requires r.Last? && DeletesOldest(before, after, lo, hi, limit, r)
    ensures Le(lo, r.time) && Le(r.time, hi) && after != before
    ensures forall x | x in after :: !(Le(lo, x.time) && Lt(x.time, r.time))
  {
    var d :| d in before - after && d.time == r.time;
    forall x | x in after && Le(lo, x.time) ensures !Lt(x.time, r.time) {
      assert Le(x.time, hi) ==> x in Range(after, lo, hi);
    }
  }

  // What is left of the first rows once the bound has moved from one time to another.
  predicate Cleared(first: set<Pos>, rows: set<Pos>, from: Time, bound: Time, end: Time) {
    && rows <= first && first - rows <= Range(first, from, end)
    && forall x | x in rows :: !(Le(from, x.time) && Lt(x.time, bound))
  }

  lemma BatchClears(first: set<Pos>, before: set<Pos>, after: set<Pos>, from: Time, lo: Time, hi: Time, limit: nat,
                    r: Deleted)
    requires Cleared(first, before, from, lo, hi) && DeletesOldest(before, after, lo, hi, limit, r)
    requires Le(from, lo) && Lt(lo, hi)
    ensures Cleared(first, after, from, lo, hi)
    ensures r.NoRows? ==> Cleared(first, after, from, hi, hi)
    ensures r.Last? ==>
              Cleared(first, after, from, r.time, hi) && Le(lo, r.time) && Le(r.time, hi) && |after| < |before|
  {
    assert forall x | x in before - after :: x in Range(before, lo, hi);
    if r.Last? {
      BoundMoves(before, after, lo, hi, limit, r);
      Subset(after, before);
    }
    if r.NoRows? {
      assert forall x | x in after && Between(lo, hi, x) :: x in Range(before, lo, hi);
    }
  }

  // As long as nothing lies below the bound, every such DELETE is one that the
  // resolver's state machine allows.
  lemma DeleteIsOldest(staged: set<Pos>, table: nat, after: set<Pos>, lo: Time, hi: Time, limit: nat, r: Deleted)
    requires DeletesOldest(OfTable(staged, table), after, lo, hi, limit, r)
    requires forall x | x in OfTable(staged, table) :: Le(lo, x.time)
    ensures OldestOf(staged, table, OfTable(staged, table) - after, hi)
  {
    var rows := OfTable(staged, table) - after;
    forall d, x | d in rows && x in staged && x.table == table ensures x in rows || !Lt(x.time, d.time) {
      assert x in after && Le(x.time, hi) ==> x in Range(after, lo, hi);
    }
  }

  // ---- The round over all tables ----

  // The cut-off of the k-th table visited: the offset is subtracted again for
  // every table of the round.
  function CutOff(committed: Time, offset: int, k: nat): Time {
    if offset <= 0 then committed
    else
      var prev := if k == 0 then committed else CutOff(committed, offset, k - 1);
      Time(prev.nanos - offset, prev.logical)
  }

  lemma {:induction false} CutOffBelow(committed: Time, offset: int, k: nat)
    requires offset >= 0
    ensures Le(CutOff(committed, offset, k), Time(committed.nanos - offset, committed.logical))
    ensures k > 0 && offset > 0 ==> Lt(CutOff(committed, offset, k), Time(committed.nanos - offset, committed.logical))
  {
    if k > 0 {
      CutOffBelow(committed, offset, k - 1);
    }
  }

  // The tables that were passed over, in one round and in all.
  function Missed(done: seq<bool>): nat {
    if done == [] then 0 else Missed(done[..|done| - 1]) + if done[|done| - 1] then 0 else 1
  }

  function AllMissed(done: seq<seq<bool>>): nat {
    if done == [] then 0 else AllMissed(done[..|done| - 1]) + Missed(done[|done| - 1])
  }

  lemma OneMore(done: seq<bool>, ok: bool, all: seq<seq<bool>>)
    ensures Missed(done + [ok]) == Missed(done) + if ok then 0 else 1
    ensures AllMissed(all + [done]) == AllMissed(all) + Missed(done)
    ensures Missed([]) == 0 && AllMissed([]) == 0
  {
    assert (done + [ok])[..|done|] == done && (all + [done])[..|all|] == all;
  }

  // What the subtraction in the loop amounts to.
  lemma CutOffNext(committed: Time, offset: int, k: nat)
    ensures var prev := if k == 0 then committed else CutOff(committed, offset, k - 1);
            CutOff(committed, offset, k) == if offset > 0 then Time(prev.nanos - offset, prev.logical) else prev
  {
  }

  // In closed form.
  lemma {:induction false} CutOffIs(committed: Time, offset: int, k: nat)
    requires offset > 0
    ensures CutOff(committed, offset, k) == Time(committed.nanos - (k + 1) * offset, committed.logical)
  {
    if k > 0 {
      CutOffIs(committed, offset, k - 1);
    }
  }

  // One pass of the loop. A table that fails is skipped; the others hold no row
  // between their old bound and their cut-off.
  method Round(calls: Calls, stages: seq<Stage>, committed: Time, offset: int, limit: nat)
    returns (ghost done: seq<bool>)
    requires limit >= 1 && offset >= 0
    requires forall i, j | 0 <= i < j < |stages| :: stages[i] != stages[j]
    modifies (set s | s in stages), calls
    ensures |done| == |stages| && calls.failed == old(calls.failed) + Missed(done)
    ensures forall k: nat | k < |stages| && done[k] ::
              forall x | x in stages[k].rows ::
                !(Le(old(stages[k].retireFrom), x.time) && Lt(x.time, CutOff(committed, offset, k)))
    ensures forall k: nat | k < |stages| ::
              && stages[k].rows <= old(stages[k].rows)
              && forall x | x in old(stages[k].rows) - stages[k].rows ::
                   && Le(x.time, CutOff(committed, offset, k))
                   && Le(x.time, Time(committed.nanos - offset, committed.logical))
  {
    var next := committed;
    OneMore([], true, []);
    hide Missed, CutOff;
    done := [];
    var k := 0;
    while k < |stages|
      invariant k <= |stages| && |done| == k && calls.failed == old(calls.failed) + Missed(done)
      invariant forall i: nat | i < k && done[i] ::
                  forall x | x in stages[i].rows ::
                    !(Le(old(stages[i].retireFrom), x.time) && Lt(x.time, CutOff(committed, offset, i)))
      invariant k > 0 ==> next == CutOff(committed, offset, k - 1)
      invariant k == 0 ==> next == committed
      invariant forall i: nat | k <= i < |stages| :: unchanged(stages[i])
      invariant forall i: nat | i < k ::
                  && stages[i].rows <= old(stages[i].rows)
                  && forall x | x in old(stages[i].rows) - stages[i].rows :: Le(x.time, CutOff(committed, offset, i))
    {
      if offset > 0 {
        next := Time(next.nanos - offset, next.logical);
      }
      CutOffNext(committed, offset, k);
      var ok := stages[k].Retire(calls, next, limit);
      OneMore(done, ok, []);
      done := done + [ok];
      k := k + 1;
    }
    forall i: nat, x | i < |stages| && x in old(stages[i].rows) - stages[i].rows
      ensures Le(x.time, Time(committed.nanos - offset, committed.logical))
    {
      CutOffBelow(committed, offset, i);
    }
  }

  // Rows left at exactly the end of one call are gone after a later end.
  method RetireTwice(calls: Calls, s: Stage, end: Time, later: Time, limit: nat) returns (ok: bool)
    requires limit >= 1
    modifies s, calls
    ensures ok ==> forall x | x in s.rows :: !(Le(old(s.retireFrom), x.time) && (Lt(x.time, end) || Lt(x.time, later)))
    ensures ok && Lt(end, later) ==> forall x | x in s.rows :: !(Le(old(s.retireFrom), x.time) && x.time == end)
  {
    ok := s.Retire(calls, end, limit);
    if ok {
      ok := s.Retire(calls, later, limit);
    }
  }
}
