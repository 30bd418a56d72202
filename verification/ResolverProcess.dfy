/** process as the program writes it: two nested loops around a flush, with local
    variables, over databases that other goroutines use at the same time. Whatever
    it does is a run of the resolver's state machine. */
module ResolverProcess {
  import opened Calls
  import opened Hlc
  import opened Scan
  import opened Wrappers
  import opened ResolvedStamp
  import opened SelectMany
  import opened Resolver
  import opened ResolverProtocol
  import opened ResolverCoverage

  // Steps taken by anyone but the processor while it is at work.
  predicate OfOthers(step: Step) {
    step.StageRow? || step.Mark? || step.Propose? || step.Resend? || step.Observe? || step.RestartReader?
    || step.SampleRetirement? || step.DeleteStaged?
  }

  ghost predicate HasRun(cfg: Config, origin: State, trace: seq<Event>, s: State) {
    IsRun(cfg, origin, trace) && StateAt(origin, trace, |trace|) == s
  }

  class World {
    const cfg: Config
    var s: State
    ghost var origin: State
    ghost var trace: seq<Event>

    // The history of the world is a run of the machine, ending in its state.
    ghost predicate Valid()
      reads this
    {
      HasRun(cfg, origin, trace, s)
    }

    twostate predicate Continues()
      reads this
    {
      Valid() && origin == old(origin) && old(trace) <= trace
    }

    method Take(step: Step, after: State)
      requires Valid() && Next(cfg, s, step, after)
      modifies this
      ensures Continues() && s == after && trace == old(trace) + [Event(step, after)]
    {
      hide Next, Init;
      ghost var run := trace + [Event(step, after)];
      forall i: nat | i < |run| ensures Next(cfg, StateAt(origin, run, i), run[i].step, run[i].after) {
        assert StateAt(origin, run, i) == StateAt(origin, trace, i);
        assert i < |trace| ==> run[i] == trace[i];
      }
      s := after;
      trace := run;
    }

    // Any number of steps of the other goroutines and instances: a caller may rely
    // on nothing but this contract.
    method Others()
      requires Valid()
      modifies this
      ensures Continues()
      ensures forall i | |old(trace)| <= i < |trace| :: OfOthers(trace[i].step)
    {
    }
  }

  // While the processor waits, the others neither touch it nor add to its window.
  lemma {:induction false} OthersKeepWindow(cfg: Config, origin: State, run: seq<Event>, n: nat)
    requires IsRun(cfg, origin, run) && n <= |run| && StateAt(origin, run, n).proc.Running?
    requires forall i | n <= i < |run| :: OfOthers(run[i].step)
    ensures var before, after := StateAt(origin, run, n), StateAt(origin, run, |run|);
            && after.proc == before.proc
            && forall o :: Rest(before.proc.rs, o, after.staged) <= Rest(before.proc.rs, o, before.staged)
    decreases |run| - n
  {
    hide Rest, Init;
    if n < |run| {
      var s, s' := StateAt(origin, run, n), run[n].after;
      ProtocolAlways(cfg, origin, run, n);
      assert Next(cfg, s, run[n].step, s');
      ProtocolFacts(cfg, s);
      OneStepKeepsWindow(cfg, s, run[n].step, s');
      hide Next;
      OthersKeepWindow(cfg, origin, run, n + 1);
    }
  }

  lemma OneStepKeepsWindow(cfg: Config, s: State, step: Step, s': State)
    requires Next(cfg, s, step, s') && OfOthers(step) && s.proc.Running? && s.proc.rs.proposed in s.marks
    ensures s'.proc == s.proc
    ensures forall o :: Rest(s.proc.rs, o, s'.staged) <= Rest(s.proc.rs, o, s.staged)
  {
    assert s'.proc == s.proc;
    if step.StageRow? {
      assert Lt(s.proc.rs.proposed, step.row.time);
      assert s'.staged == s.staged + {step.row};
    } else {
      assert s'.staged <= s.staged;
    }
    hide Next;
  }

  method Wait(w: World)
    requires w.Valid() && w.s.proc.Running?
    modifies w
    ensures w.Continues() && w.s.proc == old(w.s.proc)
    ensures forall o :: Rest(old(w.s.proc.rs), o, w.s.staged) <= Rest(old(w.s.proc.rs), o, old(w.s.staged))
  {
    w.Others();
    OthersKeepWindow(w.cfg, w.origin, w.trace, |old(w.trace)|);
    assert StateAt(w.origin, w.trace, |old(w.trace)|) == old(w.s);
  }

  // ---- The processor's own steps ----

  method CommitBatch(w: World, final: bool)
    requires w.Valid() && Scans(w.s)
    requires if final then w.s.proc.scan.Exhausted? && w.s.proc.page == []
             else w.s.proc.page != [] && NeedsFlush(w.cfg, w.s.proc, w.s.proc.page[0])
    modifies w
    ensures w.Continues() && w.s.staged == old(w.s.staged)
    ensures w.s.proc == old(w.s.proc).(batch := {}, counter := 0, phase := Flushed(final))
    ensures w.s.flushed == old(w.s.flushed + w.s.proc.batch)
    ensures old(w.s.proc.batch) <= old(w.s.log).Keys
    ensures w.cfg.transactional ==> w.s.target == Apply(old(w.s.target), old(w.s.log), old(w.s.proc.batch))
  {
    hide HasRun, Apply, Touch, NeedsFlush;
    BatchIsLogged(w);
    var p := w.s.proc;
    var shown, times := Apply(w.s.target, w.s.log, p.batch), Touch(w.s.applied, p.batch);
    if !w.cfg.transactional {
      // Concurrent workers may leave any mutation of the batch in a row.
      shown, times := *, *;
    }
    var after := Committed(w.s, final, shown, times);
    assert Next(w.cfg, w.s, Commit(final, shown, times), after);
    hide Next;
    w.Take(Commit(final, shown, times), after);
  }

  function Committed(s: State, final: bool, shown: map<RowKey, Data>, times: map<RowKey, Time>): State
    requires s.proc.Running?
  {
    s.(target := shown, applied := times, flushed := s.flushed + s.proc.batch, top := Max(s.top, s.proc.rs.proposed),
       proc := s.proc.(batch := {}, counter := 0, phase := Flushed(final)))
  }

  method RecordMark(w: World)
    requires w.Valid() && w.s.proc.Running? && w.s.proc.phase == Flushed(true)
    modifies w
    ensures w.Continues() && w.s.proc == old(w.s.proc).(phase := Recorded)
  {
    w.Take(Record, w.s.(marks := w.s.marks[w.s.proc.rs.proposed := true], proc := w.s.proc.(phase := Recorded)));
  }

  // SetConsistentPoint up to the notification: refuses to stall or to go backwards.
  method PublishStamp(w: World, next: Stamp) returns (ok: bool)
    requires w.Valid() && AboutToPublish(w.s) && NextStamp(w.s.proc) == Ok(next)
    modifies w
    ensures w.Continues() && (ok <==> old(w.s.cp).Less(next))
    ensures ok ==> w.s.cp == next && w.s.staged == old(w.s.staged)
    ensures ok ==> w.s.proc == old(w.s.proc).(phase := Published(next, old(w.s.proc.phase.Recorded?)))
  {
    if !w.s.cp.Less(next) {
      return false;
    }
    w.Take(Publish, w.s.(cp := next, version := w.s.version + 1,
                         proc := w.s.proc.(phase := Published(next, w.s.proc.phase.Recorded?))));
    ok := true;
  }

  method StoreStamp(w: World)
    requires w.Valid() && w.s.proc.Running? && w.s.proc.phase.Published?
    modifies w
    ensures w.Continues() && w.s.memo == old(w.s.proc.phase.next) && w.s.proc == AfterPersist(old(w.s.proc))
    ensures w.s.staged == old(w.s.staged)
  {
    w.Take(Persist, w.s.(memo := w.s.proc.phase.next, proc := AfterPersist(w.s.proc)));
  }

  method ReceiveStamp(w: World) returns (rs: Stamp)
    requires w.Valid() && w.s.proc.Idle? && w.s.chan != []
    modifies w
    ensures w.Continues() && rs == old(w.s.chan[0])
    ensures w.s.proc == Running(rs, StartOf(rs), NeedPage, [], {}, ZERO, 0, Scanning)
  {
    rs := w.s.chan[0];
    w.Take(Begin, w.s.(chan := w.s.chan[1..], proc := Running(rs, StartOf(rs), NeedPage, [], {}, ZERO, 0, Scanning)));
  }

  method Query(w: World) returns (page: seq<Pos>)
    requires w.Valid() && Scans(w.s) && w.s.proc.scan.NeedPage? && w.s.proc.page == [] && w.cfg.selectLimit != 0
    modifies w
    ensures w.Continues() && w.s.staged == old(w.s.staged)
    ensures w.s.proc == if page == [] then old(w.s.proc).(scan := Exhausted)
                        else old(w.s.proc).(page := page, scan := InPage(page[|page| - 1], |page| == w.cfg.selectLimit))
    ensures page != [] ==>
              var p := old(w.s.proc);
              var last := page[|page| - 1];
              last in Rest(p.rs, p.cur, w.s.staged)
              && Rest(p.rs, OffsetOf(last), w.s.staged) <= Rest(p.rs, p.cur, w.s.staged) - {last}
  {
    hide HasRun, First, Rest, Sorted;
    var p := w.s.proc;
    CursorInWindow(w);
    PageSplitsRest(p.rs, p.cur, w.s.staged, w.cfg.selectLimit);
    page := First(OrderOf(p.rs.backfill), Rest(p.rs, p.cur, w.s.staged), w.cfg.selectLimit);
    assert page != [] ==> page[|page| - 1] in Elems(page);
    w.Take(ReadPage, w.s.(proc := PageRead(w.cfg, w.s)));
  }

  method AcceptRow(w: World)
    requires w.Valid() && Scans(w.s) && w.s.proc.page != [] && !NeedsFlush(w.cfg, w.s.proc, w.s.proc.page[0])
    modifies w
    ensures w.Continues() && w.s.proc == Accept(old(w.s.proc)) && w.s.staged == old(w.s.staged)
  {
    w.Take(Deliver, w.s.(proc := Accept(w.s.proc)));
  }

  method AdvanceCursor(w: World)
    requires w.Valid() && Scans(w.s) && w.s.proc.scan.InPage? && w.s.proc.page == []
    modifies w
    ensures w.Continues() && w.s.staged == old(w.s.staged)
    ensures w.s.proc == old(w.s.proc).(cur := OffsetOf(old(w.s.proc.scan.last)),
                                       scan := if old(w.s.proc.scan.full) then NeedPage else Exhausted)
  {
    w.Take(EndPage, w.s.(proc := w.s.proc.(cur := OffsetOf(w.s.proc.scan.last),
                                           scan := if w.s.proc.scan.full then NeedPage else Exhausted)));
  }

  lemma BatchIsLogged(w: World)
    requires w.Valid() && w.s.proc.Running?
    ensures w.s.proc.batch <= w.s.log.Keys
  {
    SafeAlways(w.cfg, w.origin, w.trace, |w.trace|);
  }

  lemma CursorInWindow(w: World)
    requires w.Valid() && w.s.proc.Running?
    ensures Le(w.s.proc.rs.committed, w.s.proc.cur.time)
  {
    SafeAlways(w.cfg, w.origin, w.trace, |w.trace|);
  }

  // ---- The code ----

  // The flush closure. An error may be reported before or after any of its database
  // calls takes effect, and is reported if one fails and not otherwise. On success
  // the stamp it returns has been stored.
  method Flush(w: World, calls: Calls, rs: Stamp, cur: Offset, toApply: set<Pos>, final: bool)
    returns (ok: bool, next: Stamp)
    requires w.Valid() && Scans(w.s) && w.s.proc.rs == rs && w.s.proc.cur == cur && w.s.proc.batch == toApply
    requires if final then w.s.proc.scan.Exhausted? && w.s.proc.page == []
             else w.s.proc.page != [] && NeedsFlush(w.cfg, w.s.proc, w.s.proc.page[0])
    modifies w, calls
    ensures w.Continues() && (ok <==> calls.failed == old(calls.failed))
    ensures ok && final ==> w.s.proc.Idle? && Ok(next) == rs.NewCommitted() && w.s.memo == next
    ensures ok && !final ==>
              && next == rs.NewProgress(cur) && w.s.memo == next
              && w.s.proc == Accept(old(w.s.proc).(rs := next, batch := {}, counter := 0))
    ensures ok && !final ==> forall o :: Rest(rs, o, w.s.staged) <= Rest(rs, o, old(w.s.staged))
  {
    hide HasRun, Rest, NeedsFlush, Apply;
    next := rs;
    ok := calls.Try();
    if !ok { return; }
    // OnBegin, OnData for each table, OnCommit
    CommitBatch(w, final);
    ok := calls.Try();
    if !ok { return; }
    Wait(w);
    if final {
      NextIsGreater(w);
      var r := rs.NewCommitted();
      if r.Err? { return false, next; }
      next := r.value;
      RecordMark(w);
      ok := calls.Try();
      if !ok { return; }
      Wait(w);
    } else {
      next := rs.NewProgress(cur);
    }
    NextIsGreater(w);
    ok := PublishStamp(w, next);
    if !ok { return; }
    Wait(w);
    ok := calls.Try();
    if !ok { return; }
    StoreStamp(w);
    ok := calls.Try();
  }

  // What comes next is a greater stamp: neither error of the closure itself occurs.
  lemma NextIsGreater(w: World)
    requires w.Valid() && w.s.proc.Running? && (w.s.proc.phase.Flushed? || w.s.proc.phase.Recorded?)
    ensures w.s.proc.rs.NewCommitted().Ok?
    ensures AboutToPublish(w.s) ==> NextStamp(w.s.proc).Ok? && w.s.cp.Less(NextStamp(w.s.proc).value)
  {
    hide Next;
    ProtocolAlways(w.cfg, w.origin, w.trace, |w.trace|);
    if AboutToPublish(w.s) {
      PublishNeverFails(w.cfg, w.origin, w.trace, |w.trace|);
    }
  }

  predicate SameBounds(a: Stamp, b: Stamp) {
    (a.backfill, a.committed, a.proposed) == (b.backfill, b.committed, b.proposed)
  }

  lemma SameRest(a: Stamp, b: Stamp)
    requires SameBounds(a, b)
    ensures forall o, rows :: Rest(a, o, rows) == Rest(b, o, rows)
  {
    hide Window;
  }

  // The callback, row by row: check for a flush first, then accumulate.
  method Callbacks(w: World, calls: Calls, rs0: Stamp, cur: Offset, page: seq<Pos>, toApply0: set<Pos>,
                   epoch0: Time, counter0: int)
    returns (ok: bool, rs: Stamp, toApply: set<Pos>, epoch: Time, flushCounter: int)
    requires w.Valid() && w.s.proc.Running? && w.s.proc.scan.InPage?
    requires w.s.proc == Running(rs0, cur, w.s.proc.scan, page, toApply0, epoch0, counter0, Scanning)
    modifies w, calls
    ensures w.Continues() && (ok <==> calls.failed == old(calls.failed))
    ensures ok ==> w.s.proc == Running(rs, cur, old(w.s.proc.scan), [], toApply, epoch, flushCounter, Scanning)
    ensures ok ==> SameBounds(rs, rs0) && forall o :: Rest(rs0, o, w.s.staged) <= Rest(rs0, o, old(w.s.staged))
  {
    hide HasRun, Rest;
    ok, rs, toApply, epoch, flushCounter := true, rs0, toApply0, epoch0, counter0;
    ghost var scan := w.s.proc.scan;
    var i := 0;
    while i < |page|
      invariant i <= |page| && w.Continues() && SameBounds(rs, rs0) && ok && calls.failed == old(calls.failed)
      invariant w.s.proc == Running(rs, cur, scan, page[i..], toApply, epoch, flushCounter, Scanning)
      invariant forall o :: Rest(rs0, o, w.s.staged) <= Rest(rs0, o, old(w.s.staged))
    {
      var mut := page[i];
      var needsFlush;
      if rs.backfill {
        needsFlush := flushCounter >= w.cfg.idealFlush;
      } else if w.cfg.everyTimestamp {
        needsFlush := epoch != ZERO && Lt(epoch, mut.time);
      } else {
        needsFlush := flushCounter >= w.cfg.idealFlush && Lt(epoch, mut.time);
      }
      assert page[i..][0] == mut && page[i..][1..] == page[i + 1..];
      if needsFlush {
        SameRest(rs, rs0);
        ok, rs := Flush(w, calls, rs, cur, toApply, false);
        if !ok { return; }
        flushCounter, toApply := 0, {};
      } else {
        AcceptRow(w);
      }
      flushCounter, toApply, epoch := flushCounter + 1, toApply + {mut}, mut.time;
      i := i + 1;
    }
  }

  // The stamp received from the reader is processed to the end or until an error,
  // which is that no tables are known, that pages have no size, or that a call has
  // failed.
  method Process(w: World, calls: Calls, anyTables: bool) returns (ok: bool)
    requires w.Valid() && w.s.proc.Idle? && w.s.chan != []
    modifies w, calls
    ensures w.Continues() && (ok <==> anyTables && w.cfg.selectLimit != 0 && calls.failed == old(calls.failed))
    ensures ok ==> w.s.proc.Idle? && Ok(w.s.memo) == old(w.s.chan[0]).NewCommitted()
  {
    hide HasRun, Rest;
    var rs := ReceiveStamp(w);
    if !anyTables || w.cfg.selectLimit == 0 {
      return false;
    }
    ghost var rs0 := rs;
    var cur := StartOf(rs);
    var toApply, epoch, flushCounter := {}, ZERO, 0;
    var more := true;
    while more
      invariant w.Continues() && SameBounds(rs, rs0) && calls.failed == old(calls.failed)
      invariant w.s.proc == Running(rs, cur, if more then NeedPage else Exhausted, [], toApply, epoch, flushCounter,
                                    Scanning)
      decreases more, |Rest(rs, cur, w.s.staged)|
    {
      ghost var left := Rest(rs, cur, w.s.staged);
      Wait(w);
      ok := calls.Try();
      if !ok { return; }
      ghost var before := rs;
      var page := Query(w);
      if page == [] {
        more := false;
      } else {
        var last := page[|page| - 1];
        ok, rs, toApply, epoch, flushCounter := Callbacks(w, calls, rs, cur, page, toApply, epoch, flushCounter);
        if !ok { return; }
        SameRest(rs, before);
        assert Rest(rs, OffsetOf(last), w.s.staged) <= left - {last} && last in left;
        Subset(Rest(rs, OffsetOf(last), w.s.staged), left);
        AdvanceCursor(w);
        cur, more := OffsetOf(last), |page| == w.cfg.selectLimit;
      }
    }
    ok, rs := Flush(w, calls, rs, cur, toApply, true);
  }
}
