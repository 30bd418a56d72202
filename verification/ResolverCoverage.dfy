/** Checkpoint and retirement safety: nothing is passed over or deleted before it
    was part of a committed flush, with or without a backfill. */
module ResolverCoverage {
  import opened Hlc
  import opened Scan
  import opened Wrappers
  import opened ResolvedStamp
  import opened SelectMany
  import opened Resolver
  import opened ResolverProtocol

  // The stamp claims that x needs no further attention: x is committed, or it lies
  // in the proposed window at or before the offset.
  predicate Covered(st: Stamp, x: Pos) {
    || (st.committed != ZERO && Le(x.time, st.committed))
    || (st.proposed != ZERO && Le(x.time, st.proposed) && x !in Rest(st, StartOf(st), {x}))
  }

  // Rows of the window that no page has brought yet.
  function Unread(p: Proc, staged: set<Pos>): set<Pos>
    requires p.Running?
  {
    match p.scan
    case NeedPage => Rest(p.rs, p.cur, staged)
    case InPage(last, full) => if full then Rest(p.rs, OffsetOf(last), staged) else {}
    case Exhausted => {}
  }

  // Rows of the window still to be flushed.
  function Pending(p: Proc, staged: set<Pos>): set<Pos>
    requires p.Running?
  {
    p.batch + Elems(p.page) + Unread(p, staged)
  }

  // The rows read but not flushed, and the page boundary, lie behind the cursor.
  predicate Behind(p: Proc)
    requires p.Running?
  {
    && Le(p.rs.committed, p.cur.time)
    && (forall x | x in p.page :: x in Rest(p.rs, p.cur, {x}))
    && (p.scan.InPage? ==> p.scan.last in Rest(p.rs, p.cur, {p.scan.last}))
    && (p.scan.InPage? && p.page != [] ==> p.page[|p.page| - 1] == p.scan.last)
  }

  predicate NothingSkipped(p: Proc, staged: set<Pos>, flushed: set<Pos>, x: Pos)
    requires p.Running?
  {
    Le(x.time, p.rs.proposed) ==> x in Pending(p, staged) || x in flushed
  }

  // Every row of the log that the stamp covers has been flushed.
  predicate StampCovers(log: set<Pos>, flushed: set<Pos>, st: Stamp) {
    forall x | x in log && Covered(st, x) :: x in flushed
  }

  predicate ProcCovers(log: set<Pos>, staged: set<Pos>, flushed: set<Pos>, p: Proc) {
    p.Running? ==>
      && Behind(p) && p.batch <= log && (forall x | x in p.page :: x in log)
      && forall x | x in log :: NothingSkipped(p, staged, flushed, x)
  }

  predicate RowsOk(log: set<Pos>, staged: set<Pos>, flushed: set<Pos>) {
    && staged <= log && flushed <= log
    && (forall x | x in log :: Le(ZERO, x.time))
    && (forall x | x in log && x !in staged :: x in flushed)
  }

  ghost predicate Coverage(s: State) {
    && RowsOk(s.log.Keys, s.staged, s.flushed)
    && StampCovers(s.log.Keys, s.flushed, s.cp)
    && StampCovers(s.log.Keys, s.flushed, s.memo)
    && ProcCovers(s.log.Keys, s.staged, s.flushed, s.proc)
  }

  // A cut-off handed to retirement is zero or a mark, and everything staged up to
  // it has been flushed.
  predicate CutoffOk(marks: map<Time, bool>, log: set<Pos>, flushed: set<Pos>, t: Time) {
    t == ZERO || (t in marks && forall x | x in log && Le(x.time, t) :: x in flushed)
  }

  ghost predicate CutoffsOk(s: State) {
    && CutoffOk(s.marks, s.log.Keys, s.flushed, s.retirements)
    && CutoffOk(s.marks, s.log.Keys, s.flushed, s.sample)
  }

  ghost predicate Safe(cfg: Config, s: State) {
    Protocol(cfg, s) && Coverage(s) && CutoffsOk(s)
  }

  lemma SafeInit(cfg: Config, s: State)
    requires Init(s)
    ensures Safe(cfg, s)
  {
  }

  lemma PageSplitsRest(rs: Stamp, o: Offset, rows: set<Pos>, limit: nat)
    requires limit >= 1 && Le(rs.committed, o.time)
    ensures var page, rest := First(OrderOf(rs.backfill), Rest(rs, o, rows), limit), Rest(rs, o, rows);
            && Elems(page) <= rest && |page| <= limit
            && Sorted(OrderOf(rs.backfill), page)
            && (|page| < limit ==> Elems(page) == rest)
            && (page != [] ==> Rest(rs, OffsetOf(page[|page| - 1]), rows) == rest - Elems(page))
  {
    hide First, Window, PosLt;
    var ord, rest := OrderOf(rs.backfill), Rest(rs, o, rows);
    var page := First(ord, rest, limit);
    FirstSpec(ord, rest, limit);
    PageThenRest(ord, rest, limit);
    if page != [] {
      var last := page[|page| - 1];
      assert last in Elems(page);
      WindowAfterRow(rs.backfill, IdxOf(o), rs.committed, rs.proposed, o.time, o.key, rows, last);
      AfterLast(ord, rest, page);
    }
  }

  // What a page read removes from the unread rows it puts into the page.
  lemma PageKeepsPending(cfg: Config, s: State)
    requires s.proc.Running? && s.proc.scan.NeedPage? && s.proc.page == [] && cfg.selectLimit >= 1
    requires Le(s.proc.rs.committed, s.proc.cur.time)
    ensures var p := PageRead(cfg, s);
            && Pending(p, s.staged) == Pending(s.proc, s.staged)
            && Elems(p.page) <= Rest(s.proc.rs, s.proc.cur, s.staged)
            && (p.scan.InPage? ==> p.page != [] && p.page[|p.page| - 1] == p.scan.last)
            && (p.scan.InPage? || p.scan.Exhausted?)
            && Sorted(OrderOf(p.rs.backfill), p.page)
  {
    hide First, Rest, Sorted;
    PageSplitsRest(s.proc.rs, s.proc.cur, s.staged, cfg.selectLimit);
    var p := PageRead(cfg, s);
    if p.page != [] && |p.page| == cfg.selectLimit {
      assert Unread(s.proc, s.staged) == Elems(p.page) + Unread(p, s.staged);
    }
  }

  // What lies behind a row of the window lies behind the cursor as well.
  lemma BehindLast(rs: Stamp, o: Offset, last: Pos, x: Pos)
    requires Le(rs.committed, o.time)
    requires last in Rest(rs, o, {last}) && x in Rest(rs, OffsetOf(last), {x})
    ensures x in Rest(rs, o, {x})
  {
    WindowAfterRow(rs.backfill, IdxOf(o), rs.committed, rs.proposed, o.time, o.key, {last, x}, last);
    assert x in Rest(rs, OffsetOf(last), {last, x});
  }

  lemma PendingBehind(p: Proc, staged: set<Pos>, x: Pos)
    requires p.Running? && Behind(p)
    requires x in Elems(p.page) + Unread(p, staged)
    ensures x in Rest(p.rs, p.cur, {x})
  {
    if x !in p.page && p.scan.InPage? {
      BehindLast(p.rs, p.cur, p.scan.last, x);
    }
  }

  // A stamp saved at an interim flush claims only what was flushed.
  lemma ProgressCovers(p: Proc, staged: set<Pos>, x: Pos)
    requires p.Running? && Behind(p) && p.batch == {} && p.rs.proposed != ZERO && Le(ZERO, x.time)
    requires !p.rs.backfill ==> p.rs.offset.table.None?
    requires Covered(p.rs.NewProgress(p.cur), x) && !(p.rs.committed != ZERO && Le(x.time, p.rs.committed))
    ensures x !in Pending(p, staged) && Le(x.time, p.rs.proposed)
  {
    if x in Pending(p, staged) {
      PendingBehind(p, staged, x);
    }
  }

  // ---- Preservation ----

  // What the protocol says about the stamps that coverage speaks of.
  lemma ProtocolFacts(cfg: Config, s: State)
    requires Protocol(cfg, s)
    ensures StampOk(cfg, s.marks, s.cp) && StampOk(cfg, s.marks, s.memo)
    ensures s.proc.Running? ==> StampOk(cfg, s.marks, s.proc.rs) && s.proc.rs.proposed != ZERO
    ensures Busy(s) ==> s.proc.rs.committed == s.cp.committed
    ensures s.proc.Running? && s.proc.phase != Scanning ==> s.proc.batch == {}
    ensures s.proc.Running? && (s.proc.scan.NeedPage? || s.proc.scan.Exhausted?) ==> s.proc.page == []
    ensures s.proc.Running? && (s.proc.phase == Flushed(true) || s.proc.phase == Recorded)
            ==> s.proc.page == [] && s.proc.scan.Exhausted?
    ensures s.proc.Idle? && s.chan != [] ==> InForce(cfg, s.marks, s.cp, s.chan[0])
    ensures s.proc.Running? && s.proc.phase.Published? ==>
              s.cp == s.proc.phase.next
              && (s.proc.phase.finished || (s.cp == s.proc.rs.NewProgress(s.proc.cur) && s.proc.page != []))
    ensures forall m | m in s.marks :: Lt(ZERO, m)
  {
  }

  lemma CoverageStage(cfg: Config, s: State, p: Pos, d: Data, s': State)
    requires Protocol(cfg, s) && Coverage(s) && CutoffsOk(s) && Next(cfg, s, StageRow(p, d), s')
    ensures Coverage(s') && CutoffsOk(s')
  {
    hide Protocol;
    ProtocolFacts(cfg, s);
    hide Protocol, Rest, Behind, StampOk, Next;
    assert s'.log.Keys == s.log.Keys + {p};
    NewRowNotCovered(cfg, s.marks, s.cp, p);
    NewRowNotCovered(cfg, s.marks, s.memo, p);
    if s.proc.Running? {
      NewRowNotCovered(cfg, s.marks, s.proc.rs, p);
      forall x | x in s'.log ensures NothingSkipped(s'.proc, s'.staged, s'.flushed, x) {
        UnreadMonotone(s.proc, s.staged, s'.staged);
        assert x in s.log ==> NothingSkipped(s.proc, s.staged, s.flushed, x);
      }
    }
  }

  lemma NewRowNotCovered(cfg: Config, marks: map<Time, bool>, st: Stamp, p: Pos)
    requires StampOk(cfg, marks, st) && NewestMark(marks, p.time)
    ensures !Covered(st, p) && (st.proposed != ZERO ==> !Le(p.time, st.proposed))
  {
  }

  lemma UnreadMonotone(p: Proc, a: set<Pos>, b: set<Pos>)
    requires p.Running? && a <= b
    ensures Unread(p, a) <= Unread(p, b) && Pending(p, a) <= Pending(p, b)
    ensures Pending(p, b) <= Pending(p, a) + (b - a)
  {
  }

  lemma CoverageDelete(cfg: Config, s: State, step: Step, s': State)
    requires Coverage(s) && CutoffsOk(s) && Next(cfg, s, step, s') && step.DeleteStaged?
    ensures Coverage(s') && CutoffsOk(s')
  {
    hide Rest, Behind;
    if s.proc.Running? {
      forall x | x in s'.log ensures NothingSkipped(s'.proc, s'.staged, s'.flushed, x) {
        UnreadMonotone(s.proc, s'.staged, s.staged);
        assert NothingSkipped(s.proc, s.staged, s.flushed, x);
      }
    }
  }

  predicate OfReader(step: Step) {
    step.Mark? || step.Propose? || step.Resend? || step.Observe? || step.RestartReader?
    || step.SampleRetirement? || step.Restart? || step.Crash?
  }

  // These steps leave the rows alone, keep the processor or stop it, and choose
  // stamp and cut-offs among those at hand.
  lemma ReaderFrame(cfg: Config, s: State, step: Step, s': State)
    requires Next(cfg, s, step, s') && OfReader(step)
    ensures (s'.log, s'.staged, s'.flushed, s'.memo) == (s.log, s.staged, s.flushed, s.memo)
    ensures (s'.target, s'.applied, s'.top) == (s.target, s.applied, s.top)
    ensures (s'.cp, s'.proc) == (s.cp, s.proc) || (s'.cp, s'.proc) == (s.memo, Idle)
    ensures s.marks.Keys <= s'.marks.Keys
    ensures s'.retirements in {s.retirements, s.cp.committed, s.memo.committed, ZERO}
    ensures s'.sample in {s.sample, s.retirements, ZERO}
  {
  }

  lemma CoverageReader(cfg: Config, s: State, step: Step, s': State)
    requires Protocol(cfg, s) && Coverage(s) && CutoffsOk(s) && Next(cfg, s, step, s') && OfReader(step)
    ensures Coverage(s') && CutoffsOk(s')
  {
    hide Protocol, RowsOk, StampCovers, ProcCovers, CutoffOk, Next;
    ProtocolFacts(cfg, s);
    ReaderFrame(cfg, s, step, s');
    CutoffOfStamp(cfg, s.marks, s.log.Keys, s.flushed, s.cp);
    CutoffOfStamp(cfg, s.marks, s.log.Keys, s.flushed, s.memo);
    CutoffZero(s.marks, s.log.Keys, s.flushed);
    CutoffKept(s.marks, s'.marks, s.log.Keys, s.flushed, s'.retirements);
    CutoffKept(s.marks, s'.marks, s.log.Keys, s.flushed, s'.sample);
    NoWindow(s.log.Keys, s.staged, s.flushed);
  }

  lemma CutoffZero(marks: map<Time, bool>, log: set<Pos>, flushed: set<Pos>)
    ensures CutoffOk(marks, log, flushed, ZERO)
  {
  }

  lemma NoWindow(log: set<Pos>, staged: set<Pos>, flushed: set<Pos>)
    ensures ProcCovers(log, staged, flushed, Idle)
  {
  }

  lemma CutoffKept(marks: map<Time, bool>, marks': map<Time, bool>, log: set<Pos>, flushed: set<Pos>, t: Time)
    requires CutoffOk(marks, log, flushed, t) && marks.Keys <= marks'.Keys
    ensures CutoffOk(marks', log, flushed, t)
  {
  }

  lemma CutoffOfStamp(cfg: Config, marks: map<Time, bool>, log: set<Pos>, flushed: set<Pos>, st: Stamp)
    requires StampOk(cfg, marks, st) && StampCovers(log, flushed, st)
    ensures CutoffOk(marks, log, flushed, st.committed)
  {
    hide Rest;
    if st.committed != ZERO {
      forall x | x in log && Le(x.time, st.committed) ensures x in flushed {
        assert Covered(st, x);
      }
    }
  }

  lemma CoverageBegin(cfg: Config, s: State, s': State)
    requires Protocol(cfg, s) && Coverage(s) && CutoffsOk(s) && Next(cfg, s, Begin, s')
    ensures Coverage(s') && CutoffsOk(s')
  {
    hide Protocol;
    ProtocolFacts(cfg, s);
    hide Protocol, Window;
    var rs := s.chan[0];
    forall x | x in s.log ensures NothingSkipped(s'.proc, s'.staged, s'.flushed, x) {
      if Le(x.time, rs.proposed) && x in s.staged && x !in Rest(rs, StartOf(rs), s.staged) {
        RestPointwise(rs, StartOf(rs), s.staged, x);
        NotInStart(rs, x);
        assert Covered(s.cp, x);
      }
    }
  }

  lemma RestPointwise(rs: Stamp, o: Offset, rows: set<Pos>, x: Pos)
    ensures x in Rest(rs, o, rows) <==> x in rows && x in Rest(rs, o, {x})
  {
  }

  // A window without an offset starts at the committed time.
  lemma NotInStart(rs: Stamp, x: Pos)
    ensures rs.offset == NO_OFFSET && Le(ZERO, rs.committed) && Le(x.time, rs.proposed)
            && x !in Rest(rs, StartOf(rs), {x})
            ==> Lt(x.time, rs.committed)
  {
  }

  lemma CoverageReadPage(cfg: Config, s: State, s': State)
    requires Protocol(cfg, s) && Coverage(s) && CutoffsOk(s) && Next(cfg, s, ReadPage, s')
    ensures Coverage(s') && CutoffsOk(s')
  {
    hide Protocol;
    ProtocolFacts(cfg, s);
    hide Protocol, First, Sorted, Window, Pending;
    PageKeepsPending(cfg, s);
    var p, p' := s.proc, s'.proc;
    forall x | x in p'.page ensures x in s.log && x in Rest(p'.rs, p'.cur, {x}) {
      assert x in Elems(p'.page);
      RestPointwise(p.rs, p.cur, s.staged, x);
    }
    hide Rest;
    assert p'.scan.InPage? ==> p'.scan.last in p'.page;
    assert forall x | x in s.log :: NothingSkipped(s.proc, s.staged, s.flushed, x);
  }

  lemma CoverageDeliver(cfg: Config, s: State, s': State)
    requires Coverage(s) && CutoffsOk(s) && Next(cfg, s, Deliver, s')
    ensures Coverage(s') && CutoffsOk(s')
  {
    hide Rest;
    AcceptKeepsPending(s.proc, s.staged);
    assert forall x | x in s.log :: NothingSkipped(s.proc, s.staged, s.flushed, x);
  }

  lemma AcceptKeepsPending(p: Proc, staged: set<Pos>)
    requires p.Running? && p.page != [] && Behind(p)
    ensures Pending(Accept(p), staged) == Pending(p, staged) && Behind(Accept(p))
  {
    hide Rest;
    assert p.page == [p.page[0]] + p.page[1..];
  }

  lemma CoverageEndPage(cfg: Config, s: State, s': State)
    requires Protocol(cfg, s) && Coverage(s) && CutoffsOk(s) && Next(cfg, s, EndPage, s')
    ensures Coverage(s') && CutoffsOk(s')
  {
    hide Protocol;
    assert Pending(s'.proc, s'.staged) == Pending(s.proc, s.staged);
    assert forall x | x in s.log :: NothingSkipped(s.proc, s.staged, s.flushed, x);
  }

  lemma CoverageCommit(cfg: Config, s: State, step: Step, s': State)
    requires Coverage(s) && CutoffsOk(s) && Next(cfg, s, step, s') && (step.Commit? || step.Record?)
    ensures Coverage(s') && CutoffsOk(s')
  {
    hide Rest;
    assert forall x | x in s.log :: NothingSkipped(s.proc, s.staged, s.flushed, x);
  }

  lemma CoveragePublish(cfg: Config, s: State, s': State)
    requires Protocol(cfg, s) && Coverage(s) && CutoffsOk(s) && Next(cfg, s, Publish, s')
    ensures Coverage(s') && CutoffsOk(s')
  {
    hide Protocol;
    ProtocolFacts(cfg, s);
    hide Protocol, Rest;
    var p, next := s.proc, s'.cp;
    forall x | x in s.log && Covered(next, x) ensures x in s.flushed {
      assert NothingSkipped(s.proc, s.staged, s.flushed, x);
      if p.phase.Flushed? {
        if p.rs.committed != ZERO && Le(x.time, p.rs.committed) {
          assert Covered(s.cp, x);
        } else {
          ProgressCovers(p, s.staged, x);
        }
      }
    }
    assert forall x | x in s.log :: NothingSkipped(s.proc, s.staged, s.flushed, x);
  }

  lemma CoveragePersist(cfg: Config, s: State, s': State)
    requires Protocol(cfg, s) && Coverage(s) && CutoffsOk(s) && Next(cfg, s, Persist, s')
    ensures Coverage(s') && CutoffsOk(s')
  {
    hide Protocol;
    ProtocolFacts(cfg, s);
    hide Protocol, Window, StampOk;
    var p := s.proc;
    if !p.phase.finished {
      var q := p.(rs := p.phase.next, phase := Scanning);
      SameWindow(p, p.phase.next, s.staged);
      AcceptKeepsPending(q, s.staged);
    }
    hide Rest, Pending;
    assert s.proc.Running? ==> forall x | x in s.log :: NothingSkipped(s.proc, s.staged, s.flushed, x);
  }

  lemma SameWindow(p: Proc, rs: Stamp, staged: set<Pos>)
    requires p.Running? && (rs.backfill, rs.committed, rs.proposed) == (p.rs.backfill, p.rs.committed, p.rs.proposed)
    ensures var q := p.(rs := rs, phase := Scanning);
            Pending(q, staged) == Pending(p, staged) && (Behind(p) ==> Behind(q))
  {
    hide Window;
    assert forall o, rows :: Rest(rs, o, rows) == Rest(p.rs, o, rows);
  }

  lemma SafeStep(cfg: Config, s: State, step: Step, s': State)
    requires Safe(cfg, s) && Next(cfg, s, step, s')
    ensures Safe(cfg, s')
  {
    ProtocolStep(cfg, s, step, s');
    hide Next, Protocol, Coverage, CutoffOk;
    match step
    case StageRow(p, d) => CoverageStage(cfg, s, p, d, s');
    case Mark(_) => CoverageReader(cfg, s, step, s');
    case Propose(_, _) => CoverageReader(cfg, s, step, s');
    case Resend => CoverageReader(cfg, s, step, s');
    case Observe => CoverageReader(cfg, s, step, s');
    case RestartReader => CoverageReader(cfg, s, step, s');
    case Begin => CoverageBegin(cfg, s, s');
    case ReadPage => CoverageReadPage(cfg, s, s');
    case Deliver => CoverageDeliver(cfg, s, s');
    case EndPage => CoverageEndPage(cfg, s, s');
    case Commit(_, _, _) => CoverageCommit(cfg, s, step, s');
    case Record => CoverageCommit(cfg, s, step, s');
    case Publish => CoveragePublish(cfg, s, s');
    case Persist => CoveragePersist(cfg, s, s');
    case SampleRetirement => CoverageReader(cfg, s, step, s');
    case DeleteStaged(_, _, _) => CoverageDelete(cfg, s, step, s');
    case Restart => CoverageReader(cfg, s, step, s');
    case Crash => CoverageReader(cfg, s, step, s');
  }

  lemma {:induction false} SafeAlways(cfg: Config, s: State, run: seq<Event>, i: nat)
    requires IsRun(cfg, s, run) && i <= |run|
    ensures Safe(cfg, StateAt(s, run, i))
  {
    hide Next, Safe;
    if i == 0 {
      SafeInit(cfg, s);
    } else {
      SafeAlways(cfg, s, run, i - 1);
      SafeStep(cfg, StateAt(s, run, i - 1), run[i - 1].step, run[i - 1].after);
    }
  }

  // What a window opens on: the staged rows between its times that come after the
  // offset of its stamp, or after its committed time if that is later.
  lemma WindowOpensAfterOffset(cfg: Config, s: State, s': State, y: Pos)
    requires Safe(cfg, s) && Next(cfg, s, Begin, s')
    ensures s'.proc.Running? && s'.proc.rs == s.chan[0]
    ensures var rs := s'.proc.rs;
            var from := if Earlier(rs.offset.time, rs.committed) then rs.committed else rs.offset.time;
            y in Pending(s'.proc, s'.staged) <==>
              && y in s.staged && !Earlier(y.time, rs.committed) && !Earlier(rs.proposed, y.time)
              && if rs.offset.table.Some? then Precedes(rs.backfill, Pos(rs.offset.table.value, from, rs.offset.key), y)
                 else rs.backfill || !Earlier(y.time, from)
  {
    hide Safe;
    var rs := s.chan[0];
    if rs.offset.table.Some? {
      PrecedesIff(rs.backfill, Pos(rs.offset.table.value, StartOf(rs).time, rs.offset.key), y);
    }
    hide Precedes;
  }

  // A restart resumes from the stored stamp, and deletes up to its committed time.
  lemma RestartsFromStored(cfg: Config, s: State, step: Step, s': State)
    requires Next(cfg, s, step, s') && (step.Restart? || step.Crash?)
    ensures s'.memo == s.memo && s'.cp == s.memo && s'.resumeFrom == Some(s.memo) && s'.seen == s'.version
    ensures s'.chan == [] && s'.proc.Idle?
    ensures s.memo.committed != ZERO ==> s'.retirements == s.memo.committed
  {
  }

  // In every reachable state, a row that the stored checkpoint passes over, or
  // that retirement has deleted, was part of a committed flush.
  lemma CheckpointAndRetirementSafe(cfg: Config, s: State, run: seq<Event>, i: nat, x: Pos)
    requires IsRun(cfg, s, run) && i <= |run|
    requires x in StateAt(s, run, i).log
    ensures var now := StateAt(s, run, i);
            && (Covered(now.memo, x) ==> x in now.flushed)
            && (Covered(now.cp, x) ==> x in now.flushed)
            && (x !in now.staged ==> x in now.flushed)
  {
    SafeAlways(cfg, s, run, i);
  }
}
