/** Where the resolver is in time: what has been flushed ends at the latest window,
    the open window starts where its stamp says, and the next one is known. */
module ResolverBounds {
  import opened Hlc
  import opened Scan
  import opened Wrappers
  import opened ResolvedStamp
  import opened Resolver
  import opened ResolverProtocol
  import opened ResolverCoverage
  import opened ResolverTarget
  import opened ResolverTimestamps

  // What is shown was flushed by a window that ended by top.
  predicate AppliedOk(marks: map<Time, bool>, applied: map<RowKey, Time>, top: Time) {
    && (top == ZERO || top in marks)
    && forall k | k in applied :: top in marks && Le(applied[k], top)
  }

  // What was flushed lies at or before top, and its keys have been shown.
  predicate FlushedOk(marks: map<Time, bool>, flushed: set<Pos>, applied: map<RowKey, Time>, top: Time) {
    forall x | x in flushed :: top in marks && Le(x.time, top) && KeyOf(x) in applied
  }

  // The next window to start from st reaches at least to top.
  predicate ReachesTop(marks: map<Time, bool>, st: Stamp, top: Time) {
    if st.proposed != ZERO then Le(top, st.proposed)
    else forall m | m in marks && !marks[m] && Le(st.committed, m) :: Le(top, m)
  }

  predicate WindowBounds(p: Proc, staged: set<Pos>, top: Time) {
    p.Running? ==>
      && Le(top, p.rs.proposed) && (p.phase != Scanning ==> top == p.rs.proposed)
      && Le(StartOf(p.rs).time, p.cur.time) && Le(p.cur.time, p.rs.proposed)
      && forall y | y in Pending(p, staged) :: Le(StartOf(p.rs).time, y.time)
  }

  // The window has not been recorded as applied.
  predicate Unfinished(p: Proc) {
    p.Running? && !p.phase.Recorded? && !(p.phase.Published? && p.phase.finished)
  }

  // The open window, and the one about to open, are those that the stored stamp
  // and the marks call for.
  ghost predicate Selected(s: State) {
    && (s.chan != [] && s.cp.proposed == ZERO ==> SelectsTimestamp(s.marks, s.cp.committed, s.chan[0].proposed))
    && (Unfinished(s.proc) ==>
          && s.proc.rs.committed == s.memo.committed && StartOf(s.proc.rs).time == StartOf(s.memo).time
          && if s.memo.proposed != ZERO then s.proc.rs.proposed == s.memo.proposed
             else SelectsTimestamp(s.marks, s.memo.committed, s.proc.rs.proposed))
  }

  ghost predicate Bounds(s: State) {
    && FlushedOk(s.marks, s.flushed, s.applied, s.top)
    && AppliedOk(s.marks, s.applied, s.top)
    && ReachesTop(s.marks, s.cp, s.top) && ReachesTop(s.marks, s.memo, s.top)
    && (s.chan != [] ==> Le(s.top, s.chan[0].proposed))
    && Le(StartOf(s.memo).time, s.top)
    && WindowBounds(s.proc, s.staged, s.top)
  }

  ghost predicate Bounded(cfg: Config, s: State) {
    cfg.transactional && Safe(cfg, s) && TidyState(s) && Bounds(s) && Selected(s) && Renders(s.target, s.log, s.applied)
  }

  lemma StartAtLeastCommitted(st: Stamp)
    ensures Le(st.committed, StartOf(st).time)
  {
  }

  lemma SameStart(cfg: Config, marks: map<Time, bool>, cp: Stamp, x: Stamp)
    requires InForce(cfg, marks, cp, x) && Le(ZERO, cp.committed) && (cp.proposed == ZERO ==> cp.offset == NO_OFFSET)
    ensures StartOf(x).time == StartOf(cp).time && x.committed == cp.committed
  {
  }

  // ---- Steps outside the window ----

  lemma BoundsStage(cfg: Config, s: State, p: Pos, d: Data, s': State)
    requires Bounded(cfg, s) && Next(cfg, s, StageRow(p, d), s')
    ensures Bounds(s') && Selected(s') && Renders(s'.target, s'.log, s'.applied)
  {
    hide Protocol, Coverage;
    ProtocolFacts(cfg, s);
    RendersStage(s, p, d);
    hide Renders, AppliedOk, ReachesTop, StartOf;
    if s.proc.Running? {
      UnreadStage(s.proc, s.staged, p);
      hide Unread;
    }
  }

  lemma RendersStage(s: State, p: Pos, d: Data)
    requires Renders(s.target, s.log, s.applied) && AppliedOk(s.marks, s.applied, s.top) && NewestMark(s.marks, p.time)
    ensures Renders(s.target, s.log[p := d], s.applied)
  {
    assert forall k | k in s.applied :: RowAt(k, s.applied[k]) != p;
  }

  lemma BoundsMark(cfg: Config, s: State, t: Time, s': State)
    requires Bounded(cfg, s) && Next(cfg, s, Mark(t), s')
    ensures Bounds(s') && Selected(s')
  {
    hide Safe, Renders, TidyState, StartOf, WindowBounds;
  }

  lemma BoundsReader(cfg: Config, s: State, step: Step, s': State)
    requires Bounded(cfg, s) && Next(cfg, s, step, s')
    requires step.Propose? || step.Resend? || step.Observe? || step.RestartReader? || step.SampleRetirement?
    ensures Bounds(s') && Selected(s')
  {
    hide Coverage, CutoffsOk, Renders, TidyState, StartOf, WindowBounds, AppliedOk;
  }

  lemma BoundsRestart(cfg: Config, s: State, step: Step, s': State)
    requires Bounded(cfg, s) && Next(cfg, s, step, s') && (step.Restart? || step.Crash?)
    ensures Bounds(s') && Selected(s')
  {
    hide Safe, Renders, TidyState, StartOf, AppliedOk, ReachesTop;
  }

  lemma BoundsDelete(cfg: Config, s: State, step: Step, s': State)
    requires Bounded(cfg, s) && Next(cfg, s, step, s') && step.DeleteStaged?
    ensures Bounds(s') && Selected(s')
  {
    hide Safe, Renders, TidyState, StartOf, AppliedOk, ReachesTop;
    if s.proc.Running? {
      UnreadDelete(s.proc, s.staged, step.rows);
      hide Unread;
    }
  }

  // ---- The scan ----

  lemma BoundsBegin(cfg: Config, s: State, s': State)
    requires Bounded(cfg, s) && Next(cfg, s, Begin, s')
    ensures Bounds(s') && Selected(s')
  {
    assert s.memo == s.cp;
    hide Protocol;
    ProtocolFacts(cfg, s);
    var rs := s.chan[0];
    SameStart(cfg, s.marks, s.cp, rs);
    BeginReads(cfg, s, rs);
    hide Rest, StartOf, Coverage, CutoffsOk, Renders, AppliedOk, ReachesTop, TidyState;
    assert Pending(s'.proc, s'.staged) == Rest(rs, StartOf(rs), s.staged);
  }

  // A window reads all staged rows between its start and its end.
  lemma BeginReads(cfg: Config, s: State, rs: Stamp)
    requires cfg.transactional && StampOk(cfg, s.marks, rs)
    ensures forall x :: x in Rest(rs, StartOf(rs), s.staged)
                        <==> x in s.staged && Le(StartOf(rs).time, x.time) && Le(x.time, rs.proposed)
  {
    forall x ensures x in Rest(rs, StartOf(rs), s.staged)
                     <==> x in s.staged && Le(StartOf(rs).time, x.time) && Le(x.time, rs.proposed)
    {
      RestPointwise(rs, StartOf(rs), s.staged, x);
      StartWindow(rs, x);
    }
  }

  lemma BoundsReadPage(cfg: Config, s: State, s': State)
    requires Bounded(cfg, s) && Next(cfg, s, ReadPage, s')
    ensures Bounds(s') && Selected(s')
  {
    hide Protocol;
    ProtocolFacts(cfg, s);
    PageKeepsPending(cfg, s);
    hide Coverage, CutoffsOk, Renders, AppliedOk, ReachesTop, TidyState, Rest, First, Pending, StartOf;
  }

  lemma BoundsDeliver(cfg: Config, s: State, s': State)
    requires Bounded(cfg, s) && Next(cfg, s, Deliver, s')
    ensures Bounds(s') && Selected(s')
  {
    hide Protocol;
    AcceptKeepsPending(s.proc, s.staged);
    hide Coverage, CutoffsOk, Renders, AppliedOk, ReachesTop, TidyState, Pending, StartOf;
  }

  lemma BoundsEndPage(cfg: Config, s: State, s': State)
    requires Bounded(cfg, s) && Next(cfg, s, EndPage, s')
    ensures Bounds(s') && Selected(s')
  {
    hide Protocol;
    ProtocolFacts(cfg, s);
    assert Unread(s'.proc, s'.staged) == Unread(s.proc, s.staged);
    hide Unread, CutoffsOk, Renders, AppliedOk, ReachesTop, TidyState;
  }

  // ---- The flush and the checkpoint ----

  lemma BoundsCommit(cfg: Config, s: State, step: Step, s': State)
    requires Bounded(cfg, s) && Next(cfg, s, step, s') && step.Commit?
    ensures Bounds(s') && Selected(s') && Renders(s'.target, s'.log, s'.applied)
  {
    hide Protocol, Next, Coverage, CutoffsOk;
    CommitFrame(cfg, s, step, s');
    ProtocolFacts(cfg, s);
    ApplyRenders(s.target, s.log, s.applied, s.proc.batch);
    BatchBounds(s);
    CommitApplied(s);
    hide Renders, AppliedOk, FlushedOk, StartOf, Apply, Touch, Rest, TidyState;
    assert Unread(s'.proc, s'.staged) == Unread(s.proc, s.staged);
    hide Unread;
  }

  // What a flush changes; in the transactional mode that is determined.
  lemma CommitFrame(cfg: Config, s: State, step: Step, s': State)
    requires cfg.transactional && Protocol(cfg, s) && Next(cfg, s, step, s') && step.Commit?
    ensures Scans(s) && s.memo == s.cp && s.chan == [] && !s.proc.rs.backfill && s.proc.batch <= s.log.Keys
    ensures if step.final then s.proc.scan.Exhausted? && s.proc.page == []
            else s.proc.page != [] && NeedsFlush(cfg, s.proc, s.proc.page[0])
    ensures s' == s.(target := Apply(s.target, s.log, s.proc.batch), applied := Touch(s.applied, s.proc.batch),
                     flushed := s.flushed + s.proc.batch, top := Max(s.top, s.proc.rs.proposed),
                     proc := s.proc.(batch := {}, counter := 0, phase := Flushed(step.final)))
  {
    hide Apply, Touch;
  }

  lemma BatchBounds(s: State)
    requires s.proc.Running? && !s.proc.rs.backfill && TidyState(s)
    ensures forall y | y in s.proc.batch :: Le(y.time, s.proc.rs.proposed)
  {
  }

  lemma CommitApplied(s: State)
    requires s.proc.Running? && AppliedOk(s.marks, s.applied, s.top) && s.proc.rs.proposed in s.marks
    requires FlushedOk(s.marks, s.flushed, s.applied, s.top)
    requires Le(s.top, s.proc.rs.proposed) && forall y | y in s.proc.batch :: Le(y.time, s.proc.rs.proposed)
    ensures AppliedOk(s.marks, Touch(s.applied, s.proc.batch), s.proc.rs.proposed)
    ensures FlushedOk(s.marks, s.flushed + s.proc.batch, Touch(s.applied, s.proc.batch), s.proc.rs.proposed)
  {
    assert forall y | y in s.proc.batch :: KeyOf(y) in Keys(s.proc.batch);
  }

  lemma BoundsRecord(cfg: Config, s: State, s': State)
    requires Bounded(cfg, s) && Next(cfg, s, Record, s')
    ensures Bounds(s') && Selected(s')
  {
    assert s.chan == [];
    hide Protocol;
    ProtocolFacts(cfg, s);
    hide Coverage, CutoffsOk, Renders, StartOf, TidyState, Rest;
    assert Unread(s'.proc, s'.staged) == Unread(s.proc, s.staged);
    hide Unread;
  }

  lemma BoundsPublish(cfg: Config, s: State, s': State)
    requires Bounded(cfg, s) && Next(cfg, s, Publish, s')
    ensures Bounds(s') && Selected(s')
  {
    assert s.chan == [];
    hide Protocol;
    ProtocolFacts(cfg, s);
    hide Coverage, CutoffsOk, Renders, StartOf, TidyState, Rest, AppliedOk;
    assert Unread(s'.proc, s'.staged) == Unread(s.proc, s.staged);
    hide Unread;
  }

  lemma BoundsPersist(cfg: Config, s: State, s': State)
    requires Bounded(cfg, s) && Next(cfg, s, Persist, s')
    ensures Bounds(s') && Selected(s')
  {
    hide Protocol, Coverage, CutoffsOk, Renders, AppliedOk, TidyState;
    ProtocolFacts(cfg, s);
    PersistFrame(cfg, s, s');
    hide Next, Safe;
    if s.proc.phase.finished {
      PersistIsCommitted(cfg, s);
    } else {
      InterimWindow(s);
      hide Pending, Behind;
    }
  }

  lemma PersistFrame(cfg: Config, s: State, s': State)
    requires Protocol(cfg, s) && Coverage(s) && Next(cfg, s, Persist, s')
    ensures s.proc.Running? && s.proc.phase.Published? && s.cp == s.proc.phase.next && Behind(s.proc)
    ensures s' == s.(memo := s.cp, proc := if s.proc.phase.finished then Idle
                                           else Accept(s.proc.(rs := s.cp, phase := Scanning)))
    ensures !s.proc.phase.finished ==> s.proc.page != [] && s.cp == s.proc.rs.NewProgress(s.proc.cur)
  {
    hide Protocol;
    ProtocolFacts(cfg, s);
  }

  lemma PersistIsCommitted(cfg: Config, s: State)
    requires Protocol(cfg, s) && s.proc.Running? && s.proc.phase.Published? && s.proc.phase.finished
    ensures Ok(s.proc.phase.next) == s.proc.rs.NewCommitted()
  {
  }

  // The window of a progress stamp starts where the cursor is.
  lemma InterimWindow(s: State)
    requires s.proc.Running? && Behind(s.proc) && !s.proc.rs.backfill && s.proc.batch == {} && s.proc.page != []
    requires WindowBounds(s.proc, s.staged, s.top)
    ensures var next := s.proc.rs.NewProgress(s.proc.cur);
            && StartOf(next).time == s.proc.cur.time
            && WindowBounds(Accept(s.proc.(rs := next, phase := Scanning)), s.staged, s.top)
  {
    var p, next := s.proc, s.proc.rs.NewProgress(s.proc.cur);
    var q := p.(rs := next, phase := Scanning);
    SameWindow(p, next, s.staged);
    AcceptKeepsPending(q, s.staged);
    forall y | y in Pending(p, s.staged) ensures Le(StartOf(next).time, y.time) {
      PendingBehind(p, s.staged, y);
    }
    hide Rest, Unread, Pending;
  }

  // ---- In every run ----

  lemma RendersKept(cfg: Config, s: State, step: Step, s': State)
    requires Next(cfg, s, step, s') && !step.StageRow? && !step.Commit?
    ensures s'.target == s.target && s'.log == s.log && s'.applied == s.applied
  {
  }

  lemma BoundsStep(cfg: Config, s: State, step: Step, s': State)
    requires Bounded(cfg, s) && Next(cfg, s, step, s')
    ensures Bounds(s') && Selected(s') && Renders(s'.target, s'.log, s'.applied)
  {
    assert Renders(s.target, s.log, s.applied);
    hide Next, Bounded, Bounds, Selected, Renders;
    if !step.StageRow? && !step.Commit? {
      RendersKept(cfg, s, step, s');
    }
    match step
    case StageRow(p, d) => BoundsStage(cfg, s, p, d, s');
    case Mark(t) => BoundsMark(cfg, s, t, s');
    case Begin => BoundsBegin(cfg, s, s');
    case ReadPage => BoundsReadPage(cfg, s, s');
    case Deliver => BoundsDeliver(cfg, s, s');
    case EndPage => BoundsEndPage(cfg, s, s');
    case Commit(_, _, _) => BoundsCommit(cfg, s, step, s');
    case Record => BoundsRecord(cfg, s, s');
    case Publish => BoundsPublish(cfg, s, s');
    case Persist => BoundsPersist(cfg, s, s');
    case DeleteStaged(_, _, _) => BoundsDelete(cfg, s, step, s');
    case Restart => BoundsRestart(cfg, s, step, s');
    case Crash => BoundsRestart(cfg, s, step, s');
    case _ => BoundsReader(cfg, s, step, s');
  }

  lemma BoundsInit(s: State)
    requires Init(s)
    ensures Bounds(s) && Selected(s) && Renders(s.target, s.log, s.applied)
  {
  }

  lemma {:induction false} BoundedAlways(cfg: Config, s: State, run: seq<Event>, i: nat)
    requires cfg.transactional && IsRun(cfg, s, run) && i <= |run|
    ensures Bounded(cfg, StateAt(s, run, i))
  {
    hide Next, Safe, TidyState, Bounds, Selected, Renders;
    SafeAlways(cfg, s, run, i);
    TidyAlways(cfg, s, run, i);
    if i == 0 {
      BoundsInit(s);
    } else {
      BoundedAlways(cfg, s, run, i - 1);
      BoundsStep(cfg, StateAt(s, run, i - 1), run[i - 1].step, run[i - 1].after);
    }
  }
}
