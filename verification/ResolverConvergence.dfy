/** Convergence of the transactional mode: whenever a window is reported committed
    the target is what replaying the log once, in time order, would have produced,
    whatever was flushed, re-read, re-applied, retired or crashed on the way, as
    long as every deletion is harmless. */
module ResolverConvergence {
  import opened Hlc
  import opened Scan
  import opened ResolvedStamp
  import opened Resolver
  import opened ResolverProtocol
  import opened ResolverCoverage
  import opened ResolverTarget
  import opened ResolverTimestamps
  import opened ResolverBounds

  // ---- The invariant, row by row ----

  predicate Older(y: Pos, x: Pos) {
    KeyOf(y) == KeyOf(x) && Lt(y.time, x.time)
  }

  // No row of its key up to the given time is newer.
  predicate NewestUpTo(log: set<Pos>, end: Time, x: Pos) {
    && x in log && Le(x.time, end)
    && forall z | z in log && KeyOf(z) == KeyOf(x) && Le(z.time, end) :: Le(z.time, x.time)
  }

  // A replay of the stored stamp will read it.
  predicate Waiting(staged: set<Pos>, low: Time, committed: Time, x: Pos) {
    x in staged && Le(low, x.time) && (committed == ZERO || Lt(committed, x.time))
  }

  // It is shown, and neither a replay nor a flush can take its key back to an
  // older row: no older one will be read again, and one that has been read is
  // flushed together with it.
  predicate Settled(staged: set<Pos>, applied: map<RowKey, Time>, pending: set<Pos>, epoch: Time, low: Time, x: Pos) {
    && Shown(applied, x)
    && (forall y | y in staged && Older(y, x) :: Lt(y.time, low))
    && (forall y | y in pending && Older(y, x) :: x in pending && Le(x.time, epoch))
  }

  predicate Sound(log: set<Pos>, staged: set<Pos>, applied: map<RowKey, Time>, pending: set<Pos>, epoch: Time,
                  low: Time, committed: Time, end: Time) {
    forall x | x in log && NewestUpTo(log, end, x) ::
      Waiting(staged, low, committed, x) || Settled(staged, applied, pending, epoch, low, x)
  }

  // Flushing what is pending leaves every key at its newest row.
  predicate EndsWell(log: set<Pos>, applied: map<RowKey, Time>, pending: set<Pos>, end: Time) {
    forall x | x in log && NewestUpTo(log, end, x) ::
      x in pending || (Shown(applied, x) && forall y | y in pending :: KeyOf(y) != KeyOf(x))
  }

  function PendingOf(p: Proc, staged: set<Pos>): set<Pos> {
    if p.Running? then Pending(p, staged) else {}
  }

  function EpochOf(p: Proc): Time {
    if p.Running? then p.epoch else ZERO
  }

  // The end of the next window to be read from the stored stamp, as far as it is
  // known; otherwise the end of the latest.
  ghost function Horizon(marks: map<Time, bool>, memo: Stamp, top: Time): Time {
    if memo.proposed != ZERO then memo.proposed
    else if exists m :: SelectsTimestamp(marks, memo.committed, m) then
      var m :| SelectsTimestamp(marks, memo.committed, m);
      m
    else top
  }

  ghost function HorizonOf(s: State): Time {
    Horizon(s.marks, s.memo, s.top)
  }

  ghost predicate SoundState(s: State) {
    Sound(s.log.Keys, s.staged, s.applied, PendingOf(s.proc, s.staged), EpochOf(s.proc), StartOf(s.memo).time,
          s.memo.committed,
          HorizonOf(s))
  }

  ghost predicate WindowEndsWell(s: State) {
    s.proc.Running? ==> EndsWell(s.log.Keys, s.applied, Pending(s.proc, s.staged), s.proc.rs.proposed)
  }

  ghost predicate Converging(cfg: Config, s: State) {
    Bounded(cfg, s) && SoundState(s) && WindowEndsWell(s)
  }

  // ---- When a DELETE is harmless ----

  // The rows of the open window that have been read and not flushed.
  function Read(p: Proc): set<Pos> {
    if p.Running? then p.batch + Elems(p.page) else {}
  }

  // A row that may be deleted although it is the newest of its key: it is shown,
  // and older rows of its key that have been read are flushed together with it.
  predicate NotNeeded(s: State, d: Pos) {
    && Shown(s.applied, d)
    && forall y | y in Read(s.proc) && Older(y, d) :: d in Read(s.proc) && Le(d.time, s.proc.epoch)
  }

  ghost predicate Harmless(s: State, step: Step) {
    step.DeleteStaged? ==> forall d | d in step.rows && NewestUpTo(s.log.Keys, HorizonOf(s), d) :: NotNeeded(s, d)
  }

  // ---- The horizon ----

  lemma HorizonFacts(marks: map<Time, bool>, memo: Stamp, top: Time)
    requires ReachesTop(marks, memo, top)
    ensures Le(top, Horizon(marks, memo, top))
    ensures memo.proposed == ZERO ==>
              forall m | SelectsTimestamp(marks, memo.committed, m) :: Horizon(marks, memo, top) == m
  {
  }

  // An unfinished window ends at the horizon.
  lemma UnfinishedHorizon(s: State)
    requires Bounds(s) && Selected(s) && Unfinished(s.proc)
    ensures HorizonOf(s) == s.proc.rs.proposed
  {
    HorizonFacts(s.marks, s.memo, s.top);
  }

  // Rows that are not staged any more lie at or before top.
  lemma DeletedByTop(cfg: Config, s: State, x: Pos)
    requires Bounded(cfg, s) && x in s.log && Lt(s.top, x.time)
    ensures x in s.staged
  {
  }

  // Moving the end on only adds rows that wait to be read.
  lemma SoundLater(log: set<Pos>, staged: set<Pos>, applied: map<RowKey, Time>, pending: set<Pos>, epoch: Time,
                   low: Time, committed: Time, end: Time, later: Time)
    requires Sound(log, staged, applied, pending, epoch, low, committed, end) && Le(end, later)
    requires Le(low, end) && Le(committed, low) && forall x | x in log && Lt(end, x.time) :: x in staged
    ensures Sound(log, staged, applied, pending, epoch, low, committed, later)
  {
    forall x | x in log && NewestUpTo(log, later, x)
      ensures Waiting(staged, low, committed, x) || Settled(staged, applied, pending, epoch, low, x)
    {
      if Le(x.time, end) {
        assert NewestUpTo(log, end, x);
      }
    }
  }

  // ---- The steps ----

  lemma SoundStage(cfg: Config, s: State, p: Pos, d: Data, s': State)
    requires Converging(cfg, s) && Next(cfg, s, StageRow(p, d), s')
    ensures SoundState(s') && WindowEndsWell(s')
  {
    BeyondHorizon(cfg, s, p.time);
    ProtocolFacts(cfg, s);
    assert s'.log.Keys == s.log.Keys + {p} && s'.staged == s.staged + {p};
    assert HorizonOf(s') == HorizonOf(s);
    assert s'.proc == s.proc && s'.memo == s.memo && s'.applied == s.applied;
    if s.proc.Running? {
      UnreadStage(s.proc, s.staged, p);
    }
    hide Next, Converging, Unread, Horizon, StartOf, Shown;
    StageKeepsSound(s.log.Keys, s.staged, s.applied, PendingOf(s.proc, s.staged), EpochOf(s.proc), StartOf(s.memo).time,
                    s.memo.committed, HorizonOf(s), p);
    if s.proc.Running? {
      StageKeepsEnd(s.log.Keys, s.applied, Pending(s.proc, s.staged), s.proc.rs.proposed, p);
    }
  }

  // A row that can still be staged lies beyond the horizon.
  lemma BeyondHorizon(cfg: Config, s: State, t: Time)
    requires Bounded(cfg, s) && NewestMark(s.marks, t) && Le(ZERO, t)
    ensures Le(HorizonOf(s), t) && (Le(t, HorizonOf(s)) ==> Le(StartOf(s.memo).time, t) && s.memo.committed == ZERO)
  {
    hide Coverage, CutoffsOk, Renders, TidyState, StartOf, WindowBounds;
    ProtocolFacts(cfg, s);
    StartAtLeastCommitted(s.memo);
  }

  lemma StageKeepsSound(log: set<Pos>, staged: set<Pos>, applied: map<RowKey, Time>, pending: set<Pos>, epoch: Time,
                        low: Time, committed: Time, end: Time, p: Pos)
    requires Sound(log, staged, applied, pending, epoch, low, committed, end)
    requires Le(end, p.time) && (Le(p.time, end) ==> Waiting(staged + {p}, low, committed, p))
    ensures Sound(log + {p}, staged + {p}, applied, pending, epoch, low, committed, end)
  {
    forall x | x in log + {p} && NewestUpTo(log + {p}, end, x)
      ensures Waiting(staged + {p}, low, committed, x) || Settled(staged + {p}, applied, pending, epoch, low, x)
    {
      if x in log {
        assert NewestUpTo(log, end, x);
      }
    }
  }

  lemma StageKeepsEnd(log: set<Pos>, applied: map<RowKey, Time>, pending: set<Pos>, end: Time, p: Pos)
    requires EndsWell(log, applied, pending, end) && !Le(p.time, end)
    ensures EndsWell(log + {p}, applied, pending, end)
  {
    forall x | x in log + {p} && NewestUpTo(log + {p}, end, x) ensures x in log && NewestUpTo(log, end, x) {
    }
  }

  lemma LowFacts(cfg: Config, s: State)
    requires Bounded(cfg, s)
    ensures Le(s.memo.committed, StartOf(s.memo).time) && Le(StartOf(s.memo).time, s.top) && Le(s.top, HorizonOf(s))
    ensures forall x | x in s.log && Lt(s.top, x.time) :: x in s.staged
  {
    hide TidyState, Renders, WindowBounds;
    HorizonFacts(s.marks, s.memo, s.top);
    hide Safe;
    forall x | x in s.log && Lt(s.top, x.time) ensures x in s.staged {
      DeletedByTop(cfg, s, x);
    }
  }

  // A later horizon, over an unchanged window.
  lemma SoundMoves(cfg: Config, s: State, s': State)
    requires Converging(cfg, s) && Le(HorizonOf(s), HorizonOf(s')) && s'.log == s.log && s'.staged == s.staged
    requires s'.applied == s.applied && s'.memo == s.memo && EpochOf(s'.proc) == EpochOf(s.proc)
    requires PendingOf(s'.proc, s'.staged) == PendingOf(s.proc, s.staged)
    ensures SoundState(s')
  {
    LowFacts(cfg, s);
    hide Bounded, Horizon, StartOf, WindowEndsWell, Sound, PendingOf;
    SoundLater(s.log.Keys, s.staged, s.applied, PendingOf(s.proc, s.staged), EpochOf(s.proc), StartOf(s.memo).time,
               s.memo.committed, HorizonOf(s), HorizonOf(s'));
  }

  lemma SoundMark(cfg: Config, s: State, t: Time, s': State)
    requires Converging(cfg, s) && Next(cfg, s, Mark(t), s')
    ensures SoundState(s') && WindowEndsWell(s')
  {
    MarkHorizon(cfg, s, t, s');
    SameButMarks(cfg, s, t, s');
    hide Next, Converging, HorizonOf;
    SoundMoves(cfg, s, s');
    assert WindowEndsWell(s) by { ConvergingParts(cfg, s); }
  }

  lemma ConvergingParts(cfg: Config, s: State)
    requires Converging(cfg, s)
    ensures Bounded(cfg, s) && SoundState(s) && WindowEndsWell(s)
  {
  }

  lemma SameButMarks(cfg: Config, s: State, t: Time, s': State)
    requires Next(cfg, s, Mark(t), s')
    ensures s' == s.(marks := s'.marks)
  {
  }

  lemma MarkHorizon(cfg: Config, s: State, t: Time, s': State)
    requires Bounded(cfg, s) && Next(cfg, s, Mark(t), s')
    ensures Le(HorizonOf(s), HorizonOf(s'))
  {
    BoundsMark(cfg, s, t, s');
    SameButMarks(cfg, s, t, s');
    hide Bounded, WindowBounds, StartOf, AppliedOk, Next;
    HorizonFacts(s.marks, s.memo, s.top) by { assert Bounds(s) by { BoundedParts(cfg, s); } }
    HorizonFacts(s'.marks, s'.memo, s'.top);
    if m :| SelectsTimestamp(s.marks, s.memo.committed, m) {
      assert SelectsTimestamp(s'.marks, s.memo.committed, m) by { StillSelected(cfg, s, t, s', m); }
    }
  }

  lemma BoundedParts(cfg: Config, s: State)
    requires Bounded(cfg, s)
    ensures Bounds(s) && Selected(s)
  {
  }

  lemma StillSelected(cfg: Config, s: State, t: Time, s': State, m: Time)
    requires Next(cfg, s, Mark(t), s') && SelectsTimestamp(s.marks, s.memo.committed, m)
    ensures SelectsTimestamp(s'.marks, s.memo.committed, m)
  {
  }

  // Steps of the reader, a restart and a crash leave the databases alone.
  lemma SoundReader(cfg: Config, s: State, step: Step, s': State)
    requires Converging(cfg, s) && Next(cfg, s, step, s') && OfReader(step) && !step.Mark?
    ensures SoundState(s') && WindowEndsWell(s')
  {
    hide Next, Converging, HorizonOf, StartOf, Pending, EndsWell, Sound;
    ConvergingParts(cfg, s);
    ReaderFrame(cfg, s, step, s');
    MarksSame(cfg, s, step, s');
    SameHorizon(s, s');
    WindowDropped(s.log.Keys, s.staged, s.applied, PendingOf(s.proc, s.staged), EpochOf(s.proc), StartOf(s.memo).time,
                  s.memo.committed, HorizonOf(s));
  }

  lemma MarksSame(cfg: Config, s: State, step: Step, s': State)
    requires Next(cfg, s, step, s') && OfReader(step) && !step.Mark?
    ensures s'.marks == s.marks
  {
  }

  lemma SameHorizon(s: State, s': State)
    requires s'.marks == s.marks && s'.memo == s.memo && s'.top == s.top
    ensures HorizonOf(s') == HorizonOf(s)
  {
  }

  // What has been read and not flushed may be forgotten.
  lemma WindowDropped(log: set<Pos>, staged: set<Pos>, applied: map<RowKey, Time>, pending: set<Pos>, epoch: Time,
                      low: Time, committed: Time, end: Time)
    requires Sound(log, staged, applied, pending, epoch, low, committed, end)
    ensures Sound(log, staged, applied, {}, ZERO, low, committed, end)
  {
  }

  // ---- The scan ----

  lemma SoundBegin(cfg: Config, s: State, s': State)
    requires Converging(cfg, s) && Next(cfg, s, Begin, s')
    ensures SoundState(s') && WindowEndsWell(s')
  {
    BeginFrame(cfg, s, s');
    BeginReads(cfg, s, s.chan[0]);
    LowFacts(cfg, s);
    var rs := s.chan[0];
    var pending := Rest(rs, StartOf(rs), s.staged);
    hide Next, Bounded, Horizon, StartOf, Rest, Settled, Waiting;
    assert SoundState(s) && PendingOf(s.proc, s.staged) == {};
    assert Pending(s'.proc, s'.staged) == pending;
    hide Unread, Pending;
    BeginKeepsSound(s.log.Keys, s.staged, s.applied, EpochOf(s.proc), StartOf(s.memo).time, s.memo.committed,
                    HorizonOf(s), pending);
  }

  lemma BeginFrame(cfg: Config, s: State, s': State)
    requires Bounded(cfg, s) && Next(cfg, s, Begin, s')
    ensures s.proc.Idle? && s.chan != [] && StampOk(cfg, s.marks, s.chan[0])
    ensures StartOf(s.chan[0]).time == StartOf(s.memo).time && s.chan[0].proposed == HorizonOf(s)
    ensures s' == s.(chan := s.chan[1..],
                     proc := Running(s.chan[0], StartOf(s.chan[0]), NeedPage, [], {}, ZERO, 0, Scanning))
    ensures HorizonOf(s') == HorizonOf(s)
  {
    assert s.memo == s.cp;
    hide Protocol;
    ProtocolFacts(cfg, s);
    SameStart(cfg, s.marks, s.cp, s.chan[0]);
    hide Coverage, CutoffsOk, Renders, TidyState, WindowBounds, AppliedOk, StartOf;
    HorizonFacts(s.marks, s.memo, s.top);
  }

  lemma BeginKeepsSound(log: set<Pos>, staged: set<Pos>, applied: map<RowKey, Time>, epoch: Time, low: Time,
                        committed: Time, end: Time, pending: set<Pos>)
    requires Sound(log, staged, applied, {}, epoch, low, committed, end)
    requires forall x :: x in pending <==> x in staged && Le(low, x.time) && Le(x.time, end)
    ensures Sound(log, staged, applied, pending, ZERO, low, committed, end)
    ensures staged <= log ==> EndsWell(log, applied, pending, end)
  {
    forall x | x in log && NewestUpTo(log, end, x) && Settled(staged, applied, {}, epoch, low, x)
      ensures Settled(staged, applied, pending, ZERO, low, x)
    {
    }
    if staged <= log {
      forall x, y | x in log && NewestUpTo(log, end, x) && Settled(staged, applied, {}, epoch, low, x)
                    && y in pending && KeyOf(y) == KeyOf(x)
        ensures x in pending
      {
        assert !Older(y, x) ==> y == x;
      }
    }
  }

  // Steps that change neither the databases nor the pending rows.
  lemma SoundReads(cfg: Config, s: State, step: Step, s': State)
    requires Converging(cfg, s) && Next(cfg, s, step, s') && (step.ReadPage? || step.Deliver? || step.EndPage?)
    ensures SoundState(s') && WindowEndsWell(s')
  {
    assert SoundState(s) && WindowEndsWell(s);
    ReadsFrame(cfg, s, step, s');
    hide Next, Converging, HorizonOf, Horizon, StartOf, Pending, EndsWell;
    assert HorizonOf(s') == HorizonOf(s) by { SameHorizon(s, s'); }
    EpochMoves(s.log.Keys, s.staged, s.applied, PendingOf(s.proc, s.staged), EpochOf(s.proc), EpochOf(s'.proc),
               StartOf(s.memo).time, s.memo.committed, HorizonOf(s));
  }

  lemma ReadsFrame(cfg: Config, s: State, step: Step, s': State)
    requires Bounded(cfg, s) && Next(cfg, s, step, s') && (step.ReadPage? || step.Deliver? || step.EndPage?)
    ensures s' == s.(proc := s'.proc) && s.proc.Running? && s'.proc.Running? && s'.proc.rs == s.proc.rs
    ensures Pending(s'.proc, s'.staged) == Pending(s.proc, s.staged) && Le(s.proc.epoch, s'.proc.epoch)
  {
    hide Protocol;
    ProtocolFacts(cfg, s);
    if step.ReadPage? {
      PageKeepsPending(cfg, s);
      hide First, Rest, Pending;
    } else if step.Deliver? {
      AcceptKeepsPending(s.proc, s.staged);
      assert s.proc.page[0] in Elems(s.proc.page);
      hide Pending, Unread;
    } else {
      assert Unread(s'.proc, s'.staged) == Unread(s.proc, s.staged);
      hide Unread;
    }
  }

  lemma EpochMoves(log: set<Pos>, staged: set<Pos>, applied: map<RowKey, Time>, pending: set<Pos>, epoch: Time,
                   later: Time, low: Time, committed: Time, end: Time)
    requires Sound(log, staged, applied, pending, epoch, low, committed, end) && Le(epoch, later)
    ensures Sound(log, staged, applied, pending, later, low, committed, end)
  {
    forall x | x in log && NewestUpTo(log, end, x) && Settled(staged, applied, pending, epoch, low, x)
      ensures Settled(staged, applied, pending, later, low, x)
    {
    }
  }

  // ---- The flush ----

  lemma FlushedRow(log: set<Pos>, applied: map<RowKey, Time>, batch: set<Pos>, rest: set<Pos>, epoch: Time, end: Time,
                   x: Pos)
    requires batch + rest <= log && forall y | y in batch + rest :: Le(y.time, end)
    requires forall y | y in rest :: Lt(epoch, y.time)
    requires x in log && NewestUpTo(log, end, x)
    requires x in batch || Shown(applied, x)
    requires forall y | y in batch && Older(y, x) :: x in batch + rest && Le(x.time, epoch)
    ensures Shown(Touch(applied, batch), x)
  {
    var k := KeyOf(x);
    if k in Keys(batch) {
      var n := Newest(batch, k);
      assert n in batch + rest && Le(n.time, x.time);
      assert Lt(n.time, x.time) ==> Older(n, x);
    }
  }

  // Flushing the batch, all of it older than the rest.
  lemma FlushKeeps(log: set<Pos>, staged: set<Pos>, applied: map<RowKey, Time>, batch: set<Pos>, rest: set<Pos>,
                   epoch: Time, low: Time, committed: Time, end: Time)
    requires batch + rest <= log && forall y | y in batch + rest :: Le(y.time, end)
    requires forall b | b in batch :: Le(b.time, epoch)
    requires forall y | y in rest :: Lt(epoch, y.time)
    requires Sound(log, staged, applied, batch + rest, epoch, low, committed, end)
             && EndsWell(log, applied, batch + rest, end)
    ensures Sound(log, staged, Touch(applied, batch), rest, epoch, low, committed, end)
    ensures EndsWell(log, Touch(applied, batch), rest, end)
  {
    hide Touch, Shown;
    forall x | x in log && NewestUpTo(log, end, x) && Settled(staged, applied, batch + rest, epoch, low, x)
      ensures Settled(staged, Touch(applied, batch), rest, epoch, low, x)
    {
      FlushedRow(log, applied, batch, rest, epoch, end, x);
    }
    forall x | x in log && NewestUpTo(log, end, x)
      ensures x in rest || (Shown(Touch(applied, batch), x) && forall y | y in rest :: KeyOf(y) != KeyOf(x))
    {
      if x !in rest {
        FlushedRow(log, applied, batch, rest, epoch, end, x);
        assert forall y | y in rest && KeyOf(y) == KeyOf(x) :: y in batch + rest && Le(y.time, x.time);
      }
    }
  }

  lemma SoundCommit(cfg: Config, s: State, step: Step, s': State)
    requires Converging(cfg, s) && Next(cfg, s, step, s') && step.Commit?
    ensures SoundState(s') && WindowEndsWell(s')
  {
    ConvergingParts(cfg, s);
    CommitFacts(cfg, s, step, s');
    hide Next, Converging, Bounded, Horizon, HorizonOf, StartOf, Touch, Sound, EndsWell;
    var p := s.proc;
    var rest := Elems(p.page) + Unread(p, s.staged);
    assert Pending(p, s.staged) == p.batch + rest;
    FlushKeeps(s.log.Keys, s.staged, s.applied, p.batch, rest, p.epoch, StartOf(s.memo).time, s.memo.committed,
               HorizonOf(s));
  }

  lemma CommitFacts(cfg: Config, s: State, step: Step, s': State)
    requires Bounded(cfg, s) && Next(cfg, s, step, s') && step.Commit?
    ensures s.proc.Running? && s'.proc.Running? && s'.applied == Touch(s.applied, s.proc.batch)
    ensures s'.log == s.log && s'.staged == s.staged && s'.memo == s.memo && s'.proc.epoch == s.proc.epoch
    ensures HorizonOf(s) == s.proc.rs.proposed && s'.proc.rs == s.proc.rs && HorizonOf(s') == HorizonOf(s)
    ensures var rest := Elems(s.proc.page) + Unread(s.proc, s.staged);
            && Pending(s'.proc, s'.staged) == rest
            && s.proc.batch + rest <= s.log.Keys
            && (forall y | y in s.proc.batch + rest :: Le(y.time, s.proc.rs.proposed))
            && (forall b | b in s.proc.batch :: Le(b.time, s.proc.epoch))
            && (forall y | y in rest :: Lt(s.proc.epoch, y.time))
  {
    hide Next, HorizonOf, Selected, Bounds, Renders, Protocol, Coverage, CutoffsOk, Unread, Apply, Touch, NeedsFlush;
    BoundedParts(cfg, s);
    CommitFrame(cfg, s, step, s');
    BoundsCommit(cfg, s, step, s');
    UnfinishedHorizon(s);
    UnfinishedHorizon(s');
    WindowRows(cfg, s);
    hide Bounded, OrderOk;
    SameUnread(s.proc, s'.proc, s.staged);
    if step.final {
      NothingUnread(s.proc, s.staged);
    } else {
      RestAfterEpoch(cfg, s);
    }
  }

  lemma SameUnread(p: Proc, q: Proc, staged: set<Pos>)
    requires p.Running? && q.Running? && q == p.(batch := q.batch, counter := q.counter, phase := q.phase)
    ensures Unread(q, staged) == Unread(p, staged)
  {
  }

  lemma NothingUnread(p: Proc, staged: set<Pos>)
    requires p.Running? && p.scan.Exhausted? && p.page == []
    ensures Elems(p.page) + Unread(p, staged) == {}
  {
  }

  lemma WindowRows(cfg: Config, s: State)
    requires Bounded(cfg, s) && s.proc.Running?
    ensures Pending(s.proc, s.staged) <= s.log.Keys && OrderOk(s.proc, s.staged)
    ensures forall y | y in Pending(s.proc, s.staged) :: Le(y.time, s.proc.rs.proposed)
  {
    hide Protocol, CutoffsOk, Renders, Bounds, Selected, OrderOk;
    ProtocolFacts(cfg, s);
    UnreadStaged(s.proc, s.staged);
    hide Unread;
  }

  lemma UnreadStaged(p: Proc, staged: set<Pos>)
    requires p.Running?
    ensures Unread(p, staged) <= staged
  {
  }

  lemma RestAfterEpoch(cfg: Config, s: State)
    requires Scans(s) && !s.proc.rs.backfill && OrderOk(s.proc, s.staged)
    requires s.proc.page != [] && NeedsFlush(cfg, s.proc, s.proc.page[0])
    ensures forall y | y in Elems(s.proc.page) + Unread(s.proc, s.staged) :: Lt(s.proc.epoch, y.time)
  {
    hide Unread;
    var p := s.proc;
    assert p.page[0] in Elems(p.page);
    assert forall i | 0 < i < |p.page| :: PosLt(ByTime, p.page[0], p.page[i]);
  }

  // ---- The checkpoint ----

  lemma SoundRecord(cfg: Config, s: State, s': State)
    requires Converging(cfg, s) && Next(cfg, s, Record, s')
    ensures SoundState(s') && WindowEndsWell(s')
  {
    ConvergingParts(cfg, s);
    RecordFacts(cfg, s, s');
    hide Next, HorizonOf;
    SoundMoves(cfg, s, s');
    hide Bounded, SoundState, EndsWell, Converging;
  }

  lemma RecordFacts(cfg: Config, s: State, s': State)
    requires Bounded(cfg, s) && Next(cfg, s, Record, s')
    ensures s.proc.Running? && s' == s.(marks := s'.marks, proc := s.proc.(phase := Recorded))
    ensures Le(HorizonOf(s), HorizonOf(s')) && Pending(s'.proc, s'.staged) == Pending(s.proc, s.staged)
  {
    BoundsRecord(cfg, s, s');
    UnfinishedHorizon(s);
    HorizonFacts(s'.marks, s'.memo, s'.top);
    assert Unread(s'.proc, s'.staged) == Unread(s.proc, s.staged);
    hide Safe, TidyState, Renders, Unread, Horizon;
  }

  lemma PublishSame(cfg: Config, s: State, s': State)
    requires Next(cfg, s, Publish, s')
    ensures s.proc.Running? && s'.proc.Running?
    ensures s' == s.(cp := s'.cp, version := s'.version, proc := s.proc.(phase := s'.proc.phase))
  {
  }

  lemma SoundPublish(cfg: Config, s: State, s': State)
    requires Converging(cfg, s) && Next(cfg, s, Publish, s')
    ensures SoundState(s') && WindowEndsWell(s')
  {
    hide Next, Converging, Bounded, HorizonOf, Unread, Sound, EndsWell;
    ConvergingParts(cfg, s);
    PublishSame(cfg, s, s');
    SameUnread(s.proc, s'.proc, s.staged);
    SameHorizon(s, s');
  }

  // A progress stamp moves the start of a replay up to the rows still pending.
  lemma InterimKeeps(log: set<Pos>, staged: set<Pos>, applied: map<RowKey, Time>, pending: set<Pos>, epoch: Time,
                     low: Time, later: Time, committed: Time, end: Time)
    requires Sound(log, staged, applied, pending, epoch, low, committed, end) && EndsWell(log, applied, pending, end)
    requires Le(low, later) && forall y | y in pending :: Le(later, y.time)
    ensures Sound(log, staged, applied, pending, epoch, later, committed, end)
  {
    forall x | x in log && NewestUpTo(log, end, x)
      ensures Waiting(staged, later, committed, x) || Settled(staged, applied, pending, epoch, later, x)
    {
      if Settled(staged, applied, pending, epoch, low, x) {
      } else if Lt(x.time, later) {
        assert x !in pending;
      }
    }
  }

  // A committed stamp leaves everything up to its time settled.
  lemma FinalKeeps(log: set<Pos>, staged: set<Pos>, applied: map<RowKey, Time>, end: Time, later: Time)
    requires EndsWell(log, applied, {}, end) && forall x | x in log && Lt(end, x.time) :: x in staged
    requires Le(end, later)
    ensures Sound(log, staged, applied, {}, ZERO, end, end, later)
  {
    forall x | x in log && NewestUpTo(log, later, x)
      ensures Waiting(staged, end, end, x) || Settled(staged, applied, {}, ZERO, end, x)
    {
      if Le(x.time, end) {
        assert NewestUpTo(log, end, x);
      }
    }
  }

  lemma SoundPersist(cfg: Config, s: State, s': State)
    requires Converging(cfg, s) && Next(cfg, s, Persist, s')
    ensures SoundState(s') && WindowEndsWell(s')
  {
    ConvergingParts(cfg, s);
    hide Converging, Bounded, Sound, EndsWell, HorizonOf;
    PersistFacts(cfg, s, s');
    hide Next;
    var p := s.proc;
    if p.phase.finished {
      FinalKeeps(s.log.Keys, s.staged, s.applied, p.rs.proposed, HorizonOf(s'));
    } else {
      InterimKeeps(s.log.Keys, s.staged, s.applied, Pending(p, s.staged), p.epoch, StartOf(s.memo).time,
                   StartOf(s'.memo).time,
                   s.memo.committed, HorizonOf(s));
      EpochMoves(s.log.Keys, s.staged, s.applied, Pending(p, s.staged), p.epoch, s'.proc.epoch, StartOf(s'.memo).time,
                 s.memo.committed, HorizonOf(s));
    }
  }

  lemma PersistFacts(cfg: Config, s: State, s': State)
    requires Bounded(cfg, s) && Next(cfg, s, Persist, s')
    ensures s.proc.Running? && s.proc.phase.Published? && s' == s.(memo := s'.memo, proc := s'.proc)
    ensures forall x | x in s.log && Lt(s.top, x.time) :: x in s.staged
    ensures s.proc.phase.finished ==>
              && s'.proc.Idle? && Pending(s.proc, s.staged) == {} && s.top == s.proc.rs.proposed
              && Le(s.top, HorizonOf(s'))
              && StartOf(s'.memo).time == s.proc.rs.proposed && s'.memo.committed == s.proc.rs.proposed
    ensures !s.proc.phase.finished ==>
              && s'.proc.Running? && s'.proc.rs.proposed == s.proc.rs.proposed
              && HorizonOf(s) == s.proc.rs.proposed && HorizonOf(s') == HorizonOf(s)
              && s'.memo.committed == s.memo.committed && Le(StartOf(s.memo).time, StartOf(s'.memo).time)
              && Pending(s'.proc, s'.staged) == Pending(s.proc, s.staged) && Le(s.proc.epoch, s'.proc.epoch)
              && forall y | y in Pending(s.proc, s.staged) :: Le(StartOf(s'.memo).time, y.time)
  {
    LowFacts(cfg, s);
    BoundsPersist(cfg, s, s');
    PersistFrame(cfg, s, s');
    hide Next, Protocol;
    ProtocolFacts(cfg, s);
    if s.proc.phase.finished {
      PersistIsCommitted(cfg, s);
      FinishedPending(cfg, s);
      HorizonFacts(s'.marks, s'.memo, s'.top);
      hide Coverage, CutoffsOk, Renders, Pending;
    } else {
      UnfinishedHorizon(s);
      InterimPending(s);
      assert s.proc.page[0] in Elems(s.proc.page);
      hide Coverage, CutoffsOk, Renders, Unread, HorizonOf;
      assert HorizonOf(s') == s'.memo.proposed by { PartialHorizon(s'); }
    }
  }

  lemma PartialHorizon(s: State)
    requires s.memo.proposed != ZERO
    ensures HorizonOf(s) == s.memo.proposed
  {
  }

  lemma FinishedPending(cfg: Config, s: State)
    requires Protocol(cfg, s) && s.proc.Running?
             && (s.proc.phase.Recorded? || (s.proc.phase.Published? && s.proc.phase.finished))
    ensures s.proc.page == [] && s.proc.batch == {} && Pending(s.proc, s.staged) == {}
  {
  }

  lemma InterimPending(s: State)
    requires s.proc.Running? && Behind(s.proc) && s.proc.page != []
    ensures var q := s.proc.(rs := s.proc.rs.NewProgress(s.proc.cur), phase := Scanning);
            Pending(Accept(q), s.staged) == Pending(s.proc, s.staged)
  {
    var next := s.proc.rs.NewProgress(s.proc.cur);
    SameWindow(s.proc, next, s.staged);
    AcceptKeepsPending(s.proc.(rs := next, phase := Scanning), s.staged);
  }

  // ---- Retirement ----

  lemma DeleteKeeps(log: set<Pos>, staged: set<Pos>, applied: map<RowKey, Time>, read: set<Pos>, unread: set<Pos>,
                    epoch: Time, low: Time, committed: Time, end: Time, table: nat, rows: set<Pos>, cutoff: Time)
    requires Sound(log, staged, applied, read + unread, epoch, low, committed, end) && unread <= staged
    requires OldestOf(staged, table, rows, cutoff)
    requires forall d | d in rows && NewestUpTo(log, end, d) ::
               Shown(applied, d) && forall y | y in read && Older(y, d) :: d in read && Le(d.time, epoch)
    ensures Sound(log, staged - rows, applied, read + (unread - rows), epoch, low, committed, end)
  {
    hide Shown;
    forall x | x in log && NewestUpTo(log, end, x)
      ensures Waiting(staged - rows, low, committed, x)
              || Settled(staged - rows, applied, read + (unread - rows), epoch, low, x)
    {
      if x in rows {
        assert forall y | y in staged && Older(y, x) :: y in rows;
      }
    }
  }

  lemma DeleteKeepsEnd(log: set<Pos>, staged: set<Pos>, applied: map<RowKey, Time>, read: set<Pos>, unread: set<Pos>,
                       epoch: Time, end: Time, table: nat, rows: set<Pos>, cutoff: Time)
    requires EndsWell(log, applied, read + unread, end) && unread <= staged && read + unread <= log
    requires OldestOf(staged, table, rows, cutoff) && forall y | y in read + unread :: Le(y.time, end)
    requires forall d | d in rows && NewestUpTo(log, end, d) ::
               Shown(applied, d) && forall y | y in read && Older(y, d) :: d in read && Le(d.time, epoch)
    ensures EndsWell(log, applied, read + (unread - rows), end)
  {
    hide Shown;
    forall x | x in log && NewestUpTo(log, end, x) && x in read + unread && x !in read + (unread - rows)
      ensures Shown(applied, x) && forall y | y in read + (unread - rows) :: KeyOf(y) != KeyOf(x)
    {
      assert forall y | y in read + unread && KeyOf(y) == KeyOf(x) :: y == x || Older(y, x);
      assert forall y | y in staged && Older(y, x) :: y in rows;
    }
  }

  function UnreadOf(p: Proc, staged: set<Pos>): set<Pos> {
    if p.Running? then Unread(p, staged) else {}
  }

  lemma PendingWithout(p: Proc, staged: set<Pos>, rows: set<Pos>)
    ensures PendingOf(p, staged) == Read(p) + UnreadOf(p, staged) && UnreadOf(p, staged) <= staged
    ensures PendingOf(p, staged - rows) == Read(p) + (UnreadOf(p, staged) - rows)
  {
    if p.Running? {
      UnreadDelete(p, staged, rows);
      UnreadStaged(p, staged);
    }
  }

  lemma SoundDelete(cfg: Config, s: State, step: Step, s': State)
    requires Converging(cfg, s) && Next(cfg, s, step, s') && step.DeleteStaged? && Harmless(s, step)
    ensures SoundState(s') && WindowEndsWell(s')
  {
    ConvergingParts(cfg, s);
    DeleteFrame(cfg, s, step, s');
    hide Next, Converging, Bounded, HorizonOf, Sound, EndsWell, OldestOf;
    SameHorizon(s, s');
    PendingWithout(s.proc, s.staged, step.rows);
    hide PendingOf, UnreadOf, Read, StartOf;
    DeleteKeeps(s.log.Keys, s.staged, s.applied, Read(s.proc), UnreadOf(s.proc, s.staged), EpochOf(s.proc),
                StartOf(s.memo).time,
                s.memo.committed, HorizonOf(s), step.table, step.rows, step.end);
    WindowDelete(cfg, s, step, s');
  }

  lemma DeleteFrame(cfg: Config, s: State, step: Step, s': State)
    requires Next(cfg, s, step, s') && step.DeleteStaged?
    ensures s' == s.(staged := s.staged - step.rows) && OldestOf(s.staged, step.table, step.rows, step.end)
  {
    hide OldestOf;
  }

  lemma WindowDelete(cfg: Config, s: State, step: Step, s': State)
    requires Bounded(cfg, s) && WindowEndsWell(s) && step.DeleteStaged? && Harmless(s, step)
    requires s' == s.(staged := s.staged - step.rows) && OldestOf(s.staged, step.table, step.rows, step.end)
    ensures WindowEndsWell(s')
  {
    var p := s.proc;
    if Unfinished(p) {
      UnfinishedHorizon(s) by { BoundedParts(cfg, s); }
      PendingWithout(p, s.staged, step.rows);
      WindowRows(cfg, s);
      hide Bounded, HorizonOf, EndsWell, OldestOf, Pending, Unread;
      DeleteKeepsEnd(s.log.Keys, s.staged, s.applied, Read(p), UnreadOf(p, s.staged), p.epoch, p.rs.proposed,
                     step.table, step.rows, step.end);
    } else if p.Running? {
      FinishedPending(cfg, s) by { BoundedProtocol(cfg, s); }
      hide Bounded, HorizonOf;
    }
  }

  lemma BoundedProtocol(cfg: Config, s: State)
    requires Bounded(cfg, s)
    ensures Protocol(cfg, s)
  {
  }

  // ---- Every step ----

  lemma ConvergingStep(cfg: Config, s: State, step: Step, s': State)
    requires Converging(cfg, s) && Next(cfg, s, step, s') && Harmless(s, step)
    ensures SoundState(s') && WindowEndsWell(s')
  {
    hide Next, Converging, SoundState, WindowEndsWell, Harmless;
    match step
    case StageRow(p, d) => SoundStage(cfg, s, p, d, s');
    case Mark(t) => SoundMark(cfg, s, t, s');
    case Begin => SoundBegin(cfg, s, s');
    case ReadPage => SoundReads(cfg, s, step, s');
    case Deliver => SoundReads(cfg, s, step, s');
    case EndPage => SoundReads(cfg, s, step, s');
    case Commit(_, _, _) => SoundCommit(cfg, s, step, s');
    case Record => SoundRecord(cfg, s, s');
    case Publish => SoundPublish(cfg, s, s');
    case Persist => SoundPersist(cfg, s, s');
    case DeleteStaged(_, _, _) => SoundDelete(cfg, s, step, s');
    case _ => SoundReader(cfg, s, step, s');
  }

  lemma SoundInit(s: State)
    requires Init(s)
    ensures SoundState(s) && WindowEndsWell(s)
  {
  }
}
