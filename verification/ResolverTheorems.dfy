/** What the invariants amount to over whole runs of the resolver. */
module ResolverTheorems {
  import opened Hlc
  import opened Scan
  import opened ResolvedStamp
  import opened Resolver
  import opened ResolverProtocol
  import opened ResolverCoverage
  import opened ResolverTarget
  import opened ResolverTimestamps
  import opened ResolverBounds
  import opened ResolverConvergence

  // ---- Convergence ----

  // Retirement deletes behind the committed time in memory.
  predicate RetiresBehind(s: State, step: Step) {
    step.DeleteStaged? ==> Le(step.end, s.cp.committed)
  }

  // Each of the first n steps is harmless, or retires behind the point.
  ghost predicate HarmlessUntil(s: State, run: seq<Event>, n: nat)
    requires n <= |run|
  {
    forall i: nat | i < n ::
      RetiresBehind(StateAt(s, run, i), run[i].step) || Harmless(StateAt(s, run, i), run[i].step)
  }

  // A deletion behind the committed time is harmless whatever else is going on.
  lemma BehindIsHarmless(cfg: Config, s: State, step: Step, s': State)
    requires Converging(cfg, s) && Next(cfg, s, step, s') && RetiresBehind(s, step)
    ensures Harmless(s, step)
  {
    if step.DeleteStaged? {
      forall d | d in step.rows && NewestUpTo(s.log.Keys, HorizonOf(s), d) ensures NotNeeded(s, d) {
        assert Le(d.time, s.cp.committed) && Lt(ZERO, step.end);
        hide Next;
        ConvergingParts(cfg, s);
        if s.cp.committed == s.memo.committed {
          BehindMemo(cfg, s, d);
        } else {
          BehindNewPoint(cfg, s, d);
        }
      }
    }
  }

  lemma BehindMemo(cfg: Config, s: State, d: Pos)
    requires Bounded(cfg, s) && SoundState(s) && d in s.log && NewestUpTo(s.log.Keys, HorizonOf(s), d)
    requires Le(d.time, s.memo.committed) && s.memo.committed != ZERO
    ensures NotNeeded(s, d)
  {
    assert Settled(s.staged, s.applied, PendingOf(s.proc, s.staged), EpochOf(s.proc), StartOf(s.memo).time, d);
    StartAtLeastCommitted(s.memo);
    forall y | y in Read(s.proc) ensures !Older(y, d) {
      ReadAfterStart(cfg, s, y);
    }
  }

  lemma ReadAfterStart(cfg: Config, s: State, y: Pos)
    requires Bounded(cfg, s) && y in Read(s.proc)
    ensures Le(StartOf(s.memo).time, y.time)
  {
    assert y in Pending(s.proc, s.staged);
    if !Unfinished(s.proc) {
      FinishedPending(cfg, s) by { BoundedProtocol(cfg, s); }
    }
  }

  lemma BehindNewPoint(cfg: Config, s: State, d: Pos)
    requires Bounded(cfg, s) && WindowEndsWell(s) && d in s.log && NewestUpTo(s.log.Keys, HorizonOf(s), d)
    requires Le(d.time, s.cp.committed) && s.cp.committed != s.memo.committed
    ensures NotNeeded(s, d)
  {
    NewPoint(cfg, s);
    FinishedPending(cfg, s) by { BoundedProtocol(cfg, s); }
    LowFacts(cfg, s);
    hide Bounded, HorizonOf;
    assert NewestUpTo(s.log.Keys, s.proc.rs.proposed, d);
  }

  // Memory is ahead of the stored stamp only after a window, until it is stored.
  lemma NewPoint(cfg: Config, s: State)
    requires Bounded(cfg, s) && s.cp.committed != s.memo.committed
    ensures s.proc.Running? && s.proc.phase.Published? && s.proc.phase.finished
    ensures s.cp.committed == s.proc.rs.proposed == s.top
  {
    hide TidyState, Renders, Coverage, CutoffsOk, AppliedOk, ReachesTop, StartOf, Pending;
    assert s.proc.Running? && s.proc.phase.Published?;
    if s.proc.phase.finished {
      PersistIsCommitted(cfg, s);
    }
    hide Protocol;
    ProtocolFacts(cfg, s);
  }

  lemma {:induction false} ConvergingAlways(cfg: Config, s: State, run: seq<Event>, i: nat)
    requires cfg.transactional && IsRun(cfg, s, run) && i <= |run| && HarmlessUntil(s, run, i)
    ensures Converging(cfg, StateAt(s, run, i))
  {
    hide Next, Bounded, SoundState, WindowEndsWell, RetiresBehind, Harmless;
    BoundedAlways(cfg, s, run, i);
    if i == 0 {
      SoundInit(s);
    } else {
      var before, step, after := StateAt(s, run, i - 1), run[i - 1].step, run[i - 1].after;
      ConvergingAlways(cfg, s, run, i - 1);
      if RetiresBehind(before, step) {
        BehindIsHarmless(cfg, before, step, after);
      }
      ConvergingStep(cfg, before, step, after);
    }
  }

  lemma ShowsNewestUnique(a: map<RowKey, Data>, b: map<RowKey, Data>, log: map<Pos, Data>, rows: set<Pos>)
    requires rows <= log.Keys && ShowsNewest(a, log, rows) && ShowsNewest(b, log, rows)
    ensures a == b
  {
    assert forall k :: k in a <==> k in b;
  }

  // A target that shows the newest row of every key is the log, applied once in
  // time order.
  lemma ShownIsReplay(target: map<RowKey, Data>, log: map<Pos, Data>, applied: map<RowKey, Time>, end: Time)
    requires Renders(target, log, applied) && forall k | k in applied :: Le(applied[k], end)
    requires forall x | x in log && NewestUpTo(log.Keys, end, x) :: Shown(applied, x)
    ensures target == ReplayUpTo(log, end)
  {
    var rows := UpTo(log, end);
    forall k ensures k in Keys(rows) <==> k in applied {
      if k in applied {
        assert RowAt(k, applied[k]) in rows;
      }
      if k in Keys(rows) {
        assert NewestUpTo(log.Keys, end, Newest(rows, k)) by { NewestOfRows(log, end, k); }
      }
    }
    forall k | k in applied ensures Newest(rows, k) == RowAt(k, applied[k]) {
      assert RowAt(k, applied[k]) in rows;
      NewestOfRows(log, end, k);
    }
    assert ShowsNewest(target, log, rows);
    hide Renders, ShowsNewest, Replay;
    AllSpec(ByTime, rows);
    ReplayShowsNewest(log, All(ByTime, rows));
    ShowsNewestUnique(target, ReplayUpTo(log, end), log, rows);
  }

  lemma NewestOfRows(log: map<Pos, Data>, end: Time, k: RowKey)
    requires k in Keys(UpTo(log, end))
    ensures NewestUpTo(log.Keys, end, Newest(UpTo(log, end), k))
  {
  }

  lemma RecordedConverges(cfg: Config, s: State)
    requires Converging(cfg, s) && s.proc.Running? && s.proc.phase.Recorded?
    ensures s.target == ReplayUpTo(s.log, s.proc.rs.proposed)
  {
    ConvergingParts(cfg, s);
    FinishedPending(cfg, s) by { BoundedProtocol(cfg, s); }
    hide Converging, TidyState, Safe, Selected, SoundState;
    ShownIsReplay(s.target, s.log, s.applied, s.proc.rs.proposed);
  }

  // Whenever a stamp without a proposal is set, the target equals the log up to
  // its committed time, applied once and in time order.
  lemma Convergence(cfg: Config, s: State, run: seq<Event>, i: nat)
    requires cfg.transactional && IsRun(cfg, s, run) && i < |run| && HarmlessUntil(s, run, i)
    requires run[i].step.Publish? && run[i].after.cp.proposed == ZERO
    ensures run[i].after.target == ReplayUpTo(run[i].after.log, run[i].after.cp.committed)
  {
    hide HarmlessUntil;
    ConvergingAlways(cfg, s, run, i);
    var now := StateAt(s, run, i);
    assert Next(cfg, now, run[i].step, run[i].after);
    PublishFrame(cfg, now, run[i].after);
    RecordedConverges(cfg, now);
  }

  lemma PublishFrame(cfg: Config, s: State, s': State)
    requires Converging(cfg, s) && Next(cfg, s, Publish, s') && s'.cp.proposed == ZERO
    ensures s.proc.Running? && s.proc.phase.Recorded? && s'.cp.committed == s.proc.rs.proposed
    ensures s'.target == s.target && s'.log == s.log
  {
    hide Bounds, Selected, TidyState, Renders, Coverage, CutoffsOk, SoundState, WindowEndsWell;
    hide Protocol;
    ProtocolFacts(cfg, s);
  }

  // ---- Runs without an in-process restart retire behind the point ----

  ghost predicate CutoffsBehind(s: State) {
    Le(s.retirements, s.cp.committed) && Le(s.sample, s.cp.committed)
  }

  lemma CutoffsBehindStep(cfg: Config, s: State, step: Step, s': State)
    requires Protocol(cfg, s) && CutoffsBehind(s) && Next(cfg, s, step, s') && !step.Restart?
    ensures CutoffsBehind(s')
  {
    hide Next, Protocol;
    if step.Publish? {
      CutoffsBehindPublish(cfg, s, s');
    } else if OfReader(step) {
      CutoffsBehindReader(cfg, s, step, s');
    } else {
      CutoffsFrame(cfg, s, step, s');
    }
  }

  lemma CutoffsBehindReader(cfg: Config, s: State, step: Step, s': State)
    requires Protocol(cfg, s) && CutoffsBehind(s) && Next(cfg, s, step, s') && OfReader(step) && !step.Restart?
    ensures CutoffsBehind(s')
  {
    CutoffsChosen(cfg, s, step, s');
    hide Next, Protocol;
    ProtocolFacts(cfg, s);
  }

  // Where the cut-offs come from while the run goes on, and after a crash.
  lemma CutoffsChosen(cfg: Config, s: State, step: Step, s': State)
    requires Next(cfg, s, step, s') && OfReader(step) && !step.Restart?
    ensures || (&& s'.cp == s.cp && (s'.retirements == s.retirements || s'.retirements == s.cp.committed)
                && (s'.sample == s.sample || s'.sample == s.retirements))
            || (&& s'.cp == s.memo && (s'.retirements == ZERO || s'.retirements == s.memo.committed)
                && s'.sample == ZERO)
  {
    hide StampOk, InForce, SelectsTimestamp;
  }

  lemma CutoffsFrame(cfg: Config, s: State, step: Step, s': State)
    requires Next(cfg, s, step, s') && !OfReader(step) && !step.Publish?
    ensures (s'.cp, s'.retirements, s'.sample) == (s.cp, s.retirements, s.sample)
  {
    hide First, Rest, Apply, Touch, PageRead, OldestOf, NeedsFlush;
  }

  lemma CutoffsBehindPublish(cfg: Config, s: State, s': State)
    requires Protocol(cfg, s) && CutoffsBehind(s) && Next(cfg, s, Publish, s')
    ensures CutoffsBehind(s')
  {
    hide Protocol;
    ProtocolFacts(cfg, s);
  }

  lemma {:induction false} CutoffsBehindAlways(cfg: Config, s: State, run: seq<Event>, i: nat)
    requires IsRun(cfg, s, run) && i <= |run| && forall j | 0 <= j < i :: !run[j].step.Restart?
    ensures CutoffsBehind(StateAt(s, run, i))
  {
    hide Next, Protocol, CutoffsBehind;
    if i == 0 {
      assert CutoffsBehind(s) by { CutoffsBehindInit(s); }
    } else {
      CutoffsBehindAlways(cfg, s, run, i - 1);
      ProtocolAlways(cfg, s, run, i - 1);
      CutoffsBehindStep(cfg, StateAt(s, run, i - 1), run[i - 1].step, run[i - 1].after);
    }
  }

  lemma CutoffsBehindInit(s: State)
    requires Init(s)
    ensures CutoffsBehind(s)
  {
  }

  // Convergence through any number of process crashes, at any step.
  lemma ConvergenceUnderCrashes(cfg: Config, s: State, run: seq<Event>, i: nat)
    requires cfg.transactional && IsRun(cfg, s, run) && i < |run| && forall j | 0 <= j < i :: !run[j].step.Restart?
    requires run[i].step.Publish? && run[i].after.cp.proposed == ZERO
    ensures run[i].after.target == ReplayUpTo(run[i].after.log, run[i].after.cp.committed)
  {
    hide Next, Harmless, RetiresBehind, CutoffsBehind;
    assert HarmlessUntil(s, run, i) by {
      forall j: nat | j < i ensures RetiresBehind(StateAt(s, run, j), run[j].step) {
        CutoffsBehindAlways(cfg, s, run, j);
        DeletesBehind(cfg, StateAt(s, run, j), run[j].step, run[j].after);
      }
    }
    Convergence(cfg, s, run, i);
  }

  lemma DeletesBehind(cfg: Config, s: State, step: Step, s': State)
    requires CutoffsBehind(s) && Next(cfg, s, step, s')
    ensures RetiresBehind(s, step)
  {
  }

  // ---- When exactly a DELETE is harmless ----

  // The newest row of a key is the one shown once these rows have been flushed.
  predicate ShownAtEnd(applied: map<RowKey, Time>, rows: set<Pos>, x: Pos) {
    var times := Touch(applied, rows);
    KeyOf(x) in times && times[KeyOf(x)] == x.time
  }

  ghost predicate AllShownAtEnd(log: set<Pos>, applied: map<RowKey, Time>, rows: set<Pos>, end: Time) {
    forall x | x in log && NewestUpTo(log, end, x) :: ShownAtEnd(applied, rows, x)
  }

  // What the next flush may write: the batch and the pending rows up to some time.
  ghost function FlushedBy(s: State, t: Time): set<Pos> {
    set y | y in PendingOf(s.proc, s.staged) && Le(y.time, t)
  }

  // What a replay of the stored stamp reads.
  ghost function Replayable(s: State): set<Pos> {
    set y | y in s.staged && Le(StartOf(s.memo).time, y.time) && Le(y.time, HorizonOf(s))
  }

  // The window comes to the newest row of every key if nothing happens, and also
  // if the run starts over from the stored stamp, at once or after the next flush,
  // wherever that falls.
  ghost predicate Survives(s: State) {
    && (s.proc.Running? ==> AllShownAtEnd(s.log.Keys, s.applied, Pending(s.proc, s.staged), s.proc.rs.proposed))
    && AllShownAtEnd(s.log.Keys, s.applied, Replayable(s), HorizonOf(s))
    && forall t | Le(EpochOf(s.proc), t) ::
         AllShownAtEnd(s.log.Keys, Touch(s.applied, FlushedBy(s, t)), Replayable(s), HorizonOf(s))
  }

  // Deleting is harmless exactly when every row that is the newest of its key is
  // shown already, and what has been read of its key is flushed together with it.
  lemma DeleteHarmlessIff(cfg: Config, s: State, step: Step, s': State)
    requires Converging(cfg, s) && Next(cfg, s, step, s') && step.DeleteStaged?
    ensures Survives(s') <==> Harmless(s, step)
  {
    DeleteFrame(cfg, s, step, s');
    hide OldestOf;
    if Harmless(s, step) {
      HarmlessSurvives(cfg, s, step, s');
    }
    if Survives(s') {
      hide Next, Survives;
      SameHorizon(s, s');
      forall d | d in step.rows && NewestUpTo(s.log.Keys, HorizonOf(s), d) ensures NotNeeded(s, d) {
        SurvivorNotNeeded(s, step, s', d);
      }
    }
  }

  lemma HarmlessSurvives(cfg: Config, s: State, step: Step, s': State)
    requires Converging(cfg, s) && Next(cfg, s, step, s') && Harmless(s, step)
    ensures Survives(s')
  {
    hide Next, Bounded, SoundState, WindowEndsWell, Harmless, Survives;
    ConvergingStep(cfg, s, step, s');
    BoundsStep(cfg, s, step, s');
    NextInvariants(cfg, s, step, s');
    assert Converging(cfg, s') by { assert Bounded(cfg, s') by { BoundedAgain(cfg, s, s'); } }
    ConvergingSurvives(cfg, s');
  }

  lemma NextInvariants(cfg: Config, s: State, step: Step, s': State)
    requires Converging(cfg, s) && Next(cfg, s, step, s')
    ensures Safe(cfg, s') && TidyState(s')
  {
    hide Next, Safe, TidyState, Bounds, Selected, Renders, SoundState, WindowEndsWell;
    SafeStep(cfg, s, step, s');
    TidyStep(cfg, s, step, s');
  }

  lemma BoundedAgain(cfg: Config, s: State, s': State)
    requires Bounded(cfg, s) && Safe(cfg, s') && TidyState(s') && Bounds(s') && Selected(s')
    requires Renders(s'.target, s'.log, s'.applied)
    ensures Bounded(cfg, s')
  {
    hide Safe, TidyState, Bounds, Selected, Renders;
  }

  // Nothing newer than x is shown.
  predicate NotBeyond(applied: map<RowKey, Time>, x: Pos) {
    KeyOf(x) in applied ==> Le(applied[KeyOf(x)], x.time)
  }

  // The outcome for one row, in terms of what is flushed.
  lemma OutcomeOf(applied: map<RowKey, Time>, rows: set<Pos>, x: Pos)
    requires NotBeyond(applied, x) && forall y | y in rows && KeyOf(y) == KeyOf(x) :: Le(y.time, x.time)
    ensures ShownAtEnd(applied, rows, x) <==> if KeyOf(x) in Keys(rows) then x in rows else Shown(applied, x)
  {
    var k := KeyOf(x);
    if k in Keys(rows) {
      var n := Newest(rows, k);
      assert n in rows && KeyOf(n) == k;
      assert n.time == x.time ==> n == x;
    }
  }

  lemma ShownNotBeyond(cfg: Config, s: State, x: Pos)
    requires Bounded(cfg, s) && x in s.log && NewestUpTo(s.log.Keys, HorizonOf(s), x)
    ensures NotBeyond(s.applied, x)
  {
    LowFacts(cfg, s);
    hide HorizonOf, Safe, TidyState, StartOf, WindowBounds;
    var k := KeyOf(x);
    if k in s.applied {
      assert RowAt(k, s.applied[k]) in s.log && KeyOf(RowAt(k, s.applied[k])) == k;
    }
  }

  lemma ConvergingSurvives(cfg: Config, s: State)
    requires Converging(cfg, s)
    ensures Survives(s)
  {
    ConvergingParts(cfg, s);
    LowFacts(cfg, s);
    hide Converging, HorizonOf, Bounded, StartOf, Shown, ShownAtEnd;
    forall x | x in s.log && NewestUpTo(s.log.Keys, HorizonOf(s), x)
      ensures ShownAtEnd(s.applied, Replayable(s), x)
      ensures forall t | Le(EpochOf(s.proc), t) :: ShownAtEnd(Touch(s.applied, FlushedBy(s, t)), Replayable(s), x)
    {
      ReplayOutcome(cfg, s, x);
    }
    if s.proc.Running? {
      WindowOutcome(cfg, s);
    }
  }

  lemma ReplayOutcome(cfg: Config, s: State, x: Pos)
    requires Bounded(cfg, s) && SoundState(s) && x in s.log && NewestUpTo(s.log.Keys, HorizonOf(s), x)
    ensures ShownAtEnd(s.applied, Replayable(s), x)
    ensures forall t | Le(EpochOf(s.proc), t) :: ShownAtEnd(Touch(s.applied, FlushedBy(s, t)), Replayable(s), x)
  {
    ShownNotBeyond(cfg, s, x);
    StagedLogged(cfg, s);
    hide Bounded, HorizonOf, StartOf, ShownAtEnd;
    OutcomeOf(s.applied, Replayable(s), x);
    assert Settled(s.staged, s.applied, PendingOf(s.proc, s.staged), EpochOf(s.proc), StartOf(s.memo).time, x)
           || x in Replayable(s);
    forall t | Le(EpochOf(s.proc), t) ensures ShownAtEnd(Touch(s.applied, FlushedBy(s, t)), Replayable(s), x) {
      FlushedThenReplayed(cfg, s, t, x);
    }
  }

  lemma FlushedThenReplayed(cfg: Config, s: State, t: Time, x: Pos)
    requires Bounded(cfg, s) && SoundState(s) && x in s.log && NewestUpTo(s.log.Keys, HorizonOf(s), x)
    requires Le(EpochOf(s.proc), t)
    ensures ShownAtEnd(Touch(s.applied, FlushedBy(s, t)), Replayable(s), x)
  {
    var f := FlushedBy(s, t);
    ShownNotBeyond(cfg, s, x);
    StagedLogged(cfg, s);
    PendingToHorizon(cfg, s);
    hide Bounded, HorizonOf, StartOf, PendingOf, EpochOf;
    var times := Touch(s.applied, f);
    assert NotBeyond(times, x) by {
      if KeyOf(x) in Keys(f) {
        assert Newest(f, KeyOf(x)) in f;
      }
    }
    OutcomeOf(times, Replayable(s), x);
    if x !in Replayable(s) {
      assert Settled(s.staged, s.applied, PendingOf(s.proc, s.staged), EpochOf(s.proc), StartOf(s.memo).time, x);
      if KeyOf(x) in Keys(f) {
        var n := Newest(f, KeyOf(x));
        assert n in f && (Older(n, x) || n == x);
      }
    }
  }

  lemma PendingToHorizon(cfg: Config, s: State)
    requires Bounded(cfg, s)
    ensures forall y | y in PendingOf(s.proc, s.staged) :: y in s.log && Le(y.time, HorizonOf(s))
  {
    if Unfinished(s.proc) {
      WindowRows(cfg, s);
      UnfinishedHorizon(s) by { BoundedParts(cfg, s); }
      hide Bounded, Pending, HorizonOf;
    } else if s.proc.Running? {
      FinishedPending(cfg, s) by { BoundedProtocol(cfg, s); }
    }
  }

  lemma StagedLogged(cfg: Config, s: State)
    requires Bounded(cfg, s)
    ensures s.staged <= s.log.Keys
  {
    hide Protocol, TidyState, Bounds, Selected, Renders;
  }

  lemma WindowOutcome(cfg: Config, s: State)
    requires Bounded(cfg, s) && WindowEndsWell(s) && s.proc.Running?
    ensures AllShownAtEnd(s.log.Keys, s.applied, Pending(s.proc, s.staged), s.proc.rs.proposed)
  {
    WindowRows(cfg, s);
    var b, end := Pending(s.proc, s.staged), s.proc.rs.proposed;
    assert forall k | k in s.applied :: RowAt(k, s.applied[k]) in s.log && Le(s.applied[k], end);
    hide Bounded, Pending, ShownAtEnd;
    forall x | x in s.log && NewestUpTo(s.log.Keys, end, x) ensures ShownAtEnd(s.applied, b, x) {
      assert NotBeyond(s.applied, x) by {
        var k := KeyOf(x);
        if k in s.applied {
          assert KeyOf(RowAt(k, s.applied[k])) == k;
        }
      }
      OutcomeOf(s.applied, b, x);
    }
  }

  // A row that may go without harm is not needed.
  lemma SurvivorNotNeeded(s: State, step: Step, s': State, d: Pos)
    requires step.DeleteStaged? && s' == s.(staged := s.staged - step.rows)
    requires Survives(s') && HorizonOf(s') == HorizonOf(s)
    requires d in step.rows && d in s.log && NewestUpTo(s.log.Keys, HorizonOf(s), d)
    ensures NotNeeded(s, d)
  {
    PendingWithout(s.proc, s.staged, step.rows);
    hide HorizonOf, StartOf, PendingOf, UnreadOf, NewestUpTo;
    assert d !in Replayable(s');
    assert ShownAtEnd(s.applied, Replayable(s'), d);
    assert KeyOf(d) !in Keys(Replayable(s')) && Shown(s.applied, d) by {
      NotReplayed(s.applied, Replayable(s'), d);
    }
    forall y | y in Read(s.proc) && Older(y, d) ensures d in Read(s.proc) && Le(d.time, s.proc.epoch) {
      var t := Max(s.proc.epoch, y.time);
      assert ShownAtEnd(Touch(s.applied, FlushedBy(s', t)), Replayable(s'), d);
      assert y in FlushedBy(s', t);
      FlushedWith(s.applied, FlushedBy(s', t), Replayable(s'), y, d);
    }
  }

  lemma NotReplayed(applied: map<RowKey, Time>, rows: set<Pos>, d: Pos)
    requires ShownAtEnd(applied, rows, d) && d !in rows
    ensures KeyOf(d) !in Keys(rows) && Shown(applied, d)
  {
    assert KeyOf(d) in Keys(rows) ==> Newest(rows, KeyOf(d)) == d;
  }

  lemma FlushedWith(applied: map<RowKey, Time>, f: set<Pos>, rows: set<Pos>, y: Pos, d: Pos)
    requires ShownAtEnd(Touch(applied, f), rows, d) && d !in rows && y in f && KeyOf(y) == KeyOf(d)
    ensures d in f
  {
    NotReplayed(Touch(applied, f), rows, d);
    assert KeyOf(y) in Keys(f);
    hide ShownAtEnd;
    assert Touch(applied, f)[KeyOf(d)] == d.time by { ExactlyShown(Touch(applied, f), rows, d); }
    assert Newest(f, KeyOf(d)) == d;
  }

  lemma ExactlyShown(applied: map<RowKey, Time>, rows: set<Pos>, d: Pos)
    requires ShownAtEnd(applied, rows, d) && KeyOf(d) !in Keys(rows)
    ensures KeyOf(d) in applied && applied[KeyOf(d)] == d.time
  {
  }

  // What surviving means for the target: flushing such rows makes it the log,
  // applied once in time order.
  lemma OutcomeIsReplay(target: map<RowKey, Data>, log: map<Pos, Data>, applied: map<RowKey, Time>, rows: set<Pos>,
                        end: Time)
    requires Renders(target, log, applied) && forall k | k in applied :: Le(applied[k], end)
    requires rows <= log.Keys && forall y | y in rows :: Le(y.time, end)
    requires AllShownAtEnd(log.Keys, applied, rows, end)
    ensures Apply(target, log, rows) == ReplayUpTo(log, end)
  {
    ApplyRenders(target, log, applied, rows);
    var times := Touch(applied, rows);
    forall k | k in times ensures Le(times[k], end) {
      assert k in Keys(rows) ==> Newest(rows, k) in rows;
    }
    hide Renders, Apply, Touch, ReplayUpTo;
    forall x | x in log && NewestUpTo(log.Keys, end, x) ensures Shown(times, x) {
      assert ShownAtEnd(applied, rows, x);
    }
    ShownIsReplay(Apply(target, log, rows), log, times, end);
  }

  // Between two windows there is nothing read, and it only matters what is shown:
  // x is the stamp that opens next.
  lemma DeleteBetweenWindowsIff(cfg: Config, s: State, step: Step, s': State, x: Stamp)
    requires Converging(cfg, s) && !Busy(s) && s.memo == s.cp && Next(cfg, s, step, s') && step.DeleteStaged?
    requires InForce(cfg, s.marks, s.cp, x) && (s.cp.proposed == ZERO ==> !s.marks[x.proposed])
    ensures Survives(s') <==> forall d | d in step.rows && NewestUpTo(s.log.Keys, x.proposed, d) :: Shown(s.applied, d)
  {
    DeleteHarmlessIff(cfg, s, step, s');
    NextEnd(cfg, s, x);
    NothingRead(cfg, s);
    hide Next, Converging, HorizonOf, Survives, InForce, Busy;
  }

  lemma NextEnd(cfg: Config, s: State, x: Stamp)
    requires Converging(cfg, s) && s.memo == s.cp
    requires InForce(cfg, s.marks, s.cp, x) && (s.cp.proposed == ZERO ==> !s.marks[x.proposed])
    ensures HorizonOf(s) == x.proposed
  {
    ConvergingParts(cfg, s);
    BoundedParts(cfg, s);
    hide Bounded, SoundState, WindowEndsWell, WindowBounds;
    HorizonFacts(s.marks, s.memo, s.top);
    assert s.cp.proposed == ZERO ==> SelectsTimestamp(s.marks, s.memo.committed, x.proposed);
  }

  lemma NothingRead(cfg: Config, s: State)
    requires Converging(cfg, s) && !Busy(s)
    ensures Read(s.proc) == {}
  {
    if s.proc.Running? {
      FinishedPending(cfg, s) by {
        ConvergingParts(cfg, s);
        BoundedProtocol(cfg, s);
      }
    }
  }

  // ---- A lost row stays lost ----

  // The row can be read no more, and the target does not show it.
  predicate Gone(s: State, d: Pos) {
    && d in s.log && d !in s.staged && d !in PendingOf(s.proc, s.staged)
    && !(KeyOf(d) in s.applied && s.applied[KeyOf(d)] == d.time)
  }

  // No step brings back a row that is not staged.
  lemma PendingFrame(cfg: Config, s: State, step: Step, s': State)
    requires Bounded(cfg, s) && Next(cfg, s, step, s')
    ensures PendingOf(s'.proc, s'.staged) <= PendingOf(s.proc, s.staged) + s'.staged
  {
    if step.ReadPage? || step.Deliver? || step.EndPage? {
      ReadsFrame(cfg, s, step, s');
    } else if step.Commit? {
      CommitFacts(cfg, s, step, s');
    } else if step.Persist? {
      PersistFacts(cfg, s, s');
    } else if step.Begin? {
      BeginFrame(cfg, s, s');
      UnreadStaged(s'.proc, s'.staged);
    } else if step.DeleteStaged? {
      PendingWithout(s.proc, s.staged, step.rows);
    } else {
      OtherPending(cfg, s, step, s');
    }
    hide Next, Bounded, Unread;
  }

  lemma OtherPending(cfg: Config, s: State, step: Step, s': State)
    requires Next(cfg, s, step, s') && (step.StageRow? || LeavesWindow(step))
    ensures PendingOf(s'.proc, s'.staged) <= PendingOf(s.proc, s.staged) + s'.staged
  {
    if s'.proc.Running? {
      if step.StageRow? {
        assert s'.proc == s.proc;
        hide Next;
        UnreadStaged(s'.proc, s'.staged);
        hide Unread;
      } else {
        WindowFrame(cfg, s, step, s');
        hide Next;
        assert Unread(s'.proc, s'.staged) == Unread(s.proc, s.staged);
        hide Unread;
      }
    }
  }

  lemma StagedFrame(cfg: Config, s: State, step: Step, s': State, d: Pos)
    requires Bounded(cfg, s) && Next(cfg, s, step, s') && d in s.log && d !in s.staged
    ensures d in s'.log && d !in s'.staged && s'.log[d] == s.log[d]
  {
    hide Bounded;
    if step.StageRow? {
      NotStagedAgain(cfg, s, d);
    } else {
      RowsFrame(cfg, s, step, s');
      hide Next;
    }
  }

  lemma RowsFrame(cfg: Config, s: State, step: Step, s': State)
    requires Next(cfg, s, step, s') && !step.StageRow?
    ensures s'.log == s.log && s'.staged <= s.staged
  {
    hide Rest, Apply, Touch, OldestOf;
  }

  lemma NotStagedAgain(cfg: Config, s: State, d: Pos)
    requires Bounded(cfg, s) && d in s.log && d !in s.staged
    ensures !NewestMark(s.marks, d.time)
  {
    hide Protocol, TidyState, Selected, Renders;
  }

  lemma ShownFrame(cfg: Config, s: State, step: Step, s': State)
    requires cfg.transactional && Next(cfg, s, step, s')
    ensures s'.applied == if step.Commit? then Touch(s.applied, s.proc.batch) else s.applied
    ensures step.Commit? ==> s.proc.Running?
  {
    hide Touch, Apply, Rest;
  }

  lemma GoneStep(cfg: Config, s: State, step: Step, s': State, d: Pos)
    requires Bounded(cfg, s) && Next(cfg, s, step, s') && Gone(s, d)
    ensures Gone(s', d)
  {
    PendingFrame(cfg, s, step, s');
    StagedFrame(cfg, s, step, s', d);
    ShownFrame(cfg, s, step, s');
    hide Next, Bounded;
    if step.Commit? && KeyOf(d) in Keys(s.proc.batch) {
      var n := Newest(s.proc.batch, KeyOf(d));
      assert n in Pending(s.proc, s.staged) && n != d && KeyOf(n) == KeyOf(d);
    }
  }

  lemma {:induction false} GoneForever(cfg: Config, s: State, run: seq<Event>, i: nat, j: nat, d: Pos)
    requires cfg.transactional && IsRun(cfg, s, run) && i <= j <= |run| && Gone(StateAt(s, run, i), d)
    ensures Gone(StateAt(s, run, j), d)
    decreases j
  {
    hide Next, Bounded, Gone;
    if i < j {
      GoneForever(cfg, s, run, i, j - 1, d);
      BoundedAlways(cfg, s, run, j - 1);
      GoneStep(cfg, StateAt(s, run, j - 1), run[j - 1].step, run[j - 1].after, d);
    }
  }

  // A target that does not show the newest row of a key differs from the log, if
  // no other row of the key has the same effect.
  lemma GoneDiffers(cfg: Config, s: State, end: Time, d: Pos)
    requires Bounded(cfg, s) && Gone(s, d) && NewestUpTo(s.log.Keys, end, d)
    requires forall x | x in s.log && KeyOf(x) == KeyOf(d) && x != d :: s.log[x] != s.log[d]
    ensures s.target != ReplayUpTo(s.log, end)
  {
    var k, rows := KeyOf(d), UpTo(s.log, end);
    assert k in s.applied by { GoneKeyShown(cfg, s, d); }
    assert Renders(s.target, s.log, s.applied);
    hide Bounded, Replay;
    assert d in rows && k in Keys(rows) && IsNewest(rows, k, d);
    NewestUnique(rows, k, d, Newest(rows, k));
    var z := RowAt(k, s.applied[k]);
    assert z in s.log && KeyOf(z) == k && z != d;
    AllSpec(ByTime, rows);
    ReplayShowsNewest(s.log, All(ByTime, rows));
    assert ShowsNewest(ReplayUpTo(s.log, end), s.log, rows);
  }

  lemma GoneKeyShown(cfg: Config, s: State, d: Pos)
    requires Bounded(cfg, s) && d in s.log && d !in s.staged
    ensures KeyOf(d) in s.applied
  {
    hide Protocol, TidyState, Selected, Renders;
  }

  // A deletion that takes a newest row which is neither read nor shown makes every
  // later committed stamp wrong for which that row is still the newest.
  lemma LostForGood(cfg: Config, s: State, run: seq<Event>, i: nat, j: nat, d: Pos)
    requires cfg.transactional && IsRun(cfg, s, run) && i < j < |run|
    requires run[i].step.DeleteStaged? && d in run[i].step.rows
    requires d !in Read(StateAt(s, run, i).proc) && !Shown(StateAt(s, run, i).applied, d)
    requires run[j].step.Publish? && run[j].after.cp.proposed == ZERO
    requires NewestUpTo(run[j].after.log.Keys, run[j].after.cp.committed, d)
    requires forall x | x in run[j].after.log && KeyOf(x) == KeyOf(d) && x != d ::
             run[j].after.log[x] != run[j].after.log[d]
    ensures run[j].after.target != ReplayUpTo(run[j].after.log, run[j].after.cp.committed)
  {
    hide Next, Bounded, Gone, NewestUpTo, Shown, ReplayUpTo;
    BoundedAlways(cfg, s, run, i);
    DeletionMakesGone(cfg, StateAt(s, run, i), run[i].step, run[i].after, d);
    hide IsRun;
    GoneForever(cfg, s, run, i + 1, j + 1, d);
    BoundedAlways(cfg, s, run, j + 1);
    GoneDiffers(cfg, run[j].after, run[j].after.cp.committed, d);
  }

  lemma DeletionMakesGone(cfg: Config, s: State, step: Step, s': State, d: Pos)
    requires Bounded(cfg, s) && Next(cfg, s, step, s') && step.DeleteStaged? && d in step.rows
    requires d !in Read(s.proc) && !Shown(s.applied, d)
    ensures Gone(s', d)
  {
    DeleteFrame(cfg, s, step, s');
    StagedLogged(cfg, s);
    PendingWithout(s.proc, s.staged, step.rows);
    hide Next, Bounded;
  }
}
