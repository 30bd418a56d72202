/** How large a flush is: the batch grows by one with every callback, and the counter
    of the program is the number of callbacks since the last flush. */
module ResolverBatches {
  import opened Hlc
  import opened Scan
  import opened Resolver
  import opened ResolverProtocol
  import opened ResolverCoverage
  import opened ResolverTimestamps

  // The rows given to the callback since the open window began or was last flushed,
  // by the history alone. Storing an interim stamp ends the callback that flushed.
  function Callbacks(run: seq<Event>, i: nat): nat
    requires i <= |run|
  {
    if i == 0 then 0 else
    match run[i - 1].step
    case Begin => 0
    case Commit(_, _, _) => 0
    case Deliver => Callbacks(run, i - 1) + 1
    case Persist => Callbacks(run, i - 1) + if run[i - 1].after.proc.Running? then 1 else 0
    case _ => Callbacks(run, i - 1)
  }

  function AtLeastOne(n: int): int {
    if n < 1 then 1 else n
  }

  ghost predicate Counted(cfg: Config, p: Proc, n: nat) {
    p.Running? ==>
      && p.counter == n && |p.batch| <= n && (p.phase != Scanning ==> n == 0)
      && (p.rs.backfill ==> n <= AtLeastOne(cfg.idealFlush))
      && (n > 0 ==> exists b | b in p.batch :: b.time == p.epoch)
      && (p.phase == Scanning && p.epoch != ZERO ==> n > 0)
  }

  // The count after a step.
  function CountAfter(step: Step, s': State, n: nat): nat {
    match step
    case Begin => 0
    case Commit(_, _, _) => 0
    case Deliver => n + 1
    case Persist => n + if s'.proc.Running? then 1 else 0
    case _ => n
  }

  lemma CountedDeliver(cfg: Config, s: State, s': State, n: nat)
    requires Counted(cfg, s.proc, n) && Next(cfg, s, Deliver, s')
    ensures Counted(cfg, s'.proc, n + 1)
  {
    assert s'.proc == Accept(s.proc) && !NeedsFlush(cfg, s.proc, s.proc.page[0]) && s.proc.phase == Scanning;
    hide Next;
    AcceptCounted(cfg, s.proc, n);
  }

  // The row is accepted onto a batch that does not need a flush, or has had one.
  lemma AcceptCounted(cfg: Config, p: Proc, n: nat)
    requires p.Running? && p.page != [] && p.phase == Scanning
    requires p.counter == n && |p.batch| <= n && (p.rs.backfill ==> n == 0 || n < cfg.idealFlush)
    ensures Counted(cfg, Accept(p), n + 1)
  {
    assert p.page[0] in Accept(p).batch;
  }

  lemma CountedPersist(cfg: Config, s: State, s': State, n: nat)
    requires Counted(cfg, s.proc, n) && Protocol(cfg, s) && Next(cfg, s, Persist, s')
    ensures Counted(cfg, s'.proc, CountAfter(Persist, s', n))
  {
    assert s.proc.Running? && s.proc.phase.Published? && s'.proc == AfterPersist(s.proc);
    hide Next, Protocol;
    ProtocolFacts(cfg, s);
    if s'.proc.Running? {
      AcceptCounted(cfg, s.proc.(rs := s.proc.phase.next, phase := Scanning), n);
    }
  }

  lemma CountedOther(cfg: Config, s: State, step: Step, s': State, n: nat)
    requires Counted(cfg, s.proc, n) && Next(cfg, s, step, s') && !step.Deliver? && !step.Persist?
    ensures Counted(cfg, s'.proc, CountAfter(step, s', n))
  {
    hide First, Rest, Apply, Touch, NeedsFlush, StartOf;
  }

  lemma {:induction false} CountedAlways(cfg: Config, s: State, run: seq<Event>, i: nat)
    requires IsRun(cfg, s, run) && i <= |run|
    ensures Counted(cfg, StateAt(s, run, i).proc, Callbacks(run, i))
  {
    hide Next, Counted;
    if i == 0 {
      assert Counted(cfg, s.proc, 0) by { IdleIsCounted(cfg, s.proc, 0); }
    } else {
      var before, step, after := StateAt(s, run, i - 1), run[i - 1].step, run[i - 1].after;
      var n := Callbacks(run, i - 1);
      CountedAlways(cfg, s, run, i - 1);
      ProtocolAlways(cfg, s, run, i - 1);
      assert Callbacks(run, i) == CountAfter(step, after, n);
      if step.Deliver? {
        CountedDeliver(cfg, before, after, n);
      } else if step.Persist? {
        CountedPersist(cfg, before, after, n);
      } else {
        CountedOther(cfg, before, step, after, n);
      }
    }
  }

  lemma IdleIsCounted(cfg: Config, p: Proc, n: nat)
    requires p.Idle?
    ensures Counted(cfg, p, n)
  {
  }

  // ---- The sizes of flushes ----

  // In a backfill the batch never outgrows the ideal size, or a single row.
  lemma BackfillBatchIsSmall(cfg: Config, s: State, run: seq<Event>, i: nat)
    requires IsRun(cfg, s, run) && i <= |run|
    requires StateAt(s, run, i).proc.Running? && StateAt(s, run, i).proc.rs.backfill
    ensures |StateAt(s, run, i).proc.batch| <= AtLeastOne(cfg.idealFlush)
  {
    CountedAlways(cfg, s, run, i);
  }

  // An interim flush comes after as many callbacks as are ideal, unless every
  // timestamp is to be flushed; and outside a backfill only before a later time.
  lemma InterimFlushIsDue(cfg: Config, s: State, run: seq<Event>, i: nat)
    requires IsRun(cfg, s, run) && i < |run| && run[i].step.Commit? && !run[i].step.final
    ensures var p := StateAt(s, run, i).proc;
            && p.Running? && p.page != []
            && (p.rs.backfill || !cfg.everyTimestamp ==> Callbacks(run, i) >= cfg.idealFlush)
            && (!p.rs.backfill ==> forall b | b in p.batch :: Lt(b.time, p.page[0].time))
            && (!p.rs.backfill && cfg.everyTimestamp ==> p.batch != {})
  {
    hide Next, Tidy, Counted, OrderOk, NeedsFlush;
    var now := StateAt(s, run, i);
    CountedAlways(cfg, s, run, i);
    TidyAlways(cfg, s, run, i);
    assert Next(cfg, now, run[i].step, run[i].after);
    InterimCommit(cfg, now, run[i].step, run[i].after);
    FlushIsDue(cfg, now, Callbacks(run, i));
  }

  lemma InterimCommit(cfg: Config, s: State, step: Step, s': State)
    requires Next(cfg, s, step, s') && step.Commit? && !step.final
    ensures Scans(s) && s.proc.page != [] && NeedsFlush(cfg, s.proc, s.proc.page[0])
  {
    hide Apply, Touch;
  }

  lemma FlushIsDue(cfg: Config, s: State, n: nat)
    requires s.proc.Running? && s.proc.page != [] && NeedsFlush(cfg, s.proc, s.proc.page[0])
    requires Counted(cfg, s.proc, n) && TidyState(s)
    ensures s.proc.rs.backfill || !cfg.everyTimestamp ==> n >= cfg.idealFlush
    ensures !s.proc.rs.backfill ==> forall b | b in s.proc.batch :: Lt(b.time, s.proc.page[0].time)
    ensures s.proc.phase == Scanning && !s.proc.rs.backfill && cfg.everyTimestamp ==> s.proc.batch != {}
  {
    hide Together;
  }

  // Outside a backfill a batch that is large enough only grows by rows of its last
  // time, so a later time is flushed separately.
  lemma LargeBatchKeepsTime(cfg: Config, s: State, run: seq<Event>, i: nat)
    requires IsRun(cfg, s, run) && i < |run| && run[i].step.Deliver?
    requires var p := StateAt(s, run, i).proc;
             p.Running? && !p.rs.backfill && !cfg.everyTimestamp && p.batch != {} && Callbacks(run, i) >= cfg.idealFlush
    ensures var p := StateAt(s, run, i).proc;
            && p.page != [] && (exists b | b in p.batch :: b.time == p.page[0].time)
            && forall b | b in p.batch :: Le(b.time, p.page[0].time)
  {
    hide Next, Tidy, Counted, OrderOk, NeedsFlush;
    var now := StateAt(s, run, i);
    CountedAlways(cfg, s, run, i);
    TidyAlways(cfg, s, run, i);
    assert Next(cfg, now, Deliver, run[i].after);
    Delivered(cfg, now, run[i].after);
    GrowsByLastTime(cfg, now, Callbacks(run, i));
  }

  lemma Delivered(cfg: Config, s: State, s': State)
    requires Next(cfg, s, Deliver, s')
    ensures s.proc.Running? && s.proc.page != [] && !NeedsFlush(cfg, s.proc, s.proc.page[0])
  {
  }

  lemma GrowsByLastTime(cfg: Config, s: State, n: nat)
    requires s.proc.Running? && s.proc.page != [] && !NeedsFlush(cfg, s.proc, s.proc.page[0])
    requires !s.proc.rs.backfill && !cfg.everyTimestamp && s.proc.batch != {} && n >= cfg.idealFlush
    requires Counted(cfg, s.proc, n) && TidyState(s)
    ensures exists b | b in s.proc.batch :: b.time == s.proc.page[0].time
    ensures forall b | b in s.proc.batch :: Le(b.time, s.proc.page[0].time)
  {
    hide Together, Unread;
    var p := s.proc;
    assert p.page[0] in Elems(p.page);
    assert |p.batch| > 0;
    var b :| b in p.batch && b.time == p.epoch;
  }
}
