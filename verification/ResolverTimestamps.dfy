/** Outside a backfill, a flush never splits a timestamp, and with a flush at every
    timestamp it never joins two: in every run, whatever is retired or restarted. */
module ResolverTimestamps {
  import opened Hlc
  import opened Scan
  import opened ResolvedStamp
  import opened SelectMany
  import opened Resolver
  import opened ResolverProtocol
  import opened ResolverCoverage

  // ---- The order of the window ----

  // The batch is older than the rows still to come.
  predicate OrderOk(p: Proc, staged: set<Pos>)
    requires p.Running?
  {
    && Sorted(ByTime, p.page)
    && (forall b | b in p.batch :: Le(b.time, p.epoch))
    && (forall y | y in Elems(p.page) + Unread(p, staged) :: Le(p.epoch, y.time))
    && (forall x, y | x in Elems(p.page) && y in Unread(p, staged) :: Le(x.time, y.time))
  }

  // A row beyond the window is not among its unread rows.
  lemma UnreadStage(q: Proc, staged: set<Pos>, p: Pos)
    requires q.Running? && !Le(p.time, q.rs.proposed)
    ensures Unread(q, staged + {p}) == Unread(q, staged)
  {
  }

  lemma StartWindow(rs: Stamp, x: Pos)
    requires !rs.backfill && rs.offset.table.None?
    ensures x in Rest(rs, StartOf(rs), {x}) <==> Le(StartOf(rs).time, x.time) && Le(x.time, rs.proposed)
  {
  }

  lemma ReadPageOrder(cfg: Config, s: State)
    requires Scans(s) && s.proc.scan.NeedPage? && s.proc.page == [] && cfg.selectLimit >= 1 && !s.proc.rs.backfill
    requires OrderOk(s.proc, s.staged) && Le(s.proc.rs.committed, s.proc.cur.time)
    ensures OrderOk(PageRead(cfg, s), s.staged)
  {
    hide First, Window, Sorted;
    var p, p' := s.proc, PageRead(cfg, s);
    PageKeepsPending(cfg, s);
    PageSplitsRest(p.rs, p.cur, s.staged, cfg.selectLimit);
    var rest, rest' := Unread(p, s.staged), Unread(p', s.staged);
    assert rest' + Elems(p'.page) <= rest;
    if p'.page != [] {
      PageBeforeRest(p.rs, p'.page, s.staged);
      assert rest' <= Rest(p.rs, OffsetOf(p'.page[|p'.page| - 1]), s.staged);
    }
    assert forall y | y in rest :: Le(p.epoch, y.time);
    hide Rest, Unread;
  }

  lemma PageBeforeRest(rs: Stamp, page: seq<Pos>, staged: set<Pos>)
    requires !rs.backfill && page != [] && Sorted(ByTime, page)
    ensures forall x, y | x in Elems(page) && y in Rest(rs, OffsetOf(page[|page| - 1]), staged) :: Le(x.time, y.time)
  {
    var last := page[|page| - 1];
    forall x | x in page ensures Le(x.time, last.time) {
      var i :| 0 <= i < |page| && page[i] == x;
      assert i < |page| - 1 ==> PosLt(ByTime, page[i], page[|page| - 1]);
    }
  }

  lemma AcceptKeepsOrder(p: Proc, staged: set<Pos>)
    requires p.Running? && p.page != [] && OrderOk(p, staged)
    ensures OrderOk(Accept(p), staged)
  {
    hide Rest;
    var p' := Accept(p);
    assert p.page == [p.page[0]] + p'.page;
    assert p.page[0] in Elems(p.page);
    assert Unread(p', staged) == Unread(p, staged);
    forall y | y in p'.page ensures Le(p'.epoch, y.time) {
      var i :| 0 <= i < |p'.page| && p'.page[i] == y;
      assert PosLt(ByTime, p.page[0], p.page[i + 1]);
    }
  }

  // Everything not flushed by an interim flush is strictly later than the batch.
  lemma FlushBoundary(cfg: Config, s: State)
    requires Scans(s) && !s.proc.rs.backfill && OrderOk(s.proc, s.staged)
    requires s.proc.page != [] && NeedsFlush(cfg, s.proc, s.proc.page[0])
    ensures forall b, y | b in s.proc.batch && y in Elems(s.proc.page) + Unread(s.proc, s.staged) :: Lt(b.time, y.time)
  {
    hide Unread;
    var p := s.proc;
    assert p.page[0] in Elems(p.page);
    assert forall i | 0 < i < |p.page| :: PosLt(ByTime, p.page[0], p.page[i]);
  }

  lemma SameOrder(p: Proc, rs: Stamp, staged: set<Pos>)
    requires p.Running? && (rs.backfill, rs.committed, rs.proposed) == (p.rs.backfill, p.rs.committed, p.rs.proposed)
    requires OrderOk(p, staged)
    ensures OrderOk(p.(rs := rs, phase := Scanning), staged)
  {
    hide Window;
    assert forall o, rows :: Rest(rs, o, rows) == Rest(p.rs, o, rows);
  }

  lemma DeleteOrder(p: Proc, staged: set<Pos>, rows: set<Pos>)
    requires p.Running? && OrderOk(p, staged) && Unread(p, staged - rows) <= Unread(p, staged)
    ensures OrderOk(p, staged - rows)
  {
    hide Unread, Sorted;
  }

  lemma UnreadDelete(p: Proc, staged: set<Pos>, rows: set<Pos>)
    requires p.Running?
    ensures Unread(p, staged - rows) == Unread(p, staged) - rows
  {
  }

  // ---- Whole timestamps ----

  // Rows of one time are pending together, or no longer staged.
  predicate Together(pending: set<Pos>, log: set<Pos>, staged: set<Pos>, end: Time) {
    && (forall y | y in pending :: Le(y.time, end))
    && (forall y, z | y in pending && z in log && z.time == y.time :: z in pending || z !in staged)
  }

  ghost predicate Tidy(p: Proc, log: set<Pos>, staged: set<Pos>) {
    p.Running? && !p.rs.backfill ==> OrderOk(p, staged) && Together(Pending(p, staged), log, staged, p.rs.proposed)
  }

  ghost predicate TidyState(s: State) {
    Tidy(s.proc, s.log.Keys, s.staged)
  }

  lemma TidyStage(cfg: Config, s: State, p: Pos, d: Data, s': State)
    requires Safe(cfg, s) && TidyState(s) && Next(cfg, s, StageRow(p, d), s')
    ensures TidyState(s')
  {
    hide Protocol, Coverage, OrderOk;
    ProtocolFacts(cfg, s);
    assert s'.log.Keys == s.log.Keys + {p};
    if s.proc.Running? && !s.proc.rs.backfill {
      UnreadStage(s.proc, s.staged, p);
      hide Unread;
      SameOrderStaged(s.proc, s.staged, s'.staged);
    }
  }

  lemma SameOrderStaged(p: Proc, a: set<Pos>, b: set<Pos>)
    requires p.Running? && Unread(p, a) == Unread(p, b) && OrderOk(p, a)
    ensures OrderOk(p, b)
  {
  }

  lemma TidyDelete(cfg: Config, s: State, step: Step, s': State)
    requires TidyState(s) && Next(cfg, s, step, s') && step.DeleteStaged?
    ensures TidyState(s')
  {
    hide OrderOk;
    if s.proc.Running? && !s.proc.rs.backfill {
      UnreadDelete(s.proc, s.staged, step.rows);
      hide Unread;
      DeleteOrder(s.proc, s.staged, step.rows);
    }
  }

  lemma TidyBegin(cfg: Config, s: State, s': State)
    requires Safe(cfg, s) && TidyState(s) && Next(cfg, s, Begin, s')
    ensures TidyState(s')
  {
    hide Protocol;
    ProtocolFacts(cfg, s);
    var rs := s.chan[0];
    var pending := Rest(rs, StartOf(rs), s.staged);
    assert RowsOk(s.log.Keys, s.staged, s.flushed);
    if !rs.backfill {
      forall x ensures x in pending <==> x in s.staged && Le(StartOf(rs).time, x.time) && Le(x.time, rs.proposed) {
        RestPointwise(rs, StartOf(rs), s.staged, x);
        StartWindow(rs, x);
      }
      hide Rest, StartOf, Coverage;
      assert Pending(s'.proc, s'.staged) == pending;
    }
  }

  lemma TidyReadPage(cfg: Config, s: State, s': State)
    requires Safe(cfg, s) && TidyState(s) && Next(cfg, s, ReadPage, s')
    ensures TidyState(s')
  {
    hide Protocol;
    ProtocolFacts(cfg, s);
    PageKeepsPending(cfg, s);
    if !s.proc.rs.backfill {
      ReadPageOrder(cfg, s);
    }
    hide Coverage, OrderOk, Together, Rest, First, Pending;
  }

  lemma TidyDeliver(cfg: Config, s: State, s': State)
    requires Safe(cfg, s) && TidyState(s) && Next(cfg, s, Deliver, s')
    ensures TidyState(s')
  {
    hide Protocol;
    AcceptKeepsPending(s.proc, s.staged);
    if !s.proc.rs.backfill {
      AcceptKeepsOrder(s.proc, s.staged);
    }
    hide OrderOk, Together, Pending;
  }

  lemma TidyEndPage(cfg: Config, s: State, s': State)
    requires TidyState(s) && Next(cfg, s, EndPage, s')
    ensures TidyState(s')
  {
    assert Unread(s'.proc, s'.staged) == Unread(s.proc, s.staged);
    hide Unread, Together;
  }

  lemma TidyCommit(cfg: Config, s: State, step: Step, s': State)
    requires TidyState(s) && Next(cfg, s, step, s') && step.Commit?
    ensures TidyState(s')
  {
    if !step.final && !s.proc.rs.backfill {
      FlushBoundary(cfg, s);
    }
    hide Rest, Apply, Touch;
    assert Unread(s'.proc, s'.staged) == Unread(s.proc, s.staged);
    assert step.final ==> Pending(s'.proc, s'.staged) == {};
    hide Unread;
  }

  lemma TidyPersist(cfg: Config, s: State, s': State)
    requires Safe(cfg, s) && TidyState(s) && Next(cfg, s, Persist, s')
    ensures TidyState(s')
  {
    hide Protocol;
    ProtocolFacts(cfg, s);
    var p := s.proc;
    if !p.phase.finished && !p.rs.backfill {
      var q := p.(rs := p.phase.next, phase := Scanning);
      SameWindow(p, p.phase.next, s.staged);
      AcceptKeepsPending(q, s.staged);
      SameOrder(p, p.phase.next, s.staged);
      AcceptKeepsOrder(q, s.staged);
    }
    hide Coverage, OrderOk, Together, Rest, Unread, Pending;
  }

  predicate LeavesWindow(step: Step) {
    step.Mark? || step.Propose? || step.Resend? || step.Observe? || step.RestartReader? || step.Record?
    || step.Publish? || step.SampleRetirement? || step.Restart? || step.Crash?
  }

  lemma WindowFrame(cfg: Config, s: State, step: Step, s': State)
    requires Next(cfg, s, step, s') && LeavesWindow(step) && s'.proc.Running?
    ensures s.proc.Running? && s'.proc == s.proc.(phase := s'.proc.phase) && s'.staged == s.staged && s'.log == s.log
  {
  }

  lemma TidyOther(cfg: Config, s: State, step: Step, s': State)
    requires TidyState(s) && Next(cfg, s, step, s') && LeavesWindow(step)
    ensures TidyState(s')
  {
    hide Next;
    if s'.proc.Running? {
      WindowFrame(cfg, s, step, s');
      assert Unread(s'.proc, s'.staged) == Unread(s.proc, s.staged);
      hide Unread, Together;
    }
  }

  lemma TidyStep(cfg: Config, s: State, step: Step, s': State)
    requires Safe(cfg, s) && TidyState(s) && Next(cfg, s, step, s')
    ensures TidyState(s')
  {
    hide Next, Safe, TidyState;
    match step
    case StageRow(p, d) => TidyStage(cfg, s, p, d, s');
    case DeleteStaged(_, _, _) => TidyDelete(cfg, s, step, s');
    case Begin => TidyBegin(cfg, s, s');
    case ReadPage => TidyReadPage(cfg, s, s');
    case Deliver => TidyDeliver(cfg, s, s');
    case EndPage => TidyEndPage(cfg, s, s');
    case Commit(_, _, _) => TidyCommit(cfg, s, step, s');
    case Persist => TidyPersist(cfg, s, s');
    case _ => TidyOther(cfg, s, step, s');
  }

  lemma {:induction false} TidyAlways(cfg: Config, s: State, run: seq<Event>, i: nat)
    requires IsRun(cfg, s, run) && i <= |run|
    ensures TidyState(StateAt(s, run, i))
  {
    hide Next, Safe, Tidy;
    if i == 0 {
      assert TidyState(s) by { NothingToTidy(s); }
    } else {
      TidyAlways(cfg, s, run, i - 1);
      SafeAlways(cfg, s, run, i - 1);
      TidyStep(cfg, StateAt(s, run, i - 1), run[i - 1].step, run[i - 1].after);
    }
  }

  lemma NothingToTidy(s: State)
    requires Init(s)
    ensures TidyState(s)
  {
  }

  // A flush that contains a row contains every staged row of that time.
  lemma WholeTimestamps(cfg: Config, s: State, run: seq<Event>, i: nat, x: Pos, z: Pos)
    requires IsRun(cfg, s, run) && i < |run| && run[i].step.Commit?
    requires var now := StateAt(s, run, i);
             now.proc.Running? && !now.proc.rs.backfill && x in now.proc.batch && z in now.log && z.time == x.time
    ensures var now := StateAt(s, run, i);
            z in now.proc.batch || z !in now.staged
  {
    hide Next, TidyState;
    TidyAlways(cfg, s, run, i);
    var now := StateAt(s, run, i);
    assert Next(cfg, now, run[i].step, run[i].after);
    CommitWhole(cfg, now, run[i].step, run[i].after, x, z);
  }

  lemma CommitWhole(cfg: Config, s: State, step: Step, s': State, x: Pos, z: Pos)
    requires TidyState(s) && Next(cfg, s, step, s') && step.Commit? && !s.proc.rs.backfill
    requires x in s.proc.batch && z in s.log && z.time == x.time
    ensures z in s.proc.batch || z !in s.staged
  {
    if !step.final {
      FlushBoundary(cfg, s);
    }
    hide OrderOk;
    assert x in Pending(s.proc, s.staged);
  }

  // ---- One timestamp per flush ----

  ghost predicate OneTime(cfg: Config, s: State) {
    s.proc.Running? && cfg.everyTimestamp && !s.proc.rs.backfill ==>
      forall b | b in s.proc.batch :: b.time == ZERO || b.time == s.proc.epoch
  }

  lemma OneTimeStep(cfg: Config, s: State, step: Step, s': State)
    requires Safe(cfg, s) && TidyState(s) && OneTime(cfg, s) && Next(cfg, s, step, s')
    ensures OneTime(cfg, s')
  {
    hide Next, Safe, OneTime, TidyState;
    if step.Deliver? {
      OneTimeDeliver(cfg, s, s');
    } else if step.Persist? {
      OneTimePersist(cfg, s, s');
    } else {
      OneTimeOther(cfg, s, step, s');
    }
  }

  lemma OneTimeOther(cfg: Config, s: State, step: Step, s': State)
    requires OneTime(cfg, s) && Next(cfg, s, step, s') && !step.Deliver? && !step.Persist?
    ensures OneTime(cfg, s')
  {
    BatchFrame(cfg, s, step, s');
    hide Next;
  }

  lemma OneTimeDeliver(cfg: Config, s: State, s': State)
    requires TidyState(s) && OneTime(cfg, s) && Next(cfg, s, Deliver, s')
    ensures OneTime(cfg, s')
  {
    hide Together, Unread;
    assert s.proc.page[0] in Elems(s.proc.page);
  }

  lemma OneTimePersist(cfg: Config, s: State, s': State)
    requires Safe(cfg, s) && OneTime(cfg, s) && Next(cfg, s, Persist, s')
    ensures OneTime(cfg, s')
  {
    hide Protocol, Coverage;
    ProtocolFacts(cfg, s);
  }

  lemma BatchFrame(cfg: Config, s: State, step: Step, s': State)
    requires Next(cfg, s, step, s') && !step.Deliver? && !step.Persist?
    ensures s'.proc.Running? ==>
              s'.proc.batch == {}
              || (&& s.proc.Running? && s'.proc.batch == s.proc.batch
                  && s'.proc.epoch == s.proc.epoch && s'.proc.rs == s.proc.rs)
  {
    hide First, Rest, Apply, Touch;
  }

  lemma {:induction false} OneTimeAlways(cfg: Config, s: State, run: seq<Event>, i: nat)
    requires IsRun(cfg, s, run) && i <= |run|
    ensures OneTime(cfg, StateAt(s, run, i))
  {
    hide Next, Safe, TidyState;
    if i > 0 {
      OneTimeAlways(cfg, s, run, i - 1);
      SafeAlways(cfg, s, run, i - 1);
      TidyAlways(cfg, s, run, i - 1);
      OneTimeStep(cfg, StateAt(s, run, i - 1), run[i - 1].step, run[i - 1].after);
    }
  }

  // With a flush at every timestamp, the rows of a flush at non-zero times share
  // their time.
  lemma EveryTimestampFlushesOneTime(cfg: Config, s: State, run: seq<Event>, i: nat, x: Pos, y: Pos)
    requires cfg.everyTimestamp && IsRun(cfg, s, run) && i < |run| && run[i].step.Commit?
    requires var now := StateAt(s, run, i);
             now.proc.Running? && !now.proc.rs.backfill && x in now.proc.batch && y in now.proc.batch
    requires x.time != ZERO && y.time != ZERO
    ensures x.time == y.time
  {
    OneTimeAlways(cfg, s, run, i);
  }
}
