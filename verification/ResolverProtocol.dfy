/** The hand-over between the reader, the processor and the checkpoint: one stamp
    is outstanding at a time and the consistent point only ever increases. */
module ResolverProtocol {
  import opened Hlc
  import opened Wrappers
  import opened ResolvedStamp
  import opened Resolver

  predicate StampOk(cfg: Config, marks: map<Time, bool>, x: Stamp) {
    && Le(ZERO, x.committed)
    && (x.committed == ZERO || (x.committed in marks && marks[x.committed]))
    && (x.proposed == ZERO ==> x.offset == NO_OFFSET && !x.backfill)
    && (x.proposed != ZERO ==> x.proposed in marks && Lt(x.committed, x.proposed))
    && (cfg.transactional ==> !x.backfill)
    && (!x.backfill ==> x.offset.table.None?)
  }

  // x proposes the next unapplied mark after the committed consistent point.
  ghost predicate Fresh(marks: map<Time, bool>, cp: Stamp, x: Stamp) {
    && cp.proposed == ZERO && x.committed == cp.committed && x.offset == NO_OFFSET
    && x.proposed != ZERO
    && forall m | m in marks && !marks[m] && Le(cp.committed, m) :: Le(x.proposed, m)
  }

  // x is the stamp to be processed next: the partial consistent point itself or a
  // fresh proposal.
  ghost predicate InForce(cfg: Config, marks: map<Time, bool>, cp: Stamp, x: Stamp) {
    && StampOk(cfg, marks, x)
    && ((x == cp && cp.proposed != ZERO) || Fresh(marks, cp, x))
  }

  // A window is being processed and its last stamp has not been published.
  predicate Busy(s: State) {
    s.proc.Running? && !(s.proc.phase.Published? && s.proc.phase.finished)
  }

  ghost predicate Handover(cfg: Config, s: State) {
    && s.seen <= s.version
    && (if Busy(s) then s.chan == [] && s.resumeFrom.None? && (s.cp.proposed == ZERO ==> s.seen == s.version)
        else if s.resumeFrom.Some? then s.chan == [] && s.resumeFrom.value == s.cp && s.seen == s.version
        else if s.chan != [] then
          |s.chan| == 1 && InForce(cfg, s.marks, s.cp, s.chan[0]) && (s.cp.proposed == ZERO ==> s.seen == s.version)
        else s.cp.proposed == ZERO && s.seen < s.version)
  }

  ghost predicate ProcOk(cfg: Config, s: State) {
    match s.proc
    case Idle => s.memo == s.cp
    case Running(rs, cur, scan, page, batch, epoch, counter, phase) =>
      && StampOk(cfg, s.marks, rs) && rs.proposed != ZERO
      && (scan.Exhausted? || scan.NeedPage? ==> page == [])
      && (phase != Scanning ==> batch == {})
      && match phase
         case Scanning => s.memo == s.cp && InForce(cfg, s.marks, s.cp, rs)
         case Flushed(final) =>
           && s.memo == s.cp && InForce(cfg, s.marks, s.cp, rs)
           && (final <==> page == []) && (final ==> scan.Exhausted?)
         case Recorded =>
           && s.memo == s.cp && InForce(cfg, s.marks, s.cp, rs)
           && page == [] && scan.Exhausted? && s.marks[rs.proposed]
         case Published(next, finished) =>
           && s.cp == next && s.memo.Less(s.cp)
           && (if finished then page == [] && scan.Exhausted? && Ok(next) == rs.NewCommitted()
               else page != [] && next == rs.NewProgress(cur))
  }

  ghost predicate Protocol(cfg: Config, s: State) {
    && (forall m | m in s.marks :: Lt(ZERO, m))
    && StampOk(cfg, s.marks, s.cp) && StampOk(cfg, s.marks, s.memo)
    && Handover(cfg, s)
    && ProcOk(cfg, s)
  }

  lemma ProtocolInit(cfg: Config, s: State)
    requires Init(s)
    ensures Protocol(cfg, s)
  {
  }

  lemma ProtocolRows(cfg: Config, s: State, step: Step, s': State)
    requires Protocol(cfg, s) && Next(cfg, s, step, s')
    requires step.StageRow? || step.SampleRetirement? || step.DeleteStaged?
    ensures Protocol(cfg, s')
  {
  }

  lemma ProtocolRestart(cfg: Config, s: State, step: Step, s': State)
    requires Protocol(cfg, s) && Next(cfg, s, step, s')
    requires step.Restart? || step.Crash?
    ensures Protocol(cfg, s')
  {
  }

  lemma ProtocolMark(cfg: Config, s: State, step: Step, s': State)
    requires Protocol(cfg, s) && Next(cfg, s, step, s')
    requires step.Mark?
    ensures Protocol(cfg, s')
  {
    forall x | StampOk(cfg, s.marks, x) ensures StampOk(cfg, s'.marks, x) {
    }
    forall x | Fresh(s.marks, s.cp, x) && StampOk(cfg, s.marks, x) ensures Fresh(s'.marks, s.cp, x) {
    }
  }

  lemma ProtocolPropose(cfg: Config, s: State, step: Step, s': State)
    requires Protocol(cfg, s) && Next(cfg, s, step, s') && step.Propose?
    ensures Protocol(cfg, s')
  {
    assert ProposeStep(cfg, s, step.time, step.backfill, s');
    hide Next;
  }

  lemma ProtocolResend(cfg: Config, s: State, s': State)
    requires Protocol(cfg, s) && Next(cfg, s, Resend, s')
    ensures Protocol(cfg, s')
  {
    assert s' == s.(chan := s.chan + [s.cp], resumeFrom := None);
    hide Next;
  }

  lemma ProtocolReader(cfg: Config, s: State, step: Step, s': State)
    requires Protocol(cfg, s) && Next(cfg, s, step, s') && (step.Observe? || step.RestartReader?)
    ensures Protocol(cfg, s')
  {
    hide Next;
    ObserveFrame(cfg, s, step, s');
  }

  lemma ObserveFrame(cfg: Config, s: State, step: Step, s': State)
    requires Next(cfg, s, step, s') && (step.Observe? || step.RestartReader?)
    ensures (s'.marks, s'.cp, s'.memo, s'.proc, s'.chan) == (s.marks, s.cp, s.memo, s.proc, s.chan)
    ensures s'.version == s.version && s'.seen == s.version
    ensures s'.resumeFrom == if step.Observe? && s.cp.proposed != ZERO then s.resumeFrom else Some(s.cp)
    ensures step.RestartReader? ==> s.resumeFrom.Some? && s.resumeFrom.value.proposed == ZERO
    ensures step.Observe? ==> s.seen < s.version
  {
  }

  lemma ProtocolScan(cfg: Config, s: State, step: Step, s': State)
    requires Protocol(cfg, s) && Next(cfg, s, step, s')
    requires step.Begin? || step.ReadPage? || step.Deliver? || step.EndPage?
    ensures Protocol(cfg, s')
  {
  }

  lemma ProtocolCommit(cfg: Config, s: State, step: Step, s': State)
    requires Protocol(cfg, s) && Next(cfg, s, step, s')
    requires step.Commit? || step.Record?
    ensures Protocol(cfg, s')
  {
  }

  lemma ProtocolPublish(cfg: Config, s: State, step: Step, s': State)
    requires Protocol(cfg, s) && Next(cfg, s, step, s')
    requires step.Publish?
    ensures Protocol(cfg, s')
  {
  }

  lemma ProtocolPersist(cfg: Config, s: State, step: Step, s': State)
    requires Protocol(cfg, s) && Next(cfg, s, step, s')
    requires step.Persist?
    ensures Protocol(cfg, s')
  {
  }

  lemma ProtocolStep(cfg: Config, s: State, step: Step, s': State)
    requires Protocol(cfg, s) && Next(cfg, s, step, s')
    ensures Protocol(cfg, s')
  {
    hide Next, Protocol;
    match step
    case StageRow(_, _) => ProtocolRows(cfg, s, step, s');
    case Mark(_) => ProtocolMark(cfg, s, step, s');
    case Propose(_, _) => ProtocolPropose(cfg, s, step, s');
    case Resend => ProtocolResend(cfg, s, s');
    case Observe => ProtocolReader(cfg, s, step, s');
    case RestartReader => ProtocolReader(cfg, s, step, s');
    case Begin => ProtocolScan(cfg, s, step, s');
    case ReadPage => ProtocolScan(cfg, s, step, s');
    case Deliver => ProtocolScan(cfg, s, step, s');
    case EndPage => ProtocolScan(cfg, s, step, s');
    case Commit(_, _, _) => ProtocolCommit(cfg, s, step, s');
    case Record => ProtocolCommit(cfg, s, step, s');
    case Publish => ProtocolPublish(cfg, s, step, s');
    case Persist => ProtocolPersist(cfg, s, step, s');
    case SampleRetirement => ProtocolRows(cfg, s, step, s');
    case DeleteStaged(_, _, _) => ProtocolRows(cfg, s, step, s');
    case Restart => ProtocolRestart(cfg, s, step, s');
    case Crash => ProtocolRestart(cfg, s, step, s');
  }

  lemma {:induction false} ProtocolAlways(cfg: Config, s: State, run: seq<Event>, i: nat)
    requires IsRun(cfg, s, run) && i <= |run|
    ensures Protocol(cfg, StateAt(s, run, i))
  {
    hide Next, Protocol;
    if i == 0 {
      ProtocolInit(cfg, s);
    } else {
      ProtocolAlways(cfg, s, run, i - 1);
      ProtocolStep(cfg, StateAt(s, run, i - 1), run[i - 1].step, run[i - 1].after);
    }
  }

  // ---- Consequences over whole runs ----

  // Neither "going backwards", "stalled" nor a missing proposal can be reported
  // when a processed stamp is handed to the checkpoint.
  lemma PublishNeverFails(cfg: Config, s: State, run: seq<Event>, i: nat)
    requires IsRun(cfg, s, run) && i <= |run|
    requires AboutToPublish(StateAt(s, run, i))
    ensures var now := StateAt(s, run, i);
            NextStamp(now.proc).Ok? && now.cp.Less(NextStamp(now.proc).value)
  {
    hide Next, IsRun;
    ProtocolAlways(cfg, s, run, i);
  }

  // Nor does extending the consistent point by the selected mark ever fail. What is
  // extended is no backfill: whether the next window is one is decided anew.
  lemma ProposeNeverFails(cfg: Config, s: State, run: seq<Event>, i: nat, t: Time)
    requires IsRun(cfg, s, run) && i <= |run|
    requires var now := StateAt(s, run, i);
             now.resumeFrom.Some? && now.resumeFrom.value.proposed == ZERO
             && SelectsTimestamp(now.marks, now.resumeFrom.value.committed, t)
    ensures var p := StateAt(s, run, i).resumeFrom.value.NewProposed(t);
            p.Ok? && p.value.NewCommitted().Ok? && Lt(p.value.committed, p.value.proposed) && !p.value.backfill
  {
    hide Next, IsRun;
    ProtocolAlways(cfg, s, run, i);
  }

  // At most one stamp is under way, and it is what the consistent point calls for.
  lemma OneStampOutstanding(cfg: Config, s: State, run: seq<Event>, i: nat)
    requires IsRun(cfg, s, run) && i <= |run|
    ensures var now := StateAt(s, run, i);
            && |now.chan| + (if Busy(now) then 1 else 0) + (if now.resumeFrom.Some? then 1 else 0) <= 1
            && (now.chan != [] ==> InForce(cfg, now.marks, now.cp, now.chan[0]))
  {
    hide Next, IsRun;
    ProtocolAlways(cfg, s, run, i);
  }

  lemma OnlyPersistStores(cfg: Config, s: State, step: Step, s': State)
    requires Next(cfg, s, step, s')
    ensures s'.memo == if step.Persist? then s.proc.phase.next else s.memo
  {
  }

  // The checkpoint in the database never runs ahead of memory and only increases.
  lemma CheckpointIncreases(cfg: Config, s: State, run: seq<Event>, i: nat)
    requires IsRun(cfg, s, run) && i < |run|
    ensures var now, after := StateAt(s, run, i), run[i].after;
            && (now.memo == now.cp || now.memo.Less(now.cp))
            && (after.memo == now.memo || now.memo.Less(after.memo))
  {
    ProtocolAlways(cfg, s, run, i);
    var now := StateAt(s, run, i);
    OnlyPersistStores(cfg, now, run[i].step, run[i].after);
    assert run[i].step.Persist? ==> now.proc.Running? && now.proc.phase.Published?;
    hide Next;
  }
}
