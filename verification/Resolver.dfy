/** The resolver as a state machine: staging, marking, reading, flushing,
    checkpointing, retiring, restarting and crashing, one atomic step at a time. */
module Resolver {
  import opened Hlc
  import opened Scan
  import opened Wrappers
  import opened ResolvedStamp
  import opened SelectMany

  datatype Data = Upsert(columns: string) | Delete

  // A row of a target table.
  type RowKey = (nat, string)

  function KeyOf(p: Pos): RowKey {
    (p.table, p.key)
  }

  datatype Config = Config(
    selectLimit: nat,          // SelectBatchSize
    idealFlush: int,           // IdealFlushBatchSize
    everyTimestamp: bool,      // FlushEveryTimestamp
    transactional: bool)       // serial events, never a backfill

  // Where the scan of the window stands between callbacks.
  datatype Scanner =
    | NeedPage
    | InPage(last: Pos, full: bool)
    | Exhausted

  datatype Phase =
    | Scanning
    | Flushed(final: bool)                   // the target transaction has committed
    | Recorded                               // the meta table says the window is applied
    | Published(next: Stamp, finished: bool) // the in-memory point has moved

  datatype Proc =
    | Idle
    | Running(
        rs: Stamp,
        cur: Offset,
        scan: Scanner,
        page: seq<Pos>,        // rows of the page not yet given to the callback
        batch: set<Pos>,       // toApply
        epoch: Time,
        counter: int,          // flushCounter
        phase: Phase)

  datatype State = State(
    // databases
    staged: set<Pos>,              // rows in the staging tables
    target: map<RowKey, Data>,     // rows in the target tables
    marks: map<Time, bool>,        // meta table: resolved timestamp -> applied
    memo: Stamp,                   // persisted consistent point
    // memory
    cp: Stamp, version: nat,       // consistent point and its notification count
    resumeFrom: Option<Stamp>, seen: nat,
    chan: seq<Stamp>,
    proc: Proc,
    retirements: Time, sample: Time,
    // history, read by no step
    log: map<Pos, Data>,           // every row ever staged
    flushed: set<Pos>,             // rows of committed flushes
    applied: map<RowKey, Time>,    // time of the row each target row shows
    top: Time)                     // latest window end flushed so far

  ghost predicate Init(s: State) {
    s == State({}, map[], map[], ZERO_STAMP, ZERO_STAMP, 0, Some(ZERO_STAMP), 0, [], Idle, ZERO, ZERO,
               map[], {}, map[], ZERO)
  }

  // ---- The tables ----

  predicate NewestMark(marks: map<Time, bool>, t: Time) {
    forall m | m in marks :: Lt(m, t)
  }

  // SELECT ... WHERE time >= after AND target_applied_at IS NULL ORDER BY time LIMIT 1
  predicate SelectsTimestamp(marks: map<Time, bool>, after: Time, t: Time) {
    && t in marks && !marks[t] && Le(after, t)
    && forall m | m in marks && !marks[m] && Le(after, m) :: Le(t, m)
  }

  // ---- Applying a batch ----

  predicate IsNewest(b: set<Pos>, k: RowKey, p: Pos) {
    p in b && KeyOf(p) == k && forall x | x in b && KeyOf(x) == k :: Le(x.time, p.time)
  }

  function Keys(b: set<Pos>): set<RowKey> {
    set p | p in b :: KeyOf(p)
  }

  lemma NewestExists(b: set<Pos>, k: RowKey)
    requires k in Keys(b)
    ensures exists p :: IsNewest(b, k, p)
  {
    var p :| p in b && KeyOf(p) == k;
    if !IsNewest(b, k, p) {
      var x :| x in b && KeyOf(x) == k && Lt(p.time, x.time);
      assert KeyOf(x) in Keys(b - {p});
      NewestExists(b - {p}, k);
      var q :| IsNewest(b - {p}, k, q);
      assert IsNewest(b, k, q);
    }
  }

  lemma NewestUnique(b: set<Pos>, k: RowKey, p: Pos, q: Pos)
    requires IsNewest(b, k, p) && IsNewest(b, k, q)
    ensures p == q
  {
  }

  function Newest(b: set<Pos>, k: RowKey): (p: Pos)
    requires k in Keys(b)
    ensures IsNewest(b, k, p)
  {
    NewestExists(b, k);
    var p :| p in b && IsNewest(b, k, p);
    p
  }

  function SetRow(target: map<RowKey, Data>, k: RowKey, d: Data): map<RowKey, Data> {
    if d.Upsert? then target[k := d] else target - {k}
  }

  // The applier keeps the latest mutation of each key and upserts or deletes it.
  function Apply(target: map<RowKey, Data>, log: map<Pos, Data>, b: set<Pos>): map<RowKey, Data>
    requires b <= log.Keys
  {
    map k | k in target.Keys + Keys(b) && (k in Keys(b) ==> log[Newest(b, k)].Upsert?)
      :: if k in Keys(b) then log[Newest(b, k)] else target[k]
  }

  function Touch(applied: map<RowKey, Time>, b: set<Pos>): map<RowKey, Time> {
    map k | k in applied.Keys + Keys(b) :: if k in Keys(b) then Newest(b, k).time else applied[k]
  }

  // The reference: run the log once, in time order, up to and including t.
  ghost function UpTo(log: map<Pos, Data>, t: Time): set<Pos> {
    set p | p in log && Le(p.time, t)
  }

  function Replay(log: map<Pos, Data>, rows: seq<Pos>): map<RowKey, Data>
    requires forall p | p in rows :: p in log
  {
    if rows == [] then map[]
    else
      var p := rows[|rows| - 1];
      SetRow(Replay(log, rows[..|rows| - 1]), KeyOf(p), log[p])
  }

  ghost function ReplayUpTo(log: map<Pos, Data>, t: Time): map<RowKey, Data> {
    AllSpec(ByTime, UpTo(log, t));
    assert forall p | p in All(ByTime, UpTo(log, t)) :: p in Elems(All(ByTime, UpTo(log, t)));
    Replay(log, All(ByTime, UpTo(log, t)))
  }

  // ---- The scan ----

  function IdxOf(o: Offset): int {
    if o.table.None? then -1 else o.table.value
  }

  // Rows of the window of rs after an offset.
  function Rest(rs: Stamp, o: Offset, rows: set<Pos>): set<Pos> {
    Window(rs.backfill, IdxOf(o), rs.committed, rs.proposed, o.time, o.key, rows)
  }

  function OffsetOf(p: Pos): Offset {
    Offset(p.key, Some(p.table), p.time)
  }

  // The cursor a scan for rs starts with.
  function StartOf(rs: Stamp): Offset {
    rs.offset.(time := Max(rs.committed, rs.offset.time))
  }

  predicate NeedsFlush(cfg: Config, p: Proc, x: Pos)
    requires p.Running?
  {
    if p.rs.backfill then p.counter >= cfg.idealFlush
    else if cfg.everyTimestamp then p.epoch != ZERO && Lt(p.epoch, x.time)
    else p.counter >= cfg.idealFlush && Lt(p.epoch, x.time)
  }

  // The body of the callback after its flush check.
  function Accept(p: Proc): Proc
    requires p.Running? && p.page != []
  {
    p.(page := p.page[1..], batch := p.batch + {p.page[0]}, epoch := p.page[0].time, counter := p.counter + 1)
  }

  // ---- Steps ----

  datatype Step =
    | StageRow(row: Pos, data: Data)
    | Mark(time: Time)
    | Propose(time: Time, backfill: bool)
    | Resend
    | Observe
    | RestartReader
    | Begin
    | ReadPage
    | Deliver
    | EndPage
    | Commit(final: bool, shown: map<RowKey, Data>, times: map<RowKey, Time>)
    | Record
    | Publish
    | Persist
    | SampleRetirement
    | DeleteStaged(table: nat, rows: set<Pos>, end: Time)
    | Restart
    | Crash

  ghost predicate Next(cfg: Config, s: State, step: Step, s': State) {
    match step
    case StageRow(p, d) =>
      && Le(ZERO, p.time) && NewestMark(s.marks, p.time)
      && s' == s.(staged := s.staged + {p}, log := s.log[p := d])
    case Mark(t) =>
      && Lt(ZERO, t)
      && s' == if NewestMark(s.marks, t) then s.(marks := s.marks[t := false]) else s
    case Propose(t, backfill) => ProposeStep(cfg, s, t, backfill, s')
    case Resend =>
      && s.resumeFrom.Some? && s.resumeFrom.value.proposed != ZERO
      && s' == s.(chan := s.chan + [s.resumeFrom.value], resumeFrom := None)
    case Observe =>
      && s.seen < s.version
      && s' == if s.cp.proposed == ZERO
               then s.(seen := s.version, resumeFrom := Some(s.cp), retirements := s.cp.committed)
               else s.(seen := s.version)
    case RestartReader =>
      && s.resumeFrom.Some? && s.resumeFrom.value.proposed == ZERO
      && s' == FreshReader(s)
    case Begin =>
      && s.proc.Idle? && s.chan != []
      && s' == s.(chan := s.chan[1..],
                  proc := Running(s.chan[0], StartOf(s.chan[0]), NeedPage, [], {}, ZERO, 0, Scanning))
    case ReadPage => Scans(s) && s.proc.scan.NeedPage? && cfg.selectLimit != 0 && s' == s.(proc := PageRead(cfg, s))
    case Deliver =>
      && Scans(s) && s.proc.page != [] && !NeedsFlush(cfg, s.proc, s.proc.page[0])
      && s' == s.(proc := Accept(s.proc))
    case EndPage =>
      && Scans(s) && s.proc.scan.InPage? && s.proc.page == []
      && s' == s.(proc := s.proc.(cur := OffsetOf(s.proc.scan.last),
                                  scan := if s.proc.scan.full then NeedPage else Exhausted))
    case Commit(final, shown, times) => CommitStep(cfg, s, final, shown, times, s')
    case Record =>
      && s.proc.Running? && s.proc.phase == Flushed(true)
      && s' == s.(marks := s.marks[s.proc.rs.proposed := true], proc := s.proc.(phase := Recorded))
    case Publish =>
      && AboutToPublish(s) && NextStamp(s.proc).Ok?
      && var next := NextStamp(s.proc).value;
         && s.cp.Less(next)
         && s' == s.(cp := next, version := s.version + 1,
                     proc := s.proc.(phase := Published(next, s.proc.phase.Recorded?)))
    case Persist =>
      && s.proc.Running? && s.proc.phase.Published?
      && s' == s.(memo := s.proc.phase.next, proc := AfterPersist(s.proc))
    case SampleRetirement =>
      s' == s.(sample := s.retirements)
    case DeleteStaged(table, rows, end) =>
      && Lt(ZERO, end) && Le(end, s.sample)
      && OldestOf(s.staged, table, rows, end)
      && s' == s.(staged := s.staged - rows)
    case Restart =>
      s' == FreshReader(s.(cp := s.memo, version := s.version + 1, chan := [], proc := Idle))
    case Crash =>
      s' == FreshReader(s.(cp := s.memo, version := 0, chan := [], proc := Idle, retirements := ZERO, sample := ZERO))
  }

  // readInto from its first line.
  function FreshReader(s: State): State {
    s.(resumeFrom := Some(s.cp), seen := s.version,
       retirements := if s.cp.committed != ZERO then s.cp.committed else s.retirements)
  }

  ghost predicate ProposeStep(cfg: Config, s: State, t: Time, backfill: bool, s': State) {
    && s.resumeFrom.Some? && s.resumeFrom.value.proposed == ZERO
    && SelectsTimestamp(s.marks, s.resumeFrom.value.committed, t)
    && (cfg.transactional ==> !backfill)
    && var p := s.resumeFrom.value.NewProposed(t);
       && p.Ok?
       && var toSend := if backfill then p.value.(backfill := true) else p.value;
          s' == s.(chan := s.chan + [toSend], resumeFrom := None)
  }

  predicate Scans(s: State) {
    s.proc.Running? && s.proc.phase == Scanning
  }

  function PageRead(cfg: Config, s: State): Proc
    requires s.proc.Running?
  {
    var p := s.proc;
    var page := First(OrderOf(p.rs.backfill), Rest(p.rs, p.cur, s.staged), cfg.selectLimit);
    if page == [] then p.(scan := Exhausted)
    else p.(page := page, scan := InPage(page[|page| - 1], |page| == cfg.selectLimit))
  }

  // The target transaction. A backfill is applied by concurrent workers, so it
  // may leave any mutation of the batch in a row.
  ghost predicate CommitStep(cfg: Config, s: State, final: bool, shown: map<RowKey, Data>, times: map<RowKey, Time>,
                             s': State) {
    && Scans(s)
    && (if final then s.proc.scan.Exhausted? && s.proc.page == []
        else s.proc.page != [] && NeedsFlush(cfg, s.proc, s.proc.page[0]))
    && s.proc.batch <= s.log.Keys
    && (cfg.transactional ==> shown == Apply(s.target, s.log, s.proc.batch) && times == Touch(s.applied, s.proc.batch))
    && s' == s.(target := shown, applied := times, flushed := s.flushed + s.proc.batch,
                top := Max(s.top, s.proc.rs.proposed),
                proc := s.proc.(batch := {}, counter := 0, phase := Flushed(final)))
  }

  predicate AboutToPublish(s: State) {
    s.proc.Running? && (s.proc.phase == Flushed(false) || s.proc.phase == Recorded)
  }

  function NextStamp(p: Proc): Result<Stamp, Reason>
    requires p.Running?
  {
    if p.phase.Recorded? then p.rs.NewCommitted() else Ok(p.rs.NewProgress(p.cur))
  }

  // Once the checkpoint is stored an interim flush accepts the row that caused it.
  function AfterPersist(p: Proc): Proc
    requires p.Running? && p.phase.Published?
  {
    if p.phase.finished || p.page == [] then Idle
    else Accept(p.(rs := p.phase.next, phase := Scanning))
  }

  // A DELETE ... ORDER BY time LIMIT n removes the oldest rows up to the cut-off.
  predicate OldestOf(staged: set<Pos>, table: nat, rows: set<Pos>, end: Time) {
    && rows <= staged
    && (forall d | d in rows :: d.table == table && Le(d.time, end))
    && (forall d, x | d in rows && x in staged && x.table == table && Lt(x.time, d.time) :: x in rows)
  }

  // ---- Runs ----

  datatype Event = Event(step: Step, after: State)

  function StateAt(s: State, run: seq<Event>, i: nat): State
    requires i <= |run|
  {
    if i == 0 then s else run[i - 1].after
  }

  ghost predicate IsRun(cfg: Config, s: State, run: seq<Event>) {
    Init(s) && forall i: nat | i < |run| :: Next(cfg, StateAt(s, run, i), run[i].step, run[i].after)
  }
}
