/** A run in which retirement overtakes a replay. The stamp of a window has been set
    in memory but not stored; the run restarts inside the same process, from the
    stored stamp, while the retire loop goes on with the cut-off it already had. */
module ResolverLostRow {
  import opened Hlc
  import opened Scan
  import opened Wrappers
  import opened ResolvedStamp
  import opened Resolver

  // One row per page, and one key that is written twice.
  const CFG := Config(1, 100, false, true)
  const A := Pos(0, Time(1, 0), "k")
  const B := Pos(0, Time(2, 0), "k")
  const KEY := (0, "k")
  const T3 := Time(3, 0)
  const T4 := Time(4, 0)
  const LOG := map[A := Upsert("old"), B := Upsert("new")]
  const FIRST := Stamp(false, ZERO, 1, T3, NO_OFFSET)
  const DONE := Stamp(false, T3, 0, ZERO, NO_OFFSET)
  const SECOND := Stamp(false, ZERO, 1, T4, NO_OFFSET)

  lemma Extend(cfg: Config, s: State, run: seq<Event>, step: Step, s': State) returns (run': seq<Event>)
    requires IsRun(cfg, s, run) && Next(cfg, StateAt(s, run, |run|), step, s')
    ensures run' == run + [Event(step, s')] && IsRun(cfg, s, run') && StateAt(s, run', |run'|) == s'
  {
    hide Next, Init;
    run' := run + [Event(step, s')];
    forall i: nat | i < |run'| ensures Next(cfg, StateAt(s, run', i), run'[i].step, run'[i].after) {
      assert StateAt(s, run', i) == StateAt(s, run, i);
      if i < |run| {
        assert run'[i] == run[i];
      }
    }
  }

  // A window that has been flushed is recorded and published.
  function Reported(at: State, next: Stamp): State
    requires at.proc.Running?
  {
    at.(marks := at.marks[at.proc.rs.proposed := true], cp := next, version := at.version + 1,
        proc := at.proc.(phase := Published(next, true)))
  }

  lemma Report(cfg: Config, s: State, run: seq<Event>, at: State, next: Stamp) returns (run': seq<Event>)
    requires IsRun(cfg, s, run) && StateAt(s, run, |run|) == at && at.proc.Running? && at.proc.phase == Flushed(true)
    requires at.proc.rs.NewCommitted() == Ok(next) && at.cp.Less(next)
    ensures IsRun(cfg, s, run') && StateAt(s, run', |run'|) == Reported(at, next)
    ensures |run'| == |run| + 2 && run'[..|run|] == run && run'[|run|].step == Step.Record
    ensures run'[|run| + 1] == Event(Publish, Reported(at, next))
  {
    hide IsRun, StateAt;
    var recorded := at.(marks := at.marks[at.proc.rs.proposed := true], proc := at.proc.(phase := Recorded));
    run' := Extend(cfg, s, run, Record, recorded);
    run' := Extend(cfg, s, run', Publish, Reported(at, next));
  }

  // ---- Pages of one row ----

  lemma PageOf(rows: set<Pos>, m: Pos)
    requires IsLeast(ByTime, rows, m)
    ensures First(ByTime, rows, 1) == [m]
  {
    LeastUnique(ByTime, rows, m, Least(ByTime, rows));
    assert First(ByTime, rows - {m}, 0) == [];
  }

  lemma PageAtStart(rs: Stamp, p: Proc)
    requires rs in {FIRST, SECOND} && p.Running? && p.rs == rs && p.cur == StartOf(rs)
    requires p.scan.NeedPage? && p.page == [] && p.phase == Scanning
    ensures forall s: State | s.proc == p && s.staged == {A, B} ::
              PageRead(CFG, s) == p.(page := [A], scan := InPage(A, true))
  {
    assert Rest(rs, p.cur, {A, B}) == {A, B};
    assert IsLeast(ByTime, {A, B}, A);
    PageOf({A, B}, A);
  }

  lemma PageAfterA(rs: Stamp, p: Proc)
    requires rs in {FIRST, SECOND} && p.Running? && p.rs == rs && p.cur == OffsetOf(A)
    requires p.scan.NeedPage? && p.page == [] && p.phase == Scanning
    ensures forall s: State | s.proc == p && s.staged == {A, B} ::
              PageRead(CFG, s) == p.(page := [B], scan := InPage(B, true))
    ensures forall s: State | s.proc == p && s.staged == {} :: PageRead(CFG, s) == p.(scan := Exhausted)
  {
    KeyLtTrichotomy("k", "k");
    assert Rest(rs, p.cur, {A, B}) == {B};
    assert IsLeast(ByTime, {B}, B);
    PageOf({B}, B);
    assert Rest(rs, p.cur, {}) == {};
  }

  lemma PageAfterB(rs: Stamp, p: Proc)
    requires rs in {FIRST, SECOND} && p.Running? && p.rs == rs && p.cur == OffsetOf(B)
    requires p.scan.NeedPage? && p.page == [] && p.phase == Scanning
    ensures forall s: State | s.proc == p && s.staged == {A, B} :: PageRead(CFG, s) == p.(scan := Exhausted)
  {
    KeyLtTrichotomy("k", "k");
    assert Rest(rs, p.cur, {A, B}) == {};
    assert First(ByTime, {}, 1) == [];
  }

  lemma ApplyBatch(target: map<RowKey, Data>, applied: map<RowKey, Time>, b: set<Pos>, p: Pos)
    requires target.Keys <= {KEY} && applied.Keys <= {KEY}
    requires b <= {A, B} && IsNewest(b, KEY, p)
    ensures Apply(target, LOG, b) == map[KEY := LOG[p]] && Touch(applied, b) == map[KEY := p.time]
  {
    assert Keys(b) == {KEY};
    NewestUnique(b, KEY, p, Newest(b, KEY));
  }

  // ---- The run ----

  function Staged0(): State {
    State({A, B}, map[], map[T3 := false, T4 := false], ZERO_STAMP, ZERO_STAMP, 0, Some(ZERO_STAMP), 0, [], Idle,
          ZERO, ZERO,
          LOG, {}, map[], ZERO)
  }

  lemma Setup() returns (s: State, run: seq<Event>)
    ensures IsRun(CFG, s, run) && StateAt(s, run, |run|) == Staged0()
  {
    s := State({}, map[], map[], ZERO_STAMP, ZERO_STAMP, 0, Some(ZERO_STAMP), 0, [], Idle, ZERO, ZERO, map[], {},
               map[], ZERO);
    var s1 := s.(staged := {A}, log := map[A := Upsert("old")]);
    var s2 := s1.(staged := {A, B}, log := LOG);
    var s3 := s2.(marks := map[T3 := false]);
    assert s2.log == s1.log[B := Upsert("new")];
    run := Extend(CFG, s, [], StageRow(A, Upsert("old")), s1);
    run := Extend(CFG, s, run, StageRow(B, Upsert("new")), s2);
    run := Extend(CFG, s, run, Mark(T3), s3);
    run := Extend(CFG, s, run, Mark(T4), Staged0());
  }

  // Everything up to the stamp in memory; the stored stamp is still the first one.
  function Published0(): State {
    Staged0().(marks := map[T3 := true, T4 := false], target := map[KEY := Upsert("new")],
               applied := map[KEY := B.time],
               flushed := {A, B}, top := T3, cp := DONE, version := 1, resumeFrom := None,
               proc := Running(FIRST, OffsetOf(B), Exhausted, [], {}, B.time, 0, Published(DONE, true)))
  }

  // Reads, delivers and ends a page that consists of the row x.
  lemma OneRowPage(s: State, run: seq<Event>, start: State, x: Pos) returns (run': seq<Event>, end: State)
    requires IsRun(CFG, s, run) && StateAt(s, run, |run|) == start && Scans(start) && !start.proc.rs.backfill
    requires start.proc.scan.NeedPage? && start.proc.page == [] && start.proc.counter < 100
    requires PageRead(CFG, start) == start.proc.(page := [x], scan := InPage(x, true))
    ensures IsRun(CFG, s, run') && StateAt(s, run', |run'|) == end
    ensures end == start.(proc := start.proc.(cur := OffsetOf(x), batch := start.proc.batch + {x}, epoch := x.time,
                                              counter := start.proc.counter + 1))
  {
    hide IsRun, StateAt, First, Rest, PageRead;
    var p1 := start.proc.(page := [x], scan := InPage(x, true));
    run' := Extend(CFG, s, run, ReadPage, start.(proc := p1));
    var p2 := p1.(page := [], batch := p1.batch + {x}, epoch := x.time, counter := p1.counter + 1);
    assert p1.page[1..] == [] && p2 == Accept(p1);
    run' := Extend(CFG, s, run', Deliver, start.(proc := p2));
    end := start.(proc := p2.(cur := OffsetOf(x), scan := NeedPage));
    run' := Extend(CFG, s, run', EndPage, end);
  }

  lemma ScanBoth(s: State, run: seq<Event>, start: State) returns (run': seq<Event>, end: State)
    requires IsRun(CFG, s, run) && StateAt(s, run, |run|) == start
    requires start.staged == {A, B} && start.proc == Running(FIRST, StartOf(FIRST), NeedPage, [], {}, ZERO, 0, Scanning)
    ensures IsRun(CFG, s, run') && StateAt(s, run', |run'|) == end
    ensures end == start.(proc := Running(FIRST, OffsetOf(B), Exhausted, [], {A, B}, B.time, 2, Scanning))
  {
    hide IsRun, StateAt, First, Rest, PageRead;
    PageAtStart(FIRST, start.proc);
    var mid;
    run', mid := OneRowPage(s, run, start, A);
    PageAfterA(FIRST, mid.proc);
    run', mid := OneRowPage(s, run', mid, B);
    PageAfterB(FIRST, mid.proc);
    end := start.(proc := Running(FIRST, OffsetOf(B), Exhausted, [], {A, B}, B.time, 2, Scanning));
    assert {} + {A} + {B} == {A, B};
    run' := Extend(CFG, s, run', ReadPage, end);
  }

  function Flushed0(): State {
    Staged0().(resumeFrom := None, target := map[KEY := Upsert("new")], applied := map[KEY := B.time],
               flushed := {A, B}, top := T3,
               proc := Running(FIRST, OffsetOf(B), Exhausted, [], {}, B.time, 0, Flushed(true)))
  }

  function Opened0(): State {
    Staged0().(resumeFrom := None, proc := Running(FIRST, StartOf(FIRST), NeedPage, [], {}, ZERO, 0, Scanning))
  }

  lemma BeginFirst(s: State, run: seq<Event>) returns (run': seq<Event>)
    requires IsRun(CFG, s, run) && StateAt(s, run, |run|) == Staged0()
    ensures IsRun(CFG, s, run') && StateAt(s, run', |run'|) == Opened0()
  {
    hide IsRun, StateAt, StartOf;
    run' := Extend(CFG, s, run, Propose(T3, false), Staged0().(chan := [FIRST], resumeFrom := None));
    run' := Extend(CFG, s, run', Begin, Opened0());
  }

  lemma FirstFlush(s: State, run: seq<Event>) returns (run': seq<Event>)
    requires IsRun(CFG, s, run) && StateAt(s, run, |run|) == Staged0()
    ensures IsRun(CFG, s, run') && StateAt(s, run', |run'|) == Flushed0()
  {
    hide IsRun, StateAt, First, Rest, Apply, Touch, StartOf;
    run' := BeginFirst(s, run);
    var s3;
    run', s3 := ScanBoth(s, run', Opened0());
    assert IsNewest({A, B}, KEY, B);
    ApplyBatch(map[], map[], {A, B}, B);
    run' := Extend(CFG, s, run', Commit(true, map[KEY := Upsert("new")], map[KEY := B.time]), Flushed0());
  }

  lemma FirstWindow(s: State, run: seq<Event>) returns (run': seq<Event>)
    requires IsRun(CFG, s, run) && StateAt(s, run, |run|) == Staged0()
    ensures IsRun(CFG, s, run') && StateAt(s, run', |run'|) == Published0()
  {
    hide IsRun, StateAt, StartOf;
    run' := FirstFlush(s, run);
    run' := Report(CFG, s, run', Flushed0(), DONE);
    assert Flushed0().marks[T3 := true] == map[T3 := true, T4 := false];
  }

  // The reader has seen the new point and the retire loop has taken its cut-off;
  // then storing the stamp fails and the run starts over.
  function Restarted(): State {
    Published0().(retirements := T3, sample := T3, cp := ZERO_STAMP, version := 2, resumeFrom := Some(ZERO_STAMP),
                  seen := 2,
                  proc := Idle)
  }

  lemma FailToStore(s: State, run: seq<Event>) returns (run': seq<Event>)
    requires IsRun(CFG, s, run) && StateAt(s, run, |run|) == Published0()
    ensures IsRun(CFG, s, run') && StateAt(s, run', |run'|) == Restarted()
  {
    hide IsRun, StateAt, First, Rest, Apply, Touch;
    var s0 := Published0();
    var s1 := s0.(seen := 1, resumeFrom := Some(DONE), retirements := T3);
    run' := Extend(CFG, s, run, Observe, s1);
    var s2 := s1.(sample := T3);
    run' := Extend(CFG, s, run', SampleRetirement, s2);
    run' := Extend(CFG, s, run', Restart, Restarted());
  }

  function Replaying(): State {
    Restarted().(resumeFrom := None, proc := Running(SECOND, StartOf(SECOND), NeedPage, [], {}, ZERO, 0, Scanning))
  }

  lemma BeginReplay(s: State, run: seq<Event>) returns (run': seq<Event>)
    requires IsRun(CFG, s, run) && StateAt(s, run, |run|) == Restarted()
    ensures IsRun(CFG, s, run') && StateAt(s, run', |run'|) == Replaying()
  {
    hide IsRun, StateAt, First, Rest;
    var s1 := Restarted().(chan := [SECOND], resumeFrom := None);
    run' := Extend(CFG, s, run, Propose(T4, false), s1);
    run' := Extend(CFG, s, run', Begin, Replaying());
  }

  lemma Replayed(s: State, run: seq<Event>) returns (run': seq<Event>, end: State)
    requires IsRun(CFG, s, run) && StateAt(s, run, |run|) == Replaying()
    ensures IsRun(CFG, s, run') && StateAt(s, run', |run'|) == end
    ensures end == Restarted().(staged := {}, resumeFrom := None,
                                proc := Running(SECOND, OffsetOf(A), Exhausted, [], {A}, A.time, 1, Scanning))
  {
    hide IsRun, StateAt, First, Rest, PageRead;
    PageAtStart(SECOND, Replaying().proc);
    var s1;
    run', s1 := OneRowPage(s, run, Replaying(), A);
    // Retirement removes both rows between two pages of the replay.
    assert OldestOf({A, B}, 0, {A, B}, T3);
    var s2 := s1.(staged := {});
    run' := Extend(CFG, s, run', DeleteStaged(0, {A, B}, T3), s2);
    PageAfterA(SECOND, s2.proc);
    end := s2.(proc := s2.proc.(scan := Exhausted));
    assert {} + {A} == {A};
    run' := Extend(CFG, s, run', ReadPage, end);
  }

  lemma ReplayIsNew()
    ensures ReplayUpTo(LOG, T4) == map[KEY := Upsert("new")]
  {
    assert UpTo(LOG, T4) == {A, B};
    var r := [A, B];
    assert Elems(r) == {A, B};
    SortedUnique(ByTime, r, {A, B});
    assert r[..1] == [A] && [A][..0] == [];
    assert Replay(LOG, [A]) == map[KEY := Upsert("old")];
  }

  function FlushedOld(s0: State): State
    requires s0.proc.Running?
  {
    s0.(target := map[KEY := Upsert("old")], applied := map[KEY := A.time], top := T4,
        proc := s0.proc.(batch := {}, counter := 0, phase := Flushed(true)))
  }

  lemma FlushOld(s: State, run: seq<Event>, s0: State) returns (run': seq<Event>)
    requires IsRun(CFG, s, run) && StateAt(s, run, |run|) == s0
    requires s0 == Restarted().(staged := {}, resumeFrom := None,
                                proc := Running(SECOND, OffsetOf(A), Exhausted, [], {A}, A.time, 1, Scanning))
    ensures IsRun(CFG, s, run') && StateAt(s, run', |run'|) == FlushedOld(s0)
  {
    hide IsRun, StateAt, First, Rest, Apply, Touch;
    assert IsNewest({A}, KEY, A);
    ApplyBatch(s0.target, s0.applied, {A}, A);
    assert FlushedOld(s0).flushed == s0.flushed + {A};
    run' := Extend(CFG, s, run, Commit(true, map[KEY := Upsert("old")], map[KEY := A.time]), FlushedOld(s0));
  }

  // The second window is reported committed although the target still shows the
  // older of the two mutations.
  lemma RestartCanLoseARow() returns (s: State, run: seq<Event>)
    ensures IsRun(CFG, s, run) && run != [] && CFG.transactional
    ensures var last := run[|run| - 1];
            && last.step.Publish? && last.after.cp.proposed == ZERO
            && last.after.target != ReplayUpTo(last.after.log, last.after.cp.committed)
  {
    hide StateAt, First, Rest, Apply, Touch, ReplayUpTo, Init;
    s, run := Setup();
    run := FirstWindow(s, run);
    run := FailToStore(s, run);
    run := BeginReplay(s, run);
    var s0;
    run, s0 := Replayed(s, run);
    run := FlushOld(s, run, s0);
    var at, next := FlushedOld(s0), Stamp(false, T4, 0, ZERO, NO_OFFSET);
    run := Report(CFG, s, run, at, next);
    ReplayIsNew();
    assert at.target[KEY] != ReplayUpTo(LOG, T4)[KEY];
  }
}
