/** A run in which the only deletion lands while no window is open. Storing the
    stamp of a window fails, the replay flushes an older row again and is cut off,
    and retirement deletes the newer row before the next replay. */
module ResolverLostBetween {
  import opened Hlc
  import opened Scan
  import opened Wrappers
  import opened ResolvedStamp
  import opened Resolver
  import opened ResolverLostRow

  // Both rows in one page, and a flush after every row.
  const SMALL := Config(10, 1, false, true)
  // The stamp stored after the first flush.
  const PART := Stamp(false, ZERO, 2, T3, NO_OFFSET)

  function Marked(): State {
    State({A, B}, map[], map[T3 := false], ZERO_STAMP, ZERO_STAMP, 0, Some(ZERO_STAMP), 0, [], Idle, ZERO, ZERO, LOG,
          {}, map[], ZERO)
  }

  predicate NoDeletion(run: seq<Event>) {
    forall i | 0 <= i < |run| :: !run[i].step.DeleteStaged?
  }

  lemma Start() returns (s: State, run: seq<Event>)
    ensures IsRun(SMALL, s, run) && StateAt(s, run, |run|) == Marked() && NoDeletion(run)
  {
    s := State({}, map[], map[], ZERO_STAMP, ZERO_STAMP, 0, Some(ZERO_STAMP), 0, [], Idle, ZERO, ZERO, map[], {},
               map[], ZERO);
    var s1 := s.(staged := {A}, log := map[A := Upsert("old")]);
    var s2 := s1.(staged := {A, B}, log := LOG);
    assert s2.log == s1.log[B := Upsert("new")];
    run := Extend(SMALL, s, [], StageRow(A, Upsert("old")), s1);
    run := Extend(SMALL, s, run, StageRow(B, Upsert("new")), s2);
    run := Extend(SMALL, s, run, Mark(T3), Marked());
  }

  predicate Fresh(s: State) {
    && s.proc.Running? && s.proc.rs in {FIRST, PART} && s.proc.cur == StartOf(s.proc.rs)
    && s.proc.scan.NeedPage? && s.proc.page == [] && s.proc.phase == Scanning
  }

  lemma PageOfBoth(s: State)
    requires Fresh(s) && s.staged == {A, B}
    ensures PageRead(SMALL, s) == s.proc.(page := [A, B], scan := InPage(B, false))
  {
    assert Rest(s.proc.rs, s.proc.cur, {A, B}) == {A, B};
    hide Rest, First, Sorted, IsLeast;
    FirstOfBoth();
  }

  lemma FirstOfBoth()
    ensures First(ByTime, {A, B}, 10) == [A, B]
  {
    var r := First(ByTime, {A, B}, 10);
    assert Sorted(ByTime, [A, B]) && Elems([A, B]) == {A, B};
    hide First, Sorted, IsLeast, PosLt;
    FirstSpec(ByTime, {A, B}, 10);
    CardinalityOfSorted(ByTime, r);
    Subset(Elems(r), {A, B});
    SortedUnique(ByTime, [A, B], {A, B});
    PageThenRest(ByTime, {A, B}, 10);
  }

  lemma EmptyPage(s: State)
    requires Fresh(s) && s.staged == {}
    ensures PageRead(SMALL, s) == s.proc.(scan := Exhausted)
  {
    assert Rest(s.proc.rs, s.proc.cur, {}) == {};
  }

  // The target and the processor after the first row of a window has been flushed.
  function Opened(s: State, rs: Stamp): State {
    s.(target := map[KEY := Upsert("old")], applied := map[KEY := A.time], flushed := s.flushed + {A}, top := T3,
       proc := Running(rs, StartOf(rs), InPage(B, false), [B], {}, A.time, 0, Flushed(false)))
  }

  // The first row of the page has been accepted.
  function Taken(rs: Stamp): Proc {
    Running(rs, StartOf(rs), InPage(B, false), [B], {A}, A.time, 1, Scanning)
  }

  lemma TakeFirst(s: State, run: seq<Event>, start: State, rs: Stamp) returns (run': seq<Event>)
    requires IsRun(SMALL, s, run) && StateAt(s, run, |run|) == start && rs in {FIRST, PART} && start.staged == {A, B}
    requires start.proc == Running(rs, StartOf(rs), NeedPage, [], {}, ZERO, 0, Scanning)
    ensures IsRun(SMALL, s, run') && StateAt(s, run', |run'|) == start.(proc := Taken(rs))
    ensures NoDeletion(run) ==> NoDeletion(run')
  {
    hide IsRun, StateAt, First, Rest, PageRead, Apply, Touch, StartOf;
    PageOfBoth(start);
    var p1 := start.proc.(page := [A, B], scan := InPage(B, false));
    run' := Extend(SMALL, s, run, ReadPage, start.(proc := p1));
    assert p1.page[1..] == [B] && {} + {A} == {A};
    run' := Extend(SMALL, s, run', Deliver, start.(proc := Taken(rs)));
  }

  lemma FlushFirst(s: State, run: seq<Event>, start: State, rs: Stamp) returns (run': seq<Event>)
    requires IsRun(SMALL, s, run) && StateAt(s, run, |run|) == start && rs in {FIRST, PART}
    requires start.staged == {A, B} && start.log == LOG && start.top in {ZERO, T3}
    requires start.target.Keys <= {KEY} && start.applied.Keys <= {KEY}
    requires start.proc == Running(rs, StartOf(rs), NeedPage, [], {}, ZERO, 0, Scanning)
    ensures IsRun(SMALL, s, run') && StateAt(s, run', |run'|) == Opened(start, rs)
    ensures NoDeletion(run) ==> NoDeletion(run')
  {
    hide IsRun, StateAt, First, Rest, PageRead, Apply, Touch, StartOf;
    run' := TakeFirst(s, run, start, rs);
    assert IsNewest({A}, KEY, A);
    ApplyBatch(start.target, start.applied, {A}, A);
    run' := Extend(SMALL, s, run', Commit(false, map[KEY := Upsert("old")], map[KEY := A.time]), Opened(start, rs));
  }

  // The window is complete, recorded and published; its stamp has not been stored.
  function Complete(): State {
    Marked().(target := map[KEY := Upsert("new")], applied := map[KEY := B.time], flushed := {A, B}, top := T3,
              marks := map[T3 := true], memo := PART, cp := DONE, version := 2, resumeFrom := None,
              proc := Running(PART, OffsetOf(B), Exhausted, [], {}, B.time, 0, Published(DONE, true)))
  }

  lemma FirstPass(s: State, run: seq<Event>) returns (run': seq<Event>)
    requires IsRun(SMALL, s, run) && StateAt(s, run, |run|) == Marked()
    ensures IsRun(SMALL, s, run') && StateAt(s, run', |run'|) == Opened(Reading(Marked(), FIRST), FIRST)
    ensures NoDeletion(run) ==> NoDeletion(run')
  {
    hide IsRun, StateAt, First, Rest;
    run' := Extend(SMALL, s, run, Propose(T3, false), Marked().(chan := [FIRST], resumeFrom := None));
    run' := Extend(SMALL, s, run', Begin, Reading(Marked(), FIRST));
    run' := FlushFirst(s, run', Reading(Marked(), FIRST), FIRST);
  }

  // The window of a stamp has just been opened.
  function Reading(s: State, rs: Stamp): State {
    s.(chan := [], resumeFrom := None, proc := Running(rs, StartOf(rs), NeedPage, [], {}, ZERO, 0, Scanning))
  }

  lemma StorePart(s: State, run: seq<Event>) returns (run': seq<Event>)
    requires IsRun(SMALL, s, run) && StateAt(s, run, |run|) == Opened(Reading(Marked(), FIRST), FIRST)
    ensures IsRun(SMALL, s, run') && StateAt(s, run', |run'|) == Flushing()
    ensures NoDeletion(run) ==> NoDeletion(run')
  {
    hide IsRun, StateAt, First, Rest;
    var s3 := Opened(Reading(Marked(), FIRST), FIRST);
    var s4 := s3.(cp := PART, version := 1, proc := s3.proc.(phase := Published(PART, false)));
    run' := Extend(SMALL, s, run, Publish, s4);
    assert [B][1..] == [] && {} + {B} == {B};
    run' := Extend(SMALL, s, run', Persist, Flushing());
  }

  function Flushing(): State {
    Marked().(target := map[KEY := Upsert("old")], applied := map[KEY := A.time], flushed := {A}, top := T3,
              memo := PART, cp := PART, version := 1, resumeFrom := None,
              proc := Running(PART, StartOf(PART), InPage(B, false), [], {B}, B.time, 1, Scanning))
  }

  function Committed(): State {
    Complete().(marks := map[T3 := false], cp := PART, version := 1,
                proc := Running(PART, OffsetOf(B), Exhausted, [], {}, B.time, 0, Flushed(true)))
  }

  lemma SecondFlush(s: State, run: seq<Event>) returns (run': seq<Event>)
    requires IsRun(SMALL, s, run) && StateAt(s, run, |run|) == Flushing()
    ensures IsRun(SMALL, s, run') && StateAt(s, run', |run'|) == Committed()
    ensures NoDeletion(run) ==> NoDeletion(run')
  {
    hide IsRun, StateAt, First, Rest, Apply, Touch;
    var s0 := Flushing();
    var s1 := s0.(proc := s0.proc.(cur := OffsetOf(B), scan := Exhausted));
    run' := Extend(SMALL, s, run, EndPage, s1);
    assert IsNewest({B}, KEY, B) && {A} + {B} == {A, B};
    ApplyBatch(s1.target, s1.applied, {B}, B);
    run' := Extend(SMALL, s, run', Commit(true, map[KEY := Upsert("new")], map[KEY := B.time]), Committed());
  }

  lemma PublishDone(s: State, run: seq<Event>) returns (run': seq<Event>)
    requires IsRun(SMALL, s, run) && StateAt(s, run, |run|) == Committed()
    ensures IsRun(SMALL, s, run') && StateAt(s, run', |run'|) == Complete()
    ensures NoDeletion(run) ==> NoDeletion(run')
  {
    hide IsRun, StateAt, StartOf;
    run' := Report(SMALL, s, run, Committed(), DONE);
    assert Committed().marks[T3 := true] == map[T3 := true];
  }

  // The retire loop has its cut-off; storing the stamp fails, and the next replay
  // is cut off after its first flush.
  function Waiting(): State {
    Complete().(target := map[KEY := Upsert("old")], applied := map[KEY := A.time], retirements := T3, sample := T3,
                cp := PART, version := 4, seen := 4, resumeFrom := Some(PART), proc := Idle)
  }

  function Restarted(): State {
    Complete().(retirements := T3, sample := T3, cp := PART, version := 3, seen := 3, resumeFrom := Some(PART),
                proc := Idle)
  }

  lemma FailToStore(s: State, run: seq<Event>) returns (run': seq<Event>)
    requires IsRun(SMALL, s, run) && StateAt(s, run, |run|) == Complete()
    ensures IsRun(SMALL, s, run') && StateAt(s, run', |run'|) == Restarted()
    ensures NoDeletion(run) ==> NoDeletion(run')
  {
    hide IsRun, StateAt, First, Rest;
    var s1 := Complete().(seen := 2, resumeFrom := Some(DONE), retirements := T3);
    run' := Extend(SMALL, s, run, Observe, s1);
    run' := Extend(SMALL, s, run', SampleRetirement, s1.(sample := T3));
    run' := Extend(SMALL, s, run', Restart, Restarted());
  }

  lemma CutOff(s: State, run: seq<Event>) returns (run': seq<Event>)
    requires IsRun(SMALL, s, run) && StateAt(s, run, |run|) == Restarted()
    ensures IsRun(SMALL, s, run') && StateAt(s, run', |run'|) == Waiting()
    ensures NoDeletion(run) ==> NoDeletion(run')
  {
    hide IsRun, StateAt, First, Rest;
    run' := Reopen(s, run, Restarted());
    run' := FlushFirst(s, run', Reading(Restarted(), PART), PART);
    assert {A, B} + {A} == {A, B};
    run' := Extend(SMALL, s, run', Restart, Waiting());
  }

  lemma Reopen(s: State, run: seq<Event>, start: State) returns (run': seq<Event>)
    requires IsRun(SMALL, s, run) && StateAt(s, run, |run|) == start
    requires start.proc.Idle? && start.resumeFrom == Some(PART) && start.chan == []
    ensures IsRun(SMALL, s, run') && StateAt(s, run', |run'|) == Reading(start, PART)
    ensures Continues(run, run')
    ensures NoDeletion(run) ==> NoDeletion(run')
  {
    hide IsRun, StateAt, First, Rest, StartOf;
    var s1 := start.(chan := [PART], resumeFrom := None);
    assert [] + [PART] == [PART] && [PART][1..] == [];
    run' := Extend(SMALL, s, run, Resend, s1);
    run' := Extend(SMALL, s, run', Begin, Reading(start, PART));
  }

  // The second run extends the first one, without a deletion.
  predicate Continues(run: seq<Event>, more: seq<Event>) {
    |run| < |more| && more[..|run|] == run && forall i | |run| <= i < |more| :: !more[i].step.DeleteStaged?
  }

  lemma ContinuesTrans(a: seq<Event>, b: seq<Event>, c: seq<Event>)
    requires Continues(a, b) && Continues(b, c)
    ensures Continues(a, c)
  {
    assert c[..|a|] == c[..|b|][..|a|];
    assert forall i | 0 <= i < |b| :: c[i] == c[..|b|][i];
  }

  // Nothing is left to be read.
  function Emptied(): State {
    var s := Reading(Waiting().(staged := {}), PART);
    s.(proc := s.proc.(scan := Exhausted))
  }

  lemma ReadNothing(s: State, run: seq<Event>) returns (run': seq<Event>)
    requires IsRun(SMALL, s, run) && StateAt(s, run, |run|) == Waiting().(staged := {})
    ensures IsRun(SMALL, s, run') && StateAt(s, run', |run'|) == Emptied() && Continues(run, run')
  {
    hide IsRun, StateAt, First, Rest, PageRead, Apply, Touch, StartOf;
    run' := Reopen(s, run, Waiting().(staged := {}));
    var s2 := Reading(Waiting().(staged := {}), PART);
    EmptyPage(s2);
    run' := Extend(SMALL, s, run', ReadPage, Emptied());
  }

  lemma CommitNothing(s: State, run: seq<Event>) returns (run': seq<Event>)
    requires IsRun(SMALL, s, run) && StateAt(s, run, |run|) == Emptied()
    ensures IsRun(SMALL, s, run') && Continues(run, run')
    ensures StateAt(s, run', |run'|) == Emptied().(proc := Emptied().proc.(phase := Flushed(true)))
  {
    hide IsRun, StateAt, First, Rest, PageRead, Apply, Touch, StartOf;
    NothingApplied(Emptied().target, Emptied().applied);
    assert {A, B} + {} == {A, B};
    run' := Extend(SMALL, s, run, Commit(true, Emptied().target, Emptied().applied),
                   Emptied().(proc := Emptied().proc.(phase := Flushed(true))));
  }

  // The window is reported committed all the same.
  lemma LastPass(s: State, run: seq<Event>) returns (run': seq<Event>, end: State)
    requires IsRun(SMALL, s, run)
    requires StateAt(s, run, |run|) == Emptied().(proc := Emptied().proc.(phase := Flushed(true)))
    ensures IsRun(SMALL, s, run') && Continues(run, run') && run'[|run'| - 1] == Event(Publish, end)
    ensures end.log == LOG && end.target == map[KEY := Upsert("old")] && end.cp == DONE
  {
    hide IsRun, StateAt, StartOf;
    var at := Emptied().(proc := Emptied().proc.(phase := Flushed(true)));
    run' := Report(SMALL, s, run, at, DONE);
    end := Reported(at, DONE);
  }

  lemma NothingApplied(target: map<RowKey, Data>, applied: map<RowKey, Time>)
    ensures Apply(target, LOG, {}) == target && Touch(applied, {}) == applied
  {
    assert Keys({}) == {};
  }

  // The only deletion of a run falls between two windows, and the target differs
  // from the log.
  lemma DeletionBetweenWindowsCanLoseARow() returns (s: State, run: seq<Event>, i: nat)
    ensures IsRun(SMALL, s, run) && i < |run| && SMALL.transactional
    ensures run[i].step.DeleteStaged? && StateAt(s, run, i).proc.Idle?
    ensures forall j | 0 <= j < |run| && j != i :: !run[j].step.DeleteStaged?
    ensures var last := run[|run| - 1];
            && last.step.Publish? && last.after.cp.proposed == ZERO
            && last.after.target != ReplayUpTo(last.after.log, last.after.cp.committed)
  {
    hide First, Rest, Apply, Touch, ReplayUpTo, Init, IsRun, Next;
    s, run := Start();
    run := FirstPass(s, run);
    run := StorePart(s, run);
    run := SecondFlush(s, run);
    run := PublishDone(s, run);
    run := FailToStore(s, run);
    run := CutOff(s, run);
    i := |run|;
    var before := run;
    var deleted := Deletion(s, run);
    var emptied := ReadNothing(s, deleted);
    var flushed := CommitNothing(s, emptied);
    var end;
    run, end := LastPass(s, flushed);
    ContinuesTrans(deleted, emptied, flushed);
    ContinuesTrans(deleted, flushed, run);
    assert run[..|deleted|] == deleted && run[i] == run[..|deleted|][i] == deleted[i];
    assert forall j | 0 <= j < i :: run[j] == run[..|deleted|][j] == before[j];
    assert StateAt(s, run, i) == StateAt(s, before, i) by {
      assert i > 0 ==> run[i - 1] == run[..|deleted|][i - 1] == deleted[i - 1] == before[i - 1];
    }
    ReplayToT3();
    assert end.target[KEY] != ReplayUpTo(LOG, T3)[KEY];
  }

  lemma Deletion(s: State, run: seq<Event>) returns (run': seq<Event>)
    requires IsRun(SMALL, s, run) && StateAt(s, run, |run|) == Waiting()
    ensures run' == run + [Event(DeleteStaged(0, {A, B}, T3), Waiting().(staged := {}))] && IsRun(SMALL, s, run')
    ensures StateAt(s, run', |run'|) == Waiting().(staged := {})
  {
    hide IsRun, StateAt;
    assert OldestOf({A, B}, 0, {A, B}, T3) && {A, B} - {A, B} == {};
    run' := Extend(SMALL, s, run, DeleteStaged(0, {A, B}, T3), Waiting().(staged := {}));
  }

  lemma ReplayToT3()
    ensures ReplayUpTo(LOG, T3) == map[KEY := Upsert("new")]
  {
    assert UpTo(LOG, T3) == {A, B};
    var r := [A, B];
    assert Elems(r) == {A, B};
    SortedUnique(ByTime, r, {A, B});
    assert r[..1] == [A] && [A][..0] == [];
    assert Replay(LOG, [A]) == map[KEY := Upsert("old")];
  }
}
