/** readInto as the program writes it: a loop over the stamp to resume from, next to
    a processor, a retire loop and incoming rows and marks. Whatever it does is a
    run of the resolver's state machine. */
module ResolverReader {
  import opened Calls
  import opened Hlc
  import opened Wrappers
  import opened ResolvedStamp
  import opened Resolver
  import opened ResolverProtocol
  import opened ResolverProcess

  // Steps taken by anyone but the reader while the run lasts.
  predicate OfRun(step: Step) {
    !(step.Propose? || step.Resend? || step.Observe? || step.RestartReader? || step.Restart? || step.Crash?)
  }

  // What is the reader's own, and the notification count of the consistent point.
  ghost predicate KeepsReader(s: State, s': State) {
    s'.resumeFrom == s.resumeFrom && s'.seen == s.seen && s'.retirements == s.retirements && s.version <= s'.version
  }

  lemma OneStepKeepsReader(cfg: Config, s: State, step: Step, s': State)
    requires Next(cfg, s, step, s') && OfRun(step)
    ensures KeepsReader(s, s')
  {
  }

  lemma {:induction false} OthersKeepReader(cfg: Config, origin: State, run: seq<Event>, n: nat)
    requires IsRun(cfg, origin, run) && n <= |run| && forall i | n <= i < |run| :: OfRun(run[i].step)
    ensures KeepsReader(StateAt(origin, run, n), StateAt(origin, run, |run|))
    decreases |run| - n
  {
    hide Next, Init;
    if n < |run| {
      OneStepKeepsReader(cfg, StateAt(origin, run, n), run[n].step, run[n].after);
      OthersKeepReader(cfg, origin, run, n + 1);
    }
  }

  // Any number of steps of the others: a caller may rely on this contract only.
  method Elsewhere(w: World)
    requires w.Valid()
    modifies w
    ensures w.Continues() && forall i | |old(w.trace)| <= i < |w.trace| :: OfRun(w.trace[i].step)
  {
  }

  method Pause(w: World)
    requires w.Valid()
    modifies w
    ensures w.Continues() && KeepsReader(old(w.s), w.s)
    ensures forall i | |old(w.trace)| <= i < |w.trace| :: OfRun(w.trace[i].step)
  {
    Elsewhere(w);
    OthersKeepReader(w.cfg, w.origin, w.trace, |old(w.trace)|);
    assert StateAt(w.origin, w.trace, |old(w.trace)|) == old(w.s);
  }

  // selectTimestamp: the earliest mark that has not been applied, if there is one.
  method SelectTimestamp(marks: map<Time, bool>, after: Time) returns (r: Option<Time>)
    ensures r.Some? ==> SelectsTimestamp(marks, after, r.value)
    ensures r.None? ==> forall m | m in marks && !marks[m] :: Lt(m, after)
  {
    r := None;
    var rest := marks.Keys;
    while rest != {}
      invariant rest <= marks.Keys
      invariant r.None? ==> forall m | m in marks && !marks[m] && m !in rest :: Lt(m, after)
      invariant r.Some? ==> r.value in marks && !marks[r.value] && Le(after, r.value)
      invariant r.Some? ==> forall m | m in marks && !marks[m] && Le(after, m) && m !in rest :: Le(r.value, m)
      decreases rest
    {
      var m :| m in rest;
      rest := rest - {m};
      if !marks[m] && Le(after, m) && (r.None? || Lt(m, r.value)) {
        r := Some(m);
      }
    }
  }

  // ---- What a round of the loop is to do ----

  // Nothing was left to resume from, or no mark is waiting to be applied.
  predicate NothingToSend(s: State) {
    s.resumeFrom.None?
    || (&& s.resumeFrom.value.proposed == ZERO
        && forall m | m in s.marks && !s.marks[m] :: Lt(m, s.resumeFrom.value.committed))
  }

  // A stamp in progress is sent as it is. Otherwise the earliest mark that has not
  // been applied is proposed, at or after the committed time.
  predicate CallsFor(s: State, backfill: bool, x: Stamp) {
    s.resumeFrom.Some? &&
    var r := s.resumeFrom.value;
    if r.proposed != ZERO then x == r
    else
      && x == Stamp(backfill, r.committed, r.iteration + 1, x.proposed, r.offset)
      && x.proposed in s.marks && !s.marks[x.proposed] && Le(r.committed, x.proposed)
      && forall m | m in s.marks && !s.marks[m] && Le(r.committed, m) :: Le(x.proposed, m)
  }

  // The n-th event of the history is the sending of the stamp called for.
  predicate Sent(origin: State, trace: seq<Event>, n: nat, backfill: bool) {
    n < |trace| &&
    var s, after := StateAt(origin, trace, n), trace[n].after;
    && |after.chan| == |s.chan| + 1 && CallsFor(s, backfill, after.chan[|s.chan|])
    && after == s.(chan := s.chan + [after.chan[|s.chan|]], resumeFrom := None)
    && trace[n].step == if s.resumeFrom.value.proposed != ZERO then Resend
                        else Propose(after.chan[|s.chan|].proposed, backfill)
  }

  // The n-th event is the reader noticing a new consistent point. A committed one
  // is to be resumed from, and may be retired up to.
  predicate Observed(origin: State, trace: seq<Event>, n: nat) {
    n < |trace| &&
    var s, after := StateAt(origin, trace, n), trace[n].after;
    && trace[n].step == Observe && s.seen < s.version
    && after == if s.cp.proposed == ZERO
                then s.(seen := s.version, resumeFrom := Some(s.cp), retirements := s.cp.committed)
                else s.(seen := s.version)
  }

  // What a select takes among the cases that are ready. A run that is to stop ends
  // without an error, one whose context is cancelled with one.
  datatype Sending = Taken | Refused(cancelled: bool)
  datatype Wakeup = Updated | Marked | Timer | Ended(cancelled: bool)

  // A round as its surroundings have it: whether a stamp is taken before the run
  // ends, and what ends the waiting.
  datatype Round = Round(sending: Sending, wakeup: Wakeup)

  // The first half of a round, seen from the n-th state.
  predicate Looked(origin: State, trace: seq<Event>, n: nat, backfill: bool) {
    n <= |trace| && (NothingToSend(StateAt(origin, trace, n)) || Sent(origin, trace, n, backfill))
  }

  // The second half.
  predicate Woke(origin: State, trace: seq<Event>, n: nat, wakeup: Wakeup) {
    n <= |trace| &&
    var s := StateAt(origin, trace, n);
    wakeup.Updated? && s.seen < s.version ==> Observed(origin, trace, n)
  }

  // ---- These predicates only look back ----

  lemma StillTrue(origin: State, a: seq<Event>, b: seq<Event>, n: nat, backfill: bool, wakeup: Wakeup)
    requires a <= b && n <= |a|
    ensures StateAt(origin, a, n) == StateAt(origin, b, n)
    ensures Sent(origin, a, n, backfill) ==> Sent(origin, b, n, backfill)
    ensures Observed(origin, a, n) ==> Observed(origin, b, n)
    ensures Looked(origin, a, n, backfill) ==> Looked(origin, b, n, backfill)
    ensures Woke(origin, a, n, wakeup) ==> Woke(origin, b, n, wakeup)
  {
    hide CallsFor, NothingToSend;
    assert n > 0 ==> a[n - 1] == b[n - 1];
    assert n < |a| ==> a[n] == b[n];
  }

  // Every event from a point on is one of the others, or one of these.
  predicate OnlySends(origin: State, trace: seq<Event>, from: nat, backfill: bool) {
    forall n: nat | from <= n < |trace| ::
      OfRun(trace[n].step) || Sent(origin, trace, n, backfill) || Observed(origin, trace, n)
  }

  lemma OnlySendsGrows(origin: State, a: seq<Event>, b: seq<Event>, from: nat, backfill: bool)
    requires a <= b && OnlySends(origin, a, from, backfill)
    requires forall n: nat | |a| <= n < |b| ::
               OfRun(b[n].step) || Sent(origin, b, n, backfill) || Observed(origin, b, n)
    ensures OnlySends(origin, b, from, backfill)
  {
    hide Sent, Observed;
    forall n: nat | from <= n < |a|
      ensures OfRun(b[n].step) || Sent(origin, b, n, backfill) || Observed(origin, b, n)
    {
      assert b[n] == a[n];
      StillTrue(origin, a, b, n, backfill, Timer);
    }
  }

  // ---- The program ----

  // One look for a stamp to send. A database error ends the run, and so does being
  // stopped or cancelled before the stamp has been taken.
  method Look(w: World, calls: Calls, backfill: bool, resumeFrom: Option<Stamp>, sending: Sending)
    returns (ok: bool, sent: bool, stopped: bool)
    requires w.Valid() && (w.cfg.transactional ==> !backfill) && w.s.resumeFrom == resumeFrom
    modifies w, calls
    ensures w.Continues() && (ok && !stopped ==> calls.failed == old(calls.failed))
    ensures stopped ==> calls.failed == old(calls.failed) && sending == Refused(!ok)
    ensures !ok && !stopped ==> calls.failed > old(calls.failed)
    ensures sent ==> ok && !stopped && w.s.resumeFrom == None
    ensures sent ==> |w.trace| == |old(w.trace)| + 1 && Sent(w.origin, w.trace, |old(w.trace)|, backfill)
    ensures !sent ==> w.trace == old(w.trace) && w.s == old(w.s) && (ok && !stopped ==> NothingToSend(w.s))
  {
    hide HasRun, SelectsTimestamp;
    ok, sent, stopped := true, false, false;
    if resumeFrom.None? {
      return;
    }
    var r := resumeFrom.value;
    if r.proposed != ZERO {
      if sending.Taken? {
        Resending(w);
        return true, true, false;
      }
      return !sending.cancelled, false, true;
    }
    ok := calls.Try();
    if !ok {
      return;
    }
    var next := SelectTimestamp(w.s.marks, r.committed);
    if next.None? {
      return;
    }
    var proposed := r.NewProposed(next.value);
    NeverFails(w, next.value);
    if proposed.Err? {
      return false, false, false;
    }
    if sending.Taken? {
      Proposing(w, next.value, if backfill then proposed.value.(backfill := true) else proposed.value, backfill);
      return true, true, false;
    }
    return !sending.cancelled, false, true;
  }

  method Resending(w: World)
    requires w.Valid() && w.s.resumeFrom.Some? && w.s.resumeFrom.value.proposed != ZERO
    modifies w
    ensures w.Continues() && |w.trace| == |old(w.trace)| + 1 && w.s.resumeFrom == None
    ensures forall backfill :: Sent(w.origin, w.trace, |old(w.trace)|, backfill)
  {
    ghost var before := w.trace;
    w.Take(Resend, w.s.(chan := w.s.chan + [w.s.resumeFrom.value], resumeFrom := None));
    assert w.trace[|before|] == Event(Resend, w.s);
    StillTrue(w.origin, before, w.trace, |before|, false, Timer);
  }

  lemma ProposalIsCalledFor(cfg: Config, s: State, next: Time, toSend: Stamp, backfill: bool)
    requires s.resumeFrom.Some? && s.resumeFrom.value.proposed == ZERO && !s.resumeFrom.value.backfill
    requires (cfg.transactional ==> !backfill) && SelectsTimestamp(s.marks, s.resumeFrom.value.committed, next)
    requires var p := s.resumeFrom.value.NewProposed(next); p.Ok? && toSend == p.value.(backfill := backfill)
    ensures CallsFor(s, backfill, toSend)
    ensures Next(cfg, s, Propose(next, backfill), s.(chan := s.chan + [toSend], resumeFrom := None))
  {
    assert ProposeStep(cfg, s, next, backfill, s.(chan := s.chan + [toSend], resumeFrom := None));
  }

  method Proposing(w: World, next: Time, toSend: Stamp, backfill: bool)
    requires w.Valid() && w.s.resumeFrom.Some?
    requires w.s.resumeFrom.value.proposed == ZERO && !w.s.resumeFrom.value.backfill
    requires (w.cfg.transactional ==> !backfill) && SelectsTimestamp(w.s.marks, w.s.resumeFrom.value.committed, next)
    requires var p := w.s.resumeFrom.value.NewProposed(next);
             p.Ok? && toSend == p.value.(backfill := backfill)
    modifies w
    ensures w.Continues() && |w.trace| == |old(w.trace)| + 1 && w.s.resumeFrom == None
    ensures Sent(w.origin, w.trace, |old(w.trace)|, backfill)
  {
    hide HasRun, SelectsTimestamp;
    ghost var before := w.trace;
    NowIs(w);
    ProposalIsCalledFor(w.cfg, w.s, next, toSend, backfill);
    hide Next, CallsFor;
    w.Take(Propose(next, backfill), w.s.(chan := w.s.chan + [toSend], resumeFrom := None));
    assert w.trace[|before|] == Event(Propose(next, backfill), w.s);
    StillTrue(w.origin, before, w.trace, |before|, backfill, Timer);
  }

  // The consistent point has been updated since it was last seen.
  method Noticing(w: World) returns (resumeFrom: Option<Stamp>)
    requires w.Valid() && w.s.seen < w.s.version
    modifies w
    ensures w.Continues() && |w.trace| == |old(w.trace)| + 1 && w.s.resumeFrom == resumeFrom
    ensures Observed(w.origin, w.trace, |old(w.trace)|)
  {
    ghost var before := w.trace;
    resumeFrom := w.s.resumeFrom;
    if w.s.cp.proposed == ZERO {
      resumeFrom := Some(w.s.cp);
      w.Take(Observe, w.s.(seen := w.s.version, resumeFrom := Some(w.s.cp), retirements := w.s.cp.committed));
    } else {
      w.Take(Observe, w.s.(seen := w.s.version));
    }
    assert w.trace[|before|] == Event(Observe, w.s);
    StillTrue(w.origin, before, w.trace, |before|, false, Timer);
  }

  // A round that does not come to its end: a call failed, or the stamp was not taken.
  predicate Unfinished(ok: bool, sending: Sending, failures: int) {
    if failures > 0 then !ok else failures == 0 && sending == Refused(!ok)
  }

  // One round, with the others at work before the look and before the end of the
  // waiting.
  method OneRound(w: World, calls: Calls, backfill: bool, resumeFrom: Option<Stamp>, round: Round)
    returns (ok: bool, woke: bool, next: Option<Stamp>, ghost look: nat, ghost wake: nat)
    requires w.Valid() && (w.cfg.transactional ==> !backfill) && w.s.resumeFrom == resumeFrom
    modifies w, calls
    ensures w.Continues() && OnlySends(w.origin, w.trace, |old(w.trace)|, backfill)
    ensures |old(w.trace)| <= look <= |w.trace|
    ensures !woke ==> Unfinished(ok, round.sending, calls.failed - old(calls.failed))
    ensures woke ==>
              && ok && calls.failed == old(calls.failed) && w.s.resumeFrom == next && look <= wake <= |w.trace|
              && Looked(w.origin, w.trace, look, backfill) && Woke(w.origin, w.trace, wake, round.wakeup)
  {
    hide HasRun, Sent, Observed, NothingToSend, OfRun;
    ghost var origin, t0 := w.origin, w.trace;
    woke, next, wake := false, resumeFrom, 0;
    Pause(w);
    look := |w.trace|;
    ghost var t1 := w.trace;
    NowIs(w);
    OnlySendsGrows(origin, t0, t1, |t0|, backfill);
    var sent, stopped;
    ok, sent, stopped := Look(w, calls, backfill, resumeFrom, round.sending);
    ghost var t2 := w.trace;
    OnlySendsGrows(origin, t1, t2, |t0|, backfill);
    StillTrue(origin, t1, t2, look, backfill, round.wakeup);
    assert ok && !stopped ==> Looked(origin, t2, look, backfill);
    if !ok || stopped {
      return;
    }
    if sent {
      next := None;
    }
    Pause(w);
    wake := |w.trace|;
    ghost var t3 := w.trace;
    NowIs(w);
    OnlySendsGrows(origin, t2, t3, |t0|, backfill);
    if round.wakeup.Updated? && w.s.seen < w.s.version {
      next := Noticing(w);
    }
    woke := true;
    OnlySendsGrows(origin, t3, w.trace, |t0|, backfill);
    StillTrue(origin, t2, w.trace, look, backfill, round.wakeup);
    WokeNow(w, t3, round.wakeup);
  }

  lemma NowIs(w: World)
    requires w.Valid()
    ensures StateAt(w.origin, w.trace, |w.trace|) == w.s
  {
  }

  lemma WokeNow(w: World, before: seq<Event>, wakeup: Wakeup)
    requires before <= w.trace
    requires var s := StateAt(w.origin, before, |before|);
             wakeup.Updated? && s.seen < s.version ==> Observed(w.origin, w.trace, |before|)
    ensures Woke(w.origin, w.trace, |before|, wakeup)
  {
    hide Observed;
    StillTrue(w.origin, before, w.trace, |before|, false, wakeup);
  }

  // The loop. Only a database error or a cancelled context makes it fail: extending
  // the consistent point by the selected mark never does. In every round, whatever is to be sent at the
  // look is sent, and a new consistent point that ends the waiting is noticed; the
  // reader does nothing else.
  method ReadInto(w: World, calls: Calls, backfill: bool, rounds: seq<Round>)
    returns (ok: bool, ghost looks: seq<nat>, ghost wakes: seq<nat>)
    requires w.Valid() && (w.cfg.transactional ==> !backfill)
    requires w.s.resumeFrom == Some(w.s.cp) && w.s.seen == w.s.version
    modifies w, calls
    ensures w.Continues() && OnlySends(w.origin, w.trace, |old(w.trace)|, backfill)
    // The rounds that came to their look, and those that came to the end.
    ensures RoundByRound(w.origin, w.trace, |old(w.trace)|, rounds, looks, wakes, backfill)
    // Why it ended.
    ensures |wakes| < |looks| ==>
              |looks| == |wakes| + 1 && Unfinished(ok, rounds[|wakes|].sending, calls.failed - old(calls.failed))
    ensures |wakes| == |looks| < |rounds| ==> |wakes| > 0 && rounds[|wakes| - 1].wakeup.Ended?
    ensures |wakes| == |looks| ==>
              && calls.failed == old(calls.failed)
              && (ok <==> |wakes| > 0 ==> rounds[|wakes| - 1].wakeup != Ended(true))
  {
    hide HasRun, Sent, Observed, NothingToSend, OfRun, Looked, Woke, Unfinished, InTurn;
    ghost var origin, start := w.origin, w.trace;
    ok, looks, wakes := true, [], [];
    var resumeFrom := w.s.resumeFrom;
    NoRounds(origin, w.trace, |start|, rounds, backfill);
    var i := 0;
    while i < |rounds|
      invariant i <= |rounds| && w.Continues() && w.s.resumeFrom == resumeFrom && calls.failed == old(calls.failed)
      invariant ok && |looks| == |wakes| == i && (i > 0 ==> !rounds[i - 1].wakeup.Ended?)
      invariant OnlySends(origin, w.trace, |start|, backfill)
      invariant RoundByRound(origin, w.trace, |start|, rounds, looks, wakes, backfill)
    {
      ghost var before := w.trace;
      var woke;
      ghost var look, wake;
      ok, woke, resumeFrom, look, wake := OneRound(w, calls, backfill, resumeFrom, rounds[i]);
      OneMoreRound(origin, before, w.trace, |start|, rounds, looks, wakes, backfill, look, wake);
      OnlySendsJoin(origin, before, w.trace, |start|, backfill);
      looks := looks + [look];
      if !woke {
        return;
      }
      wakes := wakes + [wake];
      if rounds[i].wakeup.Ended? {
        ok := !rounds[i].wakeup.cancelled;
        return;
      }
      i := i + 1;
    }
  }

  // Each round lies behind the one before.
  predicate InTurn(start: nat, looks: seq<nat>, wakes: seq<nat>)
    requires |wakes| <= |looks|
  {
    && (looks != [] ==> start <= looks[0])
    && (forall i | 0 <= i < |wakes| :: looks[i] <= wakes[i])
    && (forall i | 0 < i < |looks| :: i <= |wakes| && wakes[i - 1] <= looks[i])
  }

  // The i-th round looked at the state before event looks[i] and woke up before event
  // wakes[i], and did then what it was to do.
  ghost predicate RoundByRound(origin: State, trace: seq<Event>, start: nat, rounds: seq<Round>, looks: seq<nat>,
                               wakes: seq<nat>, backfill: bool) {
    && |wakes| <= |looks| <= |rounds| && InTurn(start, looks, wakes)
    && forall i | 0 <= i < |wakes| ::
         Looked(origin, trace, looks[i], backfill) && Woke(origin, trace, wakes[i], rounds[i].wakeup)
  }

  lemma NoRounds(origin: State, trace: seq<Event>, start: nat, rounds: seq<Round>, backfill: bool)
    ensures RoundByRound(origin, trace, start, rounds, [], [], backfill)
  {
  }

  lemma RoundsGrow(origin: State, a: seq<Event>, b: seq<Event>, start: nat, rounds: seq<Round>, looks: seq<nat>,
                   wakes: seq<nat>, backfill: bool)
    requires a <= b && RoundByRound(origin, a, start, rounds, looks, wakes, backfill)
    ensures RoundByRound(origin, b, start, rounds, looks, wakes, backfill)
    ensures forall k | 0 <= k < |wakes| :: wakes[k] <= |a|
  {
    hide Sent, Observed, InTurn, NothingToSend;
    forall k | 0 <= k < |wakes|
      ensures wakes[k] <= |a|
      ensures Looked(origin, b, looks[k], backfill) && Woke(origin, b, wakes[k], rounds[k].wakeup)
    {
      assert Looked(origin, a, looks[k], backfill) && Woke(origin, a, wakes[k], rounds[k].wakeup);
      StillTrue(origin, a, b, looks[k], backfill, rounds[k].wakeup);
      StillTrue(origin, a, b, wakes[k], backfill, rounds[k].wakeup);
    }
  }

  lemma OneMoreTurn(start: nat, now: nat, looks: seq<nat>, wakes: seq<nat>, look: nat, wake: nat)
    requires |looks| == |wakes| && InTurn(start, looks, wakes) && start <= now <= look
    requires forall k | 0 <= k < |wakes| :: wakes[k] <= now
    ensures InTurn(start, looks + [look], wakes)
    ensures look <= wake ==> InTurn(start, looks + [look], wakes + [wake])
  {
  }

  lemma OneMoreRound(origin: State, a: seq<Event>, b: seq<Event>, start: nat, rounds: seq<Round>, looks: seq<nat>,
                     wakes: seq<nat>, backfill: bool, look: nat, wake: nat)
    requires start <= |a| && a <= b && |looks| == |wakes| < |rounds| && |a| <= look
    requires RoundByRound(origin, a, start, rounds, looks, wakes, backfill)
    ensures RoundByRound(origin, b, start, rounds, looks + [look], wakes, backfill)
    ensures look <= wake && Looked(origin, b, look, backfill) && Woke(origin, b, wake, rounds[|wakes|].wakeup) ==>
              RoundByRound(origin, b, start, rounds, looks + [look], wakes + [wake], backfill)
  {
    RoundsGrow(origin, a, b, start, rounds, looks, wakes, backfill);
    OneMoreTurn(start, |a|, looks, wakes, look, wake);
    hide Looked, Woke, InTurn;
    var looks', wakes' := looks + [look], wakes + [wake];
    assert RoundByRound(origin, b, start, rounds, looks', wakes, backfill) by {
      forall i | 0 <= i < |wakes|
        ensures Looked(origin, b, looks'[i], backfill) && Woke(origin, b, wakes[i], rounds[i].wakeup)
      {
        assert looks'[i] == looks[i];
      }
    }
    if look <= wake && Looked(origin, b, look, backfill) && Woke(origin, b, wake, rounds[|wakes|].wakeup) {
      forall i | 0 <= i < |wakes'|
        ensures Looked(origin, b, looks'[i], backfill) && Woke(origin, b, wakes'[i], rounds[i].wakeup)
      {
        if i < |wakes| {
          assert looks'[i] == looks[i] && wakes'[i] == wakes[i];
        }
      }
    }
  }

  lemma OnlySendsJoin(origin: State, a: seq<Event>, b: seq<Event>, from: nat, backfill: bool)
    requires a <= b && OnlySends(origin, a, from, backfill) && OnlySends(origin, b, |a|, backfill)
    ensures OnlySends(origin, b, from, backfill)
  {
    hide Sent, Observed, OfRun;
    OnlySendsGrows(origin, a, b, from, backfill);
  }

  lemma NeverFails(w: World, t: Time)
    requires w.Valid() && w.s.resumeFrom.Some? && w.s.resumeFrom.value.proposed == ZERO
    requires SelectsTimestamp(w.s.marks, w.s.resumeFrom.value.committed, t)
    ensures w.s.resumeFrom.value.NewProposed(t).Ok? && !w.s.resumeFrom.value.backfill
  {
    ProposeNeverFails(w.cfg, w.origin, w.trace, |w.trace|, t);
  }
}
