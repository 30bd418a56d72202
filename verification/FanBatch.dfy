/** A transaction applied by a pool of concurrent workers (logical.fanBatch). */
module FanBatch {
  import opened Wrappers

  // What became of a chunk: its worker, and how much had been accepted by then.
  datatype Fate = InFlight(worker: nat) | Applied(at: nat) | Failed(worker: nat, at: nat)
  datatype Chunk<T, M> = Chunk(table: T, muts: seq<M>, fate: Fate)

  // Where a worker is between two of its atomic steps.
  datatype Worker<T, M> =
    | Waiting                                // in waitForWork
    | Applying(table: T, muts: seq<M>)       // holding mutations to apply
    | Finishing(count: nat, failed: bool)    // about to lower the pending count
    | Leaving(failed: bool)                  // about to set workerExited
    | Done(failed: bool)

  function QueueOf<T, M>(data: map<T, seq<M>>, t: T): seq<M> {
    if t in data then data[t] else []
  }

  // The mutations of one table, in the order in which they were accepted.
  function Of<T(==), M>(accepted: seq<(T, M)>, t: T): seq<M> {
    if accepted == [] then [] else
    var n := |accepted| - 1;
    Of(accepted[..n], t) + if accepted[n].0 == t then [accepted[n].1] else []
  }

  function Tagged<T, M>(t: T, muts: seq<M>): (r: seq<(T, M)>)
    ensures |r| == |muts| && forall i | 0 <= i < |r| :: r[i] == (t, muts[i])
  {
    if muts == [] then [] else Tagged(t, muts[..|muts| - 1]) + [(t, muts[|muts| - 1])]
  }

  // The mutations of one table, in the order in which workers took them.
  function TakenOf<T(==), M>(log: seq<Chunk<T, M>>, t: T): seq<M> {
    if log == [] then [] else
    var n := |log| - 1;
    TakenOf(log[..n], t) + if log[n].table == t then log[n].muts else []
  }

  ghost function Queued<T(!new), M>(data: map<T, seq<M>>): nat {
    if data.Keys == {} then 0 else
    var t :| t in data;
    |data[t]| + Queued(data - {t})
  }

  function Held<T, M>(w: Worker<T, M>): nat {
    match w
    case Applying(_, muts) => |muts|
    case Finishing(count, _) => count
    case _ => 0
  }

  function InFlightCount<T, M>(ws: seq<Worker<T, M>>): nat {
    if ws == [] then 0 else InFlightCount(ws[..|ws| - 1]) + Held(ws[|ws| - 1])
  }

  lemma {:induction false} OfAppended<T, M>(accepted: seq<(T, M)>, t: T, muts: seq<M>, u: T)
    ensures Of(accepted + Tagged(t, muts), u) == Of(accepted, u) + if t == u then muts else []
  {
    var all := accepted + Tagged(t, muts);
    if muts == [] {
      assert all == accepted;
    } else {
      var n := |muts| - 1;
      OfAppended(accepted, t, muts[..n], u);
      assert all[..|all| - 1] == accepted + Tagged(t, muts[..n]);
      assert muts[..n] + [muts[n]] == muts;
    }
  }

  // Only which chunks were taken matters, not what became of them.
  lemma {:induction false} TakenSame<T, M>(a: seq<Chunk<T, M>>, b: seq<Chunk<T, M>>, t: T)
    requires |a| == |b| && forall i | 0 <= i < |a| :: a[i].table == b[i].table && a[i].muts == b[i].muts
    ensures TakenOf(a, t) == TakenOf(b, t)
  {
    if a != [] {
      TakenSame(a[..|a| - 1], b[..|b| - 1], t);
    }
  }

  lemma {:induction false} QueuedWithout<T(!new), M>(data: map<T, seq<M>>, t: T)
    requires t in data
    ensures Queued(data) == |data[t]| + Queued(data - {t})
    decreases |data|
  {
    var u :| u in data && Queued(data) == |data[u]| + Queued(data - {u});
    if u != t {
      QueuedWithout(data - {u}, t);
      QueuedWithout(data - {t}, u);
      assert data - {u} - {t} == data - {t} - {u};
    }
  }

  lemma QueuedPut<T(!new), M>(data: map<T, seq<M>>, t: T, muts: seq<M>)
    ensures Queued(data[t := muts]) == Queued(data) - |QueueOf(data, t)| + |muts|
    ensures Queued(data - {t}) == Queued(data) - |QueueOf(data, t)|
  {
    QueuedWithout(data[t := muts], t);
    assert data[t := muts] - {t} == data - {t};
    if t in data {
      QueuedWithout(data, t);
    } else {
      assert data - {t} == data;
    }
  }

  lemma {:induction false} NothingQueued<T(!new), M>(data: map<T, seq<M>>)
    ensures Queued(data) == 0 <==> forall t | t in data :: data[t] == []
    decreases |data|
  {
    if data.Keys != {} {
      var t :| t in data && Queued(data) == |data[t]| + Queued(data - {t});
      NothingQueued(data - {t});
      assert forall u | u in data && u != t :: data[u] == (data - {t})[u];
    }
  }

  lemma {:induction false} InFlightUpdate<T, M>(ws: seq<Worker<T, M>>, i: nat, w: Worker<T, M>)
    requires i < |ws|
    ensures InFlightCount(ws[i := w]) == InFlightCount(ws) - Held(ws[i]) + Held(w)
  {
    var n := |ws| - 1;
    if i == n {
      assert ws[i := w][..n] == ws[..n];
    } else {
      InFlightUpdate(ws[..n], i, w);
      assert ws[i := w][..n] == ws[..n][i := w];
    }
  }

  lemma {:induction false} InFlightAtLeast<T, M>(ws: seq<Worker<T, M>>, i: nat)
    requires i < |ws|
    ensures Held(ws[i]) <= InFlightCount(ws)
  {
    if i < |ws| - 1 {
      InFlightAtLeast(ws[..|ws| - 1], i);
    }
  }

  // The invariants, each over the parts of the state it is about.

  // Nothing lost, nothing duplicated, and every table in its own order.
  ghost predicate Conserved<T(!new), M>(log: seq<Chunk<T, M>>, data: map<T, seq<M>>, dropped: map<T, seq<M>>,
                                        accepted: seq<(T, M)>) {
    forall t: T :: TakenOf(log, t) + QueueOf(data, t) + QueueOf(dropped, t) == Of(accepted, t)
  }

  ghost predicate Sized<T, M>(log: seq<Chunk<T, M>>, batchSize: nat) {
    forall i | 0 <= i < |log| :: 1 <= |log[i].muts| <= batchSize
  }

  predicate Failing<T, M>(w: Worker<T, M>) {
    match w
    case Finishing(_, failed) => failed
    case Leaving(failed) => failed
    case Done(failed) => failed
    case _ => false
  }

  predicate LeftQuietly<T, M>(w: Worker<T, M>) {
    match w
    case Leaving(failed) => !failed
    case Done(failed) => !failed
    case _ => false
  }

  ghost predicate AnyFailed<T, M>(log: seq<Chunk<T, M>>) {
    exists i | 0 <= i < |log| :: log[i].fate.Failed?
  }

  // The chunk of a worker is the log entry in its slot, and it is what a failing
  // worker has failed on.
  ghost predicate HoldsSlot<T, M>(log: seq<Chunk<T, M>>, w: nat, worker: Worker<T, M>, slot: map<nat, nat>) {
    && (worker.Applying? ==>
          w in slot && slot[w] < |log| && log[slot[w]] == Chunk(worker.table, worker.muts, Fate.InFlight(w)))
    && (Failing(worker) ==> w in slot && slot[w] < |log| && log[slot[w]].fate.Failed?)
  }

  ghost predicate FateOk<T, M>(fate: Fate, i: nat, ws: seq<Worker<T, M>>, slot: map<nat, nat>, now: nat) {
    match fate
    case InFlight(w) => w < |ws| && ws[w].Applying? && w in slot && slot[w] == i
    case Applied(at) => at <= now
    case Failed(w, at) => at <= now && w < |ws| && Failing(ws[w])
  }

  ghost predicate Fated<T, M>(log: seq<Chunk<T, M>>, ws: seq<Worker<T, M>>, slot: map<nat, nat>, now: nat) {
    && (forall w | 0 <= w < |ws| :: HoldsSlot(log, w, ws[w], slot))
    && (forall i | 0 <= i < |log| :: FateOk(log[i].fate, i, ws, slot, now))
  }

  // A worker without an error leaves only if there is nothing left, or no way to do it.
  predicate Stopped<T(==), M(==)>(ws: seq<Worker<T, M>>, cancelled: bool) {
    cancelled || AnyError(ws)
  }

  ghost predicate LeftForReason<T(!new), M>(ws: seq<Worker<T, M>>, batchSize: nat, cancelled: bool, drain: bool,
                                            data: map<T, seq<M>>) {
    (exists w | 0 <= w < |ws| :: LeftQuietly(ws[w])) ==>
      batchSize == 0 || Stopped(ws, cancelled) || (drain && Queued(data) == 0)
  }

  ghost predicate AnyDone<T, M>(ws: seq<Worker<T, M>>) {
    exists w | 0 <= w < |ws| :: ws[w].Done?
  }

  predicate AllDone<T, M>(ws: seq<Worker<T, M>>) {
    forall w | 0 <= w < |ws| :: ws[w].Done?
  }

  // The group of workers reports the error of any of them.
  predicate AnyError<T(==), M(==)>(ws: seq<Worker<T, M>>) {
    exists w | 0 <= w < |ws| :: ws[w] == Done(true)
  }

  // What any number of worker steps may do to the log and the queues.
  ghost predicate Progressed<T(!new), M>(log0: seq<Chunk<T, M>>, data0: map<T, seq<M>>,
                                         log1: seq<Chunk<T, M>>, data1: map<T, seq<M>>) {
    && |log0| <= |log1|
    && (forall i | 0 <= i < |log0| ::
          && log1[i].table == log0[i].table && log1[i].muts == log0[i].muts
          && (log1[i].fate == log0[i].fate || (log0[i].fate.InFlight? && !log1[i].fate.InFlight?)))
    && (forall i | |log0| <= i < |log1| :: QueueOf(data0, log1[i].table) != [])
    && (forall t | QueueOf(data1, t) != [] :: QueueOf(data0, t) != [])
  }

  datatype Event<T> =
    | Take(w: nat, order: seq<T>)
    | Apply(w: nat, ok: bool)
    | Release(w: nat)
    | Leave(w: nat)
    | Interrupt(w: nat)
    | Cancel

  class FanBatch<T(==,!new), M(==,!new)> {
    const batchSize: nat
    var data: map<T, seq<M>>
    var drain: bool
    var workerExited: bool
    var pending: int
    var workers: seq<Worker<T, M>>
    // The enclosing context is cancelled.
    var cancelled: bool

    ghost var accepted: seq<(T, M)>
    ghost var log: seq<Chunk<T, M>>
    ghost var slot: map<nat, nat>
    ghost var rolledBack: bool
    ghost var dropped: map<T, seq<M>>

    ghost predicate Valid()
      reads this
    {
      && Conserved(log, data, dropped, accepted)
      && Sized(log, batchSize)
      && Fated(log, workers, slot, |accepted|)
      && LeftForReason(workers, batchSize, cancelled, drain, data)
      && pending == Queued(data) + InFlightCount(workers) + Queued(dropped)
      && workerExited == AnyDone(workers)
      && (if rolledBack then drain && data == map[] else dropped == map[])
    }

    constructor (shards: int, batchSize: nat)
      ensures Valid() && this.batchSize == batchSize && |workers| == (if shards < 0 then 0 else shards)
      ensures forall w | 0 <= w < |workers| :: workers[w].Waiting?
      ensures accepted == [] && log == [] && data == map[] && !drain && !cancelled && !rolledBack
    {
      this.batchSize, data, drain, workerExited, pending, cancelled := batchSize, map[], false, false, 0, false;
      workers := seq(if shards < 0 then 0 else shards, _ => Waiting);
      accepted, log, slot, rolledBack, dropped := [], [], map[], false, map[];
      new;
      NobodyHolds(workers);
    }

    method OnData(table: T, muts: seq<M>) returns (ok: bool)
      requires Valid()
      modifies `data, `pending, `accepted
      ensures Valid() && ok == !drain
      ensures accepted == old(accepted) + if ok then Tagged(table, muts) else []
      ensures data == if ok then old(data)[table := QueueOf(old(data), table) + muts] else old(data)
    {
      hide Queued, Fated, LeftForReason, Sized, InFlightCount, Conserved, TakenOf, Of, Tagged;
      if drain {
        return false;
      }
      QueuedPut(data, table, QueueOf(data, table) + muts);
      AcceptedConserves(log, data, dropped, accepted, table, muts);
      AcceptedFated(log, workers, slot, |accepted|, |accepted| + |muts|);
      AcceptedLeft(workers, batchSize, cancelled, data, data[table := QueueOf(data, table) + muts]);
      data := data[table := QueueOf(data, table) + muts];
      pending := pending + |muts|;
      accepted := accepted + Tagged(table, muts);
      return true;
    }

    // What a step of a worker leaves alone, and what it may do.
    twostate predicate Stepped()
      reads this
    {
      Progressed(old(log), old(data), log, data) && |workers| == |old(workers)| && pending <= old(pending)
    }

    // The loop over the tables, in the order of the map: the first with mutations.
    method FindWork(order: seq<T>) returns (found: Option<T>)
      requires forall t :: t in order <==> t in data
      ensures found.None? ==> forall t | t in data :: data[t] == []
      ensures found.Some? ==> found.value in data && data[found.value] != []
    {
      for i := 0 to |order|
        invariant forall j | 0 <= j < i :: data[order[j]] == []
      {
        if data[order[i]] != [] {
          return Some(order[i]);
        }
      }
      return None;
    }

    // waitForWork returns nothing, which ends the worker without an error.
    method Quit(w: nat)
      requires Valid() && w < |workers| && workers[w].Waiting?
      requires batchSize == 0 || Stopped(workers, cancelled) || (drain && Queued(data) == 0)
      modifies `workers
      ensures Valid() && Stepped() && workers == old(workers)[w := Leaving(false)]
    {
      hide Queued, Conserved, Fated, LeftForReason, Sized, InFlightCount, TakenOf, Of, Progressed, AnyDone;
      ProgressedSelf(log, data);
      DoneMove(workers, w, Leaving(false));
      LeftMove(workers, batchSize, cancelled, drain, data, w, Leaving(false));
      FatedMove(log, workers, slot, |accepted|, w, Leaving(false));
      InFlightUpdate(workers, w, Leaving(false));
      workers := workers[w := Leaving(false)];
    }

    // A worker takes at most a batch from a table's queue.
    method TakeChunk(w: nat, table: T)
      requires Valid() && w < |workers| && workers[w].Waiting? && batchSize > 0 && table in data && data[table] != []
      modifies `data, `workers, `log, `slot
      ensures Valid() && Stepped()
      ensures var queue := old(data)[table];
              var n := if |queue| > batchSize then batchSize else |queue|;
              && workers == old(workers)[w := Applying(table, queue[..n])]
              && log == old(log) + [Chunk(table, queue[..n], Fate.InFlight(w))]
              && data == if n < |queue| then old(data)[table := queue[n..]] else old(data) - {table}
    {
      hide Queued, Conserved, Fated, LeftForReason, Sized, InFlightCount, TakenOf, Of, Progressed, AnyDone;
      var queue := data[table];
      var n := if |queue| > batchSize then batchSize else |queue|;
      var muts := queue[..n];
      var rest := if |queue| > batchSize then data[table := queue[n..]] else data - {table};
      var chunk := Chunk(table, muts, Fate.InFlight(w));
      QueuedPut(data, table, queue[n..]);
      NothingQueued(data);
      DoneMove(workers, w, Applying(table, muts));
      LeftMove(workers, batchSize, cancelled, drain, data, w, Applying(table, muts));
      LeftShrink(workers[w := Applying(table, muts)], batchSize, cancelled, drain, data, rest);
      TakeConserves(log, data, dropped, accepted, table, n, Fate.InFlight(w));
      TakeFated(log, workers, slot, |accepted|, w, table, muts);
      TakeProgresses(log, data, chunk, rest);
      InFlightUpdate(workers, w, Applying(table, muts));
      data := rest;
      log := log + [chunk];
      slot := slot[w := |log| - 1];
      workers := workers[w := Applying(table, muts)];
      TakeSized(log, batchSize);
    }

    // One attempt of waitForWork: an atomic update of the shared state.
    method Take(w: nat, order: seq<T>) returns (found: Option<T>)
      requires Valid() && w < |workers| && workers[w].Waiting?
      requires forall t :: t in order <==> t in data
      modifies `data, `workers, `log, `slot
      ensures Valid() && Stepped()
      ensures found.None? ==>
                && (forall t | t in data :: data[t] == []) && data == old(data) && log == old(log)
                && workers == if drain then old(workers)[w := Leaving(false)] else old(workers)
      ensures found.Some? ==> found.value in old(data) && old(data)[found.value] != []
      ensures found.Some? && batchSize == 0 ==>
                workers == old(workers)[w := Leaving(false)] && data == old(data) && log == old(log)
      ensures found.Some? && batchSize > 0 ==>
                var queue := old(data)[found.value];
                var n := if |queue| > batchSize then batchSize else |queue|;
                && workers == old(workers)[w := Applying(found.value, queue[..n])]
                && log == old(log) + [Chunk(found.value, queue[..n], Fate.InFlight(w))]
                && data == if n < |queue| then old(data)[found.value := queue[n..]] else old(data) - {found.value}
    {
      hide Queued, Conserved, Fated, LeftForReason, Sized, InFlightCount, TakenOf, Of, Progressed, AnyDone;
      ProgressedSelf(log, data);
      found := FindWork(order);
      if found.None? {
        if drain {
          NothingQueued(data);
          Quit(w);
        }
      } else if batchSize == 0 {
        // Nothing is taken, which the caller reads as the end of the work.
        Quit(w);
      } else {
        TakeChunk(w, found.value);
      }
    }

    // The applier returns; what it was given has been written, or not.
    method Apply(w: nat, ok: bool)
      requires Valid() && w < |workers| && workers[w].Applying?
      modifies `workers, `log
      ensures Valid() && Stepped()
      ensures workers == old(workers)[w := Finishing(|old(workers)[w].muts|, !ok)]
      ensures w in slot && slot[w] < |old(log)| && old(log)[slot[w]].fate == Fate.InFlight(w)
      ensures log == old(log)[slot[w] := old(log)[slot[w]].(
                                fate := if ok then Applied(|accepted|) else Failed(w, |accepted|))]
    {
      hide Queued, Conserved, Fated, LeftForReason, Sized, InFlightCount, TakenOf, Of, Progressed, AnyDone;
      var next := Finishing(|workers[w].muts|, !ok);
      ghost var fate := if ok then Applied(|accepted|) else Failed(w, |accepted|);
      DoneMove(workers, w, next);
      LeftMove(workers, batchSize, cancelled, drain, data, w, next);
      InFlightUpdate(workers, w, next);
      SlotOf(log, workers, slot, |accepted|, w);
      ghost var settled := log[slot[w] := log[slot[w]].(fate := fate)];
      Settled(log, workers, slot, |accepted|, w, next, fate);
      SettledConserves(log, data, dropped, accepted, slot[w], fate);
      SettledProgresses(log, data, slot[w], fate);
      SettledSized(log, batchSize, slot[w], fate);
      log := settled;
      workers := workers[w := next];
    }

    // The deferred decrement of the pending count.
    method Release(w: nat)
      requires Valid() && w < |workers| && workers[w].Finishing?
      modifies `workers, `pending
      ensures Valid() && Stepped()
      ensures workers == old(workers)[w := if old(workers)[w].failed then Leaving(true) else Waiting]
      ensures pending == old(pending) - old(workers)[w].count
    {
      hide Queued, Conserved, Fated, LeftForReason, Sized, InFlightCount, TakenOf, Of, Progressed, AnyDone;
      ProgressedSelf(log, data);
      var next := if workers[w].failed then Leaving(true) else Waiting;
      DoneMove(workers, w, next);
      LeftMove(workers, batchSize, cancelled, drain, data, w, next);
      FatedMove(log, workers, slot, |accepted|, w, next);
      InFlightUpdate(workers, w, next);
      pending := pending - workers[w].count;
      workers := workers[w := next];
    }

    // The deferred setting of workerExited; the error, if any, stops the others.
    method Leave(w: nat)
      requires Valid() && w < |workers| && workers[w].Leaving?
      modifies `workers, `workerExited
      ensures Valid() && Stepped()
      ensures workers == old(workers)[w := Done(old(workers)[w].failed)] && workerExited
    {
      hide Queued, Conserved, Fated, Sized, InFlightCount, TakenOf, Of, Progressed, LeftForReason, AnyDone;
      ProgressedSelf(log, data);
      var next := Done(workers[w].failed);
      DoneMove(workers, w, next);
      LeftMove(workers, batchSize, cancelled, drain, data, w, next);
      FatedMove(log, workers, slot, |accepted|, w, next);
      InFlightUpdate(workers, w, next);
      workerExited := true;
      workers := workers[w := next];
    }

    // A waiting worker notices that its context is done.
    method Interrupt(w: nat)
      requires Valid() && w < |workers| && workers[w].Waiting? && Stopped(workers, cancelled)
      modifies `workers
      ensures Valid() && Stepped() && workers == old(workers)[w := Leaving(false)]
    {
      hide Queued, Conserved, Fated, Sized, InFlightCount, TakenOf, Of, Progressed, LeftForReason, AnyDone;
      Quit(w);
    }

    method Cancel()
      requires Valid()
      modifies `cancelled
      ensures Valid() && Stepped() && cancelled
    {
      ProgressedSelf(log, data);
      cancelled := true;
    }

    // Whether a step can happen now; a cancellation always can.
    predicate Enabled(e: Event<T>)
      reads this
    {
      match e
      case Take(w, order) => w < |workers| && workers[w].Waiting? && (set t | t in order) == data.Keys
      case Apply(w, _) => w < |workers| && workers[w].Applying?
      case Release(w) => w < |workers| && workers[w].Finishing?
      case Leave(w) => w < |workers| && workers[w].Leaving?
      case Interrupt(w) => w < |workers| && workers[w].Waiting? && Stopped(workers, cancelled)
      case Cancel => true
    }

    // Any interleaving of the workers.
    method Run(schedule: seq<Event<T>>)
      requires Valid()
      modifies `data, `pending, `workers, `workerExited, `cancelled, `log, `slot
      ensures Valid() && Stepped()
    {
      hide Queued, Conserved, Fated, LeftForReason, Sized, InFlightCount, TakenOf, Of, Progressed, AnyDone, Stopped;
      ProgressedSelf(log, data);
      for i := 0 to |schedule|
        invariant Valid() && Stepped()
      {
        ghost var log0, data0 := log, data;
        if Enabled(schedule[i]) {
          match schedule[i] {
            case Take(w, order) =>
              assert forall t :: t in order <==> t in (set u | u in order);
              var found := Take(w, order);
            case Apply(w, ok) => Apply(w, ok);
            case Release(w) => Release(w);
            case Leave(w) => Leave(w);
            case Interrupt(w) => Interrupt(w);
            case Cancel => Cancel();
          }
          ProgressedTrans(old(log), old(data), log0, data0, log, data);
        }
      }
    }

    // What the group of workers reports, once all of them have returned: an error
    // exactly if some chunk was not applied.
    method WorkerStatus() returns (ok: bool)
      requires Valid() && AllDone(workers)
      ensures ok <==> !AnyFailed(log)
      ensures ok <==> !AnyError(workers)
    {
      hide Queued, Conserved, Sized, InFlightCount, TakenOf, Of, LeftForReason;
      ErrorIffFailure();
      ok := !AnyError(workers);
    }

    // What keeps a caller of Flush waiting: some workers have returned and others
    // have not, or there is work left, no error, and time.
    ghost predicate Waits(ctxDone: bool)
      reads this
    {
      (workerExited && !AllDone(workers))
      || (pending > 0 && !ctxDone && !(AllDone(workers) && AnyFailed(log)))
    }

    // The result, if there is one yet, of waiting while the workers go on.
    method Flush(ctxDone: bool) returns (r: Option<bool>)
      requires Valid()
      modifies `data, `pending, `workers, `workerExited, `cancelled, `log, `slot
      ensures Valid() && Stepped()
      ensures r == Some(true) ==> pending == 0
      ensures r == Some(false) ==> ctxDone || (AllDone(workers) && AnyFailed(log))
      ensures r == None ==> Waits(ctxDone)
    {
      hide Queued, Conserved, Fated, LeftForReason, Sized, InFlightCount, TakenOf, Of, Progressed, AnyDone;
      var early: seq<Event<T>>, late: seq<Event<T>>, first: nat := *, *, *;
      Run(early);
      ghost var log0, data0 := log, data;
      ProgressedSelf(log, data);
      if workerExited {
        if !AllDone(workers) {
          return None;
        }
        var ok := WorkerStatus();
        if !ok {
          return Some(false);
        }
      }
      Run(late);
      ProgressedTrans(old(log), old(data), log0, data0, log, data);
      // The select takes any case that is ready.
      if workerExited && (first == 1 || (pending > 0 && !ctxDone)) {
        if !AllDone(workers) {
          return None;
        }
        var ok := WorkerStatus();
        if !ok {
          return Some(false);
        }
      }
      if pending == 0 && (first == 0 || !ctxDone) {
        return Some(true);
      }
      if ctxDone {
        return Some(false);
      }
      if !workerExited && AllDone(workers) {
        NobodyFailed();
      }
      return None;
    }

    lemma NobodyFailed()
      requires Valid() && !workerExited && AllDone(workers)
      ensures !AnyFailed(log)
    {
      hide Queued, Conserved, LeftForReason, Sized, InFlightCount, TakenOf, Of;
      assert workers != [] ==> workers[0].Done?;
      forall i | 0 <= i < |log| ensures !log[i].fate.Failed? {
        assert FateOk(log[i].fate, i, workers, slot, |accepted|);
      }
    }

    // The end of the transaction: nothing more is accepted, and on a rollback
    // whatever nobody has taken yet is dropped.
    method NotifyOnCompletion(gracefulDrain: bool)
      requires Valid()
      modifies `drain, `data, `rolledBack, `dropped
      ensures Valid() && drain
      ensures data == if gracefulDrain then old(data) else map[]
      ensures rolledBack == (old(rolledBack) || !gracefulDrain)
      ensures dropped == if gracefulDrain || old(rolledBack) then old(dropped) else old(data)
    {
      hide Queued, Fated, Sized, InFlightCount, TakenOf, Of, AnyDone;
      drain := true;
      NothingQueued<T, M>(map[]);
      if !gracefulDrain {
        LeftShrink(workers, batchSize, cancelled, drain, data, map[]);
        if !rolledBack {
          dropped := data;
        }
        rolledBack := true;
        data := map[];
      }
    }

    // With nothing pending, every mutation has been given to an applier.
    lemma QuietMeansSettled()
      requires Valid() && pending == 0
      ensures forall t :: QueueOf(data, t) == [] && TakenOf(log, t) == Of(accepted, t)
      ensures forall i | 0 <= i < |log| :: !log[i].fate.InFlight?
    {
      hide Queued, InFlightCount, TakenOf, Of, LeftForReason;
      NothingQueued(data);
      NothingQueued(dropped);
      forall i | 0 <= i < |log| ensures !log[i].fate.InFlight? {
        InFlightIsHeld(log, workers, slot, |accepted|, batchSize, i);
      }
      forall t ensures TakenOf(log, t) == Of(accepted, t) {
        assert TakenOf(log, t) + QueueOf(data, t) + QueueOf(dropped, t) == Of(accepted, t);
      }
    }

    // A failed chunk is never forgotten: the workers' status is an error.
    lemma FailureIsReported(i: nat)
      requires Valid() && i < |log| && log[i].fate.Failed? && AllDone(workers)
      ensures AnyError(workers)
    {
      hide Queued, InFlightCount, TakenOf, Of, LeftForReason, Conserved;
      assert FateOk(log[i].fate, i, workers, slot, |accepted|);
      assert workers[log[i].fate.worker] == Done(true);
    }

    // And an error has a failed chunk as its cause.
    lemma ErrorIffFailure()
      requires Valid() && AllDone(workers)
      ensures AnyError(workers) <==> AnyFailed(log)
    {
      hide Queued, InFlightCount, TakenOf, Of, LeftForReason, Conserved;
      if w :| 0 <= w < |workers| && workers[w] == Done(true) {
        assert HoldsSlot(log, w, workers[w], slot);
      }
      if i :| 0 <= i < |log| && log[i].fate.Failed? {
        FailureIsReported(i);
      }
    }

    // Every accepted mutation was applied once, and each table in its own order.
    ghost predicate AppliedOnce()
      reads this
    {
      && (forall i | 0 <= i < |log| :: log[i].fate.Applied?)
      && (forall t :: TakenOf(log, t) == Of(accepted, t))
    }

    // When the workers report no error, all has been applied exactly if nothing
    // was left in the queues.
    lemma CommittedIff()
      requires Valid() && !rolledBack && AllDone(workers) && !AnyError(workers)
      ensures AppliedOnce() <==> pending == 0
    {
      hide Queued, InFlightCount, TakenOf, Of, LeftForReason, Fated, Sized, AllDone, AnyError;
      if pending == 0 {
        QuietMeansSettled();
        forall i | 0 <= i < |log| ensures log[i].fate.Applied? {
          if log[i].fate.Failed? {
            FailureIsReported(i);
          }
        }
      }
      if AppliedOnce() {
        forall t | t in data ensures data[t] == [] {
          assert TakenOf(log, t) + QueueOf(data, t) + QueueOf(dropped, t) == Of(accepted, t);
        }
        NothingQueued(data);
        NothingQueued(dropped);
        DoneHoldNothing(workers);
      }
    }

    // A commit without an error applies everything, if there are workers and
    // their context lives.
    lemma CommitMeansApplied()
      requires Valid() && drain && !rolledBack && AllDone(workers) && !AnyError(workers)
      requires workers != [] && batchSize > 0 && !cancelled
      ensures AppliedOnce() && pending == 0
    {
      hide Queued, InFlightCount, TakenOf, Of, Fated, Sized, Conserved;
      assert LeftQuietly(workers[0]);
      NothingQueued(dropped);
      DoneHoldNothing(workers);
      CommittedIff();
    }
  }

  lemma DoneHoldNothing<T, M>(ws: seq<Worker<T, M>>)
    requires AllDone(ws)
    ensures InFlightCount(ws) == 0
  {
    NobodyHolds(ws);
  }

  lemma NothingTaken<T, M>(table: T, muts: seq<M>)
    requires muts != []
    ensures [] + Tagged(table, muts) == Tagged(table, muts)
    ensures TakenOf<T, M>([], table) != Of(Tagged(table, muts), table)
  {
    OfAppended([], table, muts, table);
    assert [] + Tagged(table, muts) == Tagged(table, muts);
  }

  // Without workers a commit succeeds and applies nothing.
  method CommitWithoutWorkers<T(==,!new), M(==,!new)>(table: T, muts: seq<M>) returns (fan: FanBatch<T, M>, ok: bool)
    requires muts != []
    ensures fan.Valid() && ok && fan.accepted == Tagged(table, muts) && !fan.AppliedOnce()
  {
    hide Queued, InFlightCount, Fated, Sized, Conserved, LeftForReason, TakenOf, Of, Tagged;
    fan := new FanBatch(0, 100);
    var accepted := fan.OnData(table, muts);
    fan.NotifyOnCompletion(true);
    ok := fan.WorkerStatus();
    NothingTaken(table, muts);
  }

  // So does one whose workers noticed the cancellation of their context first.
  method CommitAfterCancel<T(==,!new), M(==,!new)>(table: T, muts: seq<M>) returns (fan: FanBatch<T, M>, ok: bool)
    requires muts != []
    ensures fan.Valid() && ok && fan.accepted == Tagged(table, muts) && !fan.AppliedOnce()
  {
    hide Queued, InFlightCount, Fated, Sized, Conserved, LeftForReason, TakenOf, Of, Tagged;
    fan := new FanBatch(1, 100);
    fan.Cancel();
    fan.Interrupt(0);
    var accepted := fan.OnData(table, muts);
    fan.Leave(0);
    fan.NotifyOnCompletion(true);
    ok := fan.WorkerStatus();
    NothingTaken(table, muts);
  }

  // And one of a fan whose batches have no room for a mutation.
  method CommitWithBatchSizeZero<T(==,!new), M(==,!new)>(table: T, muts: seq<M>)
    returns (fan: FanBatch<T, M>, ok: bool)
    requires muts != []
    ensures fan.Valid() && ok && fan.accepted == Tagged(table, muts) && !fan.AppliedOnce()
  {
    hide Queued, InFlightCount, Fated, Sized, Conserved, LeftForReason, TakenOf, Of, Tagged;
    fan := new FanBatch(1, 0);
    var accepted := fan.OnData(table, muts);
    assert fan.data == map[table := muts] by {
      assert [] + muts == muts;
    }
    var found := fan.Take(0, [table]);
    fan.Leave(0);
    fan.NotifyOnCompletion(true);
    ok := fan.WorkerStatus();
    NothingTaken(table, muts);
  }

  lemma {:induction false} NobodyHolds<T, M>(ws: seq<Worker<T, M>>)
    requires forall w | 0 <= w < |ws| :: Held(ws[w]) == 0
    ensures InFlightCount(ws) == 0
  {
    if ws != [] {
      NobodyHolds(ws[..|ws| - 1]);
    }
  }

  lemma AcceptedConserves<T(!new), M>(log: seq<Chunk<T, M>>, data: map<T, seq<M>>, dropped: map<T, seq<M>>,
                                      accepted: seq<(T, M)>, table: T, muts: seq<M>)
    requires Conserved(log, data, dropped, accepted) && dropped == map[]
    ensures Conserved(log, data[table := QueueOf(data, table) + muts], dropped, accepted + Tagged(table, muts))
  {
    hide TakenOf, Of, Tagged;
    var data' := data[table := QueueOf(data, table) + muts];
    forall t: T
      ensures TakenOf(log, t) + QueueOf(data', t) + QueueOf(dropped, t) == Of(accepted + Tagged(table, muts), t)
    {
      OfAppended(accepted, table, muts, t);
      assert TakenOf(log, t) + QueueOf(data, t) + QueueOf(dropped, t) == Of(accepted, t);
      if t == table {
        assert TakenOf(log, t) + (QueueOf(data, t) + muts) + [] == TakenOf(log, t) + QueueOf(data, t) + [] + muts;
      } else {
        assert Of(accepted, t) + [] == Of(accepted, t);
      }
    }
  }

  lemma AcceptedFated<T, M>(log: seq<Chunk<T, M>>, ws: seq<Worker<T, M>>, slot: map<nat, nat>, now: nat, later: nat)
    requires Fated(log, ws, slot, now) && now <= later
    ensures Fated(log, ws, slot, later)
  {
    forall i | 0 <= i < |log| ensures FateOk(log[i].fate, i, ws, slot, later) {
      assert FateOk(log[i].fate, i, ws, slot, now);
    }
  }

  lemma AcceptedLeft<T(!new), M>(ws: seq<Worker<T, M>>, batchSize: nat, cancelled: bool, before: map<T, seq<M>>,
                                 after: map<T, seq<M>>)
    requires LeftForReason(ws, batchSize, cancelled, false, before)
    ensures LeftForReason(ws, batchSize, cancelled, false, after)
  {
  }

  // Progress is reflexive and transitive.
  lemma ProgressedSelf<T(!new), M>(log: seq<Chunk<T, M>>, data: map<T, seq<M>>)
    ensures Progressed(log, data, log, data)
  {
  }

  lemma ProgressedTrans<T(!new), M>(log0: seq<Chunk<T, M>>, data0: map<T, seq<M>>, log1: seq<Chunk<T, M>>,
                                    data1: map<T, seq<M>>, log2: seq<Chunk<T, M>>, data2: map<T, seq<M>>)
    requires Progressed(log0, data0, log1, data1) && Progressed(log1, data1, log2, data2)
    ensures Progressed(log0, data0, log2, data2)
  {
    forall i | |log0| <= i < |log2| ensures QueueOf(data0, log2[i].table) != [] {
      if i >= |log1| {
        assert QueueOf(data1, log2[i].table) != [];
      }
    }
  }

  // A worker that is not applying anything moves on.
  lemma FatedMove<T, M>(log: seq<Chunk<T, M>>, ws: seq<Worker<T, M>>, slot: map<nat, nat>, now: nat, w: nat,
                        next: Worker<T, M>)
    requires Fated(log, ws, slot, now) && w < |ws| && !ws[w].Applying? && !next.Applying?
    requires Failing(ws[w]) <==> Failing(next)
    ensures Fated(log, ws[w := next], slot, now)
  {
    var ws' := ws[w := next];
    forall v | 0 <= v < |ws'| ensures HoldsSlot(log, v, ws'[v], slot) {
      assert HoldsSlot(log, v, ws[v], slot);
    }
    forall i | 0 <= i < |log| ensures FateOk(log[i].fate, i, ws[w := next], slot, now) {
      assert FateOk(log[i].fate, i, ws, slot, now);
    }
  }

  lemma DoneMove<T, M>(ws: seq<Worker<T, M>>, w: nat, next: Worker<T, M>)
    requires w < |ws| && !ws[w].Done?
    ensures AnyDone(ws[w := next]) <==> AnyDone(ws) || next.Done?
  {
    if v :| 0 <= v < |ws| && ws[v].Done? {
      assert ws[w := next][v].Done?;
    }
    assert next.Done? ==> ws[w := next][w].Done?;
  }

  lemma LeftMove<T(!new), M>(ws: seq<Worker<T, M>>, batchSize: nat, cancelled: bool, drain: bool, data: map<T, seq<M>>,
                             w: nat, next: Worker<T, M>)
    requires LeftForReason(ws, batchSize, cancelled, drain, data) && w < |ws| && !ws[w].Done?
    requires LeftQuietly(next) ==>
               LeftQuietly(ws[w]) || batchSize == 0 || Stopped(ws, cancelled) || (drain && Queued(data) == 0)
    ensures LeftForReason(ws[w := next], batchSize, cancelled, drain, data)
  {
    hide Queued;
    var after := ws[w := next];
    assert Stopped(ws, cancelled) ==> Stopped(after, cancelled) by {
      if v :| 0 <= v < |ws| && ws[v] == Done(true) {
        assert after[v] == Done(true);
      }
    }
    if v :| 0 <= v < |after| && LeftQuietly(after[v]) {
      assert v != w ==> LeftQuietly(ws[v]);
    }
  }

  lemma LeftShrink<T(!new), M>(ws: seq<Worker<T, M>>, batchSize: nat, cancelled: bool, drain: bool,
                               before: map<T, seq<M>>, after: map<T, seq<M>>)
    requires LeftForReason(ws, batchSize, cancelled, drain, before) && Queued(after) <= Queued(before)
    ensures LeftForReason(ws, batchSize, cancelled, drain, after)
  {
  }

  lemma TakeConserves<T(!new), M>(log: seq<Chunk<T, M>>, data: map<T, seq<M>>, dropped: map<T, seq<M>>,
                                  accepted: seq<(T, M)>, table: T, n: nat, fate: Fate)
    requires Conserved(log, data, dropped, accepted) && table in data && n <= |data[table]|
    ensures Conserved(log + [Chunk(table, data[table][..n], fate)], data[table := data[table][n..]], dropped, accepted)
    ensures n == |data[table]| ==>
              Conserved(log + [Chunk(table, data[table][..n], fate)], data - {table}, dropped, accepted)
  {
    hide TakenOf, Of;
    var queue := data[table];
    assert queue == queue[..n] + queue[n..];
    forall t: T
      ensures TakenOf(log + [Chunk(table, queue[..n], fate)], t) + QueueOf(data[table := queue[n..]], t)
              + QueueOf(dropped, t) == Of(accepted, t)
      ensures n == |queue| ==> QueueOf(data - {table}, t) == QueueOf(data[table := queue[n..]], t)
    {
      TakenAppended(log, Chunk(table, queue[..n], fate), t);
      assert TakenOf(log, t) + QueueOf(data, t) + QueueOf(dropped, t) == Of(accepted, t);
      if t == table {
        Reassociate(TakenOf(log, t), queue[..n], queue[n..], QueueOf(dropped, t));
      } else {
        assert TakenOf(log, t) + [] == TakenOf(log, t);
      }
    }
  }

  lemma TakenAppended<T, M>(log: seq<Chunk<T, M>>, chunk: Chunk<T, M>, t: T)
    ensures TakenOf(log + [chunk], t) == TakenOf(log, t) + if chunk.table == t then chunk.muts else []
  {
    assert (log + [chunk])[..|log|] == log;
  }

  lemma Reassociate<M>(a: seq<M>, b: seq<M>, c: seq<M>, d: seq<M>)
    ensures a + b + c + d == a + (b + c) + d
  {
  }

  lemma TakeFated<T, M>(log: seq<Chunk<T, M>>, ws: seq<Worker<T, M>>, slot: map<nat, nat>, now: nat, w: nat, table: T,
                        muts: seq<M>)
    requires Fated(log, ws, slot, now) && w < |ws| && ws[w].Waiting?
    ensures Fated(log + [Chunk(table, muts, Fate.InFlight(w))], ws[w := Applying(table, muts)], slot[w := |log|], now)
  {
    var log', ws' := log + [Chunk(table, muts, Fate.InFlight(w))], ws[w := Applying(table, muts)];
    var slot' := slot[w := |log|];
    forall v | 0 <= v < |ws| ensures HoldsSlot(log', v, ws'[v], slot') {
      assert HoldsSlot(log, v, ws[v], slot);
    }
    forall i | 0 <= i < |log'| ensures FateOk(log'[i].fate, i, ws', slot', now) {
      if i < |log| {
        assert FateOk(log[i].fate, i, ws, slot, now);
      }
    }
  }

  lemma TakeProgresses<T(!new), M>(log: seq<Chunk<T, M>>, data: map<T, seq<M>>, chunk: Chunk<T, M>,
                                   rest: map<T, seq<M>>)
    requires QueueOf(data, chunk.table) != []
    requires forall t | QueueOf(rest, t) != [] :: QueueOf(data, t) != []
    ensures Progressed(log, data, log + [chunk], rest)
  {
  }

  lemma TakeSized<T, M>(log: seq<Chunk<T, M>>, batchSize: nat)
    requires log != [] && Sized(log[..|log| - 1], batchSize) && 1 <= |log[|log| - 1].muts| <= batchSize
    ensures Sized(log, batchSize)
  {
    forall i | 0 <= i < |log| ensures 1 <= |log[i].muts| <= batchSize {
      if i < |log| - 1 {
        assert log[..|log| - 1][i] == log[i];
      }
    }
  }

  lemma SlotOf<T, M>(log: seq<Chunk<T, M>>, ws: seq<Worker<T, M>>, slot: map<nat, nat>, now: nat, w: nat)
    requires Fated(log, ws, slot, now) && w < |ws| && ws[w].Applying?
    ensures w in slot && slot[w] < |log| && log[slot[w]] == Chunk(ws[w].table, ws[w].muts, Fate.InFlight(w))
  {
    assert HoldsSlot(log, w, ws[w], slot);
  }

  lemma InFlightIsHeld<T, M>(log: seq<Chunk<T, M>>, ws: seq<Worker<T, M>>, slot: map<nat, nat>, now: nat,
                             batchSize: nat, i: nat)
    requires Fated(log, ws, slot, now) && Sized(log, batchSize) && i < |log|
    ensures log[i].fate.InFlight? ==> InFlightCount(ws) >= 1
  {
    hide InFlightCount;
    assert FateOk(log[i].fate, i, ws, slot, now);
    if log[i].fate.InFlight? {
      var w := log[i].fate.worker;
      SlotOf(log, ws, slot, now, w);
      InFlightAtLeast(ws, w);
    }
  }

  // The chunk of an applying worker is settled, one way or the other.
  lemma Settled<T, M>(log: seq<Chunk<T, M>>, ws: seq<Worker<T, M>>, slot: map<nat, nat>, now: nat, w: nat,
                      next: Worker<T, M>, fate: Fate)
    requires Fated(log, ws, slot, now) && w < |ws| && ws[w].Applying? && next.Finishing? && w in slot && slot[w] < |log|
    requires log[slot[w]].fate == Fate.InFlight(w)
    requires fate == if next.failed then Failed(w, now) else Applied(now)
    ensures Fated(log[slot[w] := log[slot[w]].(fate := fate)], ws[w := next], slot, now)
  {
    var log', ws' := log[slot[w] := log[slot[w]].(fate := fate)], ws[w := next];
    forall v | 0 <= v < |ws| ensures HoldsSlot(log', v, ws'[v], slot) {
      assert HoldsSlot(log, v, ws[v], slot);
    }
    forall i | 0 <= i < |log'| ensures FateOk(log'[i].fate, i, ws', slot, now) {
      assert FateOk(log[i].fate, i, ws, slot, now);
    }
  }

  lemma SettledConserves<T(!new), M>(log: seq<Chunk<T, M>>, data: map<T, seq<M>>, dropped: map<T, seq<M>>,
                                     accepted: seq<(T, M)>, i: nat, fate: Fate)
    requires Conserved(log, data, dropped, accepted) && i < |log|
    ensures Conserved(log[i := log[i].(fate := fate)], data, dropped, accepted)
  {
    hide TakenOf, Of;
    forall t: T
      ensures TakenOf(log[i := log[i].(fate := fate)], t) + QueueOf(data, t) + QueueOf(dropped, t) == Of(accepted, t)
    {
      TakenSame(log, log[i := log[i].(fate := fate)], t);
    }
  }

  lemma SettledProgresses<T(!new), M>(log: seq<Chunk<T, M>>, data: map<T, seq<M>>, i: nat, fate: Fate)
    requires i < |log| && log[i].fate.InFlight? && !fate.InFlight?
    ensures Progressed(log, data, log[i := log[i].(fate := fate)], data)
  {
  }

  lemma SettledSized<T, M>(log: seq<Chunk<T, M>>, batchSize: nat, i: nat, fate: Fate)
    requires i < |log| && Sized(log, batchSize)
    ensures Sized(log[i := log[i].(fate := fate)], batchSize)
  {
  }
}
