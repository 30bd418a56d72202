/** Filtering a replayed replication log (pglogical.conn.Process). */
module PgReplay {
  import opened Calls
  import opened Wrappers

  // A transaction of the source, by the position of its commit record.
  datatype Tx<Tuple> = Tx(lsn: int, tuples: seq<Tuple>)

  datatype Message<Tuple> =
    | Begin(finalLSN: int)
    | Data(tuple: Tuple)
    | Commit(commitLSN: int)
    | Relation
    | Unsupported
    | Rollback                // injected when the connection is restarted

  ghost predicate Increasing<Tuple>(log: seq<Tx<Tuple>>) {
    forall i, j | 0 <= i < j < |log| :: log[i].lsn < log[j].lsn
  }

  // The first n transactions are at or before lsn, and no others.
  ghost predicate Covers<Tuple>(log: seq<Tx<Tuple>>, lsn: int, n: nat) {
    n <= |log| && (forall i | 0 <= i < n :: log[i].lsn <= lsn) && (forall i | n <= i < |log| :: lsn < log[i].lsn)
  }

  // Where the source is: before transaction i, or inside it, k tuples in.
  datatype Source = Between(i: nat) | Inside(i: nat, k: nat)

  // The messages of a source with this log. It is restarted at or before what
  // has been processed, and may be anywhere when that happens.
  ghost predicate Sends<Tuple>(log: seq<Tx<Tuple>>, at: Source, msg: Message<Tuple>, next: Source, done: nat) {
    match msg
    case Begin(lsn) => at.Between? && at.i < |log| && lsn == log[at.i].lsn && next == Inside(at.i, 0)
    case Data(tuple) =>
      && at.Inside? && at.i < |log| && at.k < |log[at.i].tuples| && tuple == log[at.i].tuples[at.k]
      && next == Inside(at.i, at.k + 1)
    case Commit(lsn) =>
      && at.Inside? && at.i < |log| && at.k == |log[at.i].tuples| && lsn == log[at.i].lsn && next == Between(at.i + 1)
    case Relation => next == at
    case Unsupported => next == at
    case Rollback => next.Between? && next.i <= done
  }

  // How many transactions have been processed after the first m messages.
  ghost function Done<Tuple>(start: nat, at: seq<Source>, msgs: seq<Message<Tuple>>, m: nat): (n: nat)
    requires m <= |msgs| && |at| == |msgs| + 1
    ensures start <= n
  {
    if m == 0 then start else
    var before := Done(start, at, msgs, m - 1);
    if msgs[m - 1].Commit? && before <= at[m - 1].i then at[m - 1].i + 1 else before
  }

  // The source starts at or before the consistent point and stays truthful.
  ghost predicate Truthful<Tuple>(log: seq<Tx<Tuple>>, start: nat, at: seq<Source>, msgs: seq<Message<Tuple>>) {
    && |at| == |msgs| + 1 && at[0].Between? && at[0].i <= start
    && (forall m | 0 <= m < |msgs| :: Sends(log, at[m], msgs[m], at[m + 1], Done(start, at, msgs, m)))
  }

  // The transactions from start to end, as they should reach the target.
  function Tuples<Tuple>(log: seq<Tx<Tuple>>, start: nat, end: nat): (r: seq<seq<Tuple>>)
    requires start <= end <= |log|
    ensures |r| == end - start && forall i | 0 <= i < |r| :: r[i] == log[start + i].tuples
  {
    seq(end - start, i requires 0 <= i < end - start => log[start + i].tuples)
  }

  function Positions<Tuple>(log: seq<Tx<Tuple>>, start: nat, end: nat): (r: seq<int>)
    requires start <= end <= |log|
    ensures |r| == end - start && forall i | 0 <= i < |r| :: r[i] == log[start + i].lsn
  {
    seq(end - start, i requires 0 <= i < end - start => log[start + i].lsn)
  }

  // What an open transaction of the filter holds, wherever the source is.
  ghost predicate InStep<Tuple>(log: seq<Tx<Tuple>>, at: Source, batch: Option<seq<Tuple>>, done: nat) {
    at.i <= done <= |log| &&
    if at.Between? || at.i < done then batch == None
    else at.i < |log| && at.k <= |log[at.i].tuples| && batch == Some(log[at.i].tuples[..at.k])
  }

  // What the messages call: the target's transactions and the consistent point.
  class Events<Tuple(==,!new)> {
    var committed: seq<seq<Tuple>>
    var points: seq<int>
    var consistentPoint: int

    constructor (point: int)
      ensures committed == [] && points == [] && consistentPoint == point
    {
      committed, points, consistentPoint := [], [], point;
    }

    // Refused unless the point moves forward; storing it may fail.
    method SetConsistentPoint(next: int, stored: bool) returns (ok: bool)
      modifies `points, `consistentPoint
      ensures ok == (stored && next > old(consistentPoint))
      ensures consistentPoint == if next > old(consistentPoint) then next else old(consistentPoint)
      ensures points == old(points) + if ok then [next] else []
    {
      if next <= consistentPoint {
        return false;
      }
      consistentPoint := next;
      if stored {
        points := points + [next];
      }
      return stored;
    }

    // Commits the open transaction and sets the consistent point behind it. A commit
    // that fails may have taken effect all the same.
    method CommitOne(calls: Calls, ghost log: seq<Tx<Tuple>>, ghost start: nat, ghost done: nat, muts: seq<Tuple>,
                     commitLSN: int)
      returns (ok: bool, ghost end: nat)
      requires Increasing(log) && Covers(log, consistentPoint, done) && start <= done < |log|
      requires commitLSN == log[done].lsn > consistentPoint && muts == log[done].tuples
      requires committed == Tuples(log, start, done) && points == Positions(log, start, done)
      modifies this, calls
      ensures ok <==> calls.failed == old(calls.failed)
      ensures done <= end <= done + 1 && (ok ==> end == done + 1) && committed == Tuples(log, start, end)
      ensures ok ==> points == Positions(log, start, end) && consistentPoint == commitLSN
      ensures ok ==> Covers(log, consistentPoint, end)
      ensures !ok ==> points == Positions(log, start, done)
      ensures !ok ==> Covers(log, consistentPoint, end) || (end > done && Covers(log, consistentPoint, end - 1))
    {
      hide Increasing, Covers, Tuples, Positions;
      CommitCovers(log, consistentPoint, done);
      AppendOne(log, start, done);
      end := done;
      ok := calls.Try();
      var lands: bool := *;
      if !ok && !lands {
        return;
      }
      committed := committed + [muts];
      end := done + 1;
      if !ok {
        return;
      }
      var stored := calls.Try();
      ok := SetConsistentPoint(commitLSN, stored);
    }

    // One run commits a gap-free continuation of the log, in order, each
    // transaction once and with its own tuples, and every one that was received
    // whole. An error may come between a commit and its consistent point only, and
    // the commit itself may be what reports it.
    method Process(calls: Calls, ghost log: seq<Tx<Tuple>>, ghost start: nat, ghost at: seq<Source>,
                   msgs: seq<Message<Tuple>>)
      returns (ok: bool, ghost end: nat)
      requires Increasing(log) && Covers(log, consistentPoint, start) && Truthful(log, start, at, msgs)
      requires committed == [] && points == []
      modifies this, calls
      ensures ok <==> calls.failed == old(calls.failed) && forall m | 0 <= m < |msgs| :: !msgs[m].Unsupported?
      ensures start <= end <= |log| && committed == Tuples(log, start, end)
      ensures points == Positions(log, start, end) || (!ok && end > start && points == Positions(log, start, end - 1))
      ensures Covers(log, consistentPoint, end) || (!ok && end > start && Covers(log, consistentPoint, end - 1))
      ensures ok ==> end == Done(start, at, msgs, |msgs|)
    {
      assert start <= |log| && |at| == |msgs| + 1;
      hide Increasing, Covers, Sends, InStep, Tuples, Positions, Truthful, Done;
      EntryInStep(log, start, at, msgs);
      var batch: Option<seq<Tuple>> := None;
      var ignoreLSN := consistentPoint;
      end := start;
      var m := 0;
      while m < |msgs|
        invariant m <= |msgs| && |at| == |msgs| + 1 && calls.failed == old(calls.failed)
        invariant forall k | 0 <= k < m :: !msgs[k].Unsupported?
        invariant start <= end <= |log| && end == Done(start, at, msgs, m)
        invariant committed == Tuples(log, start, end) && points == Positions(log, start, end)
        invariant ignoreLSN == consistentPoint && Covers(log, ignoreLSN, end)
        invariant InStep(log, at[m], batch, end)
      {
        TruthfulAt(log, start, at, msgs, m);
        Filters(log, at[m], msgs[m], at[m + 1], end, batch, ignoreLSN);
        var works := true;
        match msgs[m] {
          case Rollback =>
            if batch.Some? {
              works := calls.Try();
            }
            batch := None;
          case Relation =>
          case Begin(finalLSN) =>
            if finalLSN > ignoreLSN {
              works := calls.Try();
              batch := Some([]);
            }
          case Commit(commitLSN) =>
            if commitLSN > ignoreLSN {
              // The program would panic without a batch.
              var muts := batch.value;
              batch := None;
              assert start <= end < |log| && commitLSN == log[end].lsn && muts == log[end].tuples;
              works, end := CommitOne(calls, log, start, end, muts, commitLSN);
              ignoreLSN := commitLSN;
            }
          case Data(tuple) =>
            if batch.Some? {
              works := calls.Try();
              batch := Some(batch.value + [tuple]);
            }
          case Unsupported =>
            return false, end;
        }
        if !works {
          return false, end;
        }
        m := m + 1;
      }
      return true, end;
    }
  }

  lemma TruthfulAt<Tuple>(log: seq<Tx<Tuple>>, start: nat, at: seq<Source>, msgs: seq<Message<Tuple>>, m: nat)
    requires m < |msgs| && Truthful(log, start, at, msgs)
    ensures Sends(log, at[m], msgs[m], at[m + 1], Done(start, at, msgs, m))
    ensures Done(start, at, msgs, m + 1)
         == if msgs[m].Commit? && Done(start, at, msgs, m) <= at[m].i then at[m].i + 1 else Done(start, at, msgs, m)
  {
  }

  lemma EntryInStep<Tuple>(log: seq<Tx<Tuple>>, start: nat, at: seq<Source>, msgs: seq<Message<Tuple>>)
    requires start <= |log| && Truthful(log, start, at, msgs)
    ensures InStep(log, at[0], None, start)
    ensures Tuples(log, start, start) == [] && Positions(log, start, start) == []
    ensures Done(start, at, msgs, 0) == start
  {
  }

  lemma AppendOne<Tuple>(log: seq<Tx<Tuple>>, start: nat, end: nat)
    requires start <= end < |log|
    ensures Tuples(log, start, end + 1) == Tuples(log, start, end) + [log[end].tuples]
    ensures Positions(log, start, end + 1) == Positions(log, start, end) + [log[end].lsn]
  {
  }

  // What each message finds, and what the filter makes of it.
  lemma Filters<Tuple>(log: seq<Tx<Tuple>>, at: Source, msg: Message<Tuple>, next: Source, done: nat,
                                batch: Option<seq<Tuple>>, ignoreLSN: int)
    requires Increasing(log) && Covers(log, ignoreLSN, done)
    requires Sends(log, at, msg, next, done) && InStep(log, at, batch, done)
    ensures msg.Begin? ==>
              && (msg.finalLSN > ignoreLSN <==> at.i == done)
              && InStep(log, next, if at.i == done then Some([]) else batch, done)
    ensures msg.Data? ==>
              InStep(log, next, if batch.Some? then Some(batch.value + [msg.tuple]) else None, done)
    ensures msg.Commit? ==>
              && (msg.commitLSN > ignoreLSN <==> at.i == done)
              && (at.i == done ==> done < |log| && batch == Some(log[done].tuples) && msg.commitLSN == log[done].lsn
                                   && InStep(log, next, None, done + 1))
              && (at.i < done ==> batch == None && InStep(log, next, batch, done))
              && at.i <= done
    ensures msg.Rollback? ==> InStep(log, next, None, done)
    ensures msg.Relation? || msg.Unsupported? ==> InStep(log, next, batch, done)
  {
    if at.Inside? && at.i == done && at.k < |log[at.i].tuples| {
      assert log[at.i].tuples[..at.k + 1] == log[at.i].tuples[..at.k] + [log[at.i].tuples[at.k]];
    }
    if msg.Commit? {
      assert log[at.i].tuples[..at.k] == log[at.i].tuples;
    }
  }

  lemma CommitCovers<Tuple>(log: seq<Tx<Tuple>>, lsn: int, n: nat)
    requires Increasing(log) && Covers(log, lsn, n) && n < |log|
    ensures lsn < log[n].lsn && Covers(log, log[n].lsn, n + 1)
  {
  }

  // The next run continues from the last stored point: with the transaction
  // after the last one committed, or with that one if its point was not stored.
  lemma NextRunContinues<Tuple>(log: seq<Tx<Tuple>>, point: int, start: nat, end: nat, points: seq<int>)
    requires Increasing(log) && Covers(log, point, start) && start <= end <= |log|
    requires points == Positions(log, start, end) || (end > start && points == Positions(log, start, end - 1))
    ensures var stored := if points == [] then point else points[|points| - 1];
            Covers(log, stored, end) || (end > start && Covers(log, stored, end - 1))
  {
    var upTo := start + |points|;
    if points != [] {
      assert points[|points| - 1] == log[upTo - 1].lsn;
    }
  }
}
