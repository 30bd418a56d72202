/** The checkpoint of the resolver: which window is being applied and how far
    into it the scan has come. */
module ResolvedStamp {
  import opened Hlc
  import opened Wrappers

  datatype Reason = NothingProposed | RollsBackCommitted | UndoesWork | GoesBackward

  // The offset fields of a scan cursor. Tables are numbered in dependency order.
  datatype Offset = Offset(key: string, table: Option<nat>, time: Time)

  datatype Stamp = Stamp(
    backfill: bool,
    committed: Time,
    iteration: nat,
    proposed: Time,
    offset: Offset)
  {
    predicate Less(o: Stamp) {
      if committed != o.committed then Lt(committed, o.committed)
      else if proposed != o.proposed then Lt(proposed, o.proposed)
      else iteration < o.iteration
    }

    function NewCommitted(): Result<Stamp, Reason> {
      if proposed == ZERO then Err(NothingProposed)
      else Ok(Stamp(false, proposed, 0, ZERO, NO_OFFSET))
    }

    function NewProposed(next: Time): Result<Stamp, Reason> {
      if Lt(next, committed) then Err(RollsBackCommitted)
      else if Lt(next, offset.time) then Err(UndoesWork)
      else if Lt(next, proposed) then Err(GoesBackward)
      else Ok(Stamp(backfill, committed, iteration + 1, next, offset))
    }

    // Only a backfill keeps the table and the key of the cursor.
    function NewProgress(cursor: Offset): Stamp {
      Stamp(backfill, committed, iteration + 1, proposed,
            if backfill then cursor else Offset(offset.key, offset.table, cursor.time))
    }
  }

  const NO_OFFSET := Offset("", None, ZERO)
  const ZERO_STAMP := Stamp(false, ZERO, 0, ZERO, NO_OFFSET)

  // Less is a strict order that only identifies stamps agreeing on its three fields.
  lemma LessIsStrictOrder(a: Stamp, b: Stamp, c: Stamp)
    ensures !a.Less(a)
    ensures a.Less(b) && b.Less(c) ==> a.Less(c)
    ensures a.Less(b) || b.Less(a) || (a.committed, a.proposed, a.iteration) == (b.committed, b.proposed, b.iteration)
  {
  }

  // A proposal is refused exactly if it is earlier than one of the times of the stamp;
  // otherwise it is proposed, and nothing else is given up.
  lemma ProposesIff(s: Stamp, next: Time)
    ensures s.NewProposed(next).Ok? <==> Le(s.committed, next) && Le(s.offset.time, next) && Le(s.proposed, next)
    ensures s.NewProposed(next).Ok? ==>
              var p := s.NewProposed(next).value;
              && p.proposed == next && p.iteration == s.iteration + 1
              && (p.backfill, p.committed, p.offset) == (s.backfill, s.committed, s.offset)
  {
  }

  // Progress within a window keeps its bounds. A backfill resumes where the cursor
  // is, any other window at the time of the cursor.
  lemma ProgressIs(s: Stamp, cursor: Offset)
    ensures var p := s.NewProgress(cursor);
            && p.offset.time == cursor.time && p.iteration == s.iteration + 1
            && (p.backfill, p.committed, p.proposed) == (s.backfill, s.committed, s.proposed)
            && (p.offset.key, p.offset.table) ==
               if s.backfill then (cursor.key, cursor.table) else (s.offset.key, s.offset.table)
  {
  }

  // Once a window is committed nothing remains of it but its time.
  lemma CommitsIff(s: Stamp)
    ensures s.NewCommitted().Ok? <==> s.proposed != ZERO
    ensures s.NewCommitted().Ok? ==> s.NewCommitted().value == ZERO_STAMP.(committed := s.proposed)
  {
  }

  // Every way of moving a stamp on yields a greater one. Proposing the committed
  // time again is the one call that NewProposed admits and that leads nowhere.
  lemma StampsIncrease(s: Stamp, next: Time, cursor: Offset)
    requires Le(ZERO, s.committed) && (s.proposed == ZERO || Lt(s.committed, s.proposed))
    ensures s.Less(s.NewProgress(cursor))
    ensures s.NewCommitted().Ok? ==> s.Less(s.NewCommitted().value)
    ensures s.NewProposed(next).Ok? ==> s.Less(s.NewProposed(next).value)
    ensures var p := s.NewProposed(next);
            p.Ok? ==> (p.value.NewCommitted().Ok? && s.Less(p.value.NewCommitted().value) <==> Lt(s.committed, next))
  {
  }
}
