/** The queue that turns markers into consistent points (stamp.Queue). */
module StampQueue {
  import opened Wrappers
  import opened StampOrder

  // S is the type of the stamps and V that of the stamped values.
  class Queue<S(==,!new), V(!new)> {
    const less: (S, S) -> bool
    const stampOf: V -> S
    // The tail after a merge attempt, and what is left to enqueue.
    const coalesce: (V, V) -> (V, Option<V>)

    var consistent: Option<S>
    var markers: seq<S>
    var values: seq<V>

    // Every marker accepted so far, and how many of them have been passed.
    ghost var accepted: seq<S>
    ghost var passed: nat

    function Cmp(a: Option<S>, b: Option<S>): int {
      Compare(less, a, b)
    }

    function At(v: V): Option<S> {
      Some(stampOf(v))
    }

    ghost predicate Sensible() {
      && StrictWeakOrder(less)
      && forall a, b :: Cmp(At(coalesce(a, b).0), At(a)) == 0
    }

    ghost predicate SoftlyMonotonic(vs: seq<V>) {
      forall i, j | 0 <= i <= j < |vs| :: Cmp(At(vs[i]), At(vs[j])) <= 0
    }

    ghost predicate StrictlyMonotonic(ms: seq<S>) {
      forall i, j | 0 <= i < j < |ms| :: Cmp(Some(ms[i]), Some(ms[j])) < 0
    }

    // The state between two calls.
    ghost predicate Valid()
      reads this
    {
      && Sensible() && SoftlyMonotonic(values) && StrictlyMonotonic(accepted)
      && passed <= |accepted| && markers == accepted[passed..]
      && consistent == (if passed == 0 then None else Some(accepted[passed - 1]))
      && (values == [] ==> markers == [])
      && (values != [] ==> Cmp(consistent, At(values[0])) < 0)
      && (values != [] && markers != [] ==> Cmp(At(values[0]), Some(markers[0])) <= 0)
    }

    // The documented invariants 1 to 4, over all elements.
    ghost predicate Ordered()
      reads this
    {
      && SoftlyMonotonic(values) && StrictlyMonotonic(markers)
      && (forall i | 0 <= i < |values| :: Cmp(consistent, At(values[i])) < 0)
      && (forall i | 0 <= i < |markers| :: Cmp(consistent, Some(markers[i])) < 0)
    }

    ghost predicate BelowValues(m: S)
      reads this
    {
      forall i | 0 <= i < |values| :: Cmp(Some(m), At(values[i])) < 0
    }

    // Whatever has been called, the documented order holds over all elements, and
    // the consistent point is the greatest accepted marker below every value.
    lemma Meaning()
      requires Valid()
      ensures Ordered()
      ensures consistent.None? <==> forall i | 0 <= i < |accepted| :: !BelowValues(accepted[i])
      ensures consistent.Some? ==> consistent.value in accepted && BelowValues(consistent.value)
      ensures forall i | 0 <= i < |accepted| && BelowValues(accepted[i]) :: Cmp(Some(accepted[i]), consistent) <= 0
    {
      forall i | 0 <= i < |values| ensures Cmp(consistent, At(values[i])) < 0 {
        CompareIsOrder(less, consistent, At(values[0]), At(values[i]));
      }
      if passed > 0 {
        assert accepted[passed - 1] in accepted && BelowValues(accepted[passed - 1]);
      }
      forall i | 0 <= i < |accepted| ensures BelowValues(accepted[i]) <==> i < passed {
        if i < passed {
          forall j | 0 <= j < |values| ensures Cmp(Some(accepted[i]), At(values[j])) < 0 {
            CompareIsOrder(less, Some(accepted[i]), consistent, At(values[j]));
          }
        } else {
          assert markers[i - passed] == accepted[i];
          CompareIsOrder(less, At(values[0]), Some(markers[0]), Some(accepted[i]));
          CompareIsOrder(less, At(values[0]), Some(accepted[i]), None);
        }
      }
    }

    constructor (less: (S, S) -> bool, stampOf: V -> S, coalesce: (V, V) -> (V, Option<V>))
      requires StrictWeakOrder(less)
      requires forall a, b :: Compare(less, Some(stampOf(coalesce(a, b).0)), Some(stampOf(a))) == 0
      ensures Valid() && this.less == less && this.stampOf == stampOf && this.coalesce == coalesce
      ensures accepted == [] && values == [] && consistent == None
    {
      this.less, this.stampOf, this.coalesce := less, stampOf, coalesce;
      consistent, markers, values, accepted, passed := None, [], [], [], 0;
    }

    // The checks of validate, which look at the ends of the lists only.
    predicate EndsOk(c: Option<S>)
      reads this
    {
      && (|values| >= 2 ==> Cmp(At(values[|values| - 1]), At(values[|values| - 2])) >= 0)
      && (|markers| >= 2 ==> Cmp(Some(markers[|markers| - 1]), Some(markers[|markers| - 2])) > 0)
      && (values != [] ==> Cmp(c, At(values[0])) < 0)
      && (markers != [] ==> Cmp(c, Some(markers[0])) < 0)
    }

    // As the lists only grow at their ends, looking at the ends decides whether
    // all of what is documented holds.
    lemma EndsDecide(c: Option<S>)
      requires Sensible()
      requires |values| >= 2 ==> SoftlyMonotonic(values[..|values| - 1])
      requires |markers| >= 2 ==> StrictlyMonotonic(markers[..|markers| - 1])
      ensures EndsOk(c) <==>
                && SoftlyMonotonic(values) && StrictlyMonotonic(markers)
                && (forall i | 0 <= i < |values| :: Cmp(c, At(values[i])) < 0)
                && (forall i | 0 <= i < |markers| :: Cmp(c, Some(markers[i])) < 0)
    {
    }

    method SetConsistent(next: S) returns (ok: bool)
      modifies `consistent
      ensures ok <==> Cmp(Some(next), old(consistent)) > 0 && EndsOk(Some(next))
      ensures consistent == if ok then Some(next) else old(consistent)
    {
      var prev := consistent;
      if Cmp(Some(next), prev) <= 0 {
        return false;
      }
      consistent := Some(next);
      ok := EndsOk(consistent);
      if !ok {
        consistent := prev;
      }
    }

    // Valid, except that markers below the head value may still be waiting.
    ghost predicate Advanceable()
      reads this
    {
      && Sensible() && SoftlyMonotonic(values) && StrictlyMonotonic(accepted)
      && passed <= |accepted| && markers == accepted[passed..]
      && consistent == (if passed == 0 then None else Some(accepted[passed - 1]))
      && (values != [] ==> Cmp(consistent, At(values[0])) < 0)
    }

    // Drops the leading markers below the head value and returns the last of them.
    method SkipMarkers(head: S) returns (next: Option<S>, ghost skipped: nat)
      modifies `markers
      ensures skipped <= |old(markers)| && markers == old(markers)[skipped..]
      ensures next == if skipped == 0 then None else Some(old(markers)[skipped - 1])
      ensures next.Some? ==> less(next.value, head)
      ensures markers != [] ==> !less(markers[0], head) && Cmp(Some(head), Some(markers[0])) <= 0
    {
      next, skipped := None, 0;
      while markers != [] && less(markers[0], head)
        invariant skipped <= |old(markers)| && markers == old(markers)[skipped..]
        invariant next == if skipped == 0 then None else Some(old(markers)[skipped - 1])
        invariant next.Some? ==> less(next.value, head)
        decreases |markers|
      {
        next, markers, skipped := Some(markers[0]), markers[1..], skipped + 1;
      }
    }

    // With nothing outstanding every marker is passed.
    method TakeMarkers() returns (next: Option<S>, ghost skipped: nat)
      modifies `markers
      ensures skipped <= |old(markers)| && markers == old(markers)[skipped..]
      ensures next == if skipped == 0 then None else Some(old(markers)[skipped - 1])
      ensures values == [] ==> markers == []
      ensures values != [] && next.Some? ==> less(next.value, stampOf(values[0]))
      ensures values != [] && markers != [] ==> Cmp(At(values[0]), Some(markers[0])) <= 0
    {
      next, skipped := None, 0;
      if values != [] {
        next, skipped := SkipMarkers(stampOf(values[0]));
      } else if markers != [] {
        next, skipped := Some(markers[|markers| - 1]), |markers|;
        markers := [];
      }
    }

    // Its error is unreachable between the calls that use it.
    method AdvanceConsistentPoint() returns (ok: bool)
      requires Advanceable()
      modifies `consistent, `markers, `passed
      ensures ok && Valid()
      ensures Cmp(old(consistent), consistent) <= 0
    {
      hide SoftlyMonotonic, StrictlyMonotonic, EndsOk, StrictWeakOrder, Compare;
      var next, skipped := TakeMarkers();
      ghost var before := passed;
      passed := passed + skipped;
      ok := true;
      if next.Some? {
        assert next.value == accepted[passed - 1];
        PassedIsConsistent(before);
        ok := SetConsistent(next.value);
      } else {
        CompareIsOrder(less, consistent, consistent, consistent);
      }
    }

    // What the checks of the ends see of lists that are in order.

    lemma ValuesEnd()
      requires Sensible() && SoftlyMonotonic(values) && |values| >= 2
      ensures Cmp(At(values[|values| - 1]), At(values[|values| - 2])) >= 0
    {
      hide Compare;
      CompareIsOrder(less, At(values[|values| - 2]), At(values[|values| - 1]), None);
    }

    lemma AcceptedInOrder(i: nat, j: nat)
      requires Sensible() && StrictlyMonotonic(accepted) && i < j < |accepted|
      ensures Cmp(Some(accepted[i]), Some(accepted[j])) < 0 && Cmp(Some(accepted[j]), Some(accepted[i])) > 0
    {
      hide Compare;
      CompareIsOrder(less, Some(accepted[i]), Some(accepted[j]), None);
    }

    lemma LessIsBelow(a: S, b: S)
      requires Sensible()
      ensures less(a, b) ==> Cmp(Some(a), Some(b)) < 0
      ensures Cmp(Some(a), None) > 0 && Cmp(None, Some(a)) < 0
    {
    }

    lemma PassedIsConsistent(before: nat)
      requires Sensible() && SoftlyMonotonic(values) && StrictlyMonotonic(accepted)
      requires before < passed <= |accepted| && markers == accepted[passed..]
      requires consistent == if before == 0 then None else Some(accepted[before - 1])
      requires values != [] ==> less(accepted[passed - 1], stampOf(values[0]))
      ensures Cmp(Some(accepted[passed - 1]), consistent) > 0 && Cmp(consistent, Some(accepted[passed - 1])) < 0
      ensures values != [] ==> Cmp(Some(accepted[passed - 1]), At(values[0])) < 0
      ensures EndsOk(Some(accepted[passed - 1]))
    {
      hide Compare, Sensible, SoftlyMonotonic, StrictlyMonotonic;
      var last := accepted[passed - 1];
      if before > 0 {
        AcceptedInOrder(before - 1, passed - 1);
      } else {
        LessIsBelow(last, last);
      }
      if values != [] {
        LessIsBelow(last, stampOf(values[0]));
      }
      PassedEnds();
    }

    lemma PassedEnds()
      requires Sensible() && SoftlyMonotonic(values) && StrictlyMonotonic(accepted)
      requires 0 < passed <= |accepted| && markers == accepted[passed..]
      requires values != [] ==> Cmp(Some(accepted[passed - 1]), At(values[0])) < 0
      ensures EndsOk(Some(accepted[passed - 1]))
    {
      hide Compare, Sensible, SoftlyMonotonic, StrictlyMonotonic;
      if |values| >= 2 {
        ValuesEnd();
      }
      if markers != [] {
        AcceptedInOrder(passed - 1, passed);
        assert markers[0] == accepted[passed];
      }
      if |markers| >= 2 {
        AcceptedInOrder(|accepted| - 2, |accepted| - 1);
        assert markers[|markers| - 1] == accepted[|accepted| - 1];
        assert markers[|markers| - 2] == accepted[|accepted| - 2];
      }
    }

    method Dequeue() returns (r: Option<V>)
      requires Valid()
      modifies this
      ensures Valid() && accepted == old(accepted)
      ensures old(values) == [] ==> r == None && values == [] && consistent == old(consistent)
      ensures old(values) != [] ==> r == Some(old(values)[0]) && values == old(values)[1..]
      ensures Cmp(old(consistent), consistent) <= 0
    {
      if values == [] {
        return None;
      }
      r := Some(values[0]);
      if |values| >= 2 {
        CompareIsOrder(less, consistent, At(values[0]), At(values[1]));
      }
      values := values[1..];
      var ok := AdvanceConsistentPoint();
      assert ok; // otherwise the program panics
    }

    // Accepts the marker exactly if it is greater than all accepted before.
    method Mark(marker: S) returns (ok: bool)
      requires Valid()
      modifies this
      ensures Valid() && values == old(values)
      ensures ok <==> forall i | 0 <= i < |old(accepted)| :: Cmp(Some(old(accepted)[i]), Some(marker)) < 0
      ensures accepted == old(accepted) + (if ok then [marker] else [])
      ensures !ok ==> consistent == old(consistent)
      ensures Cmp(old(consistent), consistent) <= 0
    {
      hide SoftlyMonotonic, StrictlyMonotonic, EndsOk, StrictWeakOrder;
      var before := markers;
      markers := markers + [marker];
      MarkAccepted(before, marker);
      if !EndsOk(consistent) {
        markers := before;
        return false;
      }
      accepted := accepted + [marker];
      ok := AdvanceConsistentPoint();
    }

    lemma MarkAccepted(before: seq<S>, marker: S)
      requires Sensible() && StrictlyMonotonic(accepted) && passed <= |accepted| && before == accepted[passed..]
      requires markers == before + [marker] && SoftlyMonotonic(values)
      requires consistent == (if passed == 0 then None else Some(accepted[passed - 1]))
      requires values != [] ==> Cmp(consistent, At(values[0])) < 0
      ensures EndsOk(consistent) <==> forall i | 0 <= i < |accepted| :: Cmp(Some(accepted[i]), Some(marker)) < 0
      ensures EndsOk(consistent) ==> StrictlyMonotonic(accepted + [marker])
    {
      MarkEnds(before, marker);
      hide EndsOk, Compare;
      if accepted != [] {
        var last := accepted[|accepted| - 1];
        forall i | 0 <= i < |accepted| && Cmp(Some(last), Some(marker)) < 0
          ensures Cmp(Some(accepted[i]), Some(marker)) < 0
        {
          CompareIsOrder(less, Some(accepted[i]), Some(last), Some(marker));
        }
      }
      hide Sensible;
    }

    // The checks compare the new marker with the last one accepted.
    lemma MarkEnds(before: seq<S>, marker: S)
      requires Sensible() && StrictlyMonotonic(accepted) && passed <= |accepted| && before == accepted[passed..]
      requires markers == before + [marker] && SoftlyMonotonic(values)
      requires consistent == (if passed == 0 then None else Some(accepted[passed - 1]))
      requires values != [] ==> Cmp(consistent, At(values[0])) < 0
      ensures EndsOk(consistent) <==> accepted == [] || Cmp(Some(accepted[|accepted| - 1]), Some(marker)) < 0
    {
      hide SoftlyMonotonic, StrictlyMonotonic, StrictWeakOrder, Compare;
      if |values| >= 2 {
        ValuesEnd();
      }
      LessIsBelow(markers[0], marker);
      if accepted != [] {
        CompareIsOrder(less, Some(accepted[|accepted| - 1]), Some(marker), None);
      }
      if before != [] {
        assert markers[0] == accepted[passed] && markers[|markers| - 2] == accepted[|accepted| - 1];
        if passed > 0 {
          AcceptedInOrder(passed - 1, passed);
        }
      }
    }

    // What becomes of the tail, and what is left to append.
    function Merge(next: V): (seq<V>, Option<V>)
      reads this
    {
      if values == [] then ([], Some(next))
      else
        var (tail, rest) := coalesce(values[|values| - 1], next);
        (values[..|values| - 1] + [tail], rest)
    }

    // The value is appended, merged into the tail, or refused because it sorts
    // before the tail or, in an empty queue, not after the consistent point.
    method Enqueue(next: V) returns (ok: bool)
      requires Valid()
      modifies this
      ensures Valid() && accepted == old(accepted) && consistent == old(consistent)
      ensures old(Merge(next)).1.None? ==> ok && values == old(Merge(next)).0
      ensures old(Merge(next)).1.Some? ==>
                var (kept, rest) := old(Merge(next));
                && (ok <==> if kept == [] then Cmp(consistent, At(rest.value)) < 0
                            else Cmp(At(kept[|kept| - 1]), At(rest.value)) <= 0)
                && values == kept + (if ok then [rest.value] else [])
    {
      hide SoftlyMonotonic, StrictlyMonotonic, EndsOk, StrictWeakOrder;
      var added := next;
      if values != [] {
        var (tail, rest) := coalesce(values[|values| - 1], next);
        MergeKeepsOrder(tail, values[|values| - 1]);
        values := values[..|values| - 1] + [tail];
        if rest.None? {
          return true;
        }
        added := rest.value;
      }
      ghost var kept := values;
      values := values + [added];
      AppendAccepted(kept, added);
      if !EndsOk(consistent) {
        values := values[..|values| - 1];
        assert values == kept;
        return false;
      }
      ok := true;
    }

    lemma AppendAccepted(kept: seq<V>, added: V)
      requires Sensible() && values == kept + [added] && SoftlyMonotonic(kept)
      requires StrictlyMonotonic(accepted) && passed <= |accepted| && markers == accepted[passed..]
      requires consistent == if passed == 0 then None else Some(accepted[passed - 1])
      requires kept != [] ==> Cmp(consistent, At(kept[0])) < 0
      ensures EndsOk(consistent) <==>
              if kept == [] then Cmp(consistent, At(added)) < 0 else Cmp(At(kept[|kept| - 1]), At(added)) <= 0
      ensures EndsOk(consistent) ==> SoftlyMonotonic(values)
    {
      if markers != [] {
        assert markers[0] == accepted[passed];
      }
      if |markers| >= 2 {
        CompareIsOrder(less, Some(markers[|markers| - 2]), Some(markers[|markers| - 1]), None);
      }
      if kept != [] {
        CompareIsOrder(less, At(kept[|kept| - 1]), At(added), None);
        AppendKeepsOrder(kept, added);
      }
    }

    lemma AppendKeepsOrder(kept: seq<V>, added: V)
      requires Sensible() && SoftlyMonotonic(kept) && kept != []
      ensures Cmp(At(kept[|kept| - 1]), At(added)) <= 0 ==> SoftlyMonotonic(kept + [added])
    {
      var all := kept + [added];
      if Cmp(At(kept[|kept| - 1]), At(added)) <= 0 {
        forall i, j | 0 <= i <= j < |all| ensures Cmp(At(all[i]), At(all[j])) <= 0 {
          if j == |kept| && i < j {
            CompareIsOrder(less, At(kept[i]), At(kept[|kept| - 1]), At(added));
          }
        }
      }
    }

    lemma MergeKeepsOrder(tail: V, last: V)
      requires Valid() && values != [] && last == values[|values| - 1] && Cmp(At(tail), At(last)) == 0
      ensures SoftlyMonotonic(values[..|values| - 1] + [tail])
      ensures var vs := values[..|values| - 1] + [tail];
              Cmp(consistent, At(vs[0])) < 0 && (markers != [] ==> Cmp(At(vs[0]), Some(markers[0])) <= 0)
    {
      var vs := values[..|values| - 1] + [tail];
      CompareIsOrder(less, At(tail), At(last), None);
      forall i, j | 0 <= i <= j < |vs| ensures Cmp(At(vs[i]), At(vs[j])) <= 0 {
        if i < j == |vs| - 1 {
          CompareIsOrder(less, At(values[i]), At(last), At(tail));
        }
      }
      if |vs| == 1 {
        CompareIsOrder(less, consistent, At(last), At(tail));
        if markers != [] {
          CompareIsOrder(less, At(tail), At(last), Some(markers[0]));
        }
      }
    }
  }
}
