/** Stamps as the program sees them: values with a Less method. */
module StampOrder {
  import opened Wrappers

  // Irreflexive, transitive, and with a transitive "neither is less".
  ghost predicate StrictWeakOrder<S(!new)>(less: (S, S) -> bool) {
    && (forall a :: !less(a, a))
    && (forall a, b, c | less(a, b) && less(b, c) :: less(a, c))
    && (forall a, b, c | less(a, c) :: less(a, b) || less(b, c))
  }

  // Compare, where None stands for a nil stamp.
  function Compare<S(==)>(less: (S, S) -> bool, a: Option<S>, b: Option<S>): int {
    if a == b then 0
    else if a.None? then -1
    else if b.None? then 1
    else if less(a.value, b.value) then -1
    else if less(b.value, a.value) then 1
    else 0
  }

  // Comparing is asymmetric and orders all stamps, nil first, into classes.
  lemma CompareIsOrder<S(!new)>(less: (S, S) -> bool, a: Option<S>, b: Option<S>, c: Option<S>)
    requires StrictWeakOrder(less)
    ensures a.Some? && b.Some? ==> (Compare(less, a, b) < 0 <==> less(a.value, b.value))
    ensures a.None? && b.Some? ==> Compare(less, a, b) < 0
    ensures Compare(less, a, b) == -Compare(less, b, a)
    ensures Compare(less, a, b) <= 0 && Compare(less, b, c) <= 0 ==> Compare(less, a, c) <= 0
    ensures Compare(less, a, b) < 0 && Compare(less, b, c) <= 0 ==> Compare(less, a, c) < 0
    ensures Compare(less, a, b) <= 0 && Compare(less, b, c) < 0 ==> Compare(less, a, c) < 0
  {
  }
}
