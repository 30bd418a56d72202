/** Hybrid logical clock times, the order under every stamp, cursor and
    retirement cut-off. */
module Hlc {
  datatype Time = Time(nanos: int, logical: int)

  const ZERO := Time(0, 0)

  // The intended order: wall time first, then the logical counter.
  predicate Lt(a: Time, b: Time) {
    a.nanos < b.nanos || (a.nanos == b.nanos && a.logical < b.logical)
  }

  predicate Le(a: Time, b: Time) {
    !Lt(b, a)
  }

  function Max(a: Time, b: Time): Time {
    if Lt(a, b) then b else a
  }

  const TWO_63: int := 0x8000_0000_0000_0000
  const TWO_64: int := 0x1_0000_0000_0000_0000

  const TEN_CHARACTERS: int := 10_000_000_000

  predicate IsInt64(x: int) {
    -TWO_63 <= x < TWO_63
  }

  // Two's-complement wrap-around of a 64-bit subtraction result.
  function Wrap64(x: int): int {
    (x + TWO_63) % TWO_64 - TWO_63
  }

  // The comparison as the program computes it, with 64-bit subtractions.
  function Compare(a: Time, b: Time): int {
    var c := Wrap64(a.nanos - b.nanos);
    if c != 0 then c else Wrap64(a.logical - b.logical)
  }

  predicate Fits(a: Time) {
    IsInt64(a.nanos) && IsInt64(a.logical)
  }

  // The sign of the result agrees with the order.
  predicate Faithful(a: Time, b: Time) {
    && (Compare(a, b) < 0 <==> Lt(a, b))
    && (Compare(a, b) > 0 <==> Lt(b, a))
  }

  lemma WrapOfDifference(d: int)
    requires -TWO_64 < d < TWO_64
    ensures Wrap64(d) == if d < -TWO_63 then d + TWO_64 else if d >= TWO_63 then d - TWO_64 else d
  {
  }

  // The subtraction orders two representable times correctly exactly when the
  // deciding difference itself is representable.
  lemma CompareFaithfulIff(a: Time, b: Time)
    requires Fits(a) && Fits(b)
    ensures Faithful(a, b) <==>
            IsInt64(if a.nanos != b.nanos then a.nanos - b.nanos else a.logical - b.logical)
  {
    WrapOfDifference(a.nanos - b.nanos);
    WrapOfDifference(a.logical - b.logical);
  }

  // Hence it is correct on everything the parser admits: the wall part is not
  // negative, and the logical part is zero or has ten characters.
  lemma CompareFaithfulOnParsedTimes(a: Time, b: Time)
    requires Fits(a) && Fits(b)
    requires a.nanos >= 0 && b.nanos >= 0
    requires -TEN_CHARACTERS < a.logical < TEN_CHARACTERS && -TEN_CHARACTERS < b.logical < TEN_CHARACTERS
    ensures Faithful(a, b)
  {
    CompareFaithfulIff(a, b);
  }

  // A pair on which it is wrong: the early time compares as the later one.
  lemma CompareMisorders()
    ensures var a, b := Time(-TWO_63, 0), Time(1, 0);
            Fits(a) && Fits(b) && Lt(a, b) && Compare(a, b) > 0
  {
    WrapOfDifference(-TWO_63 - 1);
  }
}
