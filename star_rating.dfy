/**
 * The star row: `maxRating` stars valued 1..maxRating, each full, partly filled or
 * hollow according to a (possibly fractional) rating, and the click that reports a
 * star's value back when the row is interactive.
 */
module StarRating {
  import opened Wrappers

  const DefaultMaxRating: int := 5

  /** How one star is drawn. */
  datatype Star = Full | Partial | Hollow

  /** `Array.from({ length: maxRating })` with `maxRating = 5` when the prop is absent;
      a negative length makes no stars. */
  function StarCount(maxRating: Option<int>): (n: nat)
    ensures maxRating.None? ==> n == 5
    ensures maxRating.Some? && maxRating.value >= 0 ==> n == maxRating.value
    ensures maxRating.Some? && maxRating.value < 0 ==> n == 0
  {
    var m := maxRating.GetOr(DefaultMaxRating);
    if m < 0 then 0 else m
  }

  /** `Math.floor` and `Math.ceil`. */
  function Floor(r: real): int {
    r.Floor
  }

  function Ceil(r: real): (c: int)
    ensures c as real >= r && (c - 1) as real < r
  {
    -((-r).Floor)
  }

  /** `rating % 1 !== 0`: the rating is not a whole number (for either sign). */
  predicate Fractional(r: real) {
    r != r.Floor as real
  }

  predicate IsFilled(value: int, rating: real) {
    value <= Floor(rating)
  }

  predicate IsPartial(value: int, rating: real) {
    value == Ceil(rating) && Fractional(rating)
  }

  /** The partial case is decided first, then the filled one. */
  function StarFor(value: int, rating: real): (s: Star)
    ensures s == Full <==> IsFilled(value, rating)
    ensures s == Partial <==> IsPartial(value, rating)
  {
    NeverFilledAndPartial(value, rating);
    if IsPartial(value, rating) then Partial
    else if IsFilled(value, rating) then Full
    else Hollow
  }

  /** The stars valued 1..n, in order. */
  function Stars(rating: real, n: nat): (row: seq<Star>)
    ensures |row| == n
    ensures forall i :: 0 <= i < n ==> row[i] == StarFor(i + 1, rating)
    decreases n
  {
    if n == 0 then [] else Stars(rating, n - 1) + [StarFor(n, rating)]
  }

  function FullCount(row: seq<Star>): (k: nat)
    ensures k <= |row|
    decreases |row|
  {
    if row == [] then 0 else FullCount(row[..|row| - 1]) + (if row[|row| - 1] == Full then 1 else 0)
  }

  /** A ceiling exceeds the floor exactly for a fractional number. */
  lemma CeilOfFractional(r: real)
    ensures Fractional(r) ==> Ceil(r) == Floor(r) + 1
    ensures !Fractional(r) ==> Ceil(r) == Floor(r)
  {
  }

  /** No star is both filled and partial. */
  lemma NeverFilledAndPartial(value: int, rating: real)
    ensures !(IsFilled(value, rating) && IsPartial(value, rating))
  {
    CeilOfFractional(rating);
  }

  /** At most one star is partial: the one valued `ceil(rating)`, if the rating is fractional. */
  lemma AtMostOnePartial(rating: real, n: nat)
    ensures forall i, j :: 0 <= i < j < n ==> !(Stars(rating, n)[i] == Partial && Stars(rating, n)[j] == Partial)
  {
  }

  /** `n` stars show `floor(rating)` full ones, clamped to 0..n. */
  lemma {:induction false} FullCountIsClampedFloor(rating: real, n: nat)
    ensures FullCount(Stars(rating, n)) == if Floor(rating) < 0 then 0 else if Floor(rating) > n then n else Floor(rating)
    decreases n
  {
    if n > 0 {
      var row := Stars(rating, n);
      assert row[..n - 1] == Stars(rating, n - 1);
      FullCountIsClampedFloor(rating, n - 1);
    }
  }

  /** A rating within 0..maxRating shows exactly `floor(rating)` full stars. */
  lemma FullStarsMatchRating(rating: real, maxRating: Option<int>)
    requires 0.0 <= rating <= StarCount(maxRating) as real
    ensures FullCount(Stars(rating, StarCount(maxRating))) == Floor(rating)
  {
    FullCountIsClampedFloor(rating, StarCount(maxRating));
  }

  /** `handleClick`: the star's value reaches `onRatingChange` only on an interactive row
      that has one. */
  function Click(interactive: bool, hasCallback: bool, starValue: int): (reported: Option<int>)
    ensures reported.Some? <==> interactive && hasCallback
    ensures reported.Some? ==> reported.value == starValue
  {
    if interactive && hasCallback then Some(starValue) else None
  }

  /** Any star of an interactive row reports a value within 1..n. */
  lemma ClickInRange(n: nat, index: nat, hasCallback: bool)
    requires index < n && hasCallback
    ensures var v := Click(true, hasCallback, index + 1); v.Some? && 1 <= v.value <= n
  {
  }
}
