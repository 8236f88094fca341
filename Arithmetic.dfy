/**
 * `calculatePercentage` and `getTimeDiffInMilliseconds` of src/util.ts,
 * over exact reals and integers rather than IEEE-754 doubles.
 */
module Arithmetic {

  /**
   * `calculatePercentage(part, total)`: a zero total gives 0 instead of a
   * division by zero; otherwise `part` as a percentage of `total`.
   */
  function CalculatePercentage(part: real, total: real): (r: real)
    ensures total == 0.0 ==> r == 0.0
    ensures total != 0.0 ==> r * total == part * 100.0
  {
    if total == 0.0 then 0.0 else (part / total) * 100.0
  }

  /** The sign follows ordinary arithmetic: negating the part or the total negates the result. */
  lemma PercentageSign(part: real, total: real)
    ensures CalculatePercentage(-part, total) == -CalculatePercentage(part, total)
    ensures CalculatePercentage(part, -total) == -CalculatePercentage(part, total)
    ensures CalculatePercentage(-part, -total) == CalculatePercentage(part, total)
  {
  }

  /** For a fixed total the result is linear in the part. */
  lemma PercentageLinear(a: real, b: real, k: real, total: real)
    ensures CalculatePercentage(a + b, total) == CalculatePercentage(a, total) + CalculatePercentage(b, total)
    ensures CalculatePercentage(k * a, total) == k * CalculatePercentage(a, total)
  {
  }

  /** The values the unit tests expect, computed over exact reals rather than doubles. */
  lemma PercentageExamples()
    ensures CalculatePercentage(50.0, 100.0) == 50.0
    ensures CalculatePercentage(0.0, 100.0) == 0.0
    ensures CalculatePercentage(50.0, 0.0) == 0.0
    ensures CalculatePercentage(-50.0, 100.0) == -50.0
    ensures CalculatePercentage(50.0, -100.0) == -50.0
    ensures CalculatePercentage(-50.0, -100.0) == 50.0
    ensures CalculatePercentage(2.5, 10.0) == 25.0
    ensures CalculatePercentage(0.0001, 0.001) == 10.0
  {
  }

  /** `getTimeDiffInMilliseconds(start, end)`, on the two `getTime()` values: the distance between them. */
  function TimeDiffInMilliseconds(start: int, end: int): (r: nat)
    ensures r == start - end || r == end - start
  {
    if start >= end then start - end else end - start
  }

  /** The difference does not depend on the order of the two timestamps. */
  lemma TimeDiffSymmetric(start: int, end: int)
    ensures TimeDiffInMilliseconds(start, end) == TimeDiffInMilliseconds(end, start)
  {
  }
}
