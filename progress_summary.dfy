/**
 * The arithmetic of the progress summary card, also used by the progress page:
 * `Math.round(completed / total * 100)` (0 when there is nothing to complete) and
 * `total - completed`. The division is taken as exact rational arithmetic.
 */
module ProgressSummary {

  /**
   * The percentage, rounded to the nearest integer with halves rounded up, as `Math.round`
   * does; 0 when `total` is not positive. It is not clamped.
   */
  function Percentage(completed: int, total: int): (p: int)
    ensures total <= 0 ==> p == 0
    ensures total > 0 ==> 2 * total * p <= 200 * completed + total < 2 * total * p + 2 * total
  {
    if total > 0 then (200 * completed + total) / (2 * total) else 0
  }

  /** What is left to complete; negative when more was completed than the total. */
  function Remaining(completed: int, total: int): (r: int)
    ensures completed + r == total
    ensures r < 0 <==> completed > total
  {
    total - completed
  }

  lemma MulMonotone(t: int, a: int, b: int)
    ensures t > 0 && a <= b ==> t * a <= t * b
  {
  }

  /** Within `0 <= completed <= total` the percentage lies in 0..100, and all completed is 100. */
  lemma PercentageBounds(completed: int, total: int)
    requires 0 <= completed <= total
    ensures 0 <= Percentage(completed, total) <= 100
    ensures completed == total && total > 0 ==> Percentage(completed, total) == 100
  {
    if total > 0 {
      var p := Percentage(completed, total);
      var t2 := 2 * total;
      // 0 <= 200 * completed + total < t2 * (p + 1), so p + 1 > 0
      MulMonotone(t2, p + 1, 0);
      // t2 * p <= 201 * total < t2 * 101, so p < 101
      MulMonotone(t2, 101, p);
      // with completed == total: t2 * 100 <= 201 * total < t2 * (p + 1), so p >= 100
      MulMonotone(t2, p + 1, 100);
    }
  }

  /** For a fixed total, more completed lessons never lower the percentage. */
  lemma PercentageMonotone(c1: int, c2: int, total: int)
    requires c1 <= c2
    ensures Percentage(c1, total) <= Percentage(c2, total)
  {
    if total > 0 {
      var p1, p2 := Percentage(c1, total), Percentage(c2, total);
      // p1 >= p2 + 1 would give t2 * p1 >= t2 * (p2 + 1) > 200 * c2 + total >= 200 * c1 + total
      MulMonotone(2 * total, p2 + 1, p1);
    }
  }

  /** More completed than the total gives more than 100: the percentage is not clamped. */
  lemma PercentageNotClamped()
    ensures Percentage(3, 2) == 150
    ensures Remaining(3, 2) == -1
  {
  }
}
