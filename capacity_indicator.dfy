/**
 * `CapacityIndicator` (events): the fill percentage (0 without a positive
 * maximum), the free spots, the sold-out and nearly-full flags, and the status
 * text, colour and bar width they select.
 */
module CapacityIndicator {
  import opened Wrappers
  import opened JsNumber

  datatype Status = SoldOut | NearlyFull | Available

  /** `maxCapacity > 0 ? (current / max) * 100 : 0`. */
  function Percentage(current: int, maxCapacity: int): real {
    if maxCapacity > 0 then Percent(current, maxCapacity) else 0.0
  }

  /** `Math.max(0, maxCapacity - currentCapacity)`. */
  function AvailableSpots(current: int, maxCapacity: int): (n: int)
    ensures n >= 0
    ensures current <= maxCapacity ==> n == maxCapacity - current
    ensures current >= maxCapacity ==> n == 0
  {
    if maxCapacity - current > 0 then maxCapacity - current else 0
  }

  predicate IsFull(current: int, maxCapacity: int) { current >= maxCapacity }
  predicate IsNearlyFull(current: int, maxCapacity: int) { Percentage(current, maxCapacity) >= 80.0 }

  /** The precedence of `getStatusColor`, `getStatusIcon` and `getStatusText`. */
  function StatusOf(current: int, maxCapacity: int): Status {
    if IsFull(current, maxCapacity) then SoldOut
    else if IsNearlyFull(current, maxCapacity) then NearlyFull
    else Available
  }

  function StatusText(s: Status): string {
    match s
    case SoldOut => "Sold Out"
    case NearlyFull => "Nearly Full"
    case Available => "Available"
  }

  function StatusColor(s: Status): string {
    match s
    case SoldOut => "#FF453A"
    case NearlyFull => "#FF9500"
    case Available => "#30D158"
  }

  /** `Math.min(percentage, 100)`, the width of the bar in percent. */
  function BarWidth(current: int, maxCapacity: int): (w: real)
    ensures w <= 100.0
    ensures w == 100.0 || w == Percentage(current, maxCapacity)
  {
    var p := Percentage(current, maxCapacity);
    if p <= 100.0 then p else 100.0
  }

  /** The "spots left" label, present only while not full. */
  function SpotsLeft(current: int, maxCapacity: int): Option<int> {
    if IsFull(current, maxCapacity) then None else Some(AvailableSpots(current, maxCapacity))
  }

  /** Nearly full is the integer rule `100 * current >= 80 * max` for a positive maximum and never without one. */
  lemma NearlyFullRule(current: int, maxCapacity: int)
    ensures IsNearlyFull(current, maxCapacity) <==> maxCapacity > 0 && 100 * current >= 80 * maxCapacity
  {
    if maxCapacity > 0 {
      PercentAtLeast(current, maxCapacity, 80);
    }
  }

  /**
   * Sold out exactly when full; nearly full exactly when not full and at 80 %
   * or more; available otherwise. Texts and colours tell the three apart.
   */
  lemma StatusMeaning(current: int, maxCapacity: int)
    ensures StatusOf(current, maxCapacity) == SoldOut <==> current >= maxCapacity
    ensures StatusOf(current, maxCapacity) == NearlyFull <==>
      current < maxCapacity && 100 * current >= 80 * maxCapacity
    ensures StatusOf(current, maxCapacity) == Available <==>
      current < maxCapacity && 100 * current < 80 * maxCapacity
  {
    NearlyFullRule(current, maxCapacity);
  }

  lemma StatusLabelsDistinct(s: Status, t: Status)
    requires s != t
    ensures StatusText(s) != StatusText(t) && StatusColor(s) != StatusColor(t)
  {
  }

  /** Without capacity, any non-negative count shows as sold out with an empty bar. */
  lemma ZeroCapacitySoldOut(current: int)
    requires current >= 0
    ensures StatusText(StatusOf(current, 0)) == "Sold Out"
    ensures Percentage(current, 0) == 0.0 && BarWidth(current, 0) == 0.0
    ensures SpotsLeft(current, 0).None?
  {
  }

  /** The bar is never wider than 100 % and never negative for a non-negative count. */
  lemma BarWidthRange(current: int, maxCapacity: int)
    requires current >= 0
    ensures 0.0 <= BarWidth(current, maxCapacity) <= 100.0
    ensures current <= maxCapacity ==> BarWidth(current, maxCapacity) == Percentage(current, maxCapacity)
  {
    if maxCapacity > 0 {
      PercentRange(current, maxCapacity);
    }
  }

  /** The spots-left label shows exactly when not full, and then a positive number of spots. */
  lemma SpotsLeftMeaning(current: int, maxCapacity: int)
    ensures SpotsLeft(current, maxCapacity).Some? <==> current < maxCapacity
    ensures SpotsLeft(current, maxCapacity).Some? ==>
      SpotsLeft(current, maxCapacity).value == maxCapacity - current > 0
  {
  }
}
