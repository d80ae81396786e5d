/**
 * The capacity indicator of the event list (`components/events/CapacityField.tsx`):
 * the percentage divides without any guard on the maximum, so a zero or
 * negative maximum goes through JavaScript's Infinity and NaN; near capacity
 * is `percentage >= 80` and full is `subscribed >= max`.
 */
module EventsCapacityField {
  import opened JsNumber

  datatype Status = Full | AlmostFull | Available

  /** `Math.min((subscribedCount / maxParticipants) * 100, 100)`. */
  function Percentage(subscribed: int, maxParticipants: int): Num {
    Min(Scale(Div(subscribed, maxParticipants), 100.0), 100.0)
  }

  predicate IsNearCapacity(subscribed: int, maxParticipants: int) {
    AtLeast(Percentage(subscribed, maxParticipants), 80.0)
  }

  predicate IsFull(subscribed: int, maxParticipants: int) { subscribed >= maxParticipants }

  /** The precedence of `getStatusColor` and `getStatusText`. */
  function StatusOf(subscribed: int, maxParticipants: int): Status {
    if IsFull(subscribed, maxParticipants) then Full
    else if IsNearCapacity(subscribed, maxParticipants) then AlmostFull
    else Available
  }

  function StatusText(s: Status): string {
    match s
    case Full => "Full"
    case AlmostFull => "Almost Full"
    case Available => "Available"
  }

  function StatusColor(s: Status): string {
    match s
    case Full => "#FF453A"
    case AlmostFull => "#FF9500"
    case Available => "#32D74B"
  }

  /** With a non-zero maximum the percentage is finite: the exact ratio times 100, clamped at 100. */
  lemma PercentageFinite(subscribed: int, maxParticipants: int)
    requires maxParticipants != 0
    ensures Percentage(subscribed, maxParticipants).Finite?
    ensures var p := Percent(subscribed, maxParticipants);
      Percentage(subscribed, maxParticipants).value == if p <= 100.0 then p else 100.0
  {
  }

  /** The percentage is never above 100 and never +Infinity. */
  lemma PercentageAtMost100(subscribed: int, maxParticipants: int)
    ensures Percentage(subscribed, maxParticipants) != PosInf
    ensures Percentage(subscribed, maxParticipants).Finite? ==> Percentage(subscribed, maxParticipants).value <= 100.0
  {
  }

  /** A zero maximum: a positive count reads 100, a negative one -Infinity, zero over zero NaN. */
  lemma ZeroMaximumPercentage(subscribed: int)
    ensures subscribed > 0 ==> Percentage(subscribed, 0) == Finite(100.0)
    ensures subscribed < 0 ==> Percentage(subscribed, 0) == NegInf
    ensures subscribed == 0 ==> Percentage(subscribed, 0) == NaN
  {
  }

  /**
   * Near capacity as integer arithmetic: `100 * sub >= 80 * max` for a
   * positive maximum, the reverse comparison for a negative one, and a
   * positive count for a zero maximum.
   */
  lemma NearCapacityRule(subscribed: int, maxParticipants: int)
    ensures maxParticipants > 0 ==>
      (IsNearCapacity(subscribed, maxParticipants) <==> 100 * subscribed >= 80 * maxParticipants)
    ensures maxParticipants < 0 ==>
      (IsNearCapacity(subscribed, maxParticipants) <==> 100 * subscribed <= 80 * maxParticipants)
    ensures maxParticipants == 0 ==> (IsNearCapacity(subscribed, maxParticipants) <==> subscribed > 0)
  {
    if maxParticipants > 0 {
      PercentAtLeast(subscribed, maxParticipants, 80);
    } else if maxParticipants < 0 {
      PercentAtLeastNegative(subscribed, maxParticipants, 80);
    }
  }

  /**
   * Full exactly from the maximum on; almost full exactly below it and at
   * 80 % or more (for a positive maximum); available otherwise.
   */
  lemma StatusMeaning(subscribed: int, maxParticipants: int)
    ensures StatusOf(subscribed, maxParticipants) == Full <==> subscribed >= maxParticipants
    ensures maxParticipants > 0 ==>
      (StatusOf(subscribed, maxParticipants) == AlmostFull <==>
        subscribed < maxParticipants && 100 * subscribed >= 80 * maxParticipants)
    ensures maxParticipants > 0 ==>
      (StatusOf(subscribed, maxParticipants) == Available <==> 100 * subscribed < 80 * maxParticipants)
  {
    NearCapacityRule(subscribed, maxParticipants);
  }

  /** Without a maximum, any non-negative count is full. */
  lemma ZeroMaximumFull(subscribed: int)
    requires subscribed >= 0
    ensures StatusText(StatusOf(subscribed, 0)) == "Full"
  {
  }

  lemma StatusLabelsDistinct(s: Status, t: Status)
    requires s != t
    ensures StatusText(s) != StatusText(t) && StatusColor(s) != StatusColor(t)
  {
  }
}
