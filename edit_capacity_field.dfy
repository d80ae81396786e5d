/**
 * `CapacityField` of the event editor: the typed maximum is read with
 * `parseInt` (0 when unreadable); the at- and near-capacity flags, the clamped
 * percentage, the text, the colour and the capacity alert all depend on a
 * positive maximum.
 */
module EditCapacityField {
  import opened JsNumber

  datatype Status = Full | AlmostFull | Available

  /** The capacity alert below the field. */
  datatype Alert = AtFullCapacity | AlmostFullAlert(roundedPercent: int)

  /** `parseInt(maxParticipants) || 0`. */
  function MaxValue(text: string): int { ParseIntOrZero(text) }

  /** `maxValue > 0 && currentSubscribers / maxValue >= 0.8`. */
  predicate IsNearCapacity(subscribers: int, maxValue: int) {
    maxValue > 0 && subscribers as real / maxValue as real >= 0.8
  }

  predicate IsAtCapacity(subscribers: int, maxValue: int) {
    maxValue > 0 && subscribers >= maxValue
  }

  /** `maxValue > 0 ? Math.min((sub / max) * 100, 100) : 0`. */
  function Percentage(subscribers: int, maxValue: int): real {
    if maxValue > 0 then
      var p := Percent(subscribers, maxValue);
      if p <= 100.0 then p else 100.0
    else 0.0
  }

  function StatusOf(subscribers: int, maxValue: int): Status {
    if IsAtCapacity(subscribers, maxValue) then Full
    else if IsNearCapacity(subscribers, maxValue) then AlmostFull
    else Available
  }

  function CapacityText(s: Status): string {
    match s
    case Full => "FULL"
    case AlmostFull => "ALMOST FULL"
    case Available => "AVAILABLE"
  }

  function CapacityColor(s: Status): string {
    match s
    case Full => "#FF3B30"
    case AlmostFull => "#FF9500"
    case Available => "#34C759"
  }

  /** The alerts rendered: the full one, then the almost-full one when not full. */
  function Alerts(subscribers: int, maxValue: int): seq<Alert> {
    (if IsAtCapacity(subscribers, maxValue) then [AtFullCapacity] else [])
    + (if IsNearCapacity(subscribers, maxValue) && !IsAtCapacity(subscribers, maxValue)
       then [AlmostFullAlert(Round(Percentage(subscribers, maxValue)))] else [])
  }

  /** The ratio test `sub / max >= 0.8` is `10 * sub >= 8 * max`. */
  lemma NearCapacityRule(subscribers: int, maxValue: int)
    ensures IsNearCapacity(subscribers, maxValue) <==> maxValue > 0 && 10 * subscribers >= 8 * maxValue
  {
    if maxValue > 0 {
      var m := maxValue as real;
      var q := subscribers as real / m;
      assert q * m == subscribers as real;
      assert (q - 0.8) * m == (10 * subscribers - 8 * maxValue) as real / 10.0;
    }
  }

  /** An unreadable, zero or negative maximum always reads as available, with no alert and an empty bar. */
  lemma NoPositiveMaximum(subscribers: int, text: string)
    requires MaxValue(text) <= 0
    ensures CapacityText(StatusOf(subscribers, MaxValue(text))) == "AVAILABLE"
    ensures Alerts(subscribers, MaxValue(text)) == [] && Percentage(subscribers, MaxValue(text)) == 0.0
  {
  }

  /** An unreadable text is maximum 0. */
  lemma UnreadableMaximum(text: string)
    requires ParseInt(text).None?
    ensures MaxValue(text) == 0
  {
  }

  /**
   * With a positive maximum: full exactly from the maximum on, almost full
   * exactly below it and from 80 % on, available below 80 %.
   */
  lemma StatusMeaning(subscribers: int, maxValue: int)
    requires maxValue > 0
    ensures StatusOf(subscribers, maxValue) == Full <==> subscribers >= maxValue
    ensures StatusOf(subscribers, maxValue) == AlmostFull <==>
      subscribers < maxValue && 10 * subscribers >= 8 * maxValue
    ensures StatusOf(subscribers, maxValue) == Available <==> 10 * subscribers < 8 * maxValue
  {
    NearCapacityRule(subscribers, maxValue);
  }

  lemma StatusLabelsDistinct(s: Status, t: Status)
    requires s != t
    ensures CapacityText(s) != CapacityText(t) && CapacityColor(s) != CapacityColor(t)
  {
  }

  /** The percentage never exceeds 100, and is not negative for a non-negative count. */
  lemma PercentageRange(subscribers: int, maxValue: int)
    ensures Percentage(subscribers, maxValue) <= 100.0
    ensures subscribers >= 0 ==> Percentage(subscribers, maxValue) >= 0.0
  {
    if maxValue > 0 {
      PercentRange(subscribers, maxValue);
    }
  }

  /** At most one alert shows, and it agrees with the status. */
  lemma AlertsMeaning(subscribers: int, maxValue: int)
    ensures |Alerts(subscribers, maxValue)| <= 1
    ensures Alerts(subscribers, maxValue) == [AtFullCapacity] <==> StatusOf(subscribers, maxValue) == Full
    ensures |Alerts(subscribers, maxValue)| == 1 && Alerts(subscribers, maxValue)[0].AlmostFullAlert?
      <==> StatusOf(subscribers, maxValue) == AlmostFull
    ensures Alerts(subscribers, maxValue) == [] <==> StatusOf(subscribers, maxValue) == Available
  {
    var alerts := Alerts(subscribers, maxValue);
    if IsAtCapacity(subscribers, maxValue) {
      assert alerts == [AtFullCapacity];
    } else if IsNearCapacity(subscribers, maxValue) {
      assert alerts == [AlmostFullAlert(Round(Percentage(subscribers, maxValue)))];
      assert alerts[0] != AtFullCapacity;
    } else {
      assert alerts == [];
    }
  }
}
