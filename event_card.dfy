/**
 * `EventCard`: the capacity flags of one event (a percentage guarded by a
 * positive maximum, a full flag that is not), the colour and the capacity
 * label they select, and the five rating stars.
 */
module EventCard {
  import opened JsNumber
  import opened Seqs
  import opened Types

  /** `maxCapacity > 0 ? (currentCapacity / maxCapacity) * 100 : 0`. */
  function CapacityPercentage(item: Event): real {
    if item.maxCapacity > 0 then Percent(item.currentCapacity, item.maxCapacity) else 0.0
  }

  predicate IsFull(item: Event) { item.currentCapacity >= item.maxCapacity }
  predicate IsNearlyFull(item: Event) { CapacityPercentage(item) >= 80.0 }

  /** The colour of the people icon and of the `current/max` text. */
  function CapacityColor(item: Event): string {
    if IsFull(item) then "#FF453A" else if IsNearlyFull(item) then "#FF9500" else "#30D158"
  }

  /** A capacity label: `FULL`, or `<rounded percentage>% FULL`. */
  datatype Label = FullLabel | PercentFull(percent: int)

  /** The labels rendered, in order. */
  function Labels(item: Event): seq<Label> {
    (if IsFull(item) then [FullLabel] else [])
    + (if IsNearlyFull(item) && !IsFull(item) then [PercentFull(Round(CapacityPercentage(item)))] else [])
  }

  /** `star <= item.rating` for `star` in `[1, 2, 3, 4, 5]`. */
  function Stars(rating: real): (stars: seq<bool>)
    ensures |stars| == 5
    ensures forall k :: 0 <= k < 5 ==> (stars[k] <==> (k + 1) as real <= rating)
  {
    [1.0 <= rating, 2.0 <= rating, 3.0 <= rating, 4.0 <= rating, 5.0 <= rating]
  }

  function IsLit(b: bool): bool { b }

  /** The number of stars drawn in the accent colour: the rating's floor, kept within 0..5. */
  function LitCount(rating: real): (n: int)
    ensures 0 <= n <= 5
  {
    var f := rating.Floor;
    if f < 0 then 0 else if f > 5 then 5 else f
  }

  /** Without a positive maximum the percentage is 0, so the event is never nearly full. */
  lemma NoCapacityNoPercentage(item: Event)
    requires item.maxCapacity <= 0
    ensures CapacityPercentage(item) == 0.0 && !IsNearlyFull(item)
  {
  }

  /** Nearly full is `100 * current >= 80 * max` for a positive maximum. */
  lemma NearlyFullRule(item: Event)
    ensures IsNearlyFull(item) <==> item.maxCapacity > 0 && 100 * item.currentCapacity >= 80 * item.maxCapacity
  {
    if item.maxCapacity > 0 {
      PercentAtLeast(item.currentCapacity, item.maxCapacity, 80);
    }
  }

  /** A zero maximum makes every event with a non-negative count full. */
  lemma ZeroCapacityFull(item: Event)
    requires item.maxCapacity == 0 && item.currentCapacity >= 0
    ensures IsFull(item) && Labels(item) == [FullLabel] && CapacityColor(item) == "#FF453A"
  {
  }

  /**
   * The two labels never show together: `FULL` exactly when full, the
   * percentage label exactly when nearly full and not full. The colour follows
   * the same precedence.
   */
  lemma LabelsMeaning(item: Event)
    ensures |Labels(item)| <= 1
    ensures Labels(item) == [FullLabel] <==> item.currentCapacity >= item.maxCapacity
    ensures (|Labels(item)| == 1 && Labels(item)[0].PercentFull?) <==>
      item.currentCapacity < item.maxCapacity && 100 * item.currentCapacity >= 80 * item.maxCapacity
    ensures CapacityColor(item) == "#FF453A" <==> item.currentCapacity >= item.maxCapacity
    ensures CapacityColor(item) == "#FF9500" <==>
      item.currentCapacity < item.maxCapacity && 100 * item.currentCapacity >= 80 * item.maxCapacity
  {
    NearlyFullRule(item);
    var labels := Labels(item);
    if IsFull(item) {
      assert labels == [FullLabel];
    } else if IsNearlyFull(item) {
      assert labels == [PercentFull(Round(CapacityPercentage(item)))];
    } else {
      assert labels == [];
    }
  }

  /** The lit stars come first, and there are as many as the rating's floor within 0..5. */
  lemma StarsMeaning(rating: real)
    ensures forall j, k :: 0 <= j < k < 5 && Stars(rating)[k] ==> Stars(rating)[j]
    ensures Count(Stars(rating), IsLit) == LitCount(rating)
  {
    var stars := Stars(rating);
    var n := LitCount(rating);
    forall k | 0 <= k < 5 ensures stars[k] <==> k < n {
      assert stars[k] <==> (k + 1) as real <= rating;
    }
    assert stars == seq(n, _ => true) + seq(5 - n, _ => false);
    AllLitCount(n, 5 - n);
  }

  /** `n` lit stars followed by `m` unlit ones count `n`. */
  lemma {:induction false} AllLitCount(n: nat, m: nat)
    ensures Count(seq(n, _ => true) + seq(m, _ => false), IsLit) == n
    decreases m
  {
    if m == 0 {
      assert seq(n, _ => true) + seq(m, _ => false) == seq(n, _ => true);
      FilterAll(seq(n, _ => true), IsLit);
    } else {
      var s := seq(n, _ => true) + seq(m - 1, _ => false);
      assert seq(n, _ => true) + seq(m, _ => false) == s + [false];
      FilterSnoc(s, false, IsLit);
      AllLitCount(n, m - 1);
    }
  }
}
