/**
 * The five copies of the available / nearly full / full rule side by side:
 * the subscription status of the dashboard, `CapacityIndicator`, the editor's
 * `CapacityField`, the event list's `CapacityField` and `EventCard`. With a
 * positive maximum they agree; without one they do not.
 */
module CapacityCopies {
  import UseDashboard
  import CapacityIndicator
  import EditCapacityField
  import EventsCapacityField
  import EventCard
  import Types

  /** The three levels every copy distinguishes. */
  datatype Level = Free | Near | Full

  function DashboardLevel(sub: int, max: int): Level {
    match UseDashboard.StatusOf(sub, max)
    case Available => Free
    case AlmostFull => Near
    case Full => Full
  }

  function IndicatorLevel(sub: int, max: int): Level {
    match CapacityIndicator.StatusOf(sub, max)
    case Available => Free
    case NearlyFull => Near
    case SoldOut => Full
  }

  function EditFieldLevel(sub: int, max: int): Level {
    match EditCapacityField.StatusOf(sub, max)
    case Available => Free
    case AlmostFull => Near
    case Full => Full
  }

  function ListFieldLevel(sub: int, max: int): Level {
    match EventsCapacityField.StatusOf(sub, max)
    case Available => Free
    case AlmostFull => Near
    case Full => Full
  }

  /** The card's colour choice as a level. */
  function CardLevel(item: Types.Event): Level {
    if EventCard.IsFull(item) then Full else if EventCard.IsNearlyFull(item) then Near else Free
  }

  /** The one rule all copies implement for a positive maximum. */
  function Reference(sub: int, max: int): Level {
    if sub >= max then Full else if 100 * sub >= 80 * max then Near else Free
  }

  /** For a positive maximum every copy gives the reference level. */
  lemma PositiveMaximumAgrees(sub: int, max: int, item: Types.Event)
    requires max > 0 && item.currentCapacity == sub && item.maxCapacity == max
    ensures DashboardLevel(sub, max) == Reference(sub, max)
    ensures IndicatorLevel(sub, max) == Reference(sub, max)
    ensures EditFieldLevel(sub, max) == Reference(sub, max)
    ensures ListFieldLevel(sub, max) == Reference(sub, max)
    ensures CardLevel(item) == Reference(sub, max)
  {
    CapacityIndicator.StatusMeaning(sub, max);
    EditCapacityField.StatusMeaning(sub, max);
    EventsCapacityField.StatusMeaning(sub, max);
    EventCard.NearlyFullRule(item);
  }

  /**
   * Without capacity and with no subscriber: the dashboard and the editor
   * show the event as free, while the indicator, the list field and the card
   * show it as full.
   */
  lemma ZeroMaximumDisagrees(item: Types.Event)
    requires item.currentCapacity == 0 && item.maxCapacity == 0
    ensures DashboardLevel(0, 0) == Free && EditFieldLevel(0, 0) == Free
    ensures IndicatorLevel(0, 0) == Full && ListFieldLevel(0, 0) == Full && CardLevel(item) == Full
  {
  }

  /**
   * A negative maximum (which the editor's `parseInt` can produce): the
   * dashboard and the editor show free, the others full whenever the count is
   * not negative.
   */
  lemma NegativeMaximum(sub: int, max: int)
    requires max < 0 && sub >= 0
    ensures DashboardLevel(sub, max) == Free && EditFieldLevel(sub, max) == Free
    ensures IndicatorLevel(sub, max) == Full && ListFieldLevel(sub, max) == Full
  {
  }
}
