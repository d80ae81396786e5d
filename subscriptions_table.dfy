/**
 * `SubscriptionsTable`: the loading and empty branches, the truncation to
 * `maxEvents` rows with the count of hidden rows and the info bar, the summary
 * line over all subscriptions, and the status label and colour maps.
 */
module SubscriptionsTable {
  import opened Wrappers
  import opened Strings
  import opened Seqs
  import opened UseDashboard

  /** What the component renders. */
  datatype View =
    | Loading
    | Empty
    | Table(displayed: seq<EventSubscription>, hiddenCount: int, infoBar: bool, total: int, eventCount: nat)

  /** `maxEvents` as a condition: absent and 0 are falsy. */
  predicate Truthy(maxEvents: Option<int>) { maxEvents.Some? && maxEvents.value != 0 }

  /** `maxEvents ? subscriptions.slice(0, maxEvents) : subscriptions`. */
  function Displayed(subscriptions: seq<EventSubscription>, maxEvents: Option<int>): seq<EventSubscription> {
    if Truthy(maxEvents) then SliceTo(subscriptions, maxEvents.value) else subscriptions
  }

  function Subscribers(s: EventSubscription): int { s.subscribers }

  /** The component for the given props (`isLoading` defaults to false). */
  function Render(subscriptions: seq<EventSubscription>, isLoading: bool, maxEvents: Option<int>): View {
    if isLoading then Loading
    else if |subscriptions| == 0 then Empty
    else
      var displayed := Displayed(subscriptions, maxEvents);
      var hidden := |subscriptions| - |displayed|;
      Table(displayed, hidden, Truthy(maxEvents) && hidden > 0, Sum(subscriptions, Subscribers), |subscriptions|)
  }

  /** `getStatusText`. */
  function StatusText(s: Status): string {
    match s
    case Full => "Lleno"
    case AlmostFull => "Casi lleno"
    case Available => "Disponible"
  }

  /** `getStatusColor`. */
  function StatusColor(s: Status): string {
    match s
    case Full => "#FF453A"
    case AlmostFull => "#FF9500"
    case Available => "#32D74B"
  }

  /** The capacity cell, `maxParticipants || 'N/A'`. */
  function CapacityCell(s: EventSubscription): (cell: string)
    ensures s.maxParticipants == 0 <==> cell == "N/A"
  {
    if s.maxParticipants != 0 then IntToString(s.maxParticipants) else "N/A"
  }

  /** Loading wins over an empty list; both replace the table. */
  lemma RenderBranches(subscriptions: seq<EventSubscription>, isLoading: bool, maxEvents: Option<int>)
    ensures isLoading ==> Render(subscriptions, isLoading, maxEvents) == Loading
    ensures !isLoading && subscriptions == [] ==> Render(subscriptions, isLoading, maxEvents) == Empty
    ensures Render(subscriptions, isLoading, maxEvents).Table? <==> !isLoading && subscriptions != []
  {
  }

  /**
   * The displayed rows are a prefix of the list: all of it without a truthy
   * `maxEvents`, its first `min(maxEvents, n)` rows for a positive one.
   */
  lemma DisplayedMeaning(subscriptions: seq<EventSubscription>, maxEvents: Option<int>)
    ensures var d := Displayed(subscriptions, maxEvents);
      |d| <= |subscriptions| && d == subscriptions[..|d|]
    ensures !Truthy(maxEvents) ==> Displayed(subscriptions, maxEvents) == subscriptions
    ensures maxEvents.Some? && maxEvents.value > 0 ==>
      Displayed(subscriptions, maxEvents) ==
        subscriptions[..if maxEvents.value <= |subscriptions| then maxEvents.value else |subscriptions|]
  {
  }

  /**
   * The table's counts: the hidden rows are the ones not displayed (never a
   * negative number); the info bar shows exactly when `maxEvents` is truthy
   * and rows are hidden, for a positive limit exactly when it is below the
   * number of rows; the summary adds the subscribers of every row, hidden
   * ones included, and counts every row.
   */
  lemma TableMeaning(subscriptions: seq<EventSubscription>, maxEvents: Option<int>)
    requires subscriptions != []
    ensures var v := Render(subscriptions, false, maxEvents);
      v.Table?
      && v.hiddenCount == |subscriptions| - |v.displayed| >= 0
      && (v.infoBar <==> Truthy(maxEvents) && v.hiddenCount > 0)
      && (maxEvents.Some? && maxEvents.value > 0 ==> (v.infoBar <==> maxEvents.value < |subscriptions|))
      && v.total == Sum(v.displayed, Subscribers) + Sum(subscriptions[|v.displayed|..], Subscribers)
      && v.eventCount == |subscriptions|
  {
    var d := Displayed(subscriptions, maxEvents);
    DisplayedMeaning(subscriptions, maxEvents);
    assert subscriptions == d + subscriptions[|d|..];
    SumAppend(d, subscriptions[|d|..], Subscribers);
  }

  /** The two maps are total and tell the three statuses apart. */
  lemma StatusLabelsDistinct(s: Status, t: Status)
    requires s != t
    ensures StatusText(s) != StatusText(t) && StatusColor(s) != StatusColor(t)
  {
  }
}
