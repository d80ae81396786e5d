/**
 * `useFeedback(params)`: the event titles are folded into a lookup object keyed
 * by `String(id)` (a later row overwrites an earlier one), its entries become
 * the event choices, every feedback row is mapped with its event's title, the
 * optional event and rating filters narrow the list, and the list is sorted by
 * date or rating. A read that throws leaves the lists as they were.
 *
 * `new Date(text).getTime()` is the parameter `timeOf` (`None` for NaN).
 */
module UseFeedback {
  import opened Wrappers
  import opened Strings
  import opened Seqs
  import opened TableOps
  import opened Types

  datatype RawFeedback = RawFeedback(id: int, eventId: int, rating: int, comment: string, createdAt: Option<string>)
  datatype RawEvent = RawEvent(id: int, titulo: string)

  datatype SortKey = ByDate | ByRating
  datatype Order = Asc | Desc
  datatype Params = Params(sortBy: Option<SortKey>, sortOrder: Option<Order>, eventId: Option<string>, rating: Option<int>)

  /** `Pick<Event, 'id' | 'name'>`. */
  datatype EventChoice = EventChoice(id: string, name: string)

  datatype State = State(feedback: seq<Feedback>, events: seq<EventChoice>, isLoading: bool)

  /** The largest array index plus one: such keys are enumerated first, ascending. */
  const ArrayIndexBound := 4294967295

  function EventKey(e: RawEvent): string { IntToString(e.id) }
  function EventNumber(e: RawEvent): int { e.id }
  function Title(e: RawEvent): string { e.titulo }
  function ChoiceId(c: EventChoice): string { c.id }

  /** `evMap`: the reduce with `acc[String(e.id)] = e.titulo`. */
  function TitleMap(events: seq<RawEvent>): map<string, string> {
    LastWins(events, EventKey, Title)
  }

  // ---------------------------------------------------------------------
  // `Object.entries(evMap)`
  // ---------------------------------------------------------------------

  /** `String(n)` is an array index, so the key is enumerated before the others. */
  function IsArrayIndex(n: int): bool { 0 <= n < ArrayIndexBound }
  function NotArrayIndex(n: int): bool { !IsArrayIndex(n) }
  function Ascending(a: int, b: int): int { a - b }

  /** The numeric ids in the order their keys were first written. */
  function InsertionOrder(events: seq<RawEvent>): seq<int> {
    FirstOccurrences(Map(events, EventNumber), Same)
  }

  /** Property order of an object: array-index keys ascending, then the rest in insertion order. */
  function PropertyOrder(ids: seq<int>): seq<int> {
    SortBy(Filter(ids, IsArrayIndex), Ascending) + Filter(ids, NotArrayIndex)
  }

  function EntryOrder(events: seq<RawEvent>): seq<int> {
    PropertyOrder(InsertionOrder(events))
  }

  function ChoiceOf(m: map<string, string>): int -> EventChoice {
    (n: int) => EventChoice(IntToString(n), LookupOr(m, IntToString(n), ""))
  }

  /** `Object.entries(evMap).map(([id, name]) => ({ id, name }))`. */
  function EventChoices(events: seq<RawEvent>): seq<EventChoice> {
    Map(EntryOrder(events), ChoiceOf(TitleMap(events)))
  }

  /** Enumeration reorders distinct keys without losing or repeating one. */
  lemma PropertyOrderMeaning(ids: seq<int>)
    requires DistinctIds(ids, Same)
    ensures DistinctIds(PropertyOrder(ids), Same)
    ensures forall n :: n in PropertyOrder(ids) <==> n in ids
  {
    var a := Filter(ids, IsArrayIndex);
    var b := Filter(ids, NotArrayIndex);
    var sa := SortBy(a, Ascending);
    FilterDistinct(ids, IsArrayIndex, Same);
    FilterDistinct(ids, NotArrayIndex, Same);
    DistinctIdsPermutation(a, sa, Same);
    var ks := sa + b;
    forall i, j | 0 <= i < j < |ks| ensures Same(ks[i]) != Same(ks[j]) {
      if j < |sa| {
        assert ks[i] == sa[i] && ks[j] == sa[j];
      } else if i >= |sa| {
        assert ks[i] == b[i - |sa|] && ks[j] == b[j - |sa|];
      } else {
        assert ks[i] == sa[i] && ks[j] == b[j - |sa|];
        assert sa[i] in multiset(a);
      }
    }
    forall n ensures n in ks <==> n in ids {
      if n in sa {
        assert n in multiset(sa);
      }
      if n in ids && IsArrayIndex(n) {
        assert n in a;
        assert n in multiset(sa);
      }
    }
  }

  /** Every array-index key comes after only smaller array-index keys. */
  lemma PropertyOrderIndexFirst(ids: seq<int>)
    requires DistinctIds(ids, Same)
    ensures var ks := PropertyOrder(ids);
      forall i, j :: 0 <= i < j < |ks| && IsArrayIndex(ks[j]) ==> IsArrayIndex(ks[i]) && ks[i] < ks[j]
  {
    var a := Filter(ids, IsArrayIndex);
    var sa := SortBy(a, Ascending);
    var ks := PropertyOrder(ids);
    SortByKeyIsSorted(a, Ascending, Same);
    PropertyOrderMeaning(ids);
    forall i, j | 0 <= i < j < |ks| && IsArrayIndex(ks[j]) ensures IsArrayIndex(ks[i]) && ks[i] < ks[j] {
      assert j < |sa|;
      assert ks[i] == sa[i] && ks[j] == sa[j];
      assert sa[i] in multiset(a);
      assert Same(ks[i]) != Same(ks[j]);
    }
  }

  /**
   * The entries list each event id once, exactly the ids of the rows, the
   * array-index ids first in ascending order.
   */
  lemma EntryOrderMeaning(events: seq<RawEvent>)
    ensures var ks := EntryOrder(events);
      DistinctIds(ks, Same)
      && (forall n :: n in ks <==> exists e :: e in events && e.id == n)
      && (forall i, j :: 0 <= i < j < |ks| && IsArrayIndex(ks[j]) ==> IsArrayIndex(ks[i]) && ks[i] < ks[j])
  {
    DistinctValues(events, EventNumber);
    PropertyOrderMeaning(InsertionOrder(events));
    PropertyOrderIndexFirst(InsertionOrder(events));
  }

  /** There is one choice per distinct event id. */
  lemma EventChoicesDistinct(events: seq<RawEvent>)
    ensures DistinctIds(EventChoices(events), ChoiceId)
  {
    var ks := EntryOrder(events);
    var cs := EventChoices(events);
    EntryOrderMeaning(events);
    forall a, b | 0 <= a < b < |cs| ensures ChoiceId(cs[a]) != ChoiceId(cs[b]) {
      assert Same(ks[a]) != Same(ks[b]);
      IntToStringInjective(ks[a], ks[b]);
    }
  }

  /** A number is an enumerated key exactly when some row has it as id. */
  lemma EntryOrderMember(events: seq<RawEvent>, n: int)
    ensures n in EntryOrder(events) <==> exists e :: e in events && e.id == n
  {
    EntryOrderMeaning(events);
  }

  /** Every choice carries the title the lookup holds for its id. */
  lemma EventChoicesNamed(events: seq<RawEvent>)
    ensures forall c :: c in EventChoices(events) ==> c.id in TitleMap(events) && c.name == TitleMap(events)[c.id]
  {
    var ks := EntryOrder(events);
    var cs := EventChoices(events);
    var m := TitleMap(events);
    forall c | c in cs ensures c.id in m && c.name == m[c.id] {
      var i :| 0 <= i < |cs| && cs[i] == c;
      EntryOrderMember(events, ks[i]);
      var e :| e in events && e.id == ks[i];
      assert EventKey(e) in Ids(events, EventKey);
    }
  }

  /** Every event row has its choice. */
  lemma EventChoicesCover(events: seq<RawEvent>)
    ensures forall e :: e in events ==> exists c :: c in EventChoices(events) && c.id == IntToString(e.id)
  {
    var ks := EntryOrder(events);
    var cs := EventChoices(events);
    forall e | e in events ensures exists c :: c in cs && c.id == IntToString(e.id) {
      EntryOrderMember(events, e.id);
      var i :| 0 <= i < |ks| && ks[i] == e.id;
      assert cs[i] in cs;
    }
  }

  // ---------------------------------------------------------------------
  // Feedback mapping, filters and sort
  // ---------------------------------------------------------------------

  /** `rawF.map(...)`: the view record, named after the lookup or `''`. */
  function ToFeedback(m: map<string, string>): RawFeedback -> Feedback {
    (f: RawFeedback) => Feedback(IntToString(f.id), IntToString(f.eventId), LookupOr(m, IntToString(f.eventId), ""),
                                 f.rating, f.comment, f.createdAt.GetOr(""))
  }

  /**
   * A feedback row is named after the title of the last event row with its
   * event id, and gets `''` when no event row has that id.
   */
  lemma FeedbackNameMeaning(events: seq<RawEvent>, f: RawFeedback, i: nat)
    requires i < |events| && events[i].id == f.eventId
    requires forall j :: i < j < |events| ==> events[j].id != f.eventId
    ensures ToFeedback(TitleMap(events))(f).eventName == events[i].titulo
  {
    forall j | i < j < |events| ensures EventKey(events[j]) != EventKey(events[i]) {
      IntToStringInjective(events[j].id, events[i].id);
    }
    LastWinsValue(events, EventKey, Title, i);
  }

  lemma FeedbackNameUnknown(events: seq<RawEvent>, f: RawFeedback)
    requires forall e :: e in events ==> e.id != f.eventId
    ensures ToFeedback(TitleMap(events))(f).eventName == ""
  {
    forall e | e in events ensures EventKey(e) != IntToString(f.eventId) {
      IntToStringInjective(e.id, f.eventId);
    }
  }

  function EventIs(id: string): Feedback -> bool { (fb: Feedback) => fb.eventId == id }
  function RatingIs(r: int): Feedback -> bool { (fb: Feedback) => fb.rating == r }

  /** `if (params.eventId) ...; if (params.rating != null) ...`. */
  function Filtered(list: seq<Feedback>, p: Params): seq<Feedback> {
    var byEvent := if p.eventId.Some? && p.eventId.value != "" then Filter(list, EventIs(p.eventId.value)) else list;
    if p.rating.Some? then Filter(byEvent, RatingIs(p.rating.value)) else byEvent
  }

  /**
   * The filters keep, in order, exactly the rows of the given event (when the
   * event id is non-empty) with the given rating (whenever one is given, 0
   * included).
   */
  lemma FilteredMeaning(list: seq<Feedback>, p: Params)
    ensures IsSubsequence(Filtered(list, p), list)
    ensures forall fb :: fb in Filtered(list, p) <==>
      fb in list
      && (p.eventId.Some? && p.eventId.value != "" ==> fb.eventId == p.eventId.value)
      && (p.rating.Some? ==> fb.rating == p.rating.value)
  {
    var byEvent := if p.eventId.Some? && p.eventId.value != "" then Filter(list, EventIs(p.eventId.value)) else list;
    if p.eventId.Some? && p.eventId.value != "" {
      FilterIsSubsequence(list, EventIs(p.eventId.value));
    } else {
      SubsequenceOfItself(list);
    }
    if p.rating.Some? {
      FilterIsSubsequence(byEvent, RatingIs(p.rating.value));
      SubsequenceTransitive(Filtered(list, p), byEvent, list);
    }
  }

  function Rating(fb: Feedback): int { fb.rating }
  function NegatedRating(fb: Feedback): int { -fb.rating }
  function RatingAscending(a: Feedback, b: Feedback): int { a.rating - b.rating }
  function RatingDescending(a: Feedback, b: Feedback): int { b.rating - a.rating }

  /** The date comparator; a NaN difference compares equal. */
  function DateOrder(timeOf: string -> Option<int>, asc: bool): (Feedback, Feedback) -> int {
    (a: Feedback, b: Feedback) =>
      match (timeOf(a.date), timeOf(b.date))
      case (Some(ta), Some(tb)) => if asc then ta - tb else tb - ta
      case _ => 0
  }

  /** `params.sortBy || 'date'` and `params.sortOrder === 'asc'` select the comparator. */
  function Comparator(p: Params, timeOf: string -> Option<int>): (Feedback, Feedback) -> int {
    var asc := p.sortOrder == Some(Asc);
    if p.sortBy.GetOr(ByDate) == ByRating then (if asc then RatingAscending else RatingDescending)
    else DateOrder(timeOf, asc)
  }

  /**
   * The sort rearranges the list; by rating it orders ascending when the order
   * is 'asc' and descending otherwise (absent included); the date order is used
   * whenever the rating is not asked for.
   */
  lemma SortMeaning(list: seq<Feedback>, p: Params, timeOf: string -> Option<int>)
    ensures multiset(SortBy(list, Comparator(p, timeOf))) == multiset(list)
    ensures p.sortBy == Some(ByRating) && p.sortOrder == Some(Asc) ==> SortedByKey(SortBy(list, Comparator(p, timeOf)), Rating)
    ensures p.sortBy == Some(ByRating) && p.sortOrder != Some(Asc) ==> SortedByKey(SortBy(list, Comparator(p, timeOf)), NegatedRating)
    ensures p.sortBy != Some(ByRating) ==> Comparator(p, timeOf) == DateOrder(timeOf, p.sortOrder == Some(Asc))
  {
    if p.sortBy == Some(ByRating) {
      if p.sortOrder == Some(Asc) {
        SortByKeyIsSorted(list, RatingAscending, Rating);
      } else {
        SortByKeyIsSorted(list, RatingDescending, NegatedRating);
      }
    }
  }

  // ---------------------------------------------------------------------
  // The fetch
  // ---------------------------------------------------------------------

  /** The feedback list from the two tables. */
  function FeedbackList(events: seq<RawEvent>, rows: seq<RawFeedback>, p: Params, timeOf: string -> Option<int>): seq<Feedback> {
    SortBy(Filtered(Map(rows, ToFeedback(TitleMap(events))), p), Comparator(p, timeOf))
  }

  /**
   * `fetchFeedback` from `prev`: a throwing event read keeps both lists, a
   * throwing feedback read keeps the feedback but shows the new choices.
   */
  function FeedbackState(pEvents: Payload<RawEvent>, pFeedback: Payload<RawFeedback>, p: Params,
                         timeOf: string -> Option<int>, prev: State): State {
    match RowsOrThrow(pEvents)
    case None => prev.(isLoading := false)
    case Some(events) =>
      match RowsOrThrow(pFeedback)
      case None => prev.(events := EventChoices(events), isLoading := false)
      case Some(rows) => State(FeedbackList(events, rows, p, timeOf), EventChoices(events), false)
  }

  /** A failed read leaves the feedback list untouched. */
  lemma FeedbackStateFailure(pEvents: Payload<RawEvent>, pFeedback: Payload<RawFeedback>, p: Params,
                             timeOf: string -> Option<int>, prev: State)
    requires !pEvents.Rows? || !pFeedback.Rows?
    ensures var st := FeedbackState(pEvents, pFeedback, p, timeOf, prev);
      st.feedback == prev.feedback && !st.isLoading
      && (!pEvents.Rows? ==> st.events == prev.events)
  {
  }

  /**
   * After both reads, the list is a rearrangement of the filtered rows of the
   * feedback table, each named after the lookup.
   */
  lemma FeedbackListMeaning(events: seq<RawEvent>, rows: seq<RawFeedback>, p: Params, timeOf: string -> Option<int>)
    ensures var mapped := Map(rows, ToFeedback(TitleMap(events)));
      multiset(FeedbackList(events, rows, p, timeOf)) == multiset(Filtered(mapped, p))
      && (forall fb :: fb in FeedbackList(events, rows, p, timeOf) ==> fb in mapped)
      && |FeedbackList(events, rows, p, timeOf)| <= |rows|
  {
    var mapped := Map(rows, ToFeedback(TitleMap(events)));
    var l := FeedbackList(events, rows, p, timeOf);
    SortMeaning(Filtered(mapped, p), p, timeOf);
    FilteredMeaning(mapped, p);
    forall fb | fb in l ensures fb in mapped {
      assert fb in multiset(l);
    }
    SubsequenceLength(Filtered(mapped, p), mapped);
  }

  /** The fetch as the hook runs it: the reduce loop, then the reassigned list. */
  method FetchFeedback(pEvents: Payload<RawEvent>, pFeedback: Payload<RawFeedback>, p: Params,
                       timeOf: string -> Option<int>, prev: State) returns (st: State)
    ensures st == FeedbackState(pEvents, pFeedback, p, timeOf, prev)
  {
    var rawE := RowsOrThrow(pEvents);
    if rawE.None? {
      return prev.(isLoading := false);
    }
    var evMap := BuildLookup(rawE.value, EventKey, Title);
    st := prev.(events := Map(EntryOrder(rawE.value), ChoiceOf(evMap)));
    var rawF := RowsOrThrow(pFeedback);
    if rawF.None? {
      return st.(isLoading := false);
    }
    var list := Map(rawF.value, ToFeedback(evMap));
    if p.eventId.Some? && p.eventId.value != "" {
      list := Filter(list, EventIs(p.eventId.value));
    }
    if p.rating.Some? {
      list := Filter(list, RatingIs(p.rating.value));
    }
    list := SortBy(list, Comparator(p, timeOf));
    st := State(list, st.events, false);
  }
}
