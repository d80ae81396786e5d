/**
 * The `fetchAll` pipeline of `useEvents`: events are de-duplicated, feedback
 * and track relations are grouped by event, a track-name lookup is built, every
 * unique event becomes an `Event` view record, and the list is narrowed by the
 * search text and the category, has the optimistic event put in front, and is
 * sorted by date.
 *
 * `toLocaleDateString` and `new Date(...).getTime()` are parameters.
 */
module UseEvents {
  import opened Wrappers
  import opened Strings
  import opened Seqs
  import opened TableOps
  import opened Types

  datatype RawEvent = RawEvent(
    id: int,
    titulo: string,
    descripcion: string,
    tema: string,
    ponente: string,
    invitadosEspeciales: seq<string>,
    modalidad: string,
    lugar: string,
    plataforma: Option<string>,
    fecha: string,
    horaInicio: string,
    horaFin: string,
    maxParticipantes: Option<int>,
    suscritos: Option<int>,
    imageUrl: string)

  datatype RawFeedback = RawFeedback(id: int, eventId: int, rating: int, comment: string, createdAt: Option<string>)
  datatype RawTrack = RawTrack(id: int, nombre: string)
  datatype RawEventTrack = RawEventTrack(eventId: int, trackId: int)

  /** The hook's parameters; `None` is an absent or null parameter. */
  datatype Params = Params(search: Option<string>, category: Option<string>, optimisticEvent: Option<Event>)

  /** The locale date text of a raw date, and the timestamp of a date text (`None` for NaN). */
  datatype Locale = Locale(localeDate: string -> string, timeOf: string -> Option<int>)

  function EventId(e: RawEvent): int { e.id }
  function FeedbackEvent(f: RawFeedback): int { f.eventId }
  function FeedbackItself(f: RawFeedback): RawFeedback { f }
  function FeedbackRating(f: RawFeedback): int { f.rating }
  function TrackId(t: RawTrack): int { t.id }
  function TrackName(t: RawTrack): string { t.nombre }
  function RelationEvent(r: RawEventTrack): int { r.eventId }
  function RelationTrack(r: RawEventTrack): int { r.trackId }

  /** `trackMap[tid]`, with `undefined` read as the (equally falsy) empty text. */
  function NameIn(trackMap: map<int, string>): int -> string {
    tid => LookupOr(trackMap, tid, "")
  }

  function NonEmpty(s: string): bool { s != "" }

  /** `trackIds.map(tid => trackMap[tid]).filter(n => !!n)`. */
  function TrackNames(trackIds: seq<int>, trackMap: map<int, string>): seq<string> {
    Filter(Map(trackIds, NameIn(trackMap)), NonEmpty)
  }

  /** The track names are those of the ids that name a track, in relation order. */
  lemma {:induction false} TrackNamesMeaning(trackIds: seq<int>, trackMap: map<int, string>)
    ensures TrackNames(trackIds, trackMap) == Map(Filter(trackIds, HasTextIn(trackMap)), NameIn(trackMap))
  {
    if trackIds != [] {
      var init := trackIds[..|trackIds| - 1];
      TrackNamesMeaning(init, trackMap);
      assert Map(trackIds, NameIn(trackMap))[..|trackIds| - 1] == Map(init, NameIn(trackMap));
      var kept := Filter(init, HasTextIn(trackMap));
      if HasText(trackMap, trackIds[|trackIds| - 1]) {
        assert Map(kept + [trackIds[|trackIds| - 1]], NameIn(trackMap)) == Map(kept, NameIn(trackMap)) + [NameIn(trackMap)(trackIds[|trackIds| - 1])];
      }
    }
  }

  /** One `uniqueEventsList.map(e => ...)` record. */
  function ToEvent(e: RawEvent, feedbackByEvent: map<int, seq<RawFeedback>>, trackMap: map<int, string>,
                   tracksByEvent: map<int, seq<int>>, locale: Locale): Event
  {
    var fList := GroupOf(feedbackByEvent, e.id);
    Event(
      IntToString(e.id),
      e.titulo,
      e.descripcion,
      e.tema,
      locale.localeDate(e.fecha),
      e.horaInicio + " - " + e.horaFin,
      e.lugar,
      e.imageUrl,
      Mean(fList, FeedbackRating),
      |fList|,
      TrackNames(GroupOf(tracksByEvent, e.id), trackMap),
      OrZero(e.suscritos),
      OrZero(e.maxParticipantes))
  }

  /**
   * The record of an event counts exactly the feedback rows with its id and
   * lists the names of its relations' tracks in relation order; its time is
   * `hora_inicio - hora_fin` and missing capacities are 0.
   */
  lemma ToEventMeaning(e: RawEvent, feedbacks: seq<RawFeedback>, tracks: seq<RawTrack>, relations: seq<RawEventTrack>, locale: Locale)
    ensures var ev := ToEvent(e, GroupBy(feedbacks, FeedbackEvent, FeedbackItself), LastWins(tracks, TrackId, TrackName),
                              GroupBy(relations, RelationEvent, RelationTrack), locale);
      ev.ratingCount == Count(feedbacks, KeyIs(FeedbackEvent, e.id))
      && (ev.ratingCount == 0 ==> ev.rating == 0.0)
      && ev.tracks == Map(Filter(Map(Filter(relations, KeyIs(RelationEvent, e.id)), RelationTrack),
                                 HasTextIn(LastWins(tracks, TrackId, TrackName))),
                          NameIn(LastWins(tracks, TrackId, TrackName)))
      && ev.time == e.horaInicio + " - " + e.horaFin
      && (e.suscritos.None? ==> ev.currentCapacity == 0)
      && (e.maxParticipantes.None? ==> ev.maxCapacity == 0)
  {
    var trackMap := LastWins(tracks, TrackId, TrackName);
    GroupByContents(feedbacks, FeedbackEvent, FeedbackItself, e.id);
    GroupByContents(relations, RelationEvent, RelationTrack, e.id);
    TrackNamesMeaning(GroupOf(GroupBy(relations, RelationEvent, RelationTrack), e.id), trackMap);
  }

  // ---------------------------------------------------------------------
  // Filters, optimistic event, sort
  // ---------------------------------------------------------------------

  /** `ev.name.toLowerCase().includes(q) || ev.description.toLowerCase().includes(q)`. */
  predicate MatchesSearch(ev: Event, q: string) {
    Contains(Lower(ev.name), q) || Contains(Lower(ev.description), q)
  }

  function SearchTest(q: string): Event -> bool { (ev: Event) => MatchesSearch(ev, q) }

  /** `if (params.search) filtered = filtered.filter(...)` with the lowercased query. */
  function SearchFilter(events: seq<Event>, search: Option<string>): seq<Event> {
    if search.Some? && search.value != "" then Filter(events, SearchTest(Lower(search.value))) else events
  }

  function CategoryTest(category: string): Event -> bool { (ev: Event) => category in ev.tracks }

  /** `if (params.category) filtered = filtered.filter(ev => ev.tracks.includes(category))`. */
  function CategoryFilter(events: seq<Event>, category: Option<string>): seq<Event> {
    if category.Some? && category.value != "" then Filter(events, CategoryTest(category.value)) else events
  }

  /**
   * An empty or absent search leaves the list as it is; otherwise the list
   * keeps exactly the events whose lowercased name or description contains the
   * lowercased query, in their order.
   */
  lemma SearchFilterMeaning(events: seq<Event>, search: Option<string>)
    ensures (search.None? || search.value == "") ==> SearchFilter(events, search) == events
    ensures IsSubsequence(SearchFilter(events, search), events)
    ensures search.Some? && search.value != "" ==>
      forall ev :: ev in SearchFilter(events, search) <==> ev in events && MatchesSearch(ev, Lower(search.value))
  {
    if search.Some? && search.value != "" {
      FilterIsSubsequence(events, SearchTest(Lower(search.value)));
    } else {
      SubsequenceOfItself(events);
    }
  }

  /** No category leaves the list as it is; a category keeps exactly the events listing it among their tracks. */
  lemma CategoryFilterMeaning(events: seq<Event>, category: Option<string>)
    ensures (category.None? || category.value == "") ==> CategoryFilter(events, category) == events
    ensures IsSubsequence(CategoryFilter(events, category), events)
    ensures category.Some? && category.value != "" ==>
      forall ev :: ev in CategoryFilter(events, category) <==> ev in events && category.value in ev.tracks
  {
    if category.Some? && category.value != "" {
      FilterIsSubsequence(events, CategoryTest(category.value));
    } else {
      SubsequenceOfItself(events);
    }
  }

  /** `new Date(b.date).getTime() - new Date(a.date).getTime()`; NaN counts as equal. */
  function NewestFirst(timeOf: string -> Option<int>): (Event, Event) -> int {
    (a: Event, b: Event) =>
      var ta := timeOf(a.date);
      var tb := timeOf(b.date);
      if ta.Some? && tb.Some? then tb.value - ta.value else 0
  }

  /** Filters, then the optimistic event in front, then the date sort. */
  function Present(mapped: seq<Event>, params: Params, locale: Locale): seq<Event> {
    var filtered := CategoryFilter(SearchFilter(mapped, params.search), params.category);
    var withOptimistic := if params.optimisticEvent.Some? then [params.optimisticEvent.value] + filtered else filtered;
    SortBy(withOptimistic, NewestFirst(locale.timeOf))
  }

  /**
   * The optimistic event bypasses both filters and is added exactly once: the
   * result rearranges the filtered list plus that one event.
   */
  lemma PresentMeaning(mapped: seq<Event>, params: Params, locale: Locale)
    ensures var filtered := CategoryFilter(SearchFilter(mapped, params.search), params.category);
      var r := Present(mapped, params, locale);
      (params.optimisticEvent.Some? ==>
        |r| == |filtered| + 1 && multiset(r) == multiset(filtered) + multiset{params.optimisticEvent.value})
      && (params.optimisticEvent.None? ==> multiset(r) == multiset(filtered))
  {
  }

  /** The mapped records of the unique events. */
  function MappedEvents(events: seq<RawEvent>, feedbacks: seq<RawFeedback>, tracks: seq<RawTrack>,
                        relations: seq<RawEventTrack>, locale: Locale): seq<Event>
  {
    var unique := FirstOccurrences(events, EventId);
    var feedbackByEvent := GroupBy(feedbacks, FeedbackEvent, FeedbackItself);
    var trackMap := LastWins(tracks, TrackId, TrackName);
    var tracksByEvent := GroupBy(relations, RelationEvent, RelationTrack);
    Map(unique, e => ToEvent(e, feedbackByEvent, trackMap, tracksByEvent, locale))
  }

  /** `fetchAll`: the events the hook sets; any read that throws leaves `[]`. */
  function EventsOf(pEvents: Payload<RawEvent>, pFeedbacks: Payload<RawFeedback>, pTracks: Payload<RawTrack>,
                    pRelations: Payload<RawEventTrack>, params: Params, locale: Locale): seq<Event>
  {
    match (RowsOrThrow(pEvents), RowsOrThrow(pFeedbacks), RowsOrThrow(pTracks), RowsOrThrow(pRelations))
    case (Some(events), Some(feedbacks), Some(tracks), Some(relations)) =>
      Present(MappedEvents(events, feedbacks, tracks, relations, locale), params, locale)
    case _ => []
  }

  /** The hook's load, with its map-filling loops. */
  method FetchAll(pEvents: Payload<RawEvent>, pFeedbacks: Payload<RawFeedback>, pTracks: Payload<RawTrack>,
                  pRelations: Payload<RawEventTrack>, params: Params, locale: Locale)
    returns (events: seq<Event>)
    ensures events == EventsOf(pEvents, pFeedbacks, pTracks, pRelations, params, locale)
  {
    var oEvents, oFeedbacks, oTracks, oRelations :=
      RowsOrThrow(pEvents), RowsOrThrow(pFeedbacks), RowsOrThrow(pTracks), RowsOrThrow(pRelations);
    if oEvents.None? || oFeedbacks.None? || oTracks.None? || oRelations.None? {
      return [];
    }
    var unique := UniqueById(oEvents.value, EventId);
    var feedbackByEvent := GroupRows(oFeedbacks.value, FeedbackEvent, FeedbackItself);
    var trackMap := BuildLookup(oTracks.value, TrackId, TrackName);
    var tracksByEvent := GroupRows(oRelations.value, RelationEvent, RelationTrack);
    var mapped := Map(unique, e => ToEvent(e, feedbackByEvent, trackMap, tracksByEvent, locale));
    assert mapped == MappedEvents(oEvents.value, oFeedbacks.value, oTracks.value, oRelations.value, locale);
    events := Present(mapped, params, locale);
  }
}
