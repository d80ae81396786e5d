/**
 * The statistics pipeline of `useDashboard` (`fetchDashboardData`): five tables
 * come in (events, speakers, feedbacks, tracks, event/track relations), events
 * and speakers are de-duplicated, a track-name lookup and an event-to-tracks
 * group-by are built, and the dashboard statistics are derived from them, down
 * to the per-event subscription rows with their occupancy status.
 *
 * The clock and `new Date(...)` parsing are parameters: `today` is today's
 * day number, `dayOf` gives the day number of a date text (or `None` for an
 * invalid date), `timeOf` its millisecond timestamp, and `withinLastWeek` says
 * whether a creation date lies in the last seven days.
 */
module UseDashboard {
  import opened Wrappers
  import opened Strings
  import opened JsNumber
  import opened Seqs
  import opened TableOps
  import opened Types

  datatype RawEvent = RawEvent(
    id: int,
    titulo: string,
    descripcion: string,
    tema: string,
    fecha: string,
    horaInicio: string,
    horaFin: string,
    location: string,
    imageUrl: string,
    suscritos: Option<int>,
    maxParticipantes: Option<int>)

  datatype RawSpeaker = RawSpeaker(id: int, name: string)
  datatype RawFeedback = RawFeedback(id: int, eventId: int, rating: real, comment: string, createdAt: Option<string>)
  datatype RawTrack = RawTrack(id: int, nombre: string)
  datatype RawEventTrack = RawEventTrack(eventId: int, trackId: int)

  datatype Status = Available | AlmostFull | Full

  datatype EventSubscription = EventSubscription(
    id: string,
    name: string,
    subscribers: int,
    maxParticipants: int,
    occupancyRate: int,
    status: Status,
    date: string)

  datatype DashboardStats = DashboardStats(
    totalEvents: nat,
    totalSpeakers: nat,
    totalFeedbacks: nat,
    averageRating: real,
    upcomingEvents: nat,
    pastEvents: nat,
    eventsByCategory: map<string, int>,
    recentActivity: nat,
    eventSubscriptions: seq<EventSubscription>)

  /** The environment the pipeline reads: the day, and how date texts parse. */
  datatype Clock = Clock(
    today: int,
    dayOf: string -> Option<int>,
    timeOf: string -> Option<int>,
    withinLastWeek: string -> bool)

  function EventId(e: RawEvent): int { e.id }
  function SpeakerId(s: RawSpeaker): int { s.id }
  function TrackId(t: RawTrack): int { t.id }
  function TrackName(t: RawTrack): string { t.nombre }
  function RelationEvent(r: RawEventTrack): int { r.eventId }
  function RelationTrack(r: RawEventTrack): int { r.trackId }

  /** The statistics the hook shows before its first load and after a failure. */
  const ZeroStats := DashboardStats(0, 0, 0, 0.0, 0, 0, map[], 0, [])

  // ---------------------------------------------------------------------
  // Upcoming and past events
  // ---------------------------------------------------------------------

  /** `eventDate >= today` after `setHours(0, 0, 0, 0)`; an invalid date compares false. */
  predicate IsUpcoming(e: RawEvent, clock: Clock) {
    var d := clock.dayOf(e.fecha);
    d.Some? && d.value >= clock.today
  }

  /** `eventDate < today`; an invalid date compares false. */
  predicate IsPast(e: RawEvent, clock: Clock) {
    var d := clock.dayOf(e.fecha);
    d.Some? && d.value < clock.today
  }

  function UpcomingTest(clock: Clock): RawEvent -> bool { e => IsUpcoming(e, clock) }
  function PastTest(clock: Clock): RawEvent -> bool { e => IsPast(e, clock) }

  /** No event is both upcoming and past; with every date valid, each event is one of them. */
  lemma UpcomingPastPartition(events: seq<RawEvent>, clock: Clock)
    ensures Count(events, UpcomingTest(clock)) + Count(events, PastTest(clock)) <= |events|
    ensures (forall i :: 0 <= i < |events| ==> clock.dayOf(events[i].fecha).Some?) ==>
      Count(events, UpcomingTest(clock)) + Count(events, PastTest(clock)) == |events|
  {
    CountSplit(events, UpcomingTest(clock), PastTest(clock));
  }

  // ---------------------------------------------------------------------
  // Average rating
  // ---------------------------------------------------------------------

  /** The ratings that enter the average: `f.rating > 0 && f.rating <= 5`. */
  predicate IsValidRating(f: RawFeedback) {
    0.0 < f.rating <= 5.0
  }

  function RatingOf(f: RawFeedback): real { f.rating }

  /** A whole number of tenths. */
  predicate IsTenth(r: real) {
    (r * 10.0).Floor as real == r * 10.0
  }

  /** `Number(x.toFixed(1))` on an exact value: the nearest tenth, halves up. */
  function RoundTenths(x: real): (r: real)
    ensures IsTenth(r)
    ensures r - 0.05 <= x < r + 0.05
  {
    var k := Round(x * 10.0);
    assert k as real / 10.0 * 10.0 == k as real;
    k as real / 10.0
  }

  /** The nearest tenth is the only tenth within half a tenth of `x` (from below, inclusive). */
  lemma RoundTenthsUnique(x: real, t: real)
    requires IsTenth(t) && t - 0.05 <= x < t + 0.05
    ensures t == RoundTenths(x)
  {
    var r := RoundTenths(x);
    var j := (t * 10.0).Floor;
    var k := (r * 10.0).Floor;
    assert j as real - 0.5 <= x * 10.0 < j as real + 0.5;
    assert k as real - 0.5 <= x * 10.0 < k as real + 0.5;
    assert j == k;
  }

  /** Rounding to a tenth keeps a value between two whole numbers between them. */
  lemma RoundTenthsInRange(x: real, lo: int, hi: int)
    requires lo as real <= x <= hi as real
    ensures lo as real <= RoundTenths(x) <= hi as real
  {
    var k := Round(x * 10.0);
    assert 10 * lo <= k <= 10 * hi;
  }

  /**
   * The mean of the valid ratings rounded to a tenth, or 0 with no valid
   * rating; it never leaves 0..5.
   */
  function AverageRating(feedbacks: seq<RawFeedback>): (avg: real)
    ensures Count(feedbacks, IsValidRating) == 0 ==> avg == 0.0
    ensures Count(feedbacks, IsValidRating) > 0 ==>
      avg == RoundTenths(RealSum(Filter(feedbacks, IsValidRating), RatingOf) / Count(feedbacks, IsValidRating) as real)
    ensures 0.0 <= avg <= 5.0
  {
    var valid := Filter(feedbacks, IsValidRating);
    if |valid| > 0 then
      RealSumBounds(valid, RatingOf, 0.0, 5.0);
      var mean := RealSum(valid, RatingOf) / |valid| as real;
      QuotientBounds(RealSum(valid, RatingOf), |valid| as real, 0.0, 5.0);
      RoundTenthsInRange(mean, 0, 5);
      RoundTenths(mean)
    else 0.0
  }

  lemma WholeStar(r: real)
    requires r.Floor as real == r && 0.0 < r
    ensures 1.0 <= r
  {
    assert r.Floor >= 1;
  }

  predicate WholeStars(feedbacks: seq<RawFeedback>) {
    forall i :: 0 <= i < |feedbacks| ==> feedbacks[i].rating.Floor as real == feedbacks[i].rating
  }

  lemma ValidWholeStars(feedbacks: seq<RawFeedback>)
    requires WholeStars(feedbacks)
    ensures forall i :: 0 <= i < |Filter(feedbacks, IsValidRating)| ==>
      1.0 <= RatingOf(Filter(feedbacks, IsValidRating)[i]) <= 5.0
  {
    var valid := Filter(feedbacks, IsValidRating);
    forall i | 0 <= i < |valid| ensures 1.0 <= RatingOf(valid[i]) <= 5.0 {
      assert valid[i] in feedbacks;
      var j :| 0 <= j < |feedbacks| && feedbacks[j] == valid[i];
      WholeStar(feedbacks[j].rating);
    }
  }

  /** With whole-star ratings, the average of at least one valid rating lies in 1..5. */
  lemma WholeStarAverage(feedbacks: seq<RawFeedback>)
    requires WholeStars(feedbacks)
    requires Count(feedbacks, IsValidRating) > 0
    ensures 1.0 <= AverageRating(feedbacks) <= 5.0
  {
    var valid := Filter(feedbacks, IsValidRating);
    ValidWholeStars(feedbacks);
    var total := RealSum(valid, RatingOf);
    RealSumBounds(valid, RatingOf, 1.0, 5.0);
    QuotientBounds(total, |valid| as real, 1.0, 5.0);
    RoundTenthsInRange(total / |valid| as real, 1, 5);
  }

  // ---------------------------------------------------------------------
  // Events by track
  // ---------------------------------------------------------------------

  /** The bucket of events without any track relation. */
  const Uncategorized := "Sin categor\U{00ED}a"

  /** `counts[name] = (counts[name] || 0) + 1`. */
  function Bump(counts: map<string, int>, name: string): (c: map<string, int>)
    ensures LookupOr(c, name, 0) == LookupOr(counts, name, 0) + 1
    ensures forall n :: n != name ==> LookupOr(c, n, 0) == LookupOr(counts, n, 0)
  {
    counts[name := LookupOr(counts, name, 0) + 1]
  }

  /** A relation's track id names the track `name`. */
  function NamesTrack(trackMap: map<int, string>, name: string): int -> bool {
    tid => HasText(trackMap, tid) && trackMap[tid] == name
  }

  /** `eventsByTrack[track.nombre] = 0` for every track, in table order. */
  function InitialCounts(tracks: seq<RawTrack>): (c: map<string, int>)
    ensures c.Keys == Ids(tracks, TrackName)
    ensures forall n :: n in c ==> c[n] == 0
  {
    if tracks == [] then map[]
    else
      var init := tracks[..|tracks| - 1];
      IdsAppend(init, tracks[|tracks| - 1], TrackName);
      assert tracks == init + [tracks[|tracks| - 1]];
      InitialCounts(init)[tracks[|tracks| - 1].nombre := 0]
  }

  /** `trackIds.forEach(trackId => { if (trackMap[trackId]) bump(trackMap[trackId]) })`. */
  function AddTracks(counts: map<string, int>, trackIds: seq<int>, trackMap: map<int, string>): map<string, int> {
    if trackIds == [] then counts
    else
      var c := AddTracks(counts, trackIds[..|trackIds| - 1], trackMap);
      var tid := trackIds[|trackIds| - 1];
      if HasText(trackMap, tid) then Bump(c, trackMap[tid]) else c
  }

  /** One event of the `uniqueEvents.forEach`. */
  function AddEvent(counts: map<string, int>, e: RawEvent, eventToTracks: map<int, seq<int>>, trackMap: map<int, string>): map<string, int> {
    var trackIds := GroupOf(eventToTracks, e.id);
    if trackIds == [] then Bump(counts, Uncategorized) else AddTracks(counts, trackIds, trackMap)
  }

  function CountEvents(counts: map<string, int>, events: seq<RawEvent>, eventToTracks: map<int, seq<int>>, trackMap: map<int, string>): map<string, int> {
    if events == [] then counts
    else AddEvent(CountEvents(counts, events[..|events| - 1], eventToTracks, trackMap), events[|events| - 1], eventToTracks, trackMap)
  }

  /** `Object.fromEntries(Object.entries(counts).filter(([_, count]) => count > 0))`. */
  function KeepPositive(counts: map<string, int>): (c: map<string, int>)
    ensures forall n :: n in c <==> n in counts && counts[n] > 0
    ensures forall n :: n in c ==> c[n] == counts[n]
  {
    map n | n in counts && counts[n] > 0 :: counts[n]
  }

  /** `filteredEventsByTrack`. */
  function CategoryCounts(tracks: seq<RawTrack>, events: seq<RawEvent>, eventToTracks: map<int, seq<int>>, trackMap: map<int, string>): map<string, int> {
    KeepPositive(CountEvents(InitialCounts(tracks), events, eventToTracks, trackMap))
  }

  /** What one event adds to the count of `name`. */
  function Contribution(e: RawEvent, eventToTracks: map<int, seq<int>>, trackMap: map<int, string>, name: string): nat {
    var trackIds := GroupOf(eventToTracks, e.id);
    if trackIds == [] then (if name == Uncategorized then 1 else 0)
    else Count(trackIds, NamesTrack(trackMap, name))
  }

  function ContributionTo(eventToTracks: map<int, seq<int>>, trackMap: map<int, string>, name: string): RawEvent -> int {
    e => Contribution(e, eventToTracks, trackMap, name)
  }

  /** Each relation whose track id has a name adds one to that name; unknown ids add nothing. */
  lemma {:induction false} AddTracksCounts(counts: map<string, int>, trackIds: seq<int>, trackMap: map<int, string>, name: string)
    ensures LookupOr(AddTracks(counts, trackIds, trackMap), name, 0) == LookupOr(counts, name, 0) + Count(trackIds, NamesTrack(trackMap, name))
  {
    if trackIds != [] {
      AddTracksCounts(counts, trackIds[..|trackIds| - 1], trackMap, name);
    }
  }

  /**
   * An event with no relations adds exactly one to 'Sin categoría' and nothing
   * else; otherwise it adds one per relation whose track id has a name.
   */
  lemma AddEventCounts(counts: map<string, int>, e: RawEvent, eventToTracks: map<int, seq<int>>, trackMap: map<int, string>, name: string)
    ensures LookupOr(AddEvent(counts, e, eventToTracks, trackMap), name, 0) == LookupOr(counts, name, 0) + Contribution(e, eventToTracks, trackMap, name)
  {
    var trackIds := GroupOf(eventToTracks, e.id);
    if trackIds != [] {
      AddTracksCounts(counts, trackIds, trackMap, name);
    }
  }

  lemma {:induction false} CountEventsTotals(counts: map<string, int>, events: seq<RawEvent>, eventToTracks: map<int, seq<int>>, trackMap: map<int, string>, name: string)
    ensures LookupOr(CountEvents(counts, events, eventToTracks, trackMap), name, 0)
      == LookupOr(counts, name, 0) + Sum(events, ContributionTo(eventToTracks, trackMap, name))
  {
    if events != [] {
      var init := events[..|events| - 1];
      CountEventsTotals(counts, init, eventToTracks, trackMap, name);
      AddEventCounts(CountEvents(counts, init, eventToTracks, trackMap), events[|events| - 1], eventToTracks, trackMap, name);
    }
  }

  /**
   * The category table lists exactly the names whose events and relations
   * contribute a positive count, with that count: every listed count is positive.
   */
  lemma CategoryCountsMeaning(tracks: seq<RawTrack>, events: seq<RawEvent>, eventToTracks: map<int, seq<int>>, trackMap: map<int, string>, name: string)
    ensures name in CategoryCounts(tracks, events, eventToTracks, trackMap)
      <==> Sum(events, ContributionTo(eventToTracks, trackMap, name)) > 0
    ensures name in CategoryCounts(tracks, events, eventToTracks, trackMap) ==>
      CategoryCounts(tracks, events, eventToTracks, trackMap)[name] == Sum(events, ContributionTo(eventToTracks, trackMap, name))
  {
    var init := InitialCounts(tracks);
    CountEventsTotals(init, events, eventToTracks, trackMap, name);
    assert LookupOr(init, name, 0) == 0;
  }

  /** `tracks.forEach(track => { eventsByTrack[track.nombre] = 0 })`. */
  method ZeroCounts(tracks: seq<RawTrack>) returns (counts: map<string, int>)
    ensures counts == InitialCounts(tracks)
  {
    counts := map[];
    var i := 0;
    while i < |tracks|
      invariant 0 <= i <= |tracks|
      invariant counts == InitialCounts(tracks[..i])
    {
      assert tracks[..i + 1][..i] == tracks[..i];
      counts := counts[tracks[i].nombre := 0];
      i := i + 1;
    }
    assert tracks[..i] == tracks;
  }

  /** The inner `trackIds.forEach` of one event. */
  method BumpTracks(counts: map<string, int>, trackIds: seq<int>, trackMap: map<int, string>) returns (c: map<string, int>)
    ensures c == AddTracks(counts, trackIds, trackMap)
  {
    c := counts;
    var j := 0;
    while j < |trackIds|
      invariant 0 <= j <= |trackIds|
      invariant c == AddTracks(counts, trackIds[..j], trackMap)
    {
      assert trackIds[..j + 1][..j] == trackIds[..j];
      var tid := trackIds[j];
      if tid in trackMap && trackMap[tid] != "" {
        c := c[trackMap[tid] := LookupOr(c, trackMap[tid], 0) + 1];
      }
      j := j + 1;
    }
    assert trackIds[..j] == trackIds;
  }

  /** The two `forEach` loops that fill `eventsByTrack`, then the filter to positive counts. */
  method CountByTrack(tracks: seq<RawTrack>, events: seq<RawEvent>, eventToTracks: map<int, seq<int>>, trackMap: map<int, string>)
    returns (byTrack: map<string, int>)
    ensures byTrack == CategoryCounts(tracks, events, eventToTracks, trackMap)
  {
    var counts := ZeroCounts(tracks);
    ghost var start := counts;
    var k := 0;
    while k < |events|
      invariant 0 <= k <= |events|
      invariant counts == CountEvents(start, events[..k], eventToTracks, trackMap)
    {
      assert events[..k + 1][..k] == events[..k];
      var trackIds := LookupOr(eventToTracks, events[k].id, []);
      if |trackIds| == 0 {
        counts := counts[Uncategorized := LookupOr(counts, Uncategorized, 0) + 1];
      } else {
        counts := BumpTracks(counts, trackIds, trackMap);
      }
      k := k + 1;
    }
    assert events[..k] == events;
    byTrack := map n | n in counts && counts[n] > 0 :: counts[n];
  }
  // ---------------------------------------------------------------------
  // Subscriptions per event
  // ---------------------------------------------------------------------

  /** `(subscribers / maxParticipants) * 100`, or 0 without a positive maximum. */
  function OccupancyRate(subscribers: int, maxParticipants: int): (rate: real)
    ensures maxParticipants <= 0 ==> rate == 0.0
    ensures maxParticipants > 0 ==> rate * maxParticipants as real == 100.0 * subscribers as real
  {
    if maxParticipants > 0 then (subscribers as real / maxParticipants as real) * 100.0 else 0.0
  }

  /** With a positive maximum, `occupancyRate >= 80` is `100 * subscribers >= 80 * maxParticipants`. */
  lemma EightyPercentRule(subscribers: int, maxParticipants: int)
    requires maxParticipants > 0
    ensures OccupancyRate(subscribers, maxParticipants) >= 80.0 <==> 100 * subscribers >= 80 * maxParticipants
  {
    var rate := OccupancyRate(subscribers, maxParticipants);
    var m := maxParticipants as real;
    assert rate * m == 100.0 * subscribers as real;
    assert (80 * maxParticipants) as real == 80.0 * m;
    assert (100 * subscribers) as real == 100.0 * subscribers as real;
    assert (rate - 80.0) * m == (100 * subscribers - 80 * maxParticipants) as real;
  }

  /**
   * The `status` of a subscription row: 'full' once the subscribers reach a
   * positive maximum, 'almost-full' from 80 % (as integer cross-multiplication),
   * 'available' otherwise and always without a positive maximum.
   */
  function StatusOf(subscribers: int, maxParticipants: int): (s: Status)
    ensures maxParticipants <= 0 ==> s == Available
    ensures maxParticipants > 0 && subscribers >= maxParticipants ==> s == Full
    ensures maxParticipants > 0 && subscribers < maxParticipants ==>
      (s == AlmostFull <==> 100 * subscribers >= 80 * maxParticipants)
      && (s == Available <==> 100 * subscribers < 80 * maxParticipants)
  {
    var rate := OccupancyRate(subscribers, maxParticipants);
    if maxParticipants > 0 then
      EightyPercentRule(subscribers, maxParticipants);
      if subscribers >= maxParticipants then Full
      else if rate >= 80.0 then AlmostFull
      else Available
    else Available
  }

  /** `Math.round(occupancyRate)` stays within 0..100 while the subscribers do not exceed the maximum. */
  lemma OccupancyPercentInRange(subscribers: int, maxParticipants: int)
    requires 0 <= subscribers
    requires maxParticipants > 0 ==> subscribers <= maxParticipants
    ensures 0 <= Round(OccupancyRate(subscribers, maxParticipants)) <= 100
    ensures maxParticipants <= 0 ==> Round(OccupancyRate(subscribers, maxParticipants)) == 0
  {
    var rate := OccupancyRate(subscribers, maxParticipants);
    if maxParticipants > 0 {
      var m := maxParticipants as real;
      assert rate * m == 100.0 * subscribers as real;
      assert (rate - 100.0) * m == 100.0 * (subscribers - maxParticipants) as real;
      assert rate >= 0.0 && rate <= 100.0;
    }
  }

  const Untitled := "Sin t\U{00ED}tulo"

  /** One `uniqueEvents.map(event => ...)` row. */
  function SubscriptionOf(e: RawEvent): (s: EventSubscription)
    ensures s.id == IntToString(e.id)
    ensures s.name != "" && (e.titulo == "" ==> s.name == Untitled)
    ensures s.status == StatusOf(s.subscribers, s.maxParticipants)
  {
    var subscribers := OrZero(e.suscritos);
    var maxParticipants := OrZero(e.maxParticipantes);
    EventSubscription(
      IntToString(e.id),
      OrText(e.titulo, Untitled),
      subscribers,
      maxParticipants,
      Round(OccupancyRate(subscribers, maxParticipants)),
      StatusOf(subscribers, maxParticipants),
      OrText(e.fecha, ""))
  }

  function SubscriptionId(s: EventSubscription): string { s.id }

  const DayMillis := 24 * 60 * 60 * 1000

  /**
   * The comparator of the subscription sort: dates (`|| '1970-01-01'`) newest
   * first, subscribers descending when the dates are less than a day apart; a
   * NaN difference (an invalid date) counts as equal.
   */
  function ByDateThenSubscribers(timeOf: string -> Option<int>): (EventSubscription, EventSubscription) -> int {
    (a: EventSubscription, b: EventSubscription) =>
      var ta := timeOf(OrText(a.date, "1970-01-01"));
      var tb := timeOf(OrText(b.date, "1970-01-01"));
      if ta.Some? && tb.Some? then
        var dateDiff := tb.value - ta.value;
        if -DayMillis < dateDiff < DayMillis then b.subscribers - a.subscribers else dateDiff
      else 0
  }

  function Subscriptions(unique: seq<RawEvent>, clock: Clock): seq<EventSubscription> {
    SortBy(Map(unique, SubscriptionOf), ByDateThenSubscribers(clock.timeOf))
  }

  /**
   * There is one subscription row per unique event (the sort only rearranges
   * them), and the rows' ids, the decimal strings of the event ids, are distinct.
   */
  lemma SubscriptionsOnePerEvent(events: seq<RawEvent>, clock: Clock)
    ensures var unique := FirstOccurrences(events, EventId);
      var subs := Subscriptions(unique, clock);
      |subs| == |unique|
      && multiset(subs) == multiset(Map(unique, SubscriptionOf))
      && DistinctIds(subs, SubscriptionId)
  {
    var unique := FirstOccurrences(events, EventId);
    var rows := Map(unique, SubscriptionOf);
    FirstOccurrencesDistinct(events, EventId);
    forall a, b | 0 <= a < b < |rows| ensures rows[a].id != rows[b].id {
      IntToStringInjective(unique[a].id, unique[b].id);
    }
    assert DistinctIds(rows, SubscriptionId);
    DistinctIdsPermutation(rows, Subscriptions(unique, clock), SubscriptionId);
  }

  // ---------------------------------------------------------------------
  // The whole pipeline
  // ---------------------------------------------------------------------

  /** `f.created_at && new Date(f.created_at) >= weekAgo`. */
  predicate IsRecent(f: RawFeedback, clock: Clock) {
    f.createdAt.Some? && f.createdAt.value != "" && clock.withinLastWeek(f.createdAt.value)
  }

  function RecentTest(clock: Clock): RawFeedback -> bool { f => IsRecent(f, clock) }

  /** The statistics computed from the five tables once they are read. */
  function StatsOf(events: seq<RawEvent>, speakers: seq<RawSpeaker>, feedbacks: seq<RawFeedback>,
                   tracks: seq<RawTrack>, relations: seq<RawEventTrack>, clock: Clock): DashboardStats
  {
    var unique := FirstOccurrences(events, EventId);
    var uniqueSpeakers := FirstOccurrences(speakers, SpeakerId);
    var trackMap := LastWins(tracks, TrackId, TrackName);
    var eventToTracks := GroupBy(relations, RelationEvent, RelationTrack);
    DashboardStats(
      |unique|,
      |uniqueSpeakers|,
      |feedbacks|,
      AverageRating(feedbacks),
      Count(unique, UpcomingTest(clock)),
      Count(unique, PastTest(clock)),
      CategoryCounts(tracks, unique, eventToTracks, trackMap),
      Count(feedbacks, RecentTest(clock)),
      Subscriptions(unique, clock))
  }

  /** `fetchDashboardData`: the statistics, or all zeros when any read throws. */
  function DashboardOf(pEvents: Payload<RawEvent>, pSpeakers: Payload<RawSpeaker>, pFeedbacks: Payload<RawFeedback>,
                       pTracks: Payload<RawTrack>, pRelations: Payload<RawEventTrack>, clock: Clock): DashboardStats
  {
    match (RowsOrEmpty(pEvents), RowsOrEmpty(pSpeakers), RowsOrEmpty(pFeedbacks), RowsOrEmpty(pTracks), RowsOrEmpty(pRelations))
    case (Some(events), Some(speakers), Some(feedbacks), Some(tracks), Some(relations)) =>
      StatsOf(events, speakers, feedbacks, tracks, relations, clock)
    case _ => ZeroStats
  }

  /**
   * What the dashboard shows after a load: totals of unique rows, no event
   * both upcoming and past, one subscription row per unique event with
   * distinct ids, and only positive category counts; all zeros on a failure.
   */
  lemma DashboardConsistent(pEvents: Payload<RawEvent>, pSpeakers: Payload<RawSpeaker>, pFeedbacks: Payload<RawFeedback>,
                            pTracks: Payload<RawTrack>, pRelations: Payload<RawEventTrack>, clock: Clock)
    ensures var st := DashboardOf(pEvents, pSpeakers, pFeedbacks, pTracks, pRelations, clock);
      st.upcomingEvents + st.pastEvents <= st.totalEvents
      && |st.eventSubscriptions| == st.totalEvents
      && DistinctIds(st.eventSubscriptions, SubscriptionId)
      && (forall n :: n in st.eventsByCategory ==> st.eventsByCategory[n] > 0)
    ensures (pEvents.Failed? || pSpeakers.Failed? || pFeedbacks.Failed? || pTracks.Failed? || pRelations.Failed?) ==>
      DashboardOf(pEvents, pSpeakers, pFeedbacks, pTracks, pRelations, clock) == ZeroStats
  {
    match (RowsOrEmpty(pEvents), RowsOrEmpty(pSpeakers), RowsOrEmpty(pFeedbacks), RowsOrEmpty(pTracks), RowsOrEmpty(pRelations))
    case (Some(events), Some(speakers), Some(feedbacks), Some(tracks), Some(relations)) =>
      var unique := FirstOccurrences(events, EventId);
      UpcomingPastPartition(unique, clock);
      SubscriptionsOnePerEvent(events, clock);
    case _ =>
  }

  /** The hook's load, with its map-filling loops. */
  method FetchDashboardData(pEvents: Payload<RawEvent>, pSpeakers: Payload<RawSpeaker>, pFeedbacks: Payload<RawFeedback>,
                            pTracks: Payload<RawTrack>, pRelations: Payload<RawEventTrack>, clock: Clock)
    returns (stats: DashboardStats)
    ensures stats == DashboardOf(pEvents, pSpeakers, pFeedbacks, pTracks, pRelations, clock)
  {
    var oEvents, oSpeakers, oFeedbacks, oTracks, oRelations :=
      RowsOrEmpty(pEvents), RowsOrEmpty(pSpeakers), RowsOrEmpty(pFeedbacks), RowsOrEmpty(pTracks), RowsOrEmpty(pRelations);
    if oEvents.None? || oSpeakers.None? || oFeedbacks.None? || oTracks.None? || oRelations.None? {
      return ZeroStats;
    }
    var events, feedbacks, tracks := oEvents.value, oFeedbacks.value, oTracks.value;
    var unique := UniqueById(events, EventId);
    var uniqueSpeakers := UniqueById(oSpeakers.value, SpeakerId);
    var trackMap := BuildLookup(tracks, TrackId, TrackName);
    var eventToTracks := GroupRows(oRelations.value, RelationEvent, RelationTrack);
    var byTrack := CountByTrack(tracks, unique, eventToTracks, trackMap);
    stats := DashboardStats(
      |unique|,
      |uniqueSpeakers|,
      |feedbacks|,
      AverageRating(feedbacks),
      Count(unique, UpcomingTest(clock)),
      Count(unique, PastTest(clock)),
      byTrack,
      Count(feedbacks, RecentTest(clock)),
      Subscriptions(unique, clock));
  }
}
