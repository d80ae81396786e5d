/**
 * `useDashboardData`: the home screen's summary. Events and speakers are
 * de-duplicated through `Map`s, the first three events and the first four
 * speakers become cards with fixed placeholder fields, each speaker card counts
 * the distinct events of its relations, and the metrics are the two unique
 * totals beside fixed figures. A read that throws resets everything to zero.
 */
module UseDashboardData {
  import opened Wrappers
  import opened Strings
  import opened Seqs
  import opened TableOps
  import opened Types

  datatype RawEvent = RawEvent(id: int, name: string, date: string, category: string)
  datatype RawSpeaker = RawSpeaker(id: int, name: string)
  datatype RawEventSpeaker = RawEventSpeaker(eventId: int, speakerId: int)

  /** The record built for an upcoming-event card (it has no track or capacity fields). */
  datatype UpcomingEvent = UpcomingEvent(
    id: string,
    name: string,
    description: string,
    category: string,
    date: string,
    time: string,
    location: string,
    imageUrl: string,
    rating: real,
    ratingCount: nat)

  datatype Metrics = Metrics(
    totalEvents: nat,
    totalSpeakers: nat,
    totalFeedback: nat,
    averageRating: real,
    eventsTrend: int,
    speakersTrend: int,
    feedbackTrend: int,
    ratingTrend: int)

  datatype Dashboard = Dashboard(metrics: Metrics, upcomingEvents: seq<UpcomingEvent>, topSpeakers: seq<Speaker>)

  const ZeroMetrics := Metrics(0, 0, 0, 0.0, 0, 0, 0, 0)
  const CardImage := "https://images.pexels.com/photos/8386440/pexels-photo-8386440.jpeg?auto=compress&cs=tinysrgb&w=1260&h=750&dpr=1"
  const UpcomingCount := 3
  const TopSpeakerCount := 4

  function EventId(e: RawEvent): int { e.id }
  function SpeakerId(s: RawSpeaker): int { s.id }
  function RelationEvent(r: RawEventSpeaker): int { r.eventId }
  function RelationSpeaker(r: RawEventSpeaker): int { r.speakerId }
  function UpcomingId(e: UpcomingEvent): string { e.id }
  function ViewId(s: Speaker): string { s.id }

  /** One upcoming-event card: the event's id, name, category and date, placeholders elsewhere. */
  function ToUpcoming(e: RawEvent): (u: UpcomingEvent)
    ensures u.id == IntToString(e.id) && u.name == e.name
    ensures e.category == "" ==> u.category == "General"
    ensures e.category != "" ==> u.category == e.category
    ensures e.date == "" ==> u.date == "TBD"
    ensures e.date != "" ==> u.date == e.date
  {
    UpcomingEvent(IntToString(e.id), e.name, "Event description", OrText(e.category, "General"), OrText(e.date, "TBD"),
                  "10:00 AM - 12:00 PM", "Main Hall", CardImage, 4.5, 20)
  }

  /** `new Set(rels.filter(r => r.speaker_id === sid).map(r => r.event_id)).size`. */
  function EventCountOf(rels: seq<RawEventSpeaker>, sid: int): nat {
    |Ids(Filter(rels, KeyIs(RelationSpeaker, sid)), RelationEvent)|
  }

  /** The count never exceeds the speaker's relations. */
  lemma EventCountBound(rels: seq<RawEventSpeaker>, sid: int)
    ensures EventCountOf(rels, sid) <= Count(rels, KeyIs(RelationSpeaker, sid))
  {
    IdsSize(Filter(rels, KeyIs(RelationSpeaker, sid)), RelationEvent);
  }

  /** A repeated relation does not inflate the count, and a relation of another speaker does not change it. */
  lemma EventCountIgnoresRepeats(rels: seq<RawEventSpeaker>, r: RawEventSpeaker, sid: int)
    requires r in rels || r.speakerId != sid
    ensures EventCountOf(rels + [r], sid) == EventCountOf(rels, sid)
  {
    DistinctCountSnoc(rels, r, KeyIs(RelationSpeaker, sid), RelationEvent);
    if r.speakerId == sid {
      assert RelationSpeaker(r) == sid;
      DistinctCountHas(rels, r, KeyIs(RelationSpeaker, sid), RelationEvent);
    }
  }

  /** A relation with an event the speaker had no relation with adds one. */
  lemma EventCountNewEvent(rels: seq<RawEventSpeaker>, r: RawEventSpeaker)
    requires forall q :: q in rels && q.speakerId == r.speakerId ==> q.eventId != r.eventId
    ensures EventCountOf(rels + [r], r.speakerId) == EventCountOf(rels, r.speakerId) + 1
  {
    var p := KeyIs(RelationSpeaker, r.speakerId);
    DistinctCountSnoc(rels, r, p, RelationEvent);
    var kept := Filter(rels, p);
    assert RelationSpeaker(r) == r.speakerId;
    forall i | 0 <= i < |kept| ensures RelationEvent(kept[i]) != RelationEvent(r) {
      assert kept[i] in rels && p(kept[i]);
      assert RelationSpeaker(kept[i]) == kept[i].speakerId;
    }
  }

  /** One top-speaker card. */
  function ToTopSpeaker(rels: seq<RawEventSpeaker>): RawSpeaker -> Speaker {
    (s: RawSpeaker) => Speaker(IntToString(s.id), s.name, "Speaker", "Professional speaker", EventCountOf(rels, s.id), 4.5)
  }

  /** The summary, from the unique events and speakers and the relations. */
  function SummaryOf(uniqueEvents: seq<RawEvent>, uniqueSpeakers: seq<RawSpeaker>, rels: seq<RawEventSpeaker>): Dashboard {
    Dashboard(
      Metrics(|uniqueEvents|, |uniqueSpeakers|, 156, 4.7, 12, 8, 25, 3),
      Map(SliceTo(uniqueEvents, UpcomingCount), ToUpcoming),
      Map(SliceTo(uniqueSpeakers, TopSpeakerCount), ToTopSpeaker(rels)))
  }

  /** `loadDashboardData`: non-array reads count as empty, a read that throws resets the summary. */
  function DashboardOf(pEvents: Payload<RawEvent>, pSpeakers: Payload<RawSpeaker>, pRels: Payload<RawEventSpeaker>): Dashboard {
    match (RowsOrEmpty(pEvents), RowsOrEmpty(pSpeakers), RowsOrEmpty(pRels))
    case (Some(events), Some(speakers), Some(rels)) =>
      SummaryOf(FirstOccurrences(events, EventId), FirstOccurrences(speakers, SpeakerId), rels)
    case _ => Dashboard(ZeroMetrics, [], [])
  }

  /** A read that throws leaves zero metrics and no cards. */
  lemma DashboardFailure(pEvents: Payload<RawEvent>, pSpeakers: Payload<RawSpeaker>, pRels: Payload<RawEventSpeaker>)
    requires pEvents.Failed? || pSpeakers.Failed? || pRels.Failed?
    ensures DashboardOf(pEvents, pSpeakers, pRels) == Dashboard(ZeroMetrics, [], [])
  {
  }

  /** The totals are the unique counts and the other figures are fixed. */
  lemma MetricsMeaning(events: seq<RawEvent>, speakers: seq<RawSpeaker>, rels: seq<RawEventSpeaker>)
    ensures var ue := FirstOccurrences(events, EventId);
      var us := FirstOccurrences(speakers, SpeakerId);
      SummaryOf(ue, us, rels).metrics == Metrics(|ue|, |us|, 156, 4.7, 12, 8, 25, 3)
      && |ue| == |Ids(events, EventId)| && |us| == |Ids(speakers, SpeakerId)|
  {
    FirstOccurrencesCount(events, EventId);
    FirstOccurrencesCount(speakers, SpeakerId);
  }

  /** The upcoming events are the cards of the first three unique events in order, with distinct ids. */
  lemma UpcomingEventsMeaning(events: seq<RawEvent>)
    ensures var ue := FirstOccurrences(events, EventId);
      var cards := Map(SliceTo(ue, UpcomingCount), ToUpcoming);
      |cards| == (if |ue| < 3 then |ue| else 3)
      && (forall i :: 0 <= i < |cards| ==> cards[i] == ToUpcoming(ue[i]))
      && DistinctIds(cards, UpcomingId)
  {
    var ue := FirstOccurrences(events, EventId);
    var cards := Map(SliceTo(ue, UpcomingCount), ToUpcoming);
    FirstOccurrencesDistinct(events, EventId);
    forall a, b | 0 <= a < b < |cards| ensures UpcomingId(cards[a]) != UpcomingId(cards[b]) {
      IntToStringInjective(ue[a].id, ue[b].id);
    }
  }

  /**
   * The top speakers are the cards of the first four unique speakers in order,
   * with distinct ids, each counting its speaker's distinct events.
   */
  lemma TopSpeakersMeaning(speakers: seq<RawSpeaker>, rels: seq<RawEventSpeaker>)
    ensures var us := FirstOccurrences(speakers, SpeakerId);
      var cards := Map(SliceTo(us, TopSpeakerCount), ToTopSpeaker(rels));
      |cards| == (if |us| < 4 then |us| else 4)
      && (forall i :: 0 <= i < |cards| ==>
            cards[i].id == IntToString(us[i].id) && cards[i].name == us[i].name
            && cards[i].eventCount == EventCountOf(rels, us[i].id))
      && DistinctIds(cards, ViewId)
  {
    var us := FirstOccurrences(speakers, SpeakerId);
    var cards := Map(SliceTo(us, TopSpeakerCount), ToTopSpeaker(rels));
    FirstOccurrencesDistinct(speakers, SpeakerId);
    forall a, b | 0 <= a < b < |cards| ensures ViewId(cards[a]) != ViewId(cards[b]) {
      IntToStringInjective(us[a].id, us[b].id);
    }
  }

  /** The load, with its `Map`-filling loops. */
  method LoadDashboardData(pEvents: Payload<RawEvent>, pSpeakers: Payload<RawSpeaker>, pRels: Payload<RawEventSpeaker>)
    returns (d: Dashboard)
    ensures d == DashboardOf(pEvents, pSpeakers, pRels)
  {
    var events, speakers, rels := RowsOrEmpty(pEvents), RowsOrEmpty(pSpeakers), RowsOrEmpty(pRels);
    if events.None? || speakers.None? || rels.None? {
      return Dashboard(ZeroMetrics, [], []);
    }
    var uniqueEvents := UniqueById(events.value, EventId);
    var uniqueSpeakers := UniqueById(speakers.value, SpeakerId);
    d := SummaryOf(uniqueEvents, uniqueSpeakers, rels.value);
  }
}
