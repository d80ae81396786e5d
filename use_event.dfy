/**
 * `useEvent(id)`: `fetchEventDetails` finds the event whose decimal id is `id`,
 * collects the distinct speaker ids of its relations, joins them with the
 * speaker table through a `Map`, keeps the event's feedback and counts it; and
 * `deleteEvent` selects the relation rows of the event for deletion.
 */
module UseEvent {
  import opened Wrappers
  import opened Strings
  import opened Seqs
  import opened TableOps
  import opened Types

  datatype RawEvent = RawEvent(
    id: int,
    titulo: string,
    descripcion: string,
    tema: string,
    fecha: string,
    horaInicio: string,
    horaFin: string,
    lugar: string,
    imageUrl: string,
    suscritos: Option<int>,
    maxParticipantes: Option<int>)

  datatype RawEventSpeaker = RawEventSpeaker(eventId: int, speakerId: int)
  datatype RawSpeaker = RawSpeaker(id: int, name: string)
  datatype RawFeedback = RawFeedback(id: int, eventId: int, rating: int, comment: string, createdAt: Option<string>)

  /** The hook's state. */
  datatype State = State(event: Option<Event>, speakers: seq<Speaker>, feedback: seq<Feedback>, isLoading: bool)

  function IsEvent(id: string): RawEvent -> bool { (e: RawEvent) => IntToString(e.id) == id }
  function RelationOf(id: string): RawEventSpeaker -> bool { (r: RawEventSpeaker) => IntToString(r.eventId) == id }
  function RelationSpeaker(r: RawEventSpeaker): int { r.speakerId }
  function SpeakerRowId(s: RawSpeaker): int { s.id }
  function FeedbackOf(id: string): RawFeedback -> bool { (f: RawFeedback) => IntToString(f.eventId) == id }
  function FeedbackRating(f: RawFeedback): int { f.rating }
  function ViewId(s: Speaker): string { s.id }

  /** `Array.from(new Set(rels.filter(r => String(r.event_id) === id).map(r => r.speaker_id)))`. */
  function SpeakerIds(rels: seq<RawEventSpeaker>, id: string): seq<int> {
    FirstOccurrences(Map(Filter(rels, RelationOf(id)), RelationSpeaker), Same)
  }

  /** The speaker ids are distinct and are exactly the speakers of the event's relations. */
  lemma SpeakerIdsMeaning(rels: seq<RawEventSpeaker>, id: string)
    ensures DistinctIds(SpeakerIds(rels, id), Same)
    ensures forall sid :: sid in SpeakerIds(rels, id) ==>
      exists r :: r in rels && IntToString(r.eventId) == id && r.speakerId == sid
    ensures forall r :: r in rels && IntToString(r.eventId) == id ==> r.speakerId in SpeakerIds(rels, id)
  {
    DistinctProjection(rels, RelationOf(id), RelationSpeaker);
  }

  /** The table rows of the event's speakers: `rawSpeakers.filter(s => speakerIds.includes(s.id))`. */
  function InSpeakerIds(speakerIds: seq<int>): RawSpeaker -> bool { (s: RawSpeaker) => s.id in speakerIds }

  /** The view record set into `speakerMap`. */
  function ToSpeaker(s: RawSpeaker): Speaker {
    Speaker(IntToString(s.id), s.name, "", "", 0, 0.0)
  }

  /** `Array.from(speakerMap.values())` after setting every selected table row. */
  function SpeakersOf(table: seq<RawSpeaker>, speakerIds: seq<int>): (speakers: seq<Speaker>)
  {
    SetEach(Filter(table, InSpeakerIds(speakerIds)), SpeakerRowId, ToSpeaker).Values()
  }

  /** Each joined speaker carries the decimal form of its key, so their ids are distinct. */
  lemma SpeakerViewIds(table: seq<RawSpeaker>, speakerIds: seq<int>)
    ensures DistinctIds(SpeakersOf(table, speakerIds), ViewId)
  {
    var rows := Filter(table, InSpeakerIds(speakerIds));
    var m := SetEach(rows, SpeakerRowId, ToSpeaker);
    var speakers := m.Values();
    forall i | 0 <= i < |speakers| ensures speakers[i].id == IntToString(m.keys[i]) {
      SetEachValueAt(rows, SpeakerRowId, ToSpeaker, i);
    }
    forall a, b | 0 <= a < b < |speakers| ensures ViewId(speakers[a]) != ViewId(speakers[b]) {
      IntToStringInjective(m.keys[a], m.keys[b]);
    }
  }

  /** Each joined speaker is the record of a table row of one of the event's speakers. */
  lemma SpeakersFromTable(table: seq<RawSpeaker>, speakerIds: seq<int>)
    ensures |SpeakersOf(table, speakerIds)| <= |table|
    ensures forall sp :: sp in SpeakersOf(table, speakerIds) ==>
      exists s :: s in table && s.id in speakerIds && sp == ToSpeaker(s)
  {
    var rows := Filter(table, InSpeakerIds(speakerIds));
    assert |SpeakersOf(table, speakerIds)| == |FirstOccurrences(rows, SpeakerRowId)|;
    forall sp | sp in SpeakersOf(table, speakerIds) ensures exists s :: s in table && s.id in speakerIds && sp == ToSpeaker(s) {
      var i :| 0 <= i < |SpeakersOf(table, speakerIds)| && SpeakersOf(table, speakerIds)[i] == sp;
      var s := FilteredValueRow(table, InSpeakerIds(speakerIds), SpeakerRowId, ToSpeaker, i);
    }
  }

  /** Every table row of one of the event's speakers is represented by a joined speaker with its id. */
  lemma SpeakersCoverTable(table: seq<RawSpeaker>, speakerIds: seq<int>)
    ensures forall s :: s in table && s.id in speakerIds ==>
      exists sp :: sp in SpeakersOf(table, speakerIds) && sp.id == IntToString(s.id)
  {
    var rows := Filter(table, InSpeakerIds(speakerIds));
    var m := SetEach(rows, SpeakerRowId, ToSpeaker);
    var speakers := m.Values();
    SetEachCovers(rows, SpeakerRowId, ToSpeaker);
    forall s | s in table && s.id in speakerIds ensures exists sp :: sp in speakers && sp.id == IntToString(s.id) {
      var j :| 0 <= j < |table| && table[j] == s;
      assert s in rows;
      var i :| 0 <= i < |m.keys| && m.keys[i] == s.id;
      SetEachValueAt(rows, SpeakerRowId, ToSpeaker, i);
      assert speakers[i] in speakers;
    }
  }

  /** One feedback view record, carrying the event's title. */
  function ToFeedback(eventName: string): RawFeedback -> Feedback {
    (f: RawFeedback) => Feedback(IntToString(f.id), IntToString(f.eventId), eventName, f.rating, f.comment, f.createdAt.GetOr(""))
  }

  /** `fList.map(...)` with `fList = allFb.filter(f => String(f.event_id) === id)`. */
  function FeedbackFor(feedbacks: seq<RawFeedback>, ev: RawEvent, id: string): seq<Feedback> {
    Map(Filter(feedbacks, FeedbackOf(id)), ToFeedback(ev.titulo))
  }

  /**
   * The feedback is exactly the rows whose event id reads as `id`, in their
   * order; each carries `id` as its event id, the event's title as its event
   * name, its own rating, and the creation date or the empty text.
   */
  lemma FeedbackForMeaning(feedbacks: seq<RawFeedback>, ev: RawEvent, id: string)
    ensures |FeedbackFor(feedbacks, ev, id)| == Count(feedbacks, FeedbackOf(id))
    ensures forall fb :: fb in FeedbackFor(feedbacks, ev, id) ==> fb.eventId == id && fb.eventName == ev.titulo
    ensures forall f :: f in feedbacks && IntToString(f.eventId) == id ==> ToFeedback(ev.titulo)(f) in FeedbackFor(feedbacks, ev, id)
    ensures forall fb :: fb in FeedbackFor(feedbacks, ev, id) ==>
      exists f :: f in feedbacks && fb == ToFeedback(ev.titulo)(f) && fb.date == f.createdAt.GetOr("")
  {
    var r := FeedbackFor(feedbacks, ev, id);
    forall fb | fb in r ensures fb.eventId == id && fb.eventName == ev.titulo
      && exists f :: f in feedbacks && fb == ToFeedback(ev.titulo)(f) && fb.date == f.createdAt.GetOr("")
    {
      var f := MapFilterSource(feedbacks, FeedbackOf(id), ToFeedback(ev.titulo), fb);
    }
    forall f | f in feedbacks && IntToString(f.eventId) == id ensures ToFeedback(ev.titulo)(f) in r {
      MapFilterHas(feedbacks, FeedbackOf(id), ToFeedback(ev.titulo), f);
    }
  }


  /** The event view record: the raw date, no tracks, the feedback mean and count. */
  function ToEvent(ev: RawEvent, fList: seq<RawFeedback>): Event {
    Event(
      IntToString(ev.id),
      ev.titulo,
      ev.descripcion,
      ev.tema,
      ev.fecha,
      ev.horaInicio + " - " + ev.horaFin,
      ev.lugar,
      ev.imageUrl,
      Mean(fList, FeedbackRating),
      |fList|,
      [],
      OrZero(ev.suscritos),
      OrZero(ev.maxParticipantes))
  }

  /**
   * `fetchEventDetails`, stage by stage. An empty id changes nothing; a read
   * that throws ends loading and keeps what the earlier stages set; a missing
   * event clears the event.
   */
  function Details(s: State, id: string, pEvents: Payload<RawEvent>, pRels: Payload<RawEventSpeaker>,
                   pSpeakers: Payload<RawSpeaker>, pFeedbacks: Payload<RawFeedback>): State
  {
    if id == "" then s
    else
      match RowsOrThrow(pEvents)
      case None => s.(isLoading := false)
      case Some(events) =>
        match Find(events, IsEvent(id))
        case None => s.(event := None, isLoading := false)
        case Some(ev) =>
          match (RowsOrThrow(pRels), RowsOrThrow(pSpeakers))
          case (Some(rels), Some(table)) =>
            var s1 := s.(speakers := SpeakersOf(table, SpeakerIds(rels, id)));
            (match RowsOrThrow(pFeedbacks)
             case None => s1.(isLoading := false)
             case Some(feedbacks) =>
               var fList := Filter(feedbacks, FeedbackOf(id));
               s1.(feedback := FeedbackFor(feedbacks, ev, id), event := Some(ToEvent(ev, fList)), isLoading := false))
          case _ => s.(isLoading := false)
  }

  /** An empty id performs no lookup and changes nothing; any other id ends loading. */
  lemma DetailsLoading(s: State, id: string, pEvents: Payload<RawEvent>, pRels: Payload<RawEventSpeaker>,
                       pSpeakers: Payload<RawSpeaker>, pFeedbacks: Payload<RawFeedback>)
    ensures id == "" ==> Details(s, id, pEvents, pRels, pSpeakers, pFeedbacks) == s
    ensures id != "" ==> !Details(s, id, pEvents, pRels, pSpeakers, pFeedbacks).isLoading
  {
  }

  /** When no raw event has the decimal id `id`, the event is cleared and nothing else is set. */
  lemma DetailsNotFound(s: State, id: string, pEvents: Payload<RawEvent>, pRels: Payload<RawEventSpeaker>,
                        pSpeakers: Payload<RawSpeaker>, pFeedbacks: Payload<RawFeedback>)
    requires id != "" && pEvents.Rows?
    requires forall i :: 0 <= i < |pEvents.rows| ==> IntToString(pEvents.rows[i].data.id) != id
    ensures Details(s, id, pEvents, pRels, pSpeakers, pFeedbacks) == s.(event := None, isLoading := false)
  {
    var events := DataOf(pEvents.rows);
    assert forall i :: 0 <= i < |events| ==> !IsEvent(id)(events[i]);
  }

  /**
   * When every read succeeds and the `i`-th raw event is the first whose decimal
   * id is `id`, the event is that one's record with its feedback, and the
   * speakers and feedback are those of the event.
   */
  lemma DetailsFound(s: State, id: string, pEvents: Payload<RawEvent>, pRels: Payload<RawEventSpeaker>,
                     pSpeakers: Payload<RawSpeaker>, pFeedbacks: Payload<RawFeedback>, i: nat)
    requires id != "" && pEvents.Rows? && pRels.Rows? && pSpeakers.Rows? && pFeedbacks.Rows?
    requires i < |pEvents.rows| && IntToString(pEvents.rows[i].data.id) == id
    requires forall j :: 0 <= j < i ==> IntToString(pEvents.rows[j].data.id) != id
    ensures var r := Details(s, id, pEvents, pRels, pSpeakers, pFeedbacks);
      var ev := pEvents.rows[i].data;
      var feedbacks := DataOf(pFeedbacks.rows);
      r.event == Some(ToEvent(ev, Filter(feedbacks, FeedbackOf(id))))
      && r.feedback == FeedbackFor(feedbacks, ev, id)
      && r.speakers == SpeakersOf(DataOf(pSpeakers.rows), SpeakerIds(DataOf(pRels.rows), id))
      && !r.isLoading
  {
    var events := DataOf(pEvents.rows);
    FindFirst(events, IsEvent(id), i);
  }

  /**
   * The event record carries the decimal id and the title; its count is the
   * number of feedback rows chosen for it, and its rating is their mean, 0
   * without feedback.
   */
  lemma ToEventMeaning(ev: RawEvent, feedbacks: seq<RawFeedback>, id: string)
    ensures var e := ToEvent(ev, Filter(feedbacks, FeedbackOf(id)));
      e.ratingCount == Count(feedbacks, FeedbackOf(id))
      && e.ratingCount == |FeedbackFor(feedbacks, ev, id)|
      && (e.ratingCount == 0 ==> e.rating == 0.0)
      && e.id == IntToString(ev.id) && e.name == ev.titulo && e.date == ev.fecha && e.tracks == []
  {
  }

  /** The loop that fetches the details, with the speaker `Map` filled by its `forEach`. */
  method FetchEventDetails(s: State, id: string, pEvents: Payload<RawEvent>, pRels: Payload<RawEventSpeaker>,
                           pSpeakers: Payload<RawSpeaker>, pFeedbacks: Payload<RawFeedback>)
    returns (r: State)
    ensures r == Details(s, id, pEvents, pRels, pSpeakers, pFeedbacks)
  {
    if id == "" {
      return s;
    }
    var events := RowsOrThrow(pEvents);
    if events.None? {
      return s.(isLoading := false);
    }
    var found := Find(events.value, IsEvent(id));
    if found.None? {
      return s.(event := None, isLoading := false);
    }
    var rels, table := RowsOrThrow(pRels), RowsOrThrow(pSpeakers);
    if rels.None? || table.None? {
      return s.(isLoading := false);
    }
    var speakerMap := FillMap(Filter(table.value, InSpeakerIds(SpeakerIds(rels.value, id))), SpeakerRowId, ToSpeaker);
    r := s.(speakers := speakerMap.Values());
    var feedbacks := RowsOrThrow(pFeedbacks);
    if feedbacks.None? {
      return r.(isLoading := false);
    }
    var fList := Filter(feedbacks.value, FeedbackOf(id));
    r := r.(feedback := FeedbackFor(feedbacks.value, found.value, id), event := Some(ToEvent(found.value, fList)), isLoading := false);
  }

  // ---------------------------------------------------------------------
  // deleteEvent
  // ---------------------------------------------------------------------

  function RowOf(id: string): RawRow<RawEventSpeaker> -> bool {
    (r: RawRow<RawEventSpeaker>) => IntToString(r.data.eventId) == id
  }

  function EntryIdOf(r: RawRow<RawEventSpeaker>): string { r.entryId }

  /**
   * `deleteEvent`: the entry ids of the relation rows of the event, deleted one
   * after the other, then the result of deleting the event itself; a relation
   * read that is not an array of rows throws and the result is `false`.
   */
  method DeleteEvent(pRels: Payload<RawEventSpeaker>, id: string, eventDeleteOk: bool)
    returns (deleted: seq<string>, ok: bool)
    ensures pRels.Rows? ==> deleted == Map(Filter(pRels.rows, RowOf(id)), EntryIdOf) && ok == eventDeleteOk
    ensures !pRels.Rows? ==> deleted == [] && !ok
  {
    if !pRels.Rows? {
      return [], false;
    }
    deleted := SelectEach(pRels.rows, RowOf(id), EntryIdOf);
    ok := eventDeleteOk;
  }

  /** The rows selected for deletion are exactly the relation rows of the event, in order. */
  lemma DeleteSelectionMeaning(rows: seq<RawRow<RawEventSpeaker>>, id: string)
    ensures IsSubsequence(Filter(rows, RowOf(id)), rows)
    ensures forall r :: r in Filter(rows, RowOf(id)) <==> r in rows && IntToString(r.data.eventId) == id
  {
    FilterIsSubsequence(rows, RowOf(id));
  }
}
