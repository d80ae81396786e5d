/**
 * `useTracks` lists every track as `{ id: String(id), name: nombre }`;
 * `useEventTracks(eventId)` lists the tracks whose id one of the event's
 * relations assigns. A read that throws keeps the list as it was.
 */
module UseTracks {
  import opened Wrappers
  import opened Strings
  import opened Seqs
  import opened Types

  datatype RawTrack = RawTrack(id: int, nombre: string)
  datatype RawEventTrack = RawEventTrack(eventId: int, trackId: int)

  datatype Track = Track(id: string, name: string)

  datatype State = State(tracks: seq<Track>, isLoading: bool)

  function ToTrack(t: RawTrack): Track { Track(IntToString(t.id), t.nombre) }

  /** `fetchTracks` from `prev`. */
  function AllTracks(pTracks: Payload<RawTrack>, prev: State): State {
    match RowsOrThrow(pTracks)
    case None => prev.(isLoading := false)
    case Some(rows) => State(Map(rows, ToTrack), false)
  }

  /** One track per row, in row order, with the row's id as text and its name. */
  lemma AllTracksMeaning(pTracks: Payload<RawTrack>, prev: State)
    ensures var st := AllTracks(pTracks, prev);
      !st.isLoading
      && (!pTracks.Rows? ==> st.tracks == prev.tracks)
      && (pTracks.Rows? ==>
            var rows := DataOf(pTracks.rows);
            |st.tracks| == |rows|
            && forall i :: 0 <= i < |rows| ==> st.tracks[i].id == IntToString(rows[i].id) && st.tracks[i].name == rows[i].nombre)
  {
  }

  function ForEvent(eventId: string): RawEventTrack -> bool {
    (r: RawEventTrack) => IntToString(r.eventId) == eventId
  }

  function TrackOf(r: RawEventTrack): int { r.trackId }

  /** `assigned`: the track ids of the event's relations, in relation order. */
  function Assigned(rels: seq<RawEventTrack>, eventId: string): seq<int> {
    Map(Filter(rels, ForEvent(eventId)), TrackOf)
  }

  function IsAssigned(assignedIds: seq<int>): RawTrack -> bool {
    (t: RawTrack) => t.id in assignedIds
  }

  /** The tracks of the event from the track table. */
  function JoinTracks(tracks: seq<RawTrack>, assignedIds: seq<int>): seq<Track> {
    Map(Filter(tracks, IsAssigned(assignedIds)), ToTrack)
  }

  /**
   * `fetchEventTracks` from `prev`: an empty id does nothing at all; with no
   * assigned track the list empties without reading the track table.
   */
  function EventTracks(eventId: string, pRels: Payload<RawEventTrack>, pTracks: Payload<RawTrack>, prev: State): State {
    if eventId == "" then prev
    else
      match RowsOrThrow(pRels)
      case None => prev.(isLoading := false)
      case Some(rels) =>
        var assignedIds := Assigned(rels, eventId);
        if |assignedIds| == 0 then State([], false)
        else
          match RowsOrThrow(pTracks)
          case None => prev.(isLoading := false)
          case Some(tracks) => State(JoinTracks(tracks, assignedIds), false)
  }

  /** An empty id leaves the state, loading flag included, as it was. */
  lemma EventTracksNoId(pRels: Payload<RawEventTrack>, pTracks: Payload<RawTrack>, prev: State)
    ensures EventTracks("", pRels, pTracks, prev) == prev
  {
  }

  /** The assigned ids are the track ids of exactly the relations with this event id, in order, repeats kept. */
  lemma AssignedMeaning(rels: seq<RawEventTrack>, eventId: string)
    ensures |Assigned(rels, eventId)| == Count(rels, ForEvent(eventId))
    ensures forall n :: n in Assigned(rels, eventId) <==> exists r :: r in rels && IntToString(r.eventId) == eventId && r.trackId == n
  {
    var kept := Filter(rels, ForEvent(eventId));
    var a := Assigned(rels, eventId);
    forall n ensures n in a <==> exists r :: r in rels && IntToString(r.eventId) == eventId && r.trackId == n {
      if n in a {
        var i :| 0 <= i < |a| && a[i] == n;
        assert kept[i] in rels && ForEvent(eventId)(kept[i]);
      }
      if exists r :: r in rels && IntToString(r.eventId) == eventId && r.trackId == n {
        var r :| r in rels && IntToString(r.eventId) == eventId && r.trackId == n;
        assert ForEvent(eventId)(r);
        var i :| 0 <= i < |kept| && kept[i] == r;
        assert a[i] == n;
      }
    }
  }

  /** Without an assigned track the result is empty whatever the track table holds. */
  lemma EventTracksNoneAssigned(eventId: string, rels: seq<RawRow<RawEventTrack>>, pTracks: Payload<RawTrack>,
                                pTracks': Payload<RawTrack>, prev: State)
    requires eventId != "" && Assigned(DataOf(rels), eventId) == []
    ensures EventTracks(eventId, Rows(rels), pTracks, prev) == State([], false)
    ensures EventTracks(eventId, Rows(rels), pTracks, prev) == EventTracks(eventId, Rows(rels), pTracks', prev)
  {
  }

  /**
   * The event's tracks are the track rows whose id is assigned, in table order
   * with table repeats kept, each as its view.
   */
  lemma JoinTracksMeaning(tracks: seq<RawTrack>, assignedIds: seq<int>)
    ensures var r := JoinTracks(tracks, assignedIds);
      |r| == Count(tracks, IsAssigned(assignedIds))
      && (forall t :: t in tracks && t.id in assignedIds ==> ToTrack(t) in r)
      && (forall v :: v in r ==> exists t :: t in tracks && t.id in assignedIds && v == ToTrack(t))
      && IsSubsequence(Filter(tracks, IsAssigned(assignedIds)), tracks)
  {
    var kept := Filter(tracks, IsAssigned(assignedIds));
    var r := JoinTracks(tracks, assignedIds);
    FilterIsSubsequence(tracks, IsAssigned(assignedIds));
    forall t | t in tracks && t.id in assignedIds ensures ToTrack(t) in r {
      assert IsAssigned(assignedIds)(t);
      var i :| 0 <= i < |kept| && kept[i] == t;
      assert r[i] == ToTrack(t);
    }
    forall v | v in r ensures exists t :: t in tracks && t.id in assignedIds && v == ToTrack(t) {
      var i :| 0 <= i < |r| && r[i] == v;
      assert kept[i] in tracks && IsAssigned(assignedIds)(kept[i]);
    }
  }

  /** A failed read keeps the listed tracks. */
  lemma EventTracksFailure(eventId: string, pRels: Payload<RawEventTrack>, pTracks: Payload<RawTrack>, prev: State)
    requires eventId != "" && !pRels.Rows?
    ensures EventTracks(eventId, pRels, pTracks, prev) == prev.(isLoading := false)
  {
  }
}
