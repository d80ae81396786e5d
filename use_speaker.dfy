/**
 * `useSpeaker(id)`: `fetchSpeaker` reads the whole speaker store, takes the
 * first entry with data whose `String(data.id || entry_id)` is the requested
 * id, and fills in defaults for the detail fields. No id skips the read; an
 * HTTP error, a read that throws or a missing speaker clears the speaker and
 * reports a message.
 */
module UseSpeaker {
  import opened Wrappers
  import opened Strings
  import opened TableOps
  import opened Types

  /**
   * A stored speaker record. Absent or empty texts are `""` and an absent or
   * zero rating is `0.0`; `expertise` and `social` may be absent.
   */
  datatype SpeakerData = SpeakerData(
    id: Key,
    name: string,
    email: string,
    company: string,
    phone: string,
    bio: string,
    role: string,
    expertise: Option<seq<string>>,
    social: Option<map<string, string>>,
    rating: real,
    imageUrl: string)

  datatype Entry = Entry(entryId: string, data: Option<SpeakerData>)

  /** What `fetch` and `response.json()` deliver; `NotWrapped` is any body without a `data` array. */
  datatype Response = HttpError(status: int) | Wrapped(entries: seq<Entry>) | NotWrapped | ReadFailed(message: string)

  /** The normalised speaker: optional texts are `null` when empty, defaults elsewhere. */
  datatype Detail = Detail(
    id: Key,
    name: string,
    email: Option<string>,
    company: Option<string>,
    phone: Option<string>,
    bio: string,
    role: string,
    expertise: seq<string>,
    social: map<string, string>,
    rating: real,
    imageUrl: Option<string>)

  datatype State = State(
    speaker: Option<Detail>,
    speakerEntryId: Option<string>,
    events: seq<Event>,
    isLoading: bool,
    error: Option<string>)

  /** `x || null` for a text field. */
  function OrNull(s: string): (r: Option<string>)
    ensures r.None? <==> s == ""
    ensures r.Some? ==> r.value == s
  {
    if s == "" then None else Some(s)
  }

  /** The id an entry is known by: `entry.data.id || entry.entry_id`. */
  function EntryKey(e: Entry): Key
    requires e.data.Some?
  {
    e.data.value.id.Or(Str(e.entryId))
  }

  /** The `find` test: the entry has data and its id, as a string, is `id`. */
  function MatchesId(id: string): Entry -> bool {
    (e: Entry) => e.data.Some? && EntryKey(e).Text() == id
  }

  /** The normalisation of the found entry. */
  function Normalize(e: Entry): (d: Detail)
    requires e.data.Some?
    ensures var s := e.data.value;
      d.id == s.id.Or(Str(e.entryId))
      && d.name == (if s.name == "" then "Unknown Speaker" else s.name)
      && d.bio == (if s.bio == "" then "No bio available" else s.bio)
      && d.role == (if s.role == "" then "Speaker" else s.role)
      && d.expertise == s.expertise.GetOr([])
      && d.social == s.social.GetOr(map[])
      && d.rating == (if s.rating == 0.0 then 4.5 else s.rating)
      && d.email == OrNull(s.email) && d.company == OrNull(s.company)
      && d.phone == OrNull(s.phone) && d.imageUrl == OrNull(s.imageUrl)
    ensures d.name != "" && d.bio != "" && d.role != "" && d.rating != 0.0
  {
    var s := e.data.value;
    Detail(
      EntryKey(e),
      OrText(s.name, "Unknown Speaker"),
      OrNull(s.email),
      OrNull(s.company),
      OrNull(s.phone),
      OrText(s.bio, "No bio available"),
      OrText(s.role, "Speaker"),
      s.expertise.GetOr([]),
      s.social.GetOr(map[]),
      if s.rating == 0.0 then 4.5 else s.rating,
      OrNull(s.imageUrl))
  }

  /** The state after an error is caught. */
  function Failure(message: string): State {
    State(None, None, [], false, Some(message))
  }

  /** `fetchSpeaker` from the state `prev` before it. */
  function FetchSpeaker(id: Option<string>, r: Response, prev: State): State {
    if id.None? || id.value == "" then prev.(isLoading := false)
    else
      var notFound := "Speaker with ID \"" + id.value + "\" not found";
      match r
      case HttpError(status) => Failure("HTTP " + IntToString(status) + ": Failed to load speaker")
      case ReadFailed(message) => Failure(message)
      case NotWrapped => Failure(notFound)
      case Wrapped(entries) =>
        match Find(entries, MatchesId(id.value))
        case None => Failure(notFound)
        case Some(e) => State(Some(Normalize(e)), Some(e.entryId), [], false, None)
  }

  /** Without an id nothing is read and only loading ends. */
  lemma FetchSpeakerNoId(id: Option<string>, r: Response, prev: State)
    requires id.None? || id == Some("")
    ensures FetchSpeaker(id, r, prev) == prev.(isLoading := false)
  {
  }

  /**
   * With an id, the speaker shown is the normalisation of the first entry with
   * data whose id text is `id`, together with that entry's `entry_id` and no
   * events; without such an entry the error names the id and nothing is shown.
   */
  lemma FetchSpeakerFound(id: string, entries: seq<Entry>, prev: State, i: nat)
    requires id != "" && i < |entries|
    requires entries[i].data.Some? && EntryKey(entries[i]).Text() == id
    requires forall j :: 0 <= j < i ==> entries[j].data.None? || EntryKey(entries[j]).Text() != id
    ensures FetchSpeaker(Some(id), Wrapped(entries), prev)
      == State(Some(Normalize(entries[i])), Some(entries[i].entryId), [], false, None)
  {
    var p := MatchesId(id);
    forall j | 0 <= j < i ensures !p(entries[j]) {
    }
    FindFirst(entries, p, i);
  }

  lemma FetchSpeakerNotFound(id: string, entries: seq<Entry>, prev: State)
    requires id != ""
    requires forall j :: 0 <= j < |entries| ==> entries[j].data.None? || EntryKey(entries[j]).Text() != id
    ensures FetchSpeaker(Some(id), Wrapped(entries), prev)
      == State(None, None, [], false, Some("Speaker with ID \"" + id + "\" not found"))
  {
    var p := MatchesId(id);
    forall j | 0 <= j < |entries| ensures !p(entries[j]) {
    }
  }

  /** Every failed read clears the speaker, its entry id and the events, and reports a message. */
  lemma FetchSpeakerErrors(id: string, r: Response, prev: State)
    requires id != "" && !r.Wrapped?
    ensures var st := FetchSpeaker(Some(id), r, prev);
      st.speaker.None? && st.speakerEntryId.None? && st.events == [] && !st.isLoading
      && st.error == Some(match r
                          case HttpError(status) => "HTTP " + IntToString(status) + ": Failed to load speaker"
                          case ReadFailed(message) => message
                          case _ => "Speaker with ID \"" + id + "\" not found")
  {
  }

  /** After a read with an id, a speaker is shown exactly when there is no error, and events stay empty. */
  lemma FetchSpeakerOutcome(id: string, r: Response, prev: State)
    requires id != ""
    ensures var st := FetchSpeaker(Some(id), r, prev);
      (st.speaker.Some? <==> st.error.None?) && (st.speaker.Some? <==> st.speakerEntryId.Some?)
      && st.events == [] && !st.isLoading
  {
  }
}
