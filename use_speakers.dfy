/**
 * `useSpeakers`: `fetchSpeakers` accepts either the store's `{ data: [entries] }`
 * body or a bare array, lifts each entry's record, normalises every speaker by
 * its position, and drops later speakers whose id repeats an earlier one
 * (`findIndex`). An HTTP error or a failed read empties the list and sets the
 * error message.
 *
 * `Date.now()` is a parameter `now`, read once per speaker position.
 */
module UseSpeakers {
  import opened Wrappers
  import opened Strings
  import opened Seqs
  import opened TableOps
  import opened Types

  /** A speaker record as stored; absent or empty texts are `""`. */
  datatype SpeakerData = SpeakerData(id: Key, name: string, email: string, company: string)

  /** `{ entry_id, data }`, where `data` may be missing or null. */
  datatype Entry = Entry(entryId: string, data: Option<SpeakerData>)

  /** What `fetch` and `response.json()` deliver. */
  datatype Response =
    | HttpError(status: int, statusText: string)
    | Wrapped(entries: seq<Entry>)
    | BareArray(items: seq<SpeakerData>)
    | OtherShape
    | ReadFailed(message: string)

  /** A normalised speaker: `email` and `company` are `null` when empty. */
  datatype Listed = Listed(id: Key, name: string, email: Option<string>, company: Option<string>)

  datatype State = State(speakers: seq<Listed>, isLoading: bool, error: Option<string>)

  /** The mapper of the wrapped format; `null` for an entry without data. */
  function FromEntry(e: Entry): Option<SpeakerData> {
    match e.data
    case None => None
    case Some(d) => Some(d.(id := d.id.Or(Str(e.entryId)), name := OrText(d.name, "Unknown Speaker")))
  }

  /** `.filter(Boolean)` after the mapper: the non-null results, in order. */
  function Present(s: seq<Option<SpeakerData>>): (r: seq<SpeakerData>)
    ensures |r| <= |s|
  {
    if s == [] then []
    else Present(s[..|s| - 1]) + (if s[|s| - 1].Some? then [s[|s| - 1].value] else [])
  }

  function HasData(e: Entry): bool { e.data.Some? }

  /** The lifted record of an entry with data. */
  function Lift(e: Entry): SpeakerData
    requires e.data.Some?
  {
    var d := e.data.value;
    d.(id := d.id.Or(Str(e.entryId)), name := OrText(d.name, "Unknown Speaker"))
  }

  function LiftOrSame(e: Entry): SpeakerData {
    if e.data.Some? then Lift(e) else SpeakerData(Missing, "", "", "")
  }

  /**
   * Entries without data are dropped; every other entry keeps its data fields,
   * takes `entry_id` as its id when its own is falsy and 'Unknown Speaker' as its
   * name when empty.
   */
  lemma {:induction false} ExtractMeaning(entries: seq<Entry>)
    ensures Present(Map(entries, FromEntry)) == Map(Filter(entries, HasData), LiftOrSame)
  {
    if entries != [] {
      var init := entries[..|entries| - 1];
      var last := entries[|entries| - 1];
      ExtractMeaning(init);
      assert Map(entries, FromEntry)[..|entries| - 1] == Map(init, FromEntry);
      if HasData(last) {
        MapSnoc(Filter(init, HasData), last, LiftOrSame);
      }
    }
  }

  /** The speakers the response yields before normalisation; `None` when it throws. */
  function SpeakersArray(r: Response): Option<seq<SpeakerData>> {
    match r
    case HttpError(_, _) => None
    case ReadFailed(_) => None
    case Wrapped(entries) => Some(Present(Map(entries, FromEntry)))
    case BareArray(items) => Some(items)
    case OtherShape => Some([])
  }

  /** `error.message` of what the fetch threw. */
  function ErrorOf(r: Response): string {
    match r
    case HttpError(status, statusText) => "HTTP " + IntToString(status) + ": " + statusText
    case ReadFailed(message) => message
    case _ => ""
  }

  /** The normaliser of the speaker at `index`. */
  function Normalize(s: SpeakerData, index: nat, now: nat -> int): (l: Listed)
    ensures l.name != "" && l.id.Truthy()
    ensures s.name != "" ==> l.name == s.name
    ensures s.name == "" ==> l.name == "Speaker " + IntToString(index + 1)
    ensures s.id.Truthy() ==> l.id == s.id
    ensures !s.id.Truthy() ==> l.id == Str("speaker-" + IntToString(now(index)) + "-" + IntToString(index))
    ensures (l.email == None) == (s.email == "") && (l.company == None) == (s.company == "")
  {
    Listed(
      s.id.Or(Str("speaker-" + IntToString(now(index)) + "-" + IntToString(index))),
      OrText(s.name, "Speaker " + IntToString(index + 1)),
      if s.email == "" then None else Some(s.email),
      if s.company == "" then None else Some(s.company))
  }

  /** `speakersArray.map((speaker, index) => ...)`. */
  function NormalizeAll(items: seq<SpeakerData>, now: nat -> int): (l: seq<Listed>)
    ensures |l| == |items|
    ensures forall i :: 0 <= i < |items| ==> l[i] == Normalize(items[i], i, now)
  {
    MapIndexed(items, (s: SpeakerData, i: nat) => Normalize(s, i, now))
  }

  function ListedId(l: Listed): Key { l.id }

  /** `fetchSpeakers` from the state before it. */
  function FetchSpeakers(r: Response, now: nat -> int): State {
    match SpeakersArray(r)
    case None => State([], false, Some(ErrorOf(r)))
    case Some(items) => State(FindIndexDedup(NormalizeAll(items, now), ListedId), false, None)
  }

  /**
   * The listed speakers are the first speaker per id of the normalised list, in
   * order, with pairwise distinct ids, every id truthy and every name non-empty;
   * a failure lists nothing and reports the error, and an unexpected body lists
   * nothing without an error.
   */
  lemma FetchSpeakersMeaning(r: Response, now: nat -> int)
    ensures var st := FetchSpeakers(r, now);
      !st.isLoading
      && (r.HttpError? ==> st.speakers == [] && st.error == Some("HTTP " + IntToString(r.status) + ": " + r.statusText))
      && (r.ReadFailed? ==> st.speakers == [] && st.error == Some(r.message))
      && (r.OtherShape? ==> st.speakers == [] && st.error.None?)
      && (SpeakersArray(r).Some? ==>
            var all := NormalizeAll(SpeakersArray(r).value, now);
            st.error.None?
            && st.speakers == FirstOccurrences(all, ListedId)
            && DistinctIds(st.speakers, ListedId)
            && IsSubsequence(st.speakers, all)
            && (forall l :: l in st.speakers ==> l.id.Truthy() && l.name != ""))
  {
    if SpeakersArray(r).Some? {
      var all := NormalizeAll(SpeakersArray(r).value, now);
      FindIndexDedupIsFirstOccurrences(all, ListedId);
      FirstOccurrencesDistinct(all, ListedId);
      FirstOccurrencesSubsequence(all, ListedId);
      var u := FirstOccurrences(all, ListedId);
      forall l | l in u ensures l.id.Truthy() && l.name != "" {
        SubsequenceMembers(u, all, l);
      }
    }
  }

  /** A bare array is taken as it is; an unexpected body yields no speakers. */
  lemma SpeakersArrayShapes(r: Response)
    ensures r.BareArray? ==> SpeakersArray(r) == Some(r.items)
    ensures r.OtherShape? ==> SpeakersArray(r) == Some([])
    ensures r.Wrapped? ==> SpeakersArray(r) == Some(Map(Filter(r.entries, HasData), LiftOrSame))
    ensures r.HttpError? || r.ReadFailed? <==> SpeakersArray(r).None?
  {
    if r.Wrapped? {
      ExtractMeaning(r.entries);
    }
  }
}
