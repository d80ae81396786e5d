/**
 * The record shapes shared by the hooks: the stored row wrapper of the remote
 * table store, what a table read can hand back, and the view records of
 * `types/index.ts` (Event, Speaker, Feedback).
 */
module Types {
  import opened Wrappers
  import opened Strings

  /** `{ entry_id, data }`: one stored row. */
  datatype RawRow<T> = RawRow(entryId: string, data: T)

  /**
   * The outcome of `fetch(...)` and `res.json()` for one table: a body whose
   * `data` field is an array of rows, a body whose `data` is missing or not an
   * array, or a request or body read that threw.
   */
  datatype Payload<T> = Rows(rows: seq<RawRow<T>>) | NotArray | Failed

  /** `rows.map(r => r.data)`. */
  function DataOf<T>(rows: seq<RawRow<T>>): (ds: seq<T>)
    ensures |ds| == |rows|
    ensures forall i :: 0 <= i < |rows| ==> ds[i] == rows[i].data
  {
    if rows == [] then [] else DataOf(rows[..|rows| - 1]) + [rows[|rows| - 1].data]
  }

  /** `Array.isArray(json?.data) ? json.data : []`; `None` when the read threw. */
  function RowsOrEmpty<T>(p: Payload<T>): (r: Option<seq<T>>)
    ensures p.Failed? <==> r.None?
    ensures p.NotArray? ==> r == Some([])
    ensures p.Rows? ==> r == Some(DataOf(p.rows))
  {
    match p
    case Rows(rows) => Some(DataOf(rows))
    case NotArray => Some([])
    case Failed => None
  }

  /**
   * `const { data } = await res.json()` followed by array methods on `data`:
   * anything but an array of rows throws.
   */
  function RowsOrThrow<T>(p: Payload<T>): (r: Option<seq<T>>)
    ensures p.Rows? <==> r.Some?
    ensures p.Rows? ==> r == Some(DataOf(p.rows))
  {
    match p
    case Rows(rows) => Some(DataOf(rows))
    case _ => None
  }

  /** `n || 0` for a numeric field that may be absent. */
  function OrZero(n: Option<int>): (v: int)
    ensures n.None? ==> v == 0
    ensures n.Some? ==> v == n.value
  {
    n.GetOr(0)
  }

  /** `s || fallback` for a text field: the empty string is falsy. */
  function OrText(s: string, fallback: string): (r: string)
    ensures s != "" ==> r == s
    ensures s == "" ==> r == fallback
  {
    if s == "" then fallback else s
  }

  /**
   * A loosely typed id field of a stored record: absent, a number or a text.
   * Equality is JavaScript's strict `===` (the number 1 and the text "1" differ).
   */
  datatype Key = Missing | Num(n: int) | Str(s: string)
  {
    /** `!!id`: absent, 0 and the empty text are falsy. */
    predicate Truthy() {
      match this
      case Missing => false
      case Num(n) => n != 0
      case Str(s) => s != ""
    }

    /** `String(id)`. */
    function Text(): (t: string)
      ensures Num? ==> t == IntToString(n)
      ensures Str? ==> t == s
    {
      match this
      case Missing => "undefined"
      case Num(n) => IntToString(n)
      case Str(s) => s
    }

    /** `id || fallback`. */
    function Or(fallback: Key): (k: Key)
      ensures Truthy() ==> k == this
      ensures !Truthy() ==> k == fallback
    {
      if Truthy() then this else fallback
    }
  }

  /** The `Event` view record. */
  datatype Event = Event(
    id: string,
    name: string,
    description: string,
    category: string,
    date: string,
    time: string,
    location: string,
    imageUrl: string,
    rating: real,
    ratingCount: nat,
    tracks: seq<string>,
    currentCapacity: int,
    maxCapacity: int)

  /** The `Speaker` view record. */
  datatype Speaker = Speaker(id: string, name: string, role: string, bio: string, eventCount: nat, rating: real)

  /** The `Feedback` view record. */
  datatype Feedback = Feedback(id: string, eventId: string, eventName: string, rating: int, comment: string, date: string)
}
