/**
 * `SpeakerPicker`: a search field over the speaker options with a dropdown.
 * A blank query lists every option; otherwise the options whose lowercased
 * name contains the lowercased, trimmed query. A selection from outside is
 * copied into the query.
 */
module SpeakerPicker {
  import opened Wrappers
  import opened Strings
  import opened Seqs

  datatype SpeakerOption = SpeakerOption(id: string, name: string)

  /** `query.toLowerCase().trim()`. */
  function Needle(query: string): string { Trim(Lower(query)) }

  function NameContains(q: string): SpeakerOption -> bool {
    (o: SpeakerOption) => Contains(Lower(o.name), q)
  }

  /** The `filtered` memo. */
  function Filtered(query: string, options: seq<SpeakerOption>): seq<SpeakerOption> {
    var q := Needle(query);
    if q == "" then options else Filter(options, NameContains(q))
  }

  /**
   * A blank query returns the options themselves; otherwise an option is listed
   * exactly when its lowercased name contains the query, in option order.
   */
  lemma FilteredMeaning(query: string, options: seq<SpeakerOption>)
    ensures Needle(query) == "" ==> Filtered(query, options) == options
    ensures Needle(query) != "" ==>
      forall o :: o in Filtered(query, options) <==> o in options && Contains(Lower(o.name), Needle(query))
    ensures IsSubsequence(Filtered(query, options), options)
  {
    if Needle(query) == "" {
      SubsequenceOfItself(options);
    } else {
      FilterIsSubsequence(options, NameContains(Needle(query)));
      var q := Needle(query);
      forall o | o in options && Contains(Lower(o.name), q) ensures o in Filtered(query, options) {
        assert NameContains(q)(o);
      }
    }
  }

  /** The query is blank exactly when it is white space only. */
  lemma NeedleBlank(query: string)
    ensures Needle(query) == "" <==> forall i :: 0 <= i < |query| ==> IsJsSpace(query[i])
  {
    LowerTrimBlank(query);
  }

  /** The component's two state fields. */
  class Picker {
    var query: string
    var showDropdown: bool

    constructor()
      ensures query == "" && !showDropdown
    {
      query := "";
      showDropdown := false;
    }

    function Listed(options: seq<SpeakerOption>): seq<SpeakerOption>
      reads this
    {
      Filtered(query, options)
    }

    /** The effect on `selected`: a non-null selection overwrites the query, `null` leaves it. */
    method SyncSelected(selected: Option<string>)
      modifies this
      ensures selected.Some? ==> query == selected.value
      ensures selected.None? ==> query == old(query)
      ensures showDropdown == old(showDropdown)
    {
      if selected.Some? {
        query := selected.value;
      }
    }

    /** `onChangeText`: the text becomes the query and the dropdown opens. */
    method TypeText(text: string)
      modifies this
      ensures query == text && showDropdown
    {
      query := text;
      showDropdown := true;
    }

    /** Pressing the field toggles the dropdown. */
    method TapField()
      modifies this
      ensures query == old(query) && showDropdown == !old(showDropdown)
    {
      showDropdown := !showDropdown;
    }

    /** Pressing an option passes its name to `onSelect` (returned here) and closes the dropdown; the query stays. */
    method Choose(item: SpeakerOption) returns (chosen: string)
      modifies this
      ensures chosen == item.name && query == old(query) && !showDropdown
    {
      chosen := item.name;
      showDropdown := false;
    }
  }
}
