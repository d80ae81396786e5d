/**
 * `MultiSpeakerPicker`: a search field over the guest options with a dropdown.
 * The listed options are those with an id and a name, not yet selected, whose
 * lowercased name contains the lowercased, trimmed query. The component keeps
 * `query` and `showDropdown`; typing, tapping the field and choosing an option
 * move them.
 */
module MultiSpeakerPicker {
  import opened Wrappers
  import opened Strings
  import opened Seqs

  /** `{ id, name }`; an absent text is `""`. */
  datatype SpeakerOption = SpeakerOption(id: string, name: string)

  /** An element of `selected`: a name, or something that is not a string. */
  datatype Picked = Name(s: string) | NotText

  /** `query.toLowerCase().trim()`. */
  function Needle(query: string): string { Trim(Lower(query)) }

  function HasIdAndName(o: SpeakerOption): bool { o.id != "" && o.name != "" }

  function NotSelected(selected: seq<Picked>): SpeakerOption -> bool {
    (o: SpeakerOption) => Name(o.name) !in selected
  }

  function NameMatches(q: string): SpeakerOption -> bool {
    (o: SpeakerOption) => q == "" || Contains(Lower(o.name), q)
  }

  /** The `filtered` memo. */
  function Filtered(query: string, options: seq<SpeakerOption>, selected: seq<Picked>): seq<SpeakerOption> {
    Filter(Filter(Filter(options, HasIdAndName), NotSelected(selected)), NameMatches(Needle(query)))
  }

  /**
   * An option is listed exactly when it has an id and a name, its name is not
   * selected, and the trimmed query is empty or its lowercased name contains
   * the query; the listed options keep their order.
   */
  lemma FilteredMeaning(query: string, options: seq<SpeakerOption>, selected: seq<Picked>)
    ensures forall o :: o in Filtered(query, options, selected) <==>
      o in options && o.id != "" && o.name != "" && Name(o.name) !in selected
      && (Needle(query) == "" || Contains(Lower(o.name), Needle(query)))
    ensures IsSubsequence(Filtered(query, options, selected), options)
  {
    var a := Filter(options, HasIdAndName);
    var b := Filter(a, NotSelected(selected));
    var c := Filter(b, NameMatches(Needle(query)));
    FilterMembers(options, HasIdAndName);
    FilterMembers(a, NotSelected(selected));
    FilterMembers(b, NameMatches(Needle(query)));
    assert IsSubsequence(c, options) by {
      FilterIsSubsequence(options, HasIdAndName);
      FilterIsSubsequence(a, NotSelected(selected));
      FilterIsSubsequence(b, NameMatches(Needle(query)));
      SubsequenceTransitive(b, a, options);
      SubsequenceTransitive(c, b, options);
    }
  }

  /** A query of white space only lists every available option. */
  lemma BlankQueryListsAll(query: string, options: seq<SpeakerOption>, selected: seq<Picked>)
    requires forall i :: 0 <= i < |query| ==> IsJsSpace(query[i])
    ensures Filtered(query, options, selected) == Filter(Filter(options, HasIdAndName), NotSelected(selected))
  {
    LowerTrimBlank(query);
    FilterAll(Filter(Filter(options, HasIdAndName), NotSelected(selected)), NameMatches(Needle(query)));
  }

  function IsName(p: Picked): bool { p.Name? && p.s != "" }
  function NameOf(p: Picked): string { if p.Name? then p.s else "" }

  /** The tags: the non-empty string names of `selected`, in order. */
  function Tags(selected: seq<Picked>): seq<string> {
    Map(Filter(selected, IsName), NameOf)
  }

  lemma TagsMeaning(selected: seq<Picked>)
    ensures forall t :: t in Tags(selected) <==> t != "" && Name(t) in selected
    ensures |Tags(selected)| <= |selected|
  {
    var kept := Filter(selected, IsName);
    var tags := Tags(selected);
    forall t ensures t in tags <==> t != "" && Name(t) in selected {
      if t in tags {
        var i :| 0 <= i < |tags| && tags[i] == t;
        assert kept[i] in selected && IsName(kept[i]);
      }
      if t != "" && Name(t) in selected {
        assert IsName(Name(t));
        var i :| 0 <= i < |kept| && kept[i] == Name(t);
        assert tags[i] == t;
      }
    }
  }

  /** The component's two state fields. */
  class Picker {
    var query: string
    var showDropdown: bool

    constructor()
      ensures query == "" && !showDropdown
    {
      query := "";
      showDropdown := false;
    }

    /** The options the open dropdown lists. */
    function Listed(options: seq<SpeakerOption>, selected: seq<Picked>): seq<SpeakerOption>
      reads this
    {
      Filtered(query, options, selected)
    }

    /** `onChangeText`: the text becomes the query and the dropdown opens. */
    method TypeText(text: string)
      modifies this
      ensures query == text && showDropdown
    {
      query := text;
      showDropdown := true;
    }

    /** Pressing the field toggles the dropdown. */
    method TapField()
      modifies this
      ensures query == old(query) && showDropdown == !old(showDropdown)
    {
      showDropdown := !showDropdown;
    }

    /**
     * Pressing an option with a name passes the name to `onSelect` (returned
     * here), clears the query and closes the dropdown; one without a name does
     * nothing.
     */
    method Choose(item: SpeakerOption) returns (chosen: Option<string>)
      modifies this
      ensures item.name != "" ==> chosen == Some(item.name) && query == "" && !showDropdown
      ensures item.name == "" ==> chosen.None? && query == old(query) && showDropdown == old(showDropdown)
    {
      if item.name != "" {
        chosen := Some(item.name);
        query := "";
        showDropdown := false;
      } else {
        chosen := None;
      }
    }
  }

  /** Every listed option has a name, so choosing one always selects it. */
  lemma ListedHaveNames(query: string, options: seq<SpeakerOption>, selected: seq<Picked>)
    ensures forall o :: o in Filtered(query, options, selected) ==> o.name != "" && o.id != ""
  {
    FilteredMeaning(query, options, selected);
  }
}
