/**
 * `TimePickerField`: a picked time is written as `HH:MM`; a stored value is read
 * back by splitting on `:` and converting each part with `Number` (NaN and a
 * missing part become 0); the display keeps a value without both parts as it is.
 * The component keeps `showPicker`.
 */
module TimePickerField {
  import opened Wrappers
  import opened Strings
  import opened JsNumber

  /** What a `Date` answers to `getHours()` and `getMinutes()`. */
  datatype ClockTime = ClockTime(hours: nat, minutes: nat)

  /**
   * `${String(h).padStart(2, '0')}:${String(m).padStart(2, '0')}`: for hours
   * and minutes below 100 it has the `H:MM` pattern with two hour digits.
   */
  function FormatTime(t: ClockTime): (s: string)
    ensures t.hours < 100 && t.minutes < 100 ==> |s| == 5 && MatchesTimePattern(s) && ShowsHint(s)
  {
    if t.hours < 100 && t.minutes < 100 then
      TwoDigitsOf(t.hours);
      TwoDigitsOf(t.minutes);
      TimeShape(TwoDigits(t.hours), TwoDigits(t.minutes));
      TwoDigits(t.hours) + ":" + TwoDigits(t.minutes)
    else
      TwoDigits(t.hours) + ":" + TwoDigits(t.minutes)
  }

  /** Two digits, a colon and two digits have the pattern. */
  lemma TimeShape(hh: string, mm: string)
    requires |hh| == 2 && |mm| == 2 && AllDigits(hh) && AllDigits(mm)
    ensures var s := hh + ":" + mm; |s| == 5 && MatchesTimePattern(s) && ShowsHint(s)
  {
    var s := hh + ":" + mm;
    assert s[0] == hh[0] && s[1] == hh[1] && s[2] == ':' && s[3] == mm[0] && s[4] == mm[1];
  }

  /** `/^\d{1,2}:\d{2}$/.test(s)`. */
  predicate MatchesTimePattern(s: string) {
    (|s| == 4 && IsDigit(s[0]) && s[1] == ':' && IsDigit(s[2]) && IsDigit(s[3]))
    || (|s| == 5 && IsDigit(s[0]) && IsDigit(s[1]) && s[2] == ':' && IsDigit(s[3]) && IsDigit(s[4]))
  }

  /** `parts[k]` of a split, with `""` for a missing part (both are falsy). */
  function Part(parts: seq<string>, k: nat): string {
    if k < |parts| then parts[k] else ""
  }

  /**
   * `timeValue`: `None` for an empty value (the current time is used), otherwise
   * the hours and minutes handed to `setHours`: `Number` of each part, with NaN,
   * 0 and a missing part all giving 0.
   */
  function TimeValue(value: string): Option<(int, int)> {
    if value == "" then None
    else
      var parts := Split(value, ':');
      Some((NumberOrZero(parts[0]), if |parts| >= 2 then NumberOrZero(parts[1]) else 0))
  }

  /**
   * `formatDisplayTime`: the placeholder for an empty value, the value itself
   * when a part is missing or empty, otherwise the locale rendering of the
   * `parseInt` of both parts (a parameter).
   */
  function DisplayTime(value: string, localeTime: (Option<int>, Option<int>) -> string): (shown: string)
    ensures value == "" ==> shown == "Seleccionar hora"
  {
    if value == "" then "Seleccionar hora"
    else
      var parts := Split(value, ':');
      var hours := Part(parts, 0);
      var minutes := Part(parts, 1);
      if hours == "" || minutes == "" then value else localeTime(ParseInt(hours), ParseInt(minutes))
  }

  /** The readable hint under the web input: shown for a non-empty value of the pattern. */
  predicate ShowsHint(value: string) { value != "" && MatchesTimePattern(value) }

  /** A string of digits has no colon. */
  lemma DigitsHaveNoColon(s: string)
    requires AllDigits(s)
    ensures ':' !in s
  {
    forall i | 0 <= i < |s| ensures s[i] != ':' {
      assert IsDigit(s[i]);
    }
  }

  /** Two colon-free parts joined by a colon split back into the two parts. */
  lemma SplitTime(hh: string, mm: string)
    requires ':' !in hh && ':' !in mm
    ensures Split(hh + ":" + mm, ':') == [hh, mm]
  {
    SplitAtFirstSeparator(hh, mm, ':');
    SplitWithoutSeparator(mm, ':');
  }

  /** Reading a formatted time back gives the hours and minutes it was made from. */
  lemma TimeRoundTrip(t: ClockTime)
    requires t.hours < 100 && t.minutes < 100
    ensures TimeValue(FormatTime(t)) == Some((t.hours, t.minutes))
  {
    var hh := TwoDigits(t.hours);
    var mm := TwoDigits(t.minutes);
    TwoDigitsOf(t.hours);
    TwoDigitsOf(t.minutes);
    DigitsHaveNoColon(hh);
    DigitsHaveNoColon(mm);
    SplitTime(hh, mm);
    NumberOfDigits(hh);
    NumberOfDigits(mm);
  }

  /**
   * `h:m` reads as the `Number` of each part, and a part that is not a number
   * reads as 0.
   */
  lemma TimeValueParts(hh: string, mm: string)
    requires ':' !in hh && ':' !in mm
    ensures TimeValue(hh + ":" + mm) == Some((NumberOrZero(hh), NumberOrZero(mm)))
    ensures NumberOf(hh).None? ==> TimeValue(hh + ":" + mm).value.0 == 0
    ensures NumberOf(mm).None? ==> TimeValue(hh + ":" + mm).value.1 == 0
  {
    SplitTime(hh, mm);
  }

  /** A value without a colon reads as its `Number` hours and 0 minutes. */
  lemma TimeValueWithoutColon(value: string)
    requires value != "" && ':' !in value
    ensures TimeValue(value) == Some((NumberOrZero(value), 0))
  {
    SplitWithoutSeparator(value, ':');
  }

  /**
   * A non-empty value without a colon, starting with one, or ending in its
   * only one is displayed as it is.
   */
  lemma DisplayIncompleteAsIs(value: string, localeTime: (Option<int>, Option<int>) -> string)
    requires value != ""
    requires ':' !in value || value[0] == ':' || (value[|value| - 1] == ':' && ':' !in value[..|value| - 1])
    ensures DisplayTime(value, localeTime) == value
  {
    if ':' !in value {
      SplitWithoutSeparator(value, ':');
    } else if value[0] == ':' {
      assert Split(value, ':')[0] == "";
    } else {
      var hh := value[..|value| - 1];
      assert value == hh + ":" + "";
      SplitTime(hh, "");
    }
  }

  /** Both parts present: the locale rendering of their `parseInt`. */
  lemma DisplayCompleteTime(hh: string, mm: string, localeTime: (Option<int>, Option<int>) -> string)
    requires ':' !in hh && ':' !in mm && hh != "" && mm != ""
    ensures DisplayTime(hh + ":" + mm, localeTime) == localeTime(ParseInt(hh), ParseInt(mm))
  {
    var parts := Split(hh + ":" + mm, ':');
    assert parts == [hh, mm] by { SplitTime(hh, mm); }
    assert Part(parts, 0) == hh && Part(parts, 1) == mm;
  }

  /** The component's picker flag. */
  class TimePicker {
    var showPicker: bool

    constructor()
      ensures !showPicker
    {
      showPicker := false;
    }

    /** `openMobilePicker`. */
    method Open()
      modifies this
      ensures showPicker
    {
      showPicker := true;
    }

    /**
     * `handleTimeChange`: Android closes the picker; a picked time is passed
     * to `onChange` (returned here) formatted, and no pick passes nothing.
     */
    method HandleTimeChange(isAndroid: bool, selected: Option<ClockTime>) returns (emitted: Option<string>)
      modifies this
      ensures showPicker == (!isAndroid && old(showPicker))
      ensures selected.None? ==> emitted.None?
      ensures selected.Some? ==> emitted == Some(FormatTime(selected.value))
    {
      if isAndroid {
        showPicker := false;
      }
      if selected.Some? {
        emitted := Some(FormatTime(selected.value));
      } else {
        emitted := None;
      }
    }

    /** `handleWebTimeChange`: whatever is typed is passed on as it is. */
    method HandleWebTimeChange(text: string) returns (emitted: string)
      ensures emitted == text
    {
      emitted := text;
    }
  }
}
