/**
 * `DatePickerField`: a picked calendar day is written as `YYYY-MM-DD` (year,
 * month index + 1 and day, the last two padded to two digits); on the web the
 * typed text is handed on unchanged, and the readable hint appears only for a
 * value of that shape. The component keeps `showPicker`.
 */
module DatePickerField {
  import opened Wrappers
  import opened Strings

  /** What a `Date` answers to `getFullYear()`, `getMonth()` and `getDate()`. */
  datatype CalendarDay = CalendarDay(year: int, monthIndex: nat, day: nat)

  /**
   * `${year}-${String(month + 1).padStart(2, '0')}-${String(day).padStart(2, '0')}`:
   * for a four-digit year, a real month index (0..11) and day it has the
   * `YYYY-MM-DD` shape and spells the year, the month number and the day.
   */
  function FormatDate(d: CalendarDay): (s: string)
    ensures 1000 <= d.year <= 9999 && d.monthIndex < 12 && d.day < 100 ==>
      MatchesDatePattern(s) && ShowsHint(s) && DateParts(s) == Some((d.year, d.monthIndex + 1, d.day))
  {
    if 1000 <= d.year <= 9999 && d.monthIndex < 12 && d.day < 100 then
      DashedConforms(d);
      Dashed(IntToString(d.year), TwoDigits(d.monthIndex + 1), TwoDigits(d.day))
    else
      Dashed(IntToString(d.year), TwoDigits(d.monthIndex + 1), TwoDigits(d.day))
  }

  /** Three parts joined by dashes. */
  function Dashed(y: string, mm: string, dd: string): string { y + "-" + mm + "-" + dd }

  /** `/^\d{4}-\d{2}-\d{2}$/.test(s)`. */
  predicate MatchesDatePattern(s: string) {
    |s| == 10
    && IsDigit(s[0]) && IsDigit(s[1]) && IsDigit(s[2]) && IsDigit(s[3]) && s[4] == '-'
    && IsDigit(s[5]) && IsDigit(s[6]) && s[7] == '-' && IsDigit(s[8]) && IsDigit(s[9])
  }

  /** The year, month and day a matching value spells. */
  function DateParts(s: string): (parts: Option<(nat, nat, nat)>)
    ensures parts.Some? <==> MatchesDatePattern(s)
  {
    if MatchesDatePattern(s) then Some((DigitsValue(s[..4]), DigitsValue(s[5..7]), DigitsValue(s[8..]))) else None
  }

  /** The readable hint under the web input: shown for a non-empty value of the pattern. */
  predicate ShowsHint(value: string) { value != "" && MatchesDatePattern(value) }

  /** `formatDisplayDate`: the placeholder for an empty value, else the locale rendering (a parameter). */
  function DisplayDate(value: string, localeDate: string -> string): (shown: string)
    ensures value == "" ==> shown == "Seleccionar fecha"
    ensures value != "" ==> shown == localeDate(value)
  {
    if value == "" then "Seleccionar fecha" else localeDate(value)
  }

  /** Four-digit years are written with four digits. */
  lemma FourDigitYear(y: nat)
    requires 1000 <= y <= 9999
    ensures |NatToString(y)| == 4
  {
    assert NatToString(y) == NatToString(y / 10) + [DigitChar(y % 10)];
    assert NatToString(y / 10) == NatToString(y / 100) + [DigitChar(y / 10 % 10)];
    assert NatToString(y / 100) == NatToString(y / 1000) + [DigitChar(y / 100 % 10)];
    assert |NatToString(y / 1000)| == 1;
  }

  /** Four digits, a dash, two digits, a dash and two digits have the pattern, and slice back apart. */
  lemma DateShape(y: string, mm: string, dd: string)
    requires |y| == 4 && |mm| == 2 && |dd| == 2 && AllDigits(y) && AllDigits(mm) && AllDigits(dd)
    ensures var s := y + "-" + mm + "-" + dd;
      MatchesDatePattern(s) && s[..4] == y && s[5..7] == mm && s[8..] == dd
  {
    var s := y + "-" + mm + "-" + dd;
    assert s[..4] == y;
    assert s[5..7] == mm;
    assert s[8..] == dd;
  }

  /** A four-digit year is written as four digits that read back as the year. */
  lemma YearText(year: int)
    requires 1000 <= year <= 9999
    ensures var y := IntToString(year);
      |y| == 4 && AllDigits(y) && DigitsValue(y) == year
  {
    assert IntToString(year) == NatToString(year);
    FourDigitYear(year);
    DigitsValueOfNatToString(year);
  }

  /** A value made of four, two and two digits shows the hint and reads as their values. */
  lemma DatePartsOf(y: string, mm: string, dd: string)
    requires |y| == 4 && |mm| == 2 && |dd| == 2 && AllDigits(y) && AllDigits(mm) && AllDigits(dd)
    ensures ShowsHint(Dashed(y, mm, dd))
    ensures DateParts(Dashed(y, mm, dd)) == Some((DigitsValue(y), DigitsValue(mm), DigitsValue(dd)))
  {
    DateShape(y, mm, dd);
  }

  /** The parts of a calendar day within range: four, two and two digits spelling it. */
  lemma DayTexts(d: CalendarDay)
    requires 1000 <= d.year <= 9999 && d.monthIndex < 12 && d.day < 100
    ensures var y, mm, dd := IntToString(d.year), TwoDigits(d.monthIndex + 1), TwoDigits(d.day);
      |y| == 4 && |mm| == 2 && |dd| == 2 && AllDigits(y) && AllDigits(mm) && AllDigits(dd)
      && DigitsValue(y) == d.year && DigitsValue(mm) == d.monthIndex + 1 && DigitsValue(dd) == d.day
  {
    YearText(d.year);
    TwoDigitsOf(d.monthIndex + 1);
    TwoDigitsOf(d.day);
  }

  /** The dashed parts of a calendar day within range show the hint and read as the day. */
  lemma DashedConforms(d: CalendarDay)
    requires 1000 <= d.year <= 9999 && d.monthIndex < 12 && d.day < 100
    ensures var s := Dashed(IntToString(d.year), TwoDigits(d.monthIndex + 1), TwoDigits(d.day));
      MatchesDatePattern(s) && ShowsHint(s) && DateParts(s) == Some((d.year, d.monthIndex + 1, d.day))
  {
    DayTexts(d);
    DatePartsOf(IntToString(d.year), TwoDigits(d.monthIndex + 1), TwoDigits(d.day));
  }

  /** A value with the hint has exactly ten characters. */
  lemma HintMeansTenCharacters(value: string)
    requires ShowsHint(value)
    ensures |value| == 10 && value[4] == '-' && value[7] == '-'
  {
  }

  /** The component's picker flag. */
  class DatePicker {
    var showPicker: bool

    constructor()
      ensures !showPicker
    {
      showPicker := false;
    }

    /** `openMobilePicker`. */
    method Open()
      modifies this
      ensures showPicker
    {
      showPicker := true;
    }

    /**
     * `handleDateChange`: Android closes the picker; a picked day is passed to
     * `onChange` (returned here) formatted, and no pick passes nothing.
     */
    method HandleDateChange(isAndroid: bool, selected: Option<CalendarDay>) returns (emitted: Option<string>)
      modifies this
      ensures showPicker == (!isAndroid && old(showPicker))
      ensures selected.None? ==> emitted.None?
      ensures selected.Some? ==> emitted == Some(FormatDate(selected.value))
    {
      if isAndroid {
        showPicker := false;
      }
      if selected.Some? {
        emitted := Some(FormatDate(selected.value));
      } else {
        emitted := None;
      }
    }

    /** `handleWebDateChange`: whatever is typed is passed on as it is. */
    method HandleWebDateChange(text: string) returns (emitted: string)
      ensures emitted == text
    {
      emitted := text;
    }
  }
}
