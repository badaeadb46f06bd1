/** `convertDateFormat`, which the membership and project lists both use to
    show an ISO `YYYY-MM-DD` date as `DD-MM-YYYY`: the text is split on
    `'-'` and the first three pieces are written back in reverse order. */
module Dates {
  import opened Basics
  import opened Text

  /** The `i`-th element of a destructured array: `undefined` past its end. */
  function Part(parts: seq<string>, i: nat): (r: Option<string>)
    ensures r.Some? <==> i < |parts|
    ensures i < |parts| ==> r.value == parts[i]
  {
    if i < |parts| then Some(parts[i]) else None
  }

  /** `convertDateFormat(dateString)`: a missing or empty date shows as
      nothing; otherwise `${day}-${month}-${year}` from
      `const [year, month, day] = dateString.split('-')`. */
  function ConvertDate(d: Option<string>): (r: string)
    ensures r == "" <==> d.None? || d.value == ""
  {
    if d.None? || d.value == "" then ""
    else
      var parts := Split(d.value, '-');
      Interp(Part(parts, 2)) + "-" + Interp(Part(parts, 1)) + "-" + parts[0]
  }

  /** The text of a date from its three components. */
  function DateText(first: string, second: string, third: string): string
  {
    first + "-" + second + "-" + third
  }

  /** Splitting a date text gives its three components back. */
  lemma SplitDate(first: string, second: string, third: string)
    requires '-' !in first && '-' !in second && '-' !in third
    ensures Split(DateText(first, second, third), '-') == [first, second, third]
  {
    var parts := [first, second, third];
    assert Join(parts, "-") == DateText(first, second, third) by {
      assert parts[1..] == [second, third];
      assert parts[1..][1..] == [third];
    }
    SplitJoin(parts, '-');
  }

  /** A `Y-M-D` date is shown as `D-M-Y`: the same three components,
      reversed. */
  lemma YearMonthDayReversed(year: string, month: string, day: string)
    requires '-' !in year && '-' !in month && '-' !in day
    ensures ConvertDate(Some(DateText(year, month, day))) == DateText(day, month, year)
  {
    var text := DateText(year, month, day);
    var parts := Split(text, '-');
    SplitDate(year, month, day);
    assert text != "" by {
      assert |text| == |year| + 1 + |month| + 1 + |day|;
    }
    assert Part(parts, 2) == Some(day) && Part(parts, 1) == Some(month) && parts[0] == year;
    assert ConvertDate(Some(text)) == Interp(Some(day)) + "-" + Interp(Some(month)) + "-" + year;
  }

  /** Converting twice gives the original date back. */
  lemma ConvertTwiceRestores(year: string, month: string, day: string)
    requires '-' !in year && '-' !in month && '-' !in day
    ensures ConvertDate(Some(ConvertDate(Some(DateText(year, month, day))))) == DateText(year, month, day)
  {
    YearMonthDayReversed(year, month, day);
    YearMonthDayReversed(day, month, year);
  }

  /** A non-empty text without a dash is taken as a bare year, and the
      missing month and day show as `undefined`. */
  lemma BareYear(s: string)
    requires s != "" && '-' !in s
    ensures ConvertDate(Some(s)) == "undefined-undefined-" + s
  {
  }
}
