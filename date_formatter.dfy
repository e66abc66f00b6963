/** `formatDate`, which shows a calendar date token such as `20250405T090000Z`
    to the user. It cuts the token at fixed positions and hands the pieces to
    the locale formatter of `Date`. Locale rendering is left abstract: the
    result records which text is parsed into a `Date` and which formatter
    renders it. Whether `new Date(text)` yields a valid date is a parameter
    `parses`. */
module DateFormatter {
  import opened Wrappers
  import opened Strings
  import CalendarLink

  datatype Formatted =
    | Literal(text: string)
      /** `new Date(dateText).toLocaleTimeString([], {hour, minute})` */
    | TimeOf(dateText: string)
      /** `new Date(dateText).toLocaleDateString(undefined, {weekday, year, month, day})` */
    | DateOf(dateText: string)
      /** `new Date(dateText).toLocaleDateString()` */
    | PlainDateOf(dateText: string)

  /** The local time-of-day text built from the hours and minutes of a time part. */
  function TimeText(timePart: string): string {
    "2000-01-01T" + Substring(timePart, 0, 2) + ":" + Substring(timePart, 2, 4) + ":00"
  }

  /** The local midnight text built from the year, month and day of a date part. */
  function DateText(datePart: string): string {
    Substring(datePart, 0, 4) + "-" + Substring(datePart, 4, 6) + "-" + Substring(datePart, 6, 8) + "T00:00:00"
  }

  /** `formatDate(s, timeOnly)`. The `catch` branch is not modelled, since no
      step here throws: splitting at a `T` that occurs yields two parts. */
  function FormatDate(s: string, timeOnly: bool, parses: string -> bool): (r: Formatted)
    ensures s == "" ==> r == Literal("Not specified")
    ensures s != "" && 'T' !in s && !parses(s) ==> r == Literal(s)
    ensures s != "" && 'T' !in s && parses(s) ==> r == if timeOnly then TimeOf(s) else PlainDateOf(s)
  {
    if s == "" then Literal("Not specified")
    else if 'T' in s then
      var parts := SplitOn(s, 'T');
      assert |parts| >= 2;
      if timeOnly then TimeOf(TimeText(parts[1])) else DateOf(DateText(parts[0]))
    else if !parses(s) then Literal(s)
    else if timeOnly then TimeOf(s)
    else PlainDateOf(s)
  }

  /** With a `T`, the result depends only on the text before the first `T`
      (dates) or between the first and second `T` (times): anything after a
      second `T` is ignored. */
  lemma FirstTwoSegments(a: string, b: string, rest: string, timeOnly: bool, parses: string -> bool)
    requires 'T' !in a && 'T' !in b
    ensures FormatDate(a + "T" + b, timeOnly, parses)
         == FormatDate(a + "T" + b + "T" + rest, timeOnly, parses)
    ensures FormatDate(a + "T" + b, timeOnly, parses)
         == if timeOnly then TimeOf(TimeText(b)) else DateOf(DateText(a))
  {
    var s1 := a + "T" + b;
    var s2 := a + "T" + b + "T" + rest;
    assert s1 == a + ['T'] + b;
    assert s2 == a + ['T'] + (b + ['T'] + rest);
    assert s1[|a|] == 'T' && s2[|a|] == 'T';
    SplitOnCons(a, 'T', b);
    SplitOnNone(b, 'T');
    SplitOnCons(a, 'T', b + ['T'] + rest);
    SplitOnCons(b, 'T', rest);
  }

  /** A basic-format token `YYYYMMDDThhmmss[Z]` is shown from its year, month
      and day, or from its hours and minutes; seconds and a trailing `Z` are
      ignored. */
  lemma BasicToken(s: string, timeOnly: bool, parses: string -> bool)
    requires CalendarLink.BasicDateTime(s)
    ensures FormatDate(s, timeOnly, parses)
         == if timeOnly then TimeOf("2000-01-01T" + s[9..11] + ":" + s[11..13] + ":00")
            else DateOf(s[..4] + "-" + s[4..6] + "-" + s[6..8] + "T00:00:00")
  {
    var a, b := s[..8], s[9..];
    assert s == a + "T" + b;
    assert forall i :: 0 <= i < |a| ==> a[i] == s[..8][i];
    assert 'T' !in a by {
      forall i | 0 <= i < |a| ensures a[i] != 'T' { assert IsDigit(a[i]); }
    }
    assert 'T' !in b by {
      forall i | 0 <= i < |b| ensures b[i] != 'T' {
        if i < 6 { assert b[i] == s[9..15][i]; assert IsDigit(b[i]); }
        else { assert b[i] == 'Z'; }
      }
    }
    FirstTwoSegments(a, b, "", timeOnly, parses);
    assert Substring(b, 0, 2) == s[9..11];
    assert Substring(b, 2, 4) == s[11..13];
    assert Substring(a, 0, 4) == s[..4];
    assert Substring(a, 4, 6) == s[4..6];
    assert Substring(a, 6, 8) == s[6..8];
  }
}
