/** The Google Calendar "render" deep link that both planner handlers and the
    client planner page build with one template string: the title, details and
    location go through `encodeURIComponent`, the two date tokens are inserted
    verbatim. The partner is `ParseUrl`, which reads the five fields back: it
    recovers exactly the fields the link was built from whenever the date tokens
    hold no `&` (and the start token no `/`), which every ISO 8601 basic-format
    token satisfies. */
module CalendarLink {
  import opened Wrappers
  import opened Strings
  import opened UriComponent

  datatype EventDetails = EventDetails(
    title: string, details: string, location: string, startDate: string, endDate: string)

  const UrlHead: string := "https://calendar.google.com/calendar/render?action=TEMPLATE&text="
  const UrlTail: string := "&sf=true&output=xml"

  /** The template shared by the three call sites; `endSegment` is what follows
      the `/` of the `dates` parameter. */
  function RenderUrl(title: string, details: string, location: string,
                     startDate: string, endSegment: string): string
  {
    UrlHead + Query(title, details, location, startDate, endSegment) + UrlTail
  }

  /** The part of the link between `text=` and `&sf=true`. */
  function Query(title: string, details: string, location: string,
                 startDate: string, endSegment: string): string
  {
    Template(Encode(title), startDate, endSegment, Encode(details), Encode(location))
  }

  /** The query with its three free-text values already encoded. */
  function Template(text: string, startDate: string, endSegment: string,
                    details: string, location: string): string
  {
    text + "&dates=" + startDate + "/" + endSegment + "&details=" + details + "&location=" + location
  }

  /** The link with `dates=start/end`, no fallback for an empty end. */
  function CalendarUrl(e: EventDetails): string {
    RenderUrl(e.title, e.details, e.location, e.startDate, e.endDate)
  }

  /** The link with `dates=start/(end || start)`: an empty end falls back to the
      start token. */
  function CalendarUrlEndOrStart(e: EventDetails): string {
    RenderUrl(e.title, e.details, e.location, e.startDate,
              if e.endDate == "" then e.startDate else e.endDate)
  }

  // ---------------------------------------------------------------------------
  // Reading a link back

  predicate HasPrefix(s: string, p: string) {
    |p| <= |s| && s[..|p|] == p
  }

  /** The five fields of a calendar link, or `None` when `u` is not one. */
  function ParseUrl(u: string): Option<EventDetails> {
    if |u| < |UrlHead| + |UrlTail| || !HasPrefix(u, UrlHead) || u[|u| - |UrlTail|..] != UrlTail then None
    else ParseQuery(u[|UrlHead|..|u| - |UrlTail|])
  }

  /** The five fields of the query between the fixed head and tail. */
  function ParseQuery(q: string): Option<EventDetails> {
      var parts := SplitOn(q, '&');
      if |parts| != 4 || !HasPrefix(parts[1], "dates=") || !HasPrefix(parts[2], "details=")
         || !HasPrefix(parts[3], "location=") then None
      else
        var dates := parts[1][6..];
        match (IndexOf(dates, '/'), Decode(parts[0]), Decode(parts[2][8..]), Decode(parts[3][9..]))
        case (Some(i), Some(title), Some(details), Some(location)) =>
          Some(EventDetails(title, details, location, dates[..i], dates[i + 1..]))
        case _ => None
  }

  /** A date token in ISO 8601 basic format, `YYYYMMDDThhmmss` with an optional
      `Z` (section 4.3.2 of ISO 8601:2004), as the links expect. */
  predicate BasicDateTime(s: string) {
    (|s| == 15 || (|s| == 16 && s[15] == 'Z')) &&
    AllDigits(s[..8]) && s[8] == 'T' && AllDigits(s[9..15])
  }

  /** A token that can be inserted verbatim as the start of the `dates` value. */
  predicate VerbatimStart(s: string) {
    '&' !in s && '/' !in s
  }

  lemma BasicDateTimeVerbatim(s: string)
    requires BasicDateTime(s)
    ensures VerbatimStart(s)
  {
    assert s == s[..8] + [s[8]] + s[9..15] + s[15..];
    assert forall i :: 0 <= i < 8 ==> s[i] == s[..8][i];
    assert forall i :: 9 <= i < 15 ==> s[i] == s[9..15][i - 9];
  }

  lemma EncodeNoSeparators(s: string)
    ensures '&' !in Encode(s) && '/' !in Encode(s)
  {
    var e := Encode(s);
    assert forall i :: 0 <= i < |e| ==> e[i] != '&' && e[i] != '/' by {
      forall i | 0 <= i < |e| ensures e[i] != '&' && e[i] != '/' {
        assert UriSafe(e[i]);
      }
    }
  }

  lemma Framed<T>(h: seq<T>, m: seq<T>, t: seq<T>)
    ensures var u := h + m + t;
      |u| >= |h| + |t| && u[..|h|] == h && u[|u| - |t|..] == t && u[|h|..|u| - |t|] == m
  {
    var u := h + m + t;
    assert u[..|h|] == h;
    assert u[|u| - |t|..] == t;
    assert u[|h|..|u| - |t|] == m;
  }

  lemma NoAmpAfterPrefix(p: string, x: string)
    requires '&' !in p && '&' !in x
    ensures '&' !in p + x
  {
  }

  lemma Regroup<T>(a: seq<T>, sep: T, p: seq<T>, b: seq<T>, q: seq<T>, r: seq<T>,
                   c: seq<T>, t: seq<T>, d: seq<T>)
    ensures a + ([sep] + p) + b + q + ([sep] + r) + c + ([sep] + t) + d
         == a + [sep] + ((p + b + q) + [sep] + ((r + c) + [sep] + (t + d)))
  {
  }

  /** The template is its four parameters joined by `&`. */
  lemma TemplateShape(text: string, startDate: string, endSegment: string,
                      details: string, location: string)
    ensures Template(text, startDate, endSegment, details, location)
         == text + ['&'] + (("dates=" + (startDate + "/" + endSegment)) + ['&'] +
            (("details=" + details) + ['&'] + ("location=" + location)))
  {
    assert "&dates=" == ['&'] + "dates=";
    assert "&details=" == ['&'] + "details=";
    assert "&location=" == ['&'] + "location=";
    assert "dates=" + startDate + ("/" + endSegment) == "dates=" + (startDate + "/" + endSegment);
    Regroup(text, '&', "dates=", startDate, "/" + endSegment, "details=", details, "location=", location);
  }

  /** Four separator-free pieces joined by `&` split back apart. */
  lemma SplitFour(a: string, b: string, c: string, d: string)
    requires '&' !in a && '&' !in b && '&' !in c && '&' !in d
    ensures SplitOn(a + ['&'] + (b + ['&'] + (c + ['&'] + d)), '&') == [a, b, c, d]
  {
    var cd := c + ['&'] + d;
    var bcd := b + ['&'] + cd;
    SplitTwo(c, d);
    SplitPrepend(b, cd, [c, d]);
    SplitPrepend(a, bcd, [b, c, d]);
  }

  lemma SplitTwo(c: string, d: string)
    requires '&' !in c && '&' !in d
    ensures SplitOn(c + ['&'] + d, '&') == [c, d]
  {
    SplitOnNone(d, '&');
    SplitOnCons(c, '&', d);
  }

  lemma SplitPrepend(b: string, rest: string, tail: seq<string>)
    requires '&' !in b && SplitOn(rest, '&') == tail
    ensures SplitOn(b + ['&'] + rest, '&') == [b] + tail
  {
    SplitOnCons(b, '&', rest);
  }

  /** The query splits at `&` into the four parameters. */
  lemma QuerySplits(title: string, details: string, location: string,
                    startDate: string, endSegment: string)
    requires VerbatimStart(startDate) && '&' !in endSegment
    ensures SplitOn(Query(title, details, location, startDate, endSegment), '&')
         == [Encode(title), "dates=" + (startDate + "/" + endSegment),
             "details=" + Encode(details), "location=" + Encode(location)]
  {
    var e1, e2, e3 := Encode(title), Encode(details), Encode(location);
    TemplateShape(e1, startDate, endSegment, e2, e3);
    EncodeNoSeparators(title);
    EncodeNoSeparators(details);
    EncodeNoSeparators(location);
    NoAmpAfterPrefix(startDate, "/");
    NoAmpAfterPrefix(startDate + "/", endSegment);
    NoAmpAfterPrefix("dates=", startDate + "/" + endSegment);
    NoAmpAfterPrefix("details=", e2);
    NoAmpAfterPrefix("location=", e3);
    SplitFour(e1, "dates=" + (startDate + "/" + endSegment), "details=" + e2, "location=" + e3);
  }

  /** The `dates` value splits at its first `/` into the two tokens. */
  lemma DatesSplit(startDate: string, endSegment: string)
    requires '/' !in startDate
    ensures var dates := startDate + "/" + endSegment;
      IndexOf(dates, '/') == Some(|startDate|) &&
      dates[..|startDate|] == startDate && dates[|startDate| + 1..] == endSegment
  {
    var dates := startDate + "/" + endSegment;
    IndexOfAfter(startDate, '/', endSegment);
    assert dates == startDate + ['/'] + endSegment;
    assert dates[..|startDate|] == startDate;
    assert dates[|startDate| + 1..] == endSegment;
  }

  /** A query whose pieces, dates and decoded values are known reads back to
      those values. */
  lemma ParseQueryOf(q: string, p0: string, dates: string, e2: string, e3: string,
                     title: string, details: string, location: string,
                     startDate: string, endSegment: string)
    requires SplitOn(q, '&') == [p0, "dates=" + dates, "details=" + e2, "location=" + e3]
    requires IndexOf(dates, '/') == Some(|startDate|)
    requires dates[..|startDate|] == startDate && dates[|startDate| + 1..] == endSegment
    requires Decode(p0) == Some(title) && Decode(e2) == Some(details) && Decode(e3) == Some(location)
    ensures ParseQuery(q) == Some(EventDetails(title, details, location, startDate, endSegment))
  {
    var b, c, d := "dates=" + dates, "details=" + e2, "location=" + e3;
    assert HasPrefix(b, "dates=") && b[6..] == dates;
    assert HasPrefix(c, "details=") && c[8..] == e2;
    assert HasPrefix(d, "location=") && d[9..] == e3;
  }

  /** Every link built by the template reads back to the fields it was built
      from, provided the date tokens do not contain the template's separators. */
  lemma ParseRenderUrl(title: string, details: string, location: string,
                       startDate: string, endSegment: string)
    requires VerbatimStart(startDate) && '&' !in endSegment
    ensures ParseUrl(RenderUrl(title, details, location, startDate, endSegment))
         == Some(EventDetails(title, details, location, startDate, endSegment))
  {
    var q := Query(title, details, location, startDate, endSegment);
    Framed(UrlHead, q, UrlTail);
    QuerySplits(title, details, location, startDate, endSegment);
    DatesSplit(startDate, endSegment);
    DecodeEncode(title);
    DecodeEncode(details);
    DecodeEncode(location);
    ParseQueryOf(q, Encode(title), startDate + "/" + endSegment, Encode(details), Encode(location),
                 title, details, location, startDate, endSegment);
  }

  /** The no-fallback link reads back to exactly its fields. */
  lemma ParseCalendarUrl(e: EventDetails)
    requires VerbatimStart(e.startDate) && '&' !in e.endDate
    ensures ParseUrl(CalendarUrl(e)) == Some(e)
  {
    ParseRenderUrl(e.title, e.details, e.location, e.startDate, e.endDate);
  }

  /** The fallback link reads back to its fields, with an empty end replaced by
      the start token. */
  lemma ParseCalendarUrlEndOrStart(e: EventDetails)
    requires VerbatimStart(e.startDate) && '&' !in e.endDate
    ensures ParseUrl(CalendarUrlEndOrStart(e))
         == Some(e.(endDate := if e.endDate == "" then e.startDate else e.endDate))
  {
    ParseRenderUrl(e.title, e.details, e.location, e.startDate,
                   if e.endDate == "" then e.startDate else e.endDate);
  }

  /** ISO 8601 basic-format date tokens always survive the round trip. */
  lemma ParseCalendarUrlBasic(e: EventDetails)
    requires BasicDateTime(e.startDate) && BasicDateTime(e.endDate)
    ensures ParseUrl(CalendarUrl(e)) == Some(e)
    ensures ParseUrl(CalendarUrlEndOrStart(e)) == Some(e)
  {
    BasicDateTimeVerbatim(e.startDate);
    BasicDateTimeVerbatim(e.endDate);
    ParseCalendarUrl(e);
    ParseCalendarUrlEndOrStart(e);
  }

  /** Every link starts with the render endpoint and ends with `&sf=true&output=xml`. */
  lemma UrlFrame(title: string, details: string, location: string,
                 startDate: string, endSegment: string)
    ensures HasPrefix(RenderUrl(title, details, location, startDate, endSegment), UrlHead)
    ensures var u := RenderUrl(title, details, location, startDate, endSegment);
            |u| >= |UrlTail| && u[|u| - |UrlTail|..] == UrlTail
  {
    Framed(UrlHead, Query(title, details, location, startDate, endSegment), UrlTail);
  }
}
