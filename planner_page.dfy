/** The client planner page: its "Add Event to Google Calendar" button opens the
    calendar link of one fixed example event. Opening the window is left out;
    the link itself is stated exactly. */
module PlannerPage {
  import opened Wrappers
  import opened Strings
  import opened UriComponent
  import opened CalendarLink

  /** The fixed event of `handleAddEvent`, with UTC date tokens. */
  function AddEventDetails(): EventDetails {
    EventDetails("My Awesome Event", "This is a description of the event.", "Online",
                 "20250405T090000Z", "20250405T100000Z")
  }

  /** The link `handleAddEvent` opens: no fallback for the end token. */
  function AddEventUrl(): string {
    CalendarUrl(AddEventDetails())
  }

  predicate AllUnreserved(s: string) {
    forall i :: 0 <= i < |s| ==> Unreserved(s[i])
  }

  /** A word of unreserved characters followed by a space keeps the word and
      turns the space into `%20`. */
  lemma EncodeSpaced(a: string, b: string)
    requires AllUnreserved(a)
    ensures Encode(a + " " + b) == a + "%20" + Encode(b)
  {
    assert a + " " + b == a + (" " + b);
    assert Encode(a + (" " + b)) == Encode(a) + Encode(" " + b) by { EncodeAppend(a, " " + b); }
    assert Encode(" " + b) == "%20" + Encode(b) by { EncodeAppend(" ", b); EncodeSpace(); }
    assert Encode(a) == a by { EncodeUnreserved(a); }
    assert a + "%20" + Encode(b) == a + ("%20" + Encode(b));
  }

  lemma TitleWords()
    ensures "My Awesome Event" == "My" + " " + ("Awesome" + " " + "Event")
    ensures "My%20Awesome%20Event" == "My" + "%20" + ("Awesome" + "%20" + "Event")
    ensures AllUnreserved("My") && AllUnreserved("Awesome") && AllUnreserved("Event")
  {
  }

  /** Spaces become `%20`; the words pass unchanged. */
  lemma TitleEncoding()
    ensures Encode("My Awesome Event") == "My%20Awesome%20Event"
  {
    TitleWords();
    EncodeUnreserved("Event");
    EncodeSpaced("Awesome", "Event");
    EncodeSpaced("My", "Awesome" + " " + "Event");
  }

  lemma DetailsWords()
    ensures "This is a description of the event."
         == "This" + " " + ("is" + " " + ("a" + " " + ("description" + " " +
            ("of" + " " + ("the" + " " + "event.")))))
  {
  }

  lemma DetailsEscaped()
    ensures "This%20is%20a%20description%20of%20the%20event."
         == "This" + "%20" + ("is" + "%20" + ("a" + "%20" + ("description" + "%20" +
            ("of" + "%20" + ("the" + "%20" + "event.")))))
  {
  }

  lemma DetailsUnreserved()
    ensures AllUnreserved("This") && AllUnreserved("is") && AllUnreserved("a")
    ensures AllUnreserved("description") && AllUnreserved("of") && AllUnreserved("the")
    ensures AllUnreserved("event.")
  {
  }

  /** Spaces become `%20` while the final `.` is kept. */
  lemma DetailsEncoding()
    ensures Encode("This is a description of the event.")
         == "This%20is%20a%20description%20of%20the%20event."
  {
    DetailsWords();
    DetailsEscaped();
    DetailsUnreserved();
    var s6 := "the" + " " + "event.";
    var s5 := "of" + " " + s6;
    var s4 := "description" + " " + s5;
    var s3 := "a" + " " + s4;
    var s2 := "is" + " " + s3;
    EncodeUnreserved("event.");
    EncodeSpaced("the", "event.");
    EncodeSpaced("of", s6);
    EncodeSpaced("description", s5);
    EncodeSpaced("a", s4);
    EncodeSpaced("is", s3);
    EncodeSpaced("This", s2);
  }

  lemma LocationEncoding()
    ensures Encode("Online") == "Online"
  {
    EncodeUnreserved("Online");
  }

  /** The opened link, piece by piece: the title with `%20` for its spaces, the
      two UTC tokens verbatim around a `/`, the description with `%20` for its
      spaces and its `.` kept, and the location unchanged. */
  lemma AddEventUrlValue()
    ensures AddEventUrl()
         == "https://calendar.google.com/calendar/render?action=TEMPLATE&text="
            + ("My%20Awesome%20Event" + "&dates=" + "20250405T090000Z" + "/" + "20250405T100000Z"
               + "&details=" + "This%20is%20a%20description%20of%20the%20event."
               + "&location=" + "Online")
            + "&sf=true&output=xml"
  {
    TitleEncoding();
    DetailsEncoding();
    LocationEncoding();
  }

  lemma ExampleTokens()
    ensures VerbatimStart(AddEventDetails().startDate) && '&' !in AddEventDetails().endDate
  {
    var e := AddEventDetails();
    assert forall i :: 0 <= i < |e.startDate| ==> e.startDate[i] != '&' && e.startDate[i] != '/';
    assert forall i :: 0 <= i < |e.endDate| ==> e.endDate[i] != '&';
  }

  /** The link reads back to the example event. */
  lemma AddEventUrlRoundTrip()
    ensures ParseUrl(AddEventUrl()) == Some(AddEventDetails())
  {
    ExampleTokens();
    ParseCalendarUrl(AddEventDetails());
  }
}
