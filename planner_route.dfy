/** The `POST /ask` handler of the planner route. It asks the language model
    whether the prompt is about scheduling. When the reply starts with "yes"
    and the prompt has more than one word, it answers with fixed default event
    details and their calendar link; otherwise it answers "no". The language
    model is a parameter `model(instruction, prompt)`, `None` when the call
    fails. */
module PlannerRoute {
  import opened Wrappers
  import opened Strings
  import opened CalendarLink

  const YesOrNo: string :=
    "Analyze the message and respond with ONLY \"yes\" or \"no\": Is the user trying to schedule an event or task?"

  const SchedulingText: string := "Yes, this is about scheduling an event."

  datatype Reply =
    | BadRequest(error: string)
    | ServerError(error: string)
    | NotScheduling(response: string)
    | Scheduling(response: string, eventDetails: EventDetails, calendarUrl: string)

  /** `text.substring(0, 3).toLowerCase() === "yes"`. */
  predicate IsYesPrefix(text: string) {
    Lower(Substring(text, 0, 3)) == "yes"
  }

  /** `prompt.trim().split(/\s+/).length`. */
  function WordCount(prompt: string): nat {
    |SplitWhitespace(Trim(prompt))|
  }

  /** The details the handler always uses: the prompt as description, fixed
      date tokens, an empty location. */
  function DefaultEventDetails(prompt: string): EventDetails {
    EventDetails("New Event", prompt, "", "20240501T090000", "20240501T100000")
  }

  /** The handler's answer to `prompt` (`None` when absent). */
  function Ask(prompt: Option<string>, model: (string, string) -> Option<string>): (r: Reply)
    ensures r.BadRequest? <==> prompt.None? || prompt == Some("")
    ensures r.BadRequest? ==> r.error == "Prompt is required."
    ensures r.ServerError? <==> !r.BadRequest? && model(YesOrNo, prompt.value).None?
    ensures r.ServerError? ==> r.error == "Failed to process the request."
    ensures r.Scheduling? <==> (!r.BadRequest? && model(YesOrNo, prompt.value).Some? &&
                                IsYesPrefix(model(YesOrNo, prompt.value).value) &&
                                HasSpace(Trim(prompt.value)))
    ensures r.NotScheduling? ==> r.response == "no"
    ensures r.Scheduling? ==> r.response == SchedulingText &&
                              r.eventDetails == DefaultEventDetails(prompt.value) &&
                              r.calendarUrl == CalendarUrlEndOrStart(r.eventDetails)
  {
    match prompt
    case None => BadRequest("Prompt is required.")
    case Some(p) =>
      if p == "" then BadRequest("Prompt is required.")
      else
        var reply := model(YesOrNo, p);
        if reply.None? then ServerError("Failed to process the request.")
        else if IsYesPrefix(reply.value) && WordCount(p) > 1 then
          var e := DefaultEventDetails(p);
          Scheduling(SchedulingText, e, CalendarUrlEndOrStart(e))
        else NotScheduling("no")
  }

  /** The prompt has more than one word exactly when it holds white space once
      trimmed. */
  lemma WordCountSpace(prompt: string)
    ensures WordCount(prompt) > 1 <==> HasSpace(Trim(prompt))
  {
  }

  /** A prompt of one word, padded with white space or not, never schedules,
      whatever the model replies. */
  lemma SingleWordNeverSchedules(pre: string, word: string, post: string, model: (string, string) -> Option<string>)
    requires AllSpace(pre) && AllSpace(post) && IsWord(word)
    ensures !Ask(Some(pre + word + post), model).Scheduling?
  {
    assert IsTrimmed(word);
    TrimPadded(pre, word, post);
  }

  /** A white-space-only prompt never schedules either. */
  lemma BlankNeverSchedules(prompt: string, model: (string, string) -> Option<string>)
    requires AllSpace(prompt)
    ensures !Ask(Some(prompt), model).Scheduling?
  {
    assert Trim(prompt) == [];
  }

  /** The prefix test accepts exactly the replies whose first three characters
      spell "yes" in any mix of cases. */
  lemma YesPrefixCases(text: string)
    ensures IsYesPrefix(text) <==>
      |text| >= 3 && text[0] in "yY" && text[1] in "eE" && text[2] in "sS"
  {
    if |text| >= 3 {
      var t := Substring(text, 0, 3);
      assert t == text[..3];
      assert Lower(t)[0] == AsciiLower(text[0]);
      assert Lower(t)[1] == AsciiLower(text[1]);
      assert Lower(t)[2] == AsciiLower(text[2]);
    } else {
      assert |Lower(Substring(text, 0, 3))| < 3;
    }
  }

  /** The scheduling answer's link reads back to exactly the details it
      carries. */
  lemma SchedulingUrlRoundTrip(prompt: Option<string>, model: (string, string) -> Option<string>)
    ensures var r := Ask(prompt, model);
      r.Scheduling? ==> ParseUrl(r.calendarUrl) == Some(r.eventDetails)
  {
    var r := Ask(prompt, model);
    if r.Scheduling? {
      DefaultDatesBasic(r.eventDetails);
      ParseCalendarUrlBasic(r.eventDetails);
    }
  }

  lemma DefaultDatesBasic(e: EventDetails)
    requires e.startDate == "20240501T090000" && e.endDate == "20240501T100000"
    ensures BasicDateTime(e.startDate) && BasicDateTime(e.endDate)
  {
    var s, t := e.startDate, e.endDate;
    assert s[..8] == "20240501" && s[9..15] == "090000";
    assert t[..8] == "20240501" && t[9..15] == "100000";
  }
}
