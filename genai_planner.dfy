/** The alternate `/api/genai/ask` handler. It asks the language model whether
    the prompt is about scheduling, adding the user's profile answers to the
    instruction when there are any. On an exact "yes" it asks the model for the
    event fields as JSON, extracts them with an empty-string fallback and
    answers with the reply and a calendar link; otherwise it answers with the
    reply alone.

    The model is a parameter `model(instruction, prompt)` (`None` when the call
    fails), and so is the JSON reader `parse` (`None` on a syntax error). The
    profile is given as the responses of the user's stored profile, `None` when
    there is no signed-in user, no profile, or its lookup failed. */
module GenAiPlanner {
  import opened Wrappers
  import opened Strings
  import opened UriComponent
  import opened CalendarLink

  const YesOrNo: string :=
    "Just tell me \"yes\" or \"no\" to the question: Is the user trying to schedule some task? You will only respond in \"yes\" or \"no\"."

  const AnalysisInstruction: string :=
    "Analyze the following prompt and extract the event details: title, details, location, startDate, endDate. If any field is not determinable, leave it blank."

  const ProfileHeader: string := "User Profile Information:\n"
  const ProfileFooter: string := "\n\nPlease use this information about the user to personalize your responses."

  /** One stored profile answer. */
  datatype QA = QA(question: string, answer: string)

  /** A parsed JSON value; numbers are integers. */
  datatype Json =
    | JNull
    | JBool(b: bool)
    | JNumber(n: int)
    | JString(s: string)
    | JArray(elems: seq<Json>)
    | JObject(fields: map<string, Json>)

  datatype Reply =
    | BadRequest(error: string)
    | ServerError(error: string)
    | Answer(response: string, calendarUrl: Option<string>)

  // ---------------------------------------------------------------------------
  // The instruction sent with the prompt

  function QAText(qa: QA): string {
    "Q: " + qa.question + "\nA: " + qa.answer
  }

  /** The profile block: a header, the answers as "Q: ...\nA: ..." separated by
      blank lines, and a closing request; empty without answers. */
  function UserContext(responses: seq<QA>): (r: string)
    ensures r == [] <==> responses == []
  {
    if responses == [] then ""
    else ProfileHeader + Join(seq(|responses|, i requires 0 <= i < |responses| => QAText(responses[i])), "\n\n") + ProfileFooter
  }

  /** Every stored question and answer appears in the profile block. */
  lemma UserContextMentions(responses: seq<QA>, k: nat)
    requires k < |responses|
    ensures ContainsPiece(UserContext(responses), QAText(responses[k]))
  {
    var texts := seq(|responses|, i requires 0 <= i < |responses| => QAText(responses[i]));
    var joined := Join(texts, "\n\n");
    JoinContainsParts(texts, "\n\n", k);
    var i :| 0 <= i <= |joined| - |texts[k]| && PieceAt(joined, texts[k], i);
    var u := UserContext(responses);
    assert u == ProfileHeader + (joined + ProfileFooter);
    var off := |ProfileHeader| + i;
    assert u[off..off + |texts[k]|] == joined[i..i + |texts[k]|];
    assert PieceAt(u, texts[k], off);
  }

  /** `userContext ? YesOrNo + "\n\n" + userContext : YesOrNo`. */
  function ContextWithProfile(profile: Option<seq<QA>>): (r: string)
    ensures r == YesOrNo <==> profile.None? || profile.value == []
    ensures r != YesOrNo ==> |r| > |YesOrNo| && r[..|YesOrNo|] == YesOrNo
  {
    var ctx := if profile.Some? then UserContext(profile.value) else "";
    if ctx != "" then
      var r := YesOrNo + "\n\n" + ctx;
      assert r[..|YesOrNo|] == YesOrNo;
      r
    else YesOrNo
  }

  // ---------------------------------------------------------------------------
  // The decision

  /** `text.trim().toLowerCase() === "yes"`. */
  predicate IsExactYes(text: string) {
    Lower(Trim(text)) == "yes"
  }

  /** The decision accepts "yes" in any mix of cases surrounded by any white
      space, and only that. */
  lemma ExactYesCases(pre: string, w: string, post: string)
    requires AllSpace(pre) && AllSpace(post)
    requires |w| == 3 && w[0] in "yY" && w[1] in "eE" && w[2] in "sS"
    ensures IsExactYes(pre + w + post)
  {
    TrimPadded(pre, w, post);
    assert Lower(w)[0] == AsciiLower(w[0]);
    assert Lower(w)[1] == AsciiLower(w[1]);
    assert Lower(w)[2] == AsciiLower(w[2]);
  }

  lemma ExactYesOnly(text: string)
    requires IsExactYes(text)
    ensures var t := Trim(text);
      |t| == 3 && t[0] in "yY" && t[1] in "eE" && t[2] in "sS"
  {
    var t := Trim(text);
    assert |Lower(t)| == 3;
    assert AsciiLower(t[0]) == Lower(t)[0] == 'y';
    assert AsciiLower(t[1]) == Lower(t)[1] == 'e';
    assert AsciiLower(t[2]) == Lower(t)[2] == 's';
  }

  // ---------------------------------------------------------------------------
  // Field extraction

  /** JavaScript truthiness of a parsed value. */
  predicate Truthy(j: Json) {
    match j
    case JNull => false
    case JBool(b) => b
    case JNumber(n) => n != 0
    case JString(s) => s != ""
    case _ => true
  }

  /** `String(v)`: how a value is written into the link. */
  function ToJsString(j: Json): string
    decreases j
  {
    match j
    case JNull => "null"
    case JBool(b) => if b then "true" else "false"
    case JNumber(n) => IntToString(n)
    case JString(s) => s
    case JArray(elems) =>
      Join(seq(|elems|, i requires 0 <= i < |elems| => ElementString(elems[i], j)), ",")
    case JObject(_) => "[object Object]"
  }

  /** An array element as `join` writes it: `null` becomes empty. */
  function ElementString(e: Json, parent: Json): string
    requires e < parent
    decreases parent, 0
  {
    if e.JNull? then "" else ToJsString(e)
  }

  /** `parsed.key || ""`, as text: the property when it is truthy, else empty.
      Reading a property of `null` throws, which the handler catches before any
      field is set, so that case is empty too. */
  function Field(parsed: Option<Json>, key: string): (r: string)
    ensures r != "" ==> parsed.Some? && parsed.value.JObject? && key in parsed.value.fields &&
                        Truthy(parsed.value.fields[key]) && r == ToJsString(parsed.value.fields[key])
    ensures (parsed.Some? && parsed.value.JObject? && key in parsed.value.fields &&
             Truthy(parsed.value.fields[key])) ==> r == ToJsString(parsed.value.fields[key])
  {
    match parsed
    case Some(JObject(m)) => if key in m && Truthy(m[key]) then ToJsString(m[key]) else ""
    case _ => ""
  }

  /** The five fields the handler ends up with. */
  function Extracted(parsed: Option<Json>): EventDetails {
    EventDetails(Field(parsed, "title"), Field(parsed, "details"), Field(parsed, "location"),
                 Field(parsed, "startDate"), Field(parsed, "endDate"))
  }

  /** The extraction step: five locals start empty and each is assigned
      `parsed.key || ""` in turn, inside a `try` whose `catch` keeps whatever was
      assigned before the error. */
  method ExtractEventDetails(parsed: Option<Json>) returns (e: EventDetails)
    ensures e == Extracted(parsed)
  {
    var title, details, location, startDate, endDate := "", "", "", "", "";
    if parsed.Some? && !parsed.value.JNull? {
      var v := parsed.value;
      title := Field(Some(v), "title");
      details := Field(Some(v), "details");
      location := Field(Some(v), "location");
      startDate := Field(Some(v), "startDate");
      endDate := Field(Some(v), "endDate");
    }
    e := EventDetails(title, details, location, startDate, endDate);
  }

  /** Unparseable text, and any JSON value other than an object, leaves all five
      fields empty. */
  lemma NonObjectEmpty(parsed: Option<Json>)
    requires parsed.None? || !parsed.value.JObject?
    ensures Extracted(parsed) == EventDetails("", "", "", "", "")
  {
  }

  // ---------------------------------------------------------------------------
  // The handler

  /** The handler's answer to `prompt` (`None` when absent). */
  method Ask(prompt: Option<string>, profile: Option<seq<QA>>,
             model: (string, string) -> Option<string>, parse: string -> Option<Json>)
    returns (r: Reply)
    ensures r.BadRequest? <==> prompt.None? || prompt == Some("")
    ensures r.BadRequest? ==> r.error == "Prompt is required."
    ensures !r.BadRequest? ==>
      var reply := model(ContextWithProfile(profile), prompt.value);
      var analysis := model(AnalysisInstruction, prompt.value);
      (r.ServerError? <==> reply.None? || (IsExactYes(reply.value) && analysis.None?)) &&
      (r.ServerError? ==> r.error == "Failed to process the request.") &&
      (r.Answer? ==> r.response == reply.value &&
                     (r.calendarUrl.Some? <==> IsExactYes(reply.value)) &&
                     (r.calendarUrl.Some? ==>
                        r.calendarUrl.value == CalendarUrl(Extracted(parse(analysis.value)))))
  {
    if prompt.None? || prompt.value == "" {
      return BadRequest("Prompt is required.");
    }
    var p := prompt.value;
    var reply := model(ContextWithProfile(profile), p);
    if reply.None? {
      return ServerError("Failed to process the request.");
    }
    var text := reply.value;
    if IsExactYes(text) {
      var analysis := model(AnalysisInstruction, p);
      if analysis.None? {
        return ServerError("Failed to process the request.");
      }
      var e := ExtractEventDetails(parse(analysis.value));
      r := Answer(text, Some(CalendarUrl(e)));
    } else {
      r := Answer(text, None);
    }
  }

  /** The link reads back to the extracted fields whenever the extracted date
      tokens hold no separator; an empty end token stays empty, since this
      handler has no fallback to the start token. */
  lemma ExtractedUrlRoundTrip(parsed: Option<Json>)
    requires VerbatimStart(Extracted(parsed).startDate) && '&' !in Extracted(parsed).endDate
    ensures ParseUrl(CalendarUrl(Extracted(parsed))) == Some(Extracted(parsed))
  {
    ParseCalendarUrl(Extracted(parsed));
  }

  /** With nothing extracted the link carries empty fields and `dates=/`. */
  lemma EmptyExtractionUrl()
    ensures CalendarUrl(EventDetails("", "", "", "", ""))
         == UrlHead + "&dates=/&details=&location=" + UrlTail
  {
    assert Encode("") == "";
    assert Query("", "", "", "", "") == Template("", "", "", "", "");
    assert Template("", "", "", "", "") == "&dates=/&details=&location=";
  }
}
