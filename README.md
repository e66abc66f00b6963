# MindEase logic, modelled in Dafny

MindEase is a mental-wellbeing web application: an Express/Mongoose server with a
Gemini-backed planner and mood tracker, and a React dashboard of small exercises.
This project models the parts of it that carry behaviour of their own and proves
what they promise:

- the daily **streak** update (`updateStreak`): create, same day, next day, gap, and
  the 60-entry history window, on the `UserStreak` document and its pre-save hook;
- the **usage statistics** of `/stats` and the `Response` document's validators
  (embedding length, mood labels and default);
- the **planner**: both `/ask` handlers (the routed one, with its 3-character "yes"
  prefix, two-word guard, fixed default event and `end || start` fallback; and the
  older one, with its profile context, exact trimmed "yes", JSON field extraction
  and no fallback), and the client planner page's fixed example link;
- the **Google Calendar deep link** itself, with `encodeURIComponent` (sections 2.1
  and 2.3 of RFC 3986, the ECMAScript unreserved set, UTF-8 octets) and a reader
  that recovers the five fields from any link the template builds;
- the **mood action** route: bearer check, counting the five most recent mood tags,
  the `reduce` argmax with its tie-break, and the mood→action table;
- the **calendar-token date formatter** (`formatDate`), with locale rendering left
  abstract;
- the dashboard state machines: the **breathing bubble** (phase of the 14-second
  cycle, `m:ss` formatting), the **shake countdown** (±5 s, completion), the
  **5-4-3-2-1 grounding** stepper over a jagged grid of text fields, the **profile
  questionnaire** (10 preset + 5 generated questions, numbered-list parsing), the
  **AI chat** message list, and the **text-to-speech** chunk concatenation with its
  fire-once auto-play notification.

Everything outside the program is a parameter: the language model's replies, the
parsed JSON, database query results, token verification, the clock and the local
time-zone offset (milliseconds east of UTC).

Layout: one module per source file (`Streak`, `UserStreakModel`, `ResponseModel`,
`PlannerRoute`, `GenAiPlanner`, `PlannerPage`, `MoodTracker`, `DateFormatter`,
`BreathingAnimation`, `Shakeit`, `Grounding`, `UserProfileFlow`, `AIChat`,
`TextToSpeech`), plus the shared `Wrappers` (`Option`), `Strings` (the JavaScript
string built-ins the code calls: `trim`, `toLowerCase`, `split`, `join`, `substring`,
`padStart`, integer `toString`), `UriComponent` (`encodeURIComponent` and its
inverse), `CalendarLink` (the link template and its reader) and `Countdown` (the
floored one-second tick both timers share). Pure code is written as functions and
lemmas; state that the components update in place is a class whose methods are
proved against specification functions.

## Model

| member | source | states |
|---|---|---|
| Streak.LocalMidnight | server/routes/streak.js:31-35 | `setHours(0,0,0,0)` under a fixed offset: the result is at most `t`, less than a day before it, and a local midnight |
| Streak.MidnightIdempotent | server/routes/streak.js:31-35 | truncating an already truncated time to midnight changes nothing |
| Streak.UtcDay | server/routes/streak.js:43-45 | the UTC calendar day that `toISOString().split('T')[0]` names: the day whose 24 hours contain `t` |
| Streak.FindOn | server/routes/streak.js:44-46 | the history search finds nothing exactly when no entry has today's UTC date, and what it finds is an entry of the history with that date |
| Streak.Window | server/routes/streak.js:81-83 | `slice(-60)` when longer than 60: keeps the last min(n, 60) entries, in their order |
| Streak.Touch | server/routes/streak.js:11-91 | the record after one visit; the longest run never decreases |
| Streak.TouchFirst | server/routes/streak.js:16-28 | a first visit gives current = longest = 1, lastActive = the untruncated time, and one active history entry dated that time |
| Streak.TouchSameDay | server/routes/streak.js:41-56 | same local day: counters and lastActive unchanged; the record is untouched when an entry has today's UTC date, else exactly today's entry is appended |
| Streak.TouchNextDay | server/routes/streak.js:59-67 | last visit on the previous local day: current rises by exactly 1, lastActive becomes today's midnight, longest = max(old longest, new current) |
| Streak.TouchGap | server/routes/streak.js:68-72 | any other gap, including a last visit after today: current = 1, lastActive = today's midnight, longest unchanged |
| Streak.TouchNewDayHistory | server/routes/streak.js:74-83 | on a new day today's entry is last, and the history is the most recent min(n+1, 60) entries of old history + today, in order |
| Streak.SameDayOverflow | server/routes/streak.js:48-54 | the same-day append is not trimmed: a full 60-entry history grows to 61 |
| Streak.TouchKeepsInv | server/routes/streak.js:11-91 | every visit keeps 1 <= current <= longest and a history of at most 60 entries, or 61 whose last is the same-day entry |
| Streak.VisitsKeepInv | server/routes/streak.js:11-91 | the invariant holds after any sequence of visits from a user's first |
| Streak.UpdateStreak | server/routes/streak.js:11-91 | the stored document (or a new one, created at `now`) ends in the state `Touch` prescribes; it is saved, stamping updatedAt, unless the visit changed nothing |
| Streak.CountUser | server/routes/streak.js:128 | the number of the user's responses, at most the number of documents |
| Streak.CountTagged | server/routes/streak.js:131-134 | the user's responses having a moodTag are never more than all of the user's responses |
| Streak.Stats | server/routes/streak.js:126-143 | eventsScheduled is always 0 and moodEntries <= totalInteractions |
| Streak.StatsAllTagged | server/routes/streak.js:131-134 | when every document carries a moodTag, moodEntries equals totalInteractions |
| UserStreakModel.CastEntry | server/models/UserStreak.js:22-31 | a history entry without a date is rejected; a missing `active` becomes true |
| UserStreakModel.UserStreak.constructor | server/models/UserStreak.js:3-39 | counters default to 0; lastActive, createdAt and updatedAt default to the creation time |
| UserStreakModel.UserStreak.Save | server/models/UserStreak.js:42-45 | saving succeeds iff the required userId (lines 4-9) is present; then updatedAt = the save time and no other field changes |
| ResponseModel.Create | server/models/Response.js:3-30 | saved iff userId, non-empty prompt and response, a 1536-entry embedding and a known or absent moodTag; a saved document always has a mood label, "neutral" by default, and the timestamp defaults to now; otherwise each failing path is reported, and only those |
| PlannerRoute.Ask | server/routes/Planner.js:16-81 | 400 iff the prompt is absent or empty; 500 iff the model call fails; scheduling iff the untrimmed reply starts with "yes" in any case and the trimmed prompt has white space inside; the scheduling reply carries the fixed text, the default event and its `end \|\| start` link; otherwise exactly "no" |
| PlannerRoute.WordCountSpace | server/routes/Planner.js:42 | `prompt.trim().split(/\s+/).length > 1` holds exactly when the trimmed prompt contains white space |
| PlannerRoute.SingleWordNeverSchedules | server/routes/Planner.js:42 | a one-word prompt, however padded, is never scheduling whatever the model says |
| PlannerRoute.BlankNeverSchedules | server/routes/Planner.js:42 | a whitespace-only prompt is never scheduling |
| PlannerRoute.YesPrefixCases | server/routes/Planner.js:42 | the prefix test holds iff the first three characters are y, e, s in either case |
| PlannerRoute.DefaultDatesBasic | server/routes/Planner.js:50-51 | the default date tokens are ISO 8601 basic-format date-times |
| PlannerRoute.SchedulingUrlRoundTrip | server/routes/Planner.js:46-68 | the link of a scheduling reply reads back to exactly the event details it carries |
| GenAiPlanner.UserContext | server/models/Planner.js:26-33 | the profile text is empty exactly when the profile has no responses |
| GenAiPlanner.UserContextMentions | server/models/Planner.js:29-31 | every response's `Q: …\nA: …` text appears in the profile context |
| GenAiPlanner.ContextWithProfile | server/models/Planner.js:39-41 | the instruction is sent alone exactly when there is no profile or it is empty; otherwise it is a strict prefix of the context |
| GenAiPlanner.ExactYesCases | server/models/Planner.js:55 | "yes" in any case, with any surrounding white space, is accepted |
| GenAiPlanner.ExactYesOnly | server/models/Planner.js:55 | only that is accepted: an accepted reply trims to three characters y, e, s |
| GenAiPlanner.Field | server/models/Planner.js:80-84 | `parsed.key \|\| ""`: the property's text when the parsed value is an object with a truthy property, else "" |
| GenAiPlanner.ExtractEventDetails | server/models/Planner.js:71-87 | the five reassigned locals end as the five extracted fields |
| GenAiPlanner.NonObjectEmpty | server/models/Planner.js:78-87 | unparseable text, or JSON that is not an object, leaves all five fields "" |
| GenAiPlanner.Ask | server/models/Planner.js:11-108 | 400 iff the prompt is absent or empty; 500 iff a model call fails; the answer echoes the reply, and carries a link, built from the extracted fields without fallback, exactly when the reply is an exact "yes"; the event details are never sent |
| GenAiPlanner.ExtractedUrlRoundTrip | server/models/Planner.js:94-98 | the link reads back to the extracted fields, an empty end date staying empty |
| GenAiPlanner.EmptyExtractionUrl | server/models/Planner.js:94-98 | with nothing extracted the link has empty fields and `dates=/` |
| CalendarLink.ParseCalendarUrl | server/models/Planner.js:94-98 | every no-fallback link reads back to exactly its five fields when the start token has no `&` or `/` and the end token no `&` |
| CalendarLink.ParseCalendarUrlEndOrStart | server/routes/Planner.js:57-61 | the fallback link reads back to its fields with an empty end replaced by the start token |
| CalendarLink.ParseCalendarUrlBasic | server/routes/Planner.js:57-61 | ISO 8601 basic-format date tokens always survive the round trip, with either template |
| CalendarLink.ParseRenderUrl | server/routes/Planner.js:57-61 | any link the template builds reads back to the title, details, location and date tokens it was built from |
| CalendarLink.UrlFrame | server/routes/Planner.js:57-61 | every link starts with the render endpoint and `action=TEMPLATE&text=` and ends with `&sf=true&output=xml` |
| CalendarLink.EncodeNoSeparators | server/routes/Planner.js:57-61 | an encoded field never contains `&` or `/`, so it cannot break the query |
| CalendarLink.BasicDateTimeVerbatim | server/routes/Planner.js:59 | a basic-format token has no separator that would disturb the verbatim `dates` value |
| CalendarLink.DatesSplit | server/routes/Planner.js:59 | the `dates` value splits at its first `/` into the start token and the end segment |
| UriComponent.Encode | server/routes/Planner.js:57-61 | `encodeURIComponent`: the result uses only unreserved characters and `%` |
| UriComponent.EncodeUnreserved | server/routes/Planner.js:57-61 | a string of unreserved characters is left unchanged |
| UriComponent.EncodeSpace | server/routes/Planner.js:57-61 | a space becomes `%20` |
| UriComponent.EncodeAppend | server/routes/Planner.js:57-61 | encoding works character by character: it distributes over concatenation |
| UriComponent.HexRoundTrip | server/routes/Planner.js:57-61 | the upper-case hex digit of a value below 16 reads back to that value |
| UriComponent.EscapeByteRoundTrip | server/routes/Planner.js:57-61 | a `%XX` escape reads back to its octet |
| UriComponent.DecodeEncodeChar | server/routes/Planner.js:57-61 | decoding the encoding of one character gives that character back |
| UriComponent.DecodeEncode | server/routes/Planner.js:57-61 | decoding undoes encoding for every string |
| UriComponent.EncodeInjective | server/routes/Planner.js:57-61 | different texts never encode to the same component |
| PlannerPage.TitleEncoding | client/src/pages/Planner.tsx:6 | "My Awesome Event" is emitted as `My%20Awesome%20Event` |
| PlannerPage.DetailsEncoding | client/src/pages/Planner.tsx:7 | the details have each space as `%20` and the final `.` left as it is |
| PlannerPage.LocationEncoding | client/src/pages/Planner.tsx:8 | "Online" passes through unchanged |
| PlannerPage.EncodeSpaced | client/src/pages/Planner.tsx:12-16 | an unreserved word followed by a space is emitted as the word and `%20` |
| PlannerPage.AddEventUrlValue | client/src/pages/Planner.tsx:5-16 | the page's link is exactly the render endpoint, the encoded title, `20250405T090000Z/20250405T100000Z`, the encoded details, `Online` and the fixed tail |
| PlannerPage.AddEventUrlRoundTrip | client/src/pages/Planner.tsx:5-16 | the page's link reads back to exactly its five constants |
| MoodTracker.TokenOfBearer | server/routes/MoodTracker.js:11-15 | a `Bearer ` header passes the check and yields the token after the space |
| MoodTracker.MoodOf | server/routes/MoodTracker.js:36 | a missing or empty tag counts as "neutral", and nothing else does unless it is "neutral" |
| MoodTracker.Moods | server/routes/MoodTracker.js:35-36 | one mood per response, in order |
| MoodTracker.FirstSeen | server/routes/MoodTracker.js:34-38 | the object's keys: each mood once, every mood seen and no other |
| MoodTracker.CountMoods | server/routes/MoodTracker.js:34-38 | the counting loop ends with the keys in order of first occurrence and the counts of the moods seen |
| MoodTracker.CountStep | server/routes/MoodTracker.js:37 | one more mood appends a new key, and its count goes up by one |
| MoodTracker.TallyOfMoods | server/routes/MoodTracker.js:34-38 | each key's count is the number of occurrences of that mood |
| MoodTracker.CountsSum | server/routes/MoodTracker.js:34-38 | the counts sum to the number of responses considered |
| MoodTracker.PredominantIndex | server/routes/MoodTracker.js:40-42 | the `reduce` stops at a key of maximal count that every later key strictly trails, so ties go to the later key |
| MoodTracker.ActionTable | server/routes/MoodTracker.js:44-71 | the six labels map to their fixed actions; every other mood gets the neutral suggestion |
| MoodTracker.Recent | server/routes/MoodTracker.js:21-24 | at most the 5 newest responses, a prefix of the newest-first list, all of them when fewer than 5 |
| MoodTracker.HandleMoodAction | server/routes/MoodTracker.js:7-82 | 401 iff the header is missing or lacks `Bearer `; 500 iff token or query fails; no responses give neutral; otherwise the mood is `PredominantMood` of the responses' moods (the `reduce` over the counter's keys in first-seen order with strict `>`, so a tie goes to the key seen later), hence one seen at least as often as any other, and the suggestion and action are the table's entry for it, while the reported mood keeps an unknown name |
| MoodTracker.PredominantIsMostFrequent | server/routes/MoodTracker.js:40-42 | the chosen mood occurs among the responses at least as often as every other mood |
| MoodTracker.TieGoesToLater | server/routes/MoodTracker.js:40-42 | two "sad" then two "happy": the later key "happy" wins the tie, both in `Predominant` and in the handler's `PredominantMood` of sad, happy, sad, happy |
| DateFormatter.FormatDate | client/src/utils/dateFormatter.ts:9-60 | empty input gives "Not specified"; without a `T` an unparseable input comes back unchanged, a parseable one is rendered as a time or a date |
| DateFormatter.FirstTwoSegments | client/src/utils/dateFormatter.ts:14-31 | with a `T`, dates use the text before the first `T` and times the text between the first and second; anything after a second `T` is ignored |
| DateFormatter.BasicToken | client/src/utils/dateFormatter.ts:14-33 | a `YYYYMMDDThhmmss[Z]` token shows its chars 0-4, 4-6, 6-8 as year, month, day, or its hours and minutes; seconds and `Z` are ignored |
| Countdown.TickValue | client/src/pages/Dashboard/components/BreathingAnimation.tsx:25-28 | a tick never goes below zero and otherwise takes one second off |
| Countdown.TicksFloor | client/src/pages/Dashboard/components/Shakeit.tsx:49-64 | n ticks from t leave t - n, floored at 0 |
| BreathingAnimation.JsRem | client/src/pages/Dashboard/components/BreathingAnimation.tsx:44 | JavaScript `%`: Euclidean for non-negative operands, non-positive for negative ones |
| BreathingAnimation.PhasePeriodic | client/src/pages/Dashboard/components/BreathingAnimation.tsx:44-52 | the phase repeats every 14 seconds |
| BreathingAnimation.CycleMakeUp | client/src/pages/Dashboard/components/BreathingAnimation.tsx:17-20 | each 14-second cycle is 4 seconds of inhale, 4 of hold, 6 of exhale |
| BreathingAnimation.CycleOrder | client/src/pages/Dashboard/components/BreathingAnimation.tsx:44-52 | within a cycle: offset < 4 is inhale, < 8 hold, else exhale |
| BreathingAnimation.NegativeElapsedInhales | client/src/pages/Dashboard/components/BreathingAnimation.tsx:44-47 | a negative elapsed time, possible when timeLeft exceeds totalTime, always shows inhale |
| BreathingAnimation.FormatTimeRoundTrip | client/src/pages/Dashboard/components/BreathingAnimation.tsx:73-77 | `m:ss` reads back to the seconds it shows: minutes·60 + seconds = s |
| BreathingAnimation.FormatTimeInjective | client/src/pages/Dashboard/components/BreathingAnimation.tsx:73-77 | different second counts never format alike |
| BreathingAnimation.PadTwoDigits | client/src/pages/Dashboard/components/BreathingAnimation.tsx:76 | `padStart(2, "0")` of a value below 100 has two digits and reads back to the value |
| BreathingAnimation.BreathingBubble.constructor | client/src/pages/Dashboard/components/BreathingAnimation.tsx:11-14 | inactive, inhale, 0 seconds left of a 120-second session |
| BreathingAnimation.BreathingBubble.Tick | client/src/pages/Dashboard/components/BreathingAnimation.tsx:25-28 | timeLeft becomes prev − 1 floored at 0; nothing else changes |
| BreathingAnimation.BreathingBubble.FinishIfDone | client/src/pages/Dashboard/components/BreathingAnimation.tsx:35-39 | an active timer at 0 becomes inactive; nothing else changes |
| BreathingAnimation.BreathingBubble.UpdatePhase | client/src/pages/Dashboard/components/BreathingAnimation.tsx:41-57 | the phase becomes the phase of the elapsed time |
| BreathingAnimation.BreathingBubble.Toggle | client/src/pages/Dashboard/components/BreathingAnimation.tsx:59-65 | flips isActive, reloading totalTime first when starting from 0, so an active timer has time left |
| BreathingAnimation.BreathingBubble.Reset | client/src/pages/Dashboard/components/BreathingAnimation.tsx:67-71 | inactive, timeLeft = totalTime, phase inhale |
| BreathingAnimation.SessionPhase | client/src/pages/Dashboard/components/BreathingAnimation.tsx:44 | after k ticks of a full session the elapsed time is k, so the phase is that of k, and the timer reaches 0 exactly at 120 |
| Shakeit.ShakeTimer.constructor | client/src/pages/Dashboard/components/Shakeit.tsx:12-22 | seconds = inputTime = defaultSeconds, inactive, not complete |
| Shakeit.ShakeTimer.Tick | client/src/pages/Dashboard/components/Shakeit.tsx:47-65 | while active with time left, one second less, never below 0 |
| Shakeit.ShakeTimer.Settle | client/src/pages/Dashboard/components/Shakeit.tsx:66-70 | active at 0 becomes inactive and complete and calls `onComplete` once; otherwise nothing changes |
| Shakeit.ShakeTimer.Start | client/src/pages/Dashboard/components/Shakeit.tsx:79-86 | active and not complete, time left kept |
| Shakeit.ShakeTimer.Restart | client/src/pages/Dashboard/components/Shakeit.tsx:192-198 | the corrected button: a countdown at 0 is reloaded with inputTime before it starts |
| Shakeit.ShakeTimer.Reset | client/src/pages/Dashboard/components/Shakeit.tsx:88-92 | seconds = inputTime, inactive, not complete |
| Shakeit.ShakeTimer.Increment | client/src/pages/Dashboard/components/Shakeit.tsx:94-100 | only when inactive: inputTime + 5, and seconds = the new inputTime |
| Shakeit.ShakeTimer.Decrement | client/src/pages/Dashboard/components/Shakeit.tsx:102-108 | only when inactive and inputTime > 5: inputTime − 5 and seconds = it, so the length stays positive |
| Shakeit.RunSession | client/src/pages/Dashboard/components/Shakeit.tsx:44-92 | a reset and started countdown ends at 0, inactive and complete, with `onComplete` called exactly once |
| Grounding.PromptCounts | client/src/pages/Dashboard/components/Exercise.tsx:4-10 | five prompts, asking for 5, 4, 3, 2, 1 things |
| Grounding.GroundingExercise.constructor | client/src/pages/Dashboard/components/Exercise.tsx:13-17 | step 0, not completed, row i holding count[i] empty strings |
| Grounding.GroundingExercise.HandleChange | client/src/pages/Dashboard/components/Exercise.tsx:20-24 | only cell (step, idx) of the grid changes |
| Grounding.GroundingExercise.NextStep | client/src/pages/Dashboard/components/Exercise.tsx:26-35 | below the last step, step + 1; at the last step, completed with the step kept |
| Grounding.GroundingExercise.PrevStep | client/src/pages/Dashboard/components/Exercise.tsx:37-39 | step − 1 only when positive, so the step stays within 0..4 |
| UserProfileFlow.PresetCountIsLength | client/src/pages/Dashboard/components/UserProfile.tsx:23-34 | there are ten preset questions |
| UserProfileFlow.QuestionAt | client/src/pages/Dashboard/components/UserProfile.tsx:70-72 | index < 10 gives the preset question, otherwise follow-up index − 10, absent when there is none |
| UserProfileFlow.SplitNumbered | client/src/pages/Dashboard/components/UserProfile.tsx:100 | `split(/\d+\./)` yields one piece exactly when the text has no number followed by a dot |
| UserProfileFlow.ParseFollowUps | client/src/pages/Dashboard/components/UserProfile.tsx:99-103 | at most 5 questions, each non-empty and trimmed |
| UserProfileFlow.FollowUpsRoundTrip | client/src/pages/Dashboard/components/UserProfile.tsx:99-103 | a numbered list `1. q1 2. q2 …` of trimmed questions without markers parses back to its first five questions |
| UserProfileFlow.UnnumberedReply | client/src/pages/Dashboard/components/UserProfile.tsx:99-103 | a reply without numbering yields its trimmed text as the one question, or none when blank |
| UserProfileFlow.QuestionsBeforeFollowUps | client/src/pages/Dashboard/components/UserProfile.tsx:69-73 | replacing the follow-ups never changes the questions recorded for the first ten answers |
| UserProfileFlow.Questionnaire.constructor | client/src/pages/Dashboard/components/UserProfile.tsx:12-38 | first question, nothing answered, all flags false |
| UserProfileFlow.Questionnaire.SetAnswer | client/src/pages/Dashboard/components/UserProfile.tsx:65-77 | only the current answer changes |
| UserProfileFlow.Questionnaire.SubmitAnswer | client/src/pages/Dashboard/components/UserProfile.tsx:65-121 | a blank answer changes nothing; otherwise exactly one {question, answer} is appended and the answer cleared; at index 9 a reply sets the parsed follow-ups; the index advances while < 14 and at 14 the answers are saved instead |
| UserProfileFlow.Questionnaire.Retest | client/src/pages/Dashboard/components/UserProfile.tsx:149-157 | back to index 0 with no answers, no follow-ups and all flags false |
| AIChat.History | client/src/pages/Dashboard/components/AIChat.tsx:37-40 | one turn per message, in order, with its text; role "user" exactly for user messages and "model" exactly for AI ones |
| AIChat.GenerateResponse | client/src/pages/Dashboard/components/AIChat.tsx:32-56 | never fails: the model's text, or the fixed apology |
| AIChat.ReplaceById | client/src/pages/Dashboard/components/AIChat.tsx:84-88 | same length and order; messages with the id get the text and stop loading, all others are unchanged |
| AIChat.ReplaceOne | client/src/pages/Dashboard/components/AIChat.tsx:84-88 | with the id at one position only, exactly that message changes |
| AIChat.ReplaceTwice | client/src/pages/Dashboard/components/AIChat.tsx:84-95 | a second replacement of the same id overrides the first |
| AIChat.IdsDistinct | client/src/pages/Dashboard/components/AIChat.tsx:63-70 | the placeholder's id `t2 + 1` differs from the user message's id `t1` whenever t1 <= t2 |
| AIChat.Chat.constructor | client/src/pages/Dashboard/components/AIChat.tsx:18-20 | no messages, empty input, not typing |
| AIChat.Chat.SetInput | client/src/pages/Dashboard/components/AIChat.tsx:19 | only the input changes |
| AIChat.Chat.Submit | client/src/pages/Dashboard/components/AIChat.tsx:58-79 | blank input changes nothing; otherwise the user message and an empty loading AI placeholder are appended in that order, the input cleared and typing shown, and the pre-submit history is kept for the model |
| AIChat.Chat.Resolve | client/src/pages/Dashboard/components/AIChat.tsx:81-98 | only the placeholder takes the reply (or the apology) and stops loading; typing ends |
| AIChat.Chat.ResolveFailed | client/src/pages/Dashboard/components/AIChat.tsx:89-98 | only the placeholder takes the fixed error text; typing ends |
| AIChat.Exchange | client/src/pages/Dashboard/components/AIChat.tsx:58-99 | a full submit: exactly two messages are added after the old ones, the user's and the AI's answer to the old history |
| TextToSpeech.TotalLength | client/src/pages/Dashboard/components/Testing.tsx:42 | the sum of the chunk lengths is the length of their concatenation |
| TextToSpeech.ChunkAt | client/src/pages/Dashboard/components/Testing.tsx:44-48 | chunk i sits in the concatenation at the sum of the lengths before it |
| TextToSpeech.Combine | client/src/pages/Dashboard/components/Testing.tsx:42-48 | the buffer has the total length and holds the chunks' in-order concatenation |
| TextToSpeech.Speaker.constructor | client/src/pages/Dashboard/components/Testing.tsx:13-16 | not loading, no audio, not auto-played |
| TextToSpeech.Speaker.BeginGenerate | client/src/pages/Dashboard/components/Testing.tsx:19-22 | does nothing when already loading, else starts loading |
| TextToSpeech.Speaker.FinishGenerate | client/src/pages/Dashboard/components/Testing.tsx:35-71 | loading ends on success and failure; success stores the concatenated audio and its url and plays it when mounted |
| TextToSpeech.Speaker.NotifyOnce | client/src/pages/Dashboard/components/Testing.tsx:61-64 | `onPlayed` has been called once exactly when the flag is set, never more |
| TextToSpeech.Speaker.OnEnded | client/src/pages/Dashboard/components/Testing.tsx:112-116 | the second call site keeps `onPlayed` to at most one call |
| TextToSpeech.Speaker.HandleGenerateSpeech | client/src/pages/Dashboard/components/Testing.tsx:81-89 | replays existing audio, otherwise generates |
| TextToSpeech.Speaker.OnMount | client/src/pages/Dashboard/components/Testing.tsx:92-96 | generation starts on mount exactly when auto-play is on, not yet done, and not loading |
| Strings.Trim | server/routes/Planner.js:42 | `trim`: the result has no leading or trailing white space, and is empty exactly when the input is all white space |
| Strings.SplitWhitespace | server/routes/Planner.js:42 | `split(/\s+/)`: at least one piece, and more than one exactly when the text holds white space |
| Strings.SplitJoinWords | server/routes/Planner.js:42 | splitting words joined by single spaces gives the words back |
| Strings.SplitOnCons | client/src/utils/dateFormatter.ts:15 | `split` on one character: the text before its first occurrence is the first piece, and the rest is split further |
| Strings.NatToString | client/src/pages/Dashboard/components/BreathingAnimation.tsx:76 | the decimal text of a natural number, non-empty and all digits |
| Strings.ParseNatToString | client/src/pages/Dashboard/components/BreathingAnimation.tsx:74-76 | decimal text reads back to its number |

## Left out

- The language model, the embedding service and token verification are function
  parameters; their replies are inputs. The JSON parser is too: the extractor
  receives the parse result.
- Database reads and writes are parameters or object state. `Streak.Stats` takes the
  response documents as a sequence, and `Streak.UpdateStreak` takes the found
  document. Concurrent updates of one user's streak document are not modelled.
- Time zones are a fixed offset in milliseconds; daylight-saving changes are not
  modelled. A "day" for `yesterday` is the local midnight 24 hours earlier.
- Strings are sequences of Unicode scalar values. JavaScript's UTF-16 code units
  and lone surrogates are not modelled. A prompt (which a JSON body can carry as
  `"\ud800"`) or an extracted event field containing a lone surrogate makes
  `encodeURIComponent` throw: the route then answers 500 "Failed to generate
  calendar URL" (server/routes/Planner.js:69-72), and the handler in
  server/models/Planner.js answers 500 "Failed to process the request."
  (server/models/Planner.js:94-107). The model has no such strings, so it never
  takes these two branches. `toLowerCase` is modelled for ASCII letters only,
  which covers every comparison with "yes".
- JSON numbers are integers, so a fractional or exponent number extracted as an
  event field is not rendered, and an integer is rendered with all its digits,
  while JavaScript writes integers of magnitude 10^21 or more in exponent form
  ("1e+21"). Object key order in the mood counter is insertion order; JavaScript
  lists integer-like keys first, so a mood tag such as "1" would change the
  tie-break. The counter and the mood table are plain objects that inherit
  `Object.prototype`, so a tag such as "constructor" or "toString" would start
  from an inherited value in `moodCount` and find one in `moodMap`. The schema's
  enum (server/models/Response.js:21-25) admits none of these tags.
- The order of documents with equal timestamps in the mood query is whatever the
  query returns.
- Locale rendering (`toLocaleDateString`, `toLocaleTimeString`) is left abstract as
  the text handed to `new Date`. Whether `new Date` can parse a `T`-less input is a
  parameter. `DateFormatter.FormatDate` does not model the `catch` branch: no step
  of the model throws.
- Timers, intervals, effects, sounds, animations, navigation and rendering are not
  modelled. Each tick, effect or handler is an explicit method call. The mute
  setting of the shake countdown is not modelled.
- The `isSubmitting` and `savingProfile` flags, loading an existing profile, and the
  network failures of the profile save are not modelled.
- `handleSubmit`'s `catch` in the chat cannot be reached, since `generateResponse`
  never throws; it is still modelled as `AIChat.Chat.ResolveFailed`.
- The JWT middleware of the streak routes is not modelled.
- A token rejected by `jwt.verify` in the mood route throws and yields 500, not 401;
  the model follows the code.
- server/models/Planner.js cannot load as a module: it uses an undefined `app` and
  `evaluateThink`. Only its handler logic is modelled. Its optional profile lookup
  is an input (`None` when there is no user or the lookup fails).
- BreathingAnimation.FormatTime: modelled on non-negative seconds only; the
  component never formats a negative time.
- UI presentation components, the service worker, the build configuration, and the
  LLM, TTS and vector-search routes are not part of this model.

## Findings

| source | as written | input that shows it | evidently intended | confidence | as-written member | corrected member |
|---|---|---|---|---|---|---|
| client/src/pages/Dashboard/components/Shakeit.tsx:192-198 | after a countdown completes, the "Restart" button calls `startTimer` (lines 79-81), which sets the timer active but leaves `seconds` at 0. The completion effect (lines 66-70) then fires again at once, so the timer is complete again and `onComplete` is called a second time, with no countdown | a finished countdown (isComplete, seconds = 0), then the Restart button | Restart starts a new countdown of the chosen length, without calling `onComplete` | not executed | Shakeit.RestartAsWritten | Shakeit.RestartCorrected |
