/** The profile questionnaire of the dashboard: ten preset questions, then five
    follow-up questions the language model writes from the first ten answers,
    returned as a numbered list. Each accepted answer is stored with its
    question; after the fifteenth the profile is saved.

    The two requests become inputs: the follow-up reply is `Some(text)` when
    the request succeeded, and saving is recorded as the list of answers
    handed to the save request. Loading an existing profile is left out. */
module UserProfileFlow {
  import opened Wrappers
  import opened Strings

  const PresetQuestions: seq<string> := [
    "How would you describe your overall mood most days?",
    "What activities bring you the most joy?",
    "What are your biggest sources of stress?",
    "How do you typically handle difficult emotions?",
    "What are your short-term goals for mental wellbeing?",
    "How would your closest friends describe your personality?",
    "What patterns or habits do you notice affecting your mental state?",
    "What personal growth areas are most important to you right now?",
    "How do you define success for yourself?",
    "What support systems do you currently have in place?"
  ]

  /** The number of preset questions. */
  const PresetCount: nat := 10

  lemma PresetCountIsLength()
    ensures |PresetQuestions| == PresetCount
  {
  }

  /** The number of follow-up questions asked for and kept. */
  const FollowUpCount: nat := 5

  /** The index of the last question, `presetQuestions.length + 4`. */
  const LastIndex: nat := PresetCount + FollowUpCount - 1

  /** A stored answer; the question is `None` where the page read past the
      end of the follow-up list (`undefined`). */
  datatype Answer = Answer(question: Option<string>, answer: string)

  // ---------------------------------------------------------------------------
  // Question selection

  /** The question shown at `index`: a preset one for the first ten, then the
      follow-ups in order. */
  function QuestionAt(index: nat, followUps: seq<string>): (r: Option<string>)
    ensures index < PresetCount ==> r == Some(PresetQuestions[index])
    ensures index >= PresetCount ==>
              (r.Some? <==> index - PresetCount < |followUps|) &&
              (r.Some? ==> r.value == followUps[index - PresetCount])
  {
    PresetCountIsLength();
    if index < PresetCount then Some(PresetQuestions[index])
    else if index - PresetCount < |followUps| then Some(followUps[index - PresetCount])
    else None
  }

  // ---------------------------------------------------------------------------
  // Splitting a numbered list: `text.split(/\d+\./)`

  /** True when some digit is directly followed by `.`, which is exactly when
      `/\d+\./` matches somewhere. */
  predicate HasMarker(s: string) {
    exists k :: 0 <= k < |s| - 1 && MarkerAt(s, k)
  }

  /** A digit at `k` directly followed by `.`. */
  predicate MarkerAt(s: string, k: int) {
    0 <= k < |s| - 1 && IsDigit(s[k]) && s[k + 1] == '.'
  }

  /** The number of leading digits. */
  function RunLen(s: string): (n: nat)
    ensures n <= |s|
    ensures forall i :: 0 <= i < n ==> IsDigit(s[i])
    ensures n < |s| ==> !IsDigit(s[n])
  {
    if s != [] && IsDigit(s[0]) then 1 + RunLen(s[1..]) else 0
  }

  /** The length of a match of `/\d+\./` at the start of `s`, if any: the
      greedy digit run must be followed by `.`. */
  function MatchLen(s: string): (r: Option<nat>)
    ensures r.Some? ==> 2 <= r.value <= |s| && r.value == RunLen(s) + 1 && s[r.value - 1] == '.'
    ensures r.None? ==> forall k :: 1 <= k <= RunLen(s) && k < |s| ==> s[k] != '.'
  {
    var n := RunLen(s);
    if 0 < n < |s| && s[n] == '.' then Some(n + 1) else None
  }

  /** With no match at the start of `s`, a prefix of `s` has a marker only
      if the same stretch of `s[1..]` has one. */
  lemma NoMarkerShift(s: string, m: nat)
    requires s != [] && MatchLen(s).None? && 1 <= m <= |s|
    requires !HasMarker(s[1..][..m - 1])
    ensures !HasMarker(s[..m])
  {
    var p, t := s[..m], s[1..][..m - 1];
    forall k | 0 <= k < |p| - 1 ensures !MarkerAt(p, k) {
      if k == 0 {
        if IsDigit(s[0]) {
          assert RunLen(s) >= 1;
        }
      } else {
        assert t[k - 1] == s[k] && t[k] == s[k + 1];
        assert !MarkerAt(t, k - 1);
      }
    }
  }

  lemma MarkerShift(s: string, m: nat)
    requires 1 <= m <= |s|
    requires HasMarker(s[1..][..m - 1])
    ensures HasMarker(s[..m])
  {
    var t := s[1..][..m - 1];
    var k :| 0 <= k < |t| - 1 && MarkerAt(t, k);
    assert t[k] == s[k + 1] && t[k + 1] == s[k + 2];
    assert s[..m][k + 1] == s[k + 1] && s[..m][k + 2] == s[k + 2];
    assert MarkerAt(s[..m], k + 1);
  }

  /** The leftmost match of `/\d+\./`, as its start and end. */
  function FirstMatch(s: string): (r: Option<(nat, nat)>)
    ensures r.None? <==> !HasMarker(s)
    ensures r.Some? ==> var (i, j) := r.value;
      i + 2 <= j <= |s| && IsDigit(s[j - 2]) && s[j - 1] == '.' && !HasMarker(s[..j - 1])
    decreases |s|
  {
    if s == [] then None
    else match MatchLen(s)
      case Some(n) =>
        assert !HasMarker(s[..n - 1]) by {
          var t := s[..n - 1];
          forall k | 0 <= k < |t| - 1 ensures !MarkerAt(t, k) { assert IsDigit(t[k + 1]); }
        }
        assert IsDigit(s[n - 2]) && s[n - 1] == '.';
        assert MarkerAt(s, n - 2);
        Some((0, n))
      case None =>
        var rest := FirstMatch(s[1..]);
        if rest.None? then
          assert s[1..][..|s| - 1] == s[1..] && s[..|s|] == s;
          NoMarkerShift(s, |s|);
          None
        else
          var (i, j) := rest.value;
          assert s[1..][j - 2] == s[j - 1] && s[1..][j - 1] == s[j];
          NoMarkerShift(s, j);
          assert HasMarker(s) by {
            assert s[1..][..|s| - 1] == s[1..] && s[..|s|] == s;
            MarkerShift(s, |s|);
          }
          Some((i + 1, j + 1))
  }

  /** `s.split(/\d+\./)`: the pieces between successive leftmost matches. */
  function SplitNumbered(s: string): (r: seq<string>)
    ensures |r| >= 1
    ensures |r| == 1 <==> !HasMarker(s)
    decreases |s|
  {
    match FirstMatch(s)
    case None => [s]
    case Some((i, j)) => [s[..i]] + SplitNumbered(s[j..])
  }

  // ---------------------------------------------------------------------------
  // The follow-up list

  /** `.filter(q => q.trim()).map(q => q.trim())`. */
  function Cleaned(pieces: seq<string>): (r: seq<string>)
    ensures |r| <= |pieces|
    ensures forall k :: 0 <= k < |r| ==> r[k] != [] && IsTrimmed(r[k])
  {
    if pieces == [] then []
    else (if AllSpace(pieces[0]) then [] else [Trim(pieces[0])]) + Cleaned(pieces[1..])
  }

  /** The follow-up questions read from the model's reply: at most five,
      each trimmed and non-blank. */
  function ParseFollowUps(text: string): (r: seq<string>)
    ensures |r| <= FollowUpCount
    ensures forall k :: 0 <= k < |r| ==> r[k] != [] && IsTrimmed(r[k])
  {
    var qs := Cleaned(SplitNumbered(text));
    if |qs| <= FollowUpCount then qs else qs[..FollowUpCount]
  }

  /** A numbered list as the model is asked to write it: `n. q` per line. */
  function NumberedList(qs: seq<string>, n: nat): string
    decreases |qs|
  {
    if qs == [] then "" else NatToString(n) + "." + Line(qs[0]) + NumberedList(qs[1..], n + 1)
  }

  function Line(q: string): string {
    " " + q + "\n"
  }

  /** A question the list can carry: trimmed, non-blank, and with no digit
      directly followed by `.`. */
  predicate Listable(q: string) {
    q != [] && IsTrimmed(q) && !HasMarker(q)
  }

  lemma RunLenDigitsDot(d: string, x: string)
    requires AllDigits(d)
    ensures RunLen(d + "." + x) == |d|
  {
    if d != [] {
      assert (d + "." + x)[1..] == d[1..] + "." + x;
      RunLenDigitsDot(d[1..], x);
    }
  }

  /** A list starts with a match covering its first number and dot. */
  lemma FirstMatchNumber(d: string, x: string)
    requires d != [] && AllDigits(d)
    ensures FirstMatch(d + "." + x) == Some((0, |d| + 1))
  {
    RunLenDigitsDot(d, x);
    assert (d + "." + x)[|d|] == '.';
  }

  lemma LineNoMarker(q: string)
    requires Listable(q)
    ensures !HasMarker(Line(q))
  {
    var l := Line(q);
    forall k | 0 <= k < |l| - 1 ensures !MarkerAt(l, k) {
      if 1 <= k < |q| {
        assert l[k] == q[k - 1] && l[k + 1] == q[k];
        assert !MarkerAt(q, k - 1);
      }
    }
  }

  lemma {:induction false} RunLenPrefix(a: string, b: string)
    requires RunLen(a) < |a|
    ensures RunLen(a + b) == RunLen(a)
  {
    if RunLen(a) > 0 {
      assert (a + b)[1..] == a[1..] + b;
      RunLenPrefix(a[1..], b);
    }
  }

  lemma NoMatchAtStart(a: string, b: string)
    requires a != [] && !IsDigit(a[|a| - 1]) && !HasMarker(a)
    ensures MatchLen(a + b).None?
  {
    var n := RunLen(a);
    assert n < |a|;
    RunLenPrefix(a, b);
    if n > 0 {
      assert !MarkerAt(a, n - 1);
    }
    assert (a + b)[n] == a[n];
  }

  lemma NoMarkerTail(a: string)
    requires a != [] && !HasMarker(a)
    ensures !HasMarker(a[1..])
  {
    var t := a[1..];
    forall k | 0 <= k < |t| - 1 ensures !MarkerAt(t, k) {
      assert !MarkerAt(a, k + 1);
      assert t[k] == a[k + 1] && t[k + 1] == a[k + 2];
    }
  }

  /** A prefix without a match that ends in a non-digit shifts the leftmost
      match of what follows. */
  lemma {:induction false} FirstMatchAfter(a: string, b: string)
    requires a != [] && !IsDigit(a[|a| - 1]) && !HasMarker(a)
    ensures FirstMatch(a + b) == match FirstMatch(b)
      case None => None
      case Some((i, j)) => Some((i + |a|, j + |a|))
    decreases |a|
  {
    NoMatchAtStart(a, b);
    assert (a + b)[1..] == a[1..] + b;
    if |a| > 1 {
      NoMarkerTail(a);
      FirstMatchAfter(a[1..], b);
    } else {
      assert a[1..] + b == b;
    }
  }

  /** One line per question, each `" " + q + "\n"`. */
  function Lines(qs: seq<string>): (r: seq<string>)
    ensures |r| == |qs|
  {
    if qs == [] then [] else [Line(qs[0])] + Lines(qs[1..])
  }

  lemma SplitStep(s: string, i: nat, j: nat)
    requires FirstMatch(s) == Some((i, j))
    ensures SplitNumbered(s) == [s[..i]] + SplitNumbered(s[j..])
  {
  }

  lemma SplitNone(s: string)
    requires !HasMarker(s)
    ensures SplitNumbered(s) == [s]
  {
  }

  /** A line without a match, ending in a non-digit, stays one piece in front
      of a following number and its dot. */
  lemma SplitLineThenNumber(a: string, d: string, x: string)
    requires a != [] && !IsDigit(a[|a| - 1]) && !HasMarker(a)
    requires d != [] && AllDigits(d)
    ensures SplitNumbered(a + (d + "." + x)) == [a] + SplitNumbered(x)
  {
    var s := a + (d + "." + x);
    var i, j := |a|, |a| + |d| + 1;
    assert FirstMatch(s) == Some((i, j)) by {
      FirstMatchNumber(d, x);
      FirstMatchAfter(a, d + "." + x);
    }
    assert s[..i] == a && s[j..] == x by {
      assert s == a + d + ['.'] + x;
    }
    SplitStep(s, i, j);
  }

  /** The text after a number and its dot splits into one line per question. */
  lemma {:induction false} SplitAfterNumber(qs: seq<string>, n: nat)
    requires qs != []
    requires forall k :: 0 <= k < |qs| ==> Listable(qs[k])
    ensures SplitNumbered(Line(qs[0]) + NumberedList(qs[1..], n + 1)) == Lines(qs)
    decreases |qs|
  {
    var a := Line(qs[0]);
    LineNoMarker(qs[0]);
    var rest := qs[1..];
    if rest == [] {
      assert a + NumberedList(rest, n + 1) == a;
      SplitNone(a);
    } else {
      var x := Line(rest[0]) + NumberedList(rest[1..], n + 2);
      assert NumberedList(rest, n + 1) == NatToString(n + 1) + "." + x;
      assert a[|a| - 1] == '\n';
      SplitLineThenNumber(a, NatToString(n + 1), x);
      SplitAfterNumber(rest, n + 1);
      assert Lines(qs) == [a] + Lines(rest);
    }
  }

  lemma TrimLine(q: string)
    requires Listable(q)
    ensures !AllSpace(Line(q)) && Trim(Line(q)) == q
  {
    TrimPadded(" ", q, "\n");
  }

  lemma {:induction false} CleanedLines(qs: seq<string>)
    requires forall k :: 0 <= k < |qs| ==> Listable(qs[k])
    ensures Cleaned(Lines(qs)) == qs
  {
    if qs != [] {
      var lines := Lines(qs);
      assert lines[0] == Line(qs[0]) && lines[1..] == Lines(qs[1..]);
      TrimLine(qs[0]);
      CleanedLines(qs[1..]);
    }
  }

  /** A text that starts with a number and its dot splits into an empty
      piece, then the pieces of what follows the dot. */
  lemma SplitLeadingNumber(d: string, x: string)
    requires d != [] && AllDigits(d)
    ensures SplitNumbered(d + "." + x) == [""] + SplitNumbered(x)
  {
    var s := d + "." + x;
    FirstMatchNumber(d, x);
    assert s[..0] == "" && s[|d| + 1..] == x by {
      assert s == d + ['.'] + x;
    }
    SplitStep(s, 0, |d| + 1);
  }

  /** A numbered list splits into an empty piece before the first number,
      then one line per question. */
  lemma SplitList(qs: seq<string>, n: nat)
    requires qs != []
    requires forall k :: 0 <= k < |qs| ==> Listable(qs[k])
    ensures SplitNumbered(NumberedList(qs, n)) == [""] + Lines(qs)
  {
    var d, x := NatToString(n), Line(qs[0]) + NumberedList(qs[1..], n + 1);
    assert NumberedList(qs, n) == d + "." + x;
    assert SplitNumbered(d + "." + x) == [""] + SplitNumbered(x) by {
      SplitLeadingNumber(d, x);
    }
    assert SplitNumbered(x) == Lines(qs) by {
      SplitAfterNumber(qs, n);
    }
  }

  lemma CleanedBlank(pieces: seq<string>)
    ensures Cleaned([""] + pieces) == Cleaned(pieces)
  {
    assert ([""] + pieces)[1..] == pieces;
  }

  /** A numbered list of questions written the way the model is asked to
      reads back to its first five questions. */
  lemma FollowUpsRoundTrip(qs: seq<string>)
    requires forall k :: 0 <= k < |qs| ==> Listable(qs[k])
    ensures ParseFollowUps(NumberedList(qs, 1))
         == if |qs| <= FollowUpCount then qs else qs[..FollowUpCount]
  {
    if qs == [] {
      SplitNone("");
    } else {
      SplitList(qs, 1);
      CleanedBlank(Lines(qs));
      CleanedLines(qs);
    }
  }

  /** A reply without any number marker yields at most one question: the
      whole reply trimmed, unless it is blank. */
  lemma UnnumberedReply(text: string)
    requires !HasMarker(text)
    ensures ParseFollowUps(text) == if AllSpace(text) then [] else [Trim(text)]
  {
    assert SplitNumbered(text) == [text];
    assert [text][1..] == [];
  }

  // ---------------------------------------------------------------------------
  // The questionnaire state

  class Questionnaire {
    var currentQuestionIndex: nat
    var answers: seq<Answer>
    var currentAnswer: string
    var profileCompleted: bool
    var followUpQuestions: seq<string>
    var allQuestionsCompleted: bool
    var showExistingProfile: bool
    /** The answer lists handed to the save request, oldest first. */
    var saved: seq<seq<Answer>>

    /** One stored answer per question passed, each with the question that
        was shown for it; the last question's answer is saved on completion. */
    predicate Valid()
      reads this
    {
      currentQuestionIndex <= LastIndex &&
      (allQuestionsCompleted ==> currentQuestionIndex == LastIndex) &&
      |answers| == currentQuestionIndex + (if allQuestionsCompleted then 1 else 0) &&
      (forall i :: 0 <= i < |answers| ==> answers[i].question == QuestionAt(i, followUpQuestions)) &&
      (allQuestionsCompleted ==> saved != [] && saved[|saved| - 1] == answers)
    }

    /** Mounting: the first question, nothing answered. */
    constructor ()
      ensures Valid()
      ensures currentQuestionIndex == 0 && answers == [] && currentAnswer == ""
      ensures !profileCompleted && followUpQuestions == [] && !allQuestionsCompleted
      ensures !showExistingProfile && saved == []
    {
      currentQuestionIndex := 0;
      answers := [];
      currentAnswer := "";
      profileCompleted := false;
      followUpQuestions := [];
      allQuestionsCompleted := false;
      showExistingProfile := false;
      saved := [];
    }

    /** Typing into the answer box. */
    method SetAnswer(text: string)
      modifies this
      ensures currentAnswer == text
      ensures currentQuestionIndex == old(currentQuestionIndex) && answers == old(answers)
      ensures profileCompleted == old(profileCompleted) && followUpQuestions == old(followUpQuestions)
      ensures allQuestionsCompleted == old(allQuestionsCompleted)
      ensures showExistingProfile == old(showExistingProfile) && saved == old(saved)
    {
      currentAnswer := text;
    }

    /** `handleSubmitAnswer`, with `reply` the follow-up request's result: a
        blank answer changes nothing; otherwise the answer is stored with its
        question and the box cleared; after the tenth answer the follow-ups
        are read from the reply; the index advances, or after the last
        question the questionnaire completes and the answers are saved. */
    method SubmitAnswer(reply: Option<string>)
      requires Valid() && !allQuestionsCompleted
      modifies this
      ensures Valid()
      ensures showExistingProfile == old(showExistingProfile)
      ensures AllSpace(old(currentAnswer)) ==>
        currentQuestionIndex == old(currentQuestionIndex) && answers == old(answers) &&
        currentAnswer == old(currentAnswer) && profileCompleted == old(profileCompleted) &&
        followUpQuestions == old(followUpQuestions) && !allQuestionsCompleted && saved == old(saved)
      ensures !AllSpace(old(currentAnswer)) ==>
        answers == old(answers) + [Answer(QuestionAt(old(currentQuestionIndex), old(followUpQuestions)),
                                          old(currentAnswer))] &&
        currentAnswer == ""
      ensures !AllSpace(old(currentAnswer)) && old(currentQuestionIndex) == PresetCount - 1 && reply.Some? ==>
        followUpQuestions == ParseFollowUps(reply.value) && profileCompleted
      ensures !(!AllSpace(old(currentAnswer)) && old(currentQuestionIndex) == PresetCount - 1 && reply.Some?) ==>
        followUpQuestions == old(followUpQuestions) && profileCompleted == old(profileCompleted)
      ensures !AllSpace(old(currentAnswer)) && old(currentQuestionIndex) < LastIndex ==>
        currentQuestionIndex == old(currentQuestionIndex) + 1 && !allQuestionsCompleted && saved == old(saved)
      ensures !AllSpace(old(currentAnswer)) && old(currentQuestionIndex) == LastIndex ==>
        currentQuestionIndex == LastIndex && allQuestionsCompleted && saved == old(saved) + [answers]
    {
      // `!currentAnswer.trim()`: the trimmed answer is empty exactly when the
      // answer is all white space.
      if AllSpace(currentAnswer) {
        return;
      }
      var newAnswers := answers + [Answer(QuestionAt(currentQuestionIndex, followUpQuestions), currentAnswer)];
      answers := newAnswers;
      currentAnswer := "";
      if currentQuestionIndex == PresetCount - 1 && reply.Some? {
        var questions := ParseFollowUps(reply.value);
        QuestionsBeforeFollowUps(answers, followUpQuestions, questions);
        followUpQuestions := questions;
        profileCompleted := true;
      }
      if currentQuestionIndex < LastIndex {
        currentQuestionIndex := currentQuestionIndex + 1;
      } else {
        allQuestionsCompleted := true;
        saved := saved + [newAnswers];
      }
    }

    /** `handleRetest`: back to the first question with nothing answered;
        earlier saves stay saved. */
    method Retest()
      modifies this
      ensures Valid()
      ensures currentQuestionIndex == 0 && answers == [] && currentAnswer == ""
      ensures !profileCompleted && followUpQuestions == [] && !allQuestionsCompleted
      ensures !showExistingProfile && saved == old(saved)
    {
      currentQuestionIndex := 0;
      answers := [];
      currentAnswer := "";
      profileCompleted := false;
      followUpQuestions := [];
      allQuestionsCompleted := false;
      showExistingProfile := false;
    }
  }

  /** Replacing the follow-ups does not change the questions of the first ten
      answers, which are preset. */
  lemma QuestionsBeforeFollowUps(answers: seq<Answer>, before: seq<string>, after: seq<string>)
    requires |answers| <= PresetCount
    requires forall i :: 0 <= i < |answers| ==> answers[i].question == QuestionAt(i, before)
    ensures forall i :: 0 <= i < |answers| ==> answers[i].question == QuestionAt(i, after)
  {
  }
}
