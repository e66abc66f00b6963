/** The `POST /mood-action` handler: after a bearer-token check it reads the
    mood tags of the user's five most recent responses, counts them, picks the
    predominant mood and answers with that mood's suggestion and action.

    The token verifier and the database query are parameters: `verify(token)`
    is the token's user id, `None` when verification throws, and
    `query(userId)` is the mood tags of the user's responses, newest first,
    `None` when the query fails. */
module MoodTracker {
  import opened Wrappers
  import opened Strings

  type UserId = string

  const BearerPrefix: string := "Bearer "
  const Neutral: string := "neutral"
  const RecentLimit: nat := 5

  datatype Suggestion = Suggestion(suggestion: string, actionType: string)

  datatype MoodReply =
    | Unauthorized(error: string)
    | ServerError(error: string)
    | MoodAction(mood: string, suggestion: string, actionType: string)

  // ---------------------------------------------------------------------------
  // The bearer check

  predicate StartsWith(s: string, p: string) {
    |p| <= |s| && s[..|p|] == p
  }

  /** The header passes the check: present, non-empty, starting with "Bearer ". */
  predicate HasBearer(header: Option<string>) {
    header.Some? && header.value != "" && StartsWith(header.value, BearerPrefix)
  }

  /** `authHeader.split(" ")[1]`. */
  function Token(header: string): (t: string)
    requires StartsWith(header, BearerPrefix)
  {
    assert header[6] == ' ' && ' ' in header;
    SplitOn(header, ' ')[1]
  }

  /** A token without spaces after the prefix is read back exactly. */
  lemma TokenOfBearer(t: string)
    requires ' ' !in t
    ensures StartsWith(BearerPrefix + t, BearerPrefix) && Token(BearerPrefix + t) == t
  {
    var h := BearerPrefix + t;
    assert h[..|BearerPrefix|] == BearerPrefix;
    assert h == "Bearer" + [' '] + t;
    SplitOnCons("Bearer", ' ', t);
    SplitOnNone(t, ' ');
  }

  // ---------------------------------------------------------------------------
  // Counting

  /** `entry.moodTag || "neutral"`. */
  function MoodOf(tag: Option<string>): (m: string)
    ensures m == Neutral <==> tag.None? || tag.value == "" || tag.value == Neutral
  {
    if tag.None? || tag.value == "" then Neutral else tag.value
  }

  function Moods(tags: seq<Option<string>>): (ms: seq<string>)
    ensures |ms| == |tags|
    ensures forall i :: 0 <= i < |tags| ==> ms[i] == MoodOf(tags[i])
  {
    if tags == [] then [] else Moods(tags[..|tags| - 1]) + [MoodOf(tags[|tags| - 1])]
  }

  predicate Distinct(s: seq<string>) {
    forall i, j :: 0 <= i < j < |s| ==> s[i] != s[j]
  }

  /** The distinct moods in order of first occurrence: the key order of the
      counting object. */
  function FirstSeen(ms: seq<string>): (r: seq<string>)
    ensures Distinct(r)
    ensures forall m :: m in r <==> m in ms
  {
    if ms == [] then []
    else
      var p := FirstSeen(ms[..|ms| - 1]);
      assert forall m :: m in ms <==> m in ms[..|ms| - 1] || m == ms[|ms| - 1] by {
        assert ms == ms[..|ms| - 1] + [ms[|ms| - 1]];
      }
      if ms[|ms| - 1] in p then p else p + [ms[|ms| - 1]]
  }

  /** The counting object after the moods `ms`, one key per distinct mood. */
  function MoodCounts(ms: seq<string>): map<string, nat> {
    if ms == [] then map[]
    else
      var c, m := MoodCounts(ms[..|ms| - 1]), ms[|ms| - 1];
      c[m := (if m in c then c[m] else 0) + 1]
  }

  /** The loop over the recent responses: `moodCount[mood] =
      (moodCount[mood] || 0) + 1`, with the object's keys kept in insertion
      order in `keys`. */
  method CountMoods(tags: seq<Option<string>>) returns (keys: seq<string>, counts: map<string, nat>)
    ensures keys == FirstSeen(Moods(tags)) && counts == MoodCounts(Moods(tags))
  {
    ghost var ms := Moods(tags);
    keys, counts := [], map[];
    var i := 0;
    while i < |tags|
      invariant 0 <= i <= |tags|
      invariant keys == FirstSeen(ms[..i]) && counts == MoodCounts(ms[..i])
    {
      var mood := MoodOf(tags[i]);
      CountStep(ms[..i], mood, ms[..i + 1]);
      var prior := if mood in counts then counts[mood] else 0;
      if mood !in counts {
        keys := keys + [mood];
      }
      counts := counts[mood := prior + 1];
      i := i + 1;
    }
    assert ms[..i] == ms;
  }

  /** One more mood: a new key is appended, and its count goes up by one. */
  lemma CountStep(seen: seq<string>, m: string, next: seq<string>)
    requires next == seen + [m]
    ensures FirstSeen(next) == if m in MoodCounts(seen) then FirstSeen(seen) else FirstSeen(seen) + [m]
    ensures MoodCounts(next) == MoodCounts(seen)[m := (if m in MoodCounts(seen) then MoodCounts(seen)[m] else 0) + 1]
  {
    assert next[..|next| - 1] == seen;
    TallyOfMoods(seen);
  }

  /** `keys` and `counts` are the counting object after the moods `seen`: the
      keys are the distinct moods in order of first occurrence, and each key
      holds its number of occurrences. */
  ghost predicate Tally(keys: seq<string>, counts: map<string, nat>, seen: seq<string>) {
    keys == FirstSeen(seen) &&
    (forall m :: m in counts <==> m in seen) &&
    (forall m :: m in counts ==> counts[m] == multiset(seen)[m])
  }

  /** Counting one more mood keeps the tally. */
  lemma TallyAdd(keys: seq<string>, counts: map<string, nat>, seen: seq<string>, m: string,
                 keys': seq<string>, counts': map<string, nat>)
    requires Tally(keys, counts, seen)
    requires keys' == if m in counts then keys else keys + [m]
    requires counts' == counts[m := (if m in counts then counts[m] else 0) + 1]
    ensures Tally(keys', counts', seen + [m])
  {
    var s := seen + [m];
    assert s[..|s| - 1] == seen;
    assert multiset(s) == multiset(seen) + multiset{m};
  }

  /** The counting object holds, for each mood seen, its number of
      occurrences, and its keys are the moods in order of first occurrence. */
  lemma {:induction false} TallyOfMoods(ms: seq<string>)
    ensures Tally(FirstSeen(ms), MoodCounts(ms), ms)
    decreases |ms|
  {
    if ms != [] {
      var init, m := ms[..|ms| - 1], ms[|ms| - 1];
      assert ms == init + [m];
      TallyOfMoods(init);
      TallyAdd(FirstSeen(init), MoodCounts(init), init, m, FirstSeen(ms), MoodCounts(ms));
    }
  }

  /** The sum of the counts of `keys`. */
  function Total(keys: seq<string>, counts: multiset<string>): nat {
    if keys == [] then 0 else counts[keys[0]] + Total(keys[1..], counts)
  }

  lemma {:induction false} TotalAppend(keys: seq<string>, k: string, counts: multiset<string>)
    ensures Total(keys + [k], counts) == Total(keys, counts) + counts[k]
    decreases |keys|
  {
    if keys != [] {
      assert (keys + [k])[1..] == keys[1..] + [k];
      TotalAppend(keys[1..], k, counts);
    }
  }

  lemma {:induction false} TotalAdd(keys: seq<string>, counts: multiset<string>, x: string)
    requires Distinct(keys)
    ensures Total(keys, counts + multiset{x}) == Total(keys, counts) + (if x in keys then 1 else 0)
    decreases |keys|
  {
    if keys != [] {
      TotalAdd(keys[1..], counts, x);
      assert x in keys <==> x == keys[0] || x in keys[1..];
      assert forall j :: 0 <= j < |keys[1..]| ==> keys[1..][j] == keys[j + 1] != keys[0];
      assert keys[0] !in keys[1..];
    }
  }

  /** The counts of the distinct moods add up to the number of responses
      counted. */
  lemma {:induction false} CountsSum(ms: seq<string>)
    ensures Total(FirstSeen(ms), multiset(ms)) == |ms|
    decreases |ms|
  {
    if ms != [] {
      var init, x := ms[..|ms| - 1], ms[|ms| - 1];
      assert ms == init + [x];
      var p := FirstSeen(init);
      CountsSum(init);
      TotalAdd(p, multiset(init), x);
      if x !in p {
        TotalAppend(p, x, multiset(ms));
        assert multiset(init)[x] == 0;
      }
    }
  }

  // ---------------------------------------------------------------------------
  // The predominant mood

  /** The index `reduce((a, b) => count[a] > count[b] ? a : b)` stops at: the
      winner stays only while strictly ahead, so a later key with an equal
      count takes over. */
  function PredominantIndex(keys: seq<string>, counts: map<string, nat>): (i: nat)
    requires keys != [] && forall k :: k in keys ==> k in counts
    ensures i < |keys|
    ensures forall j :: 0 <= j < |keys| ==> counts[keys[j]] <= counts[keys[i]]
    ensures forall j :: i < j < |keys| ==> counts[keys[j]] < counts[keys[i]]
  {
    if |keys| == 1 then 0
    else
      var a := PredominantIndex(keys[..|keys| - 1], counts);
      assert keys[..|keys| - 1][a] == keys[a];
      assert forall j :: 0 <= j < |keys| - 1 ==> keys[..|keys| - 1][j] == keys[j];
      if counts[keys[a]] > counts[keys[|keys| - 1]] then a else |keys| - 1
  }

  function Predominant(keys: seq<string>, counts: map<string, nat>): string
    requires keys != [] && forall k :: k in keys ==> k in counts
  {
    keys[PredominantIndex(keys, counts)]
  }

  /** The mood the handler reports for the non-empty mood list `ms`: the
      `reduce` over the counting object that the loop builds from `ms`. */
  function PredominantMood(ms: seq<string>): string
    requires ms != []
  {
    TallyOfMoods(ms);
    assert ms[0] in FirstSeen(ms);
    Predominant(FirstSeen(ms), MoodCounts(ms))
  }

  // ---------------------------------------------------------------------------
  // The action table

  /** `moodMap[mood] || moodMap["neutral"]`. */
  function ActionFor(mood: string): Suggestion {
    match mood
    case "happy" => Suggestion("You seem upbeat! Want to write a positive affirmation?", "positiveAffirmation")
    case "sad" => Suggestion("Feeling low? Let’s draw or doodle something simple.", "drawCanvas")
    case "anxious" => Suggestion("Try this 2-minute breathing bubble.", "playBreathingAnimation")
    case "angry" => Suggestion("Let’s do a quick 10-second body shakeout.", "shakeCountdown")
    case "depressed" => Suggestion("Play relaxing background music?", "playMusic")
    case _ => NeutralSuggestion
  }

  const NeutralSuggestion: Suggestion :=
    Suggestion("Keep it steady. Want to shuffle through calming quotes?", "showQuote")

  /** The six mood labels lead to six different actions; every other mood gets
      the neutral one. */
  lemma ActionTable(mood: string)
    ensures ActionFor("happy").actionType == "positiveAffirmation"
    ensures ActionFor("sad").actionType == "drawCanvas"
    ensures ActionFor("anxious").actionType == "playBreathingAnimation"
    ensures ActionFor("angry").actionType == "shakeCountdown"
    ensures ActionFor("depressed").actionType == "playMusic"
    ensures ActionFor(Neutral) == NeutralSuggestion
    ensures mood !in ["happy", "sad", "anxious", "angry", "depressed"] ==>
              ActionFor(mood) == NeutralSuggestion
  {
  }

  // ---------------------------------------------------------------------------
  // The handler

  /** The `limit(5)` of the newest-first query result. */
  function Recent(tags: seq<Option<string>>): (r: seq<Option<string>>)
    ensures |r| <= RecentLimit && |r| <= |tags| && r == tags[..|r|]
    ensures |tags| >= RecentLimit ==> |r| == RecentLimit
    ensures |tags| < RecentLimit ==> r == tags
  {
    if |tags| > RecentLimit then tags[..RecentLimit] else tags
  }

  method HandleMoodAction(header: Option<string>, verify: string -> Option<UserId>,
                          query: UserId -> Option<seq<Option<string>>>)
    returns (r: MoodReply)
    ensures r.Unauthorized? <==> !HasBearer(header)
    ensures r.Unauthorized? ==> r.error == "Unauthorized: No token provided"
    ensures r.ServerError? <==>
      HasBearer(header) && (verify(Token(header.value)).None? ||
                            query(verify(Token(header.value)).value).None?)
    ensures r.ServerError? ==> r.error == "Failed to get mood-based suggestion."
    ensures r.MoodAction? ==>
      var recent := Recent(query(verify(Token(header.value)).value).value);
      Suggestion(r.suggestion, r.actionType) == ActionFor(r.mood) &&
      (recent == [] ==> r.mood == Neutral) &&
      (recent != [] ==>
         var ms := Moods(recent);
         r.mood == PredominantMood(ms) && r.mood in ms &&
         forall m :: m in ms ==> multiset(ms)[m] <= multiset(ms)[r.mood])
  {
    if !HasBearer(header) {
      return Unauthorized("Unauthorized: No token provided");
    }
    var token := Token(header.value);
    var userId := verify(token);
    if userId.None? {
      return ServerError("Failed to get mood-based suggestion.");
    }
    var found := query(userId.value);
    if found.None? {
      return ServerError("Failed to get mood-based suggestion.");
    }
    var recent := Recent(found.value);
    if recent == [] {
      return MoodAction(Neutral, NeutralSuggestion.suggestion, NeutralSuggestion.actionType);
    }
    var keys, counts := CountMoods(recent);
    TallyOfMoods(Moods(recent));
    var mood := Predominant(keys, counts);
    PredominantIsMostFrequent(Moods(recent), keys, counts);
    var action := ActionFor(mood);
    r := MoodAction(mood, action.suggestion, action.actionType);
  }

  /** The chosen mood occurs at least as often as any other. */
  lemma PredominantIsMostFrequent(ms: seq<string>, keys: seq<string>, counts: map<string, nat>)
    requires ms != [] && keys == FirstSeen(ms)
    requires forall m :: m in counts <==> m in ms
    requires forall m :: m in counts ==> counts[m] == multiset(ms)[m]
    ensures keys != [] && forall k :: k in keys ==> k in counts
    ensures Predominant(keys, counts) in ms
    ensures forall m :: m in ms ==> multiset(ms)[m] <= multiset(ms)[Predominant(keys, counts)]
  {
    assert ms[0] in keys;
    var i := PredominantIndex(keys, counts);
    forall m | m in ms
      ensures multiset(ms)[m] <= multiset(ms)[Predominant(keys, counts)]
    {
      var j :| 0 <= j < |keys| && keys[j] == m;
      assert counts[keys[j]] <= counts[keys[i]];
    }
  }

  /** On a tie the mood seen first loses: with two "sad" and two "happy" among
      the recent responses, newest first "sad", the answer is "happy". */
  lemma TieGoesToLater()
    ensures Predominant(["sad", "happy"], map["sad" := 2, "happy" := 2]) == "happy"
    ensures PredominantMood(["sad", "happy", "sad", "happy"]) == "happy"
  {
    var ms := ["sad", "happy", "sad", "happy"];
    assert ms[..1] == ["sad"] && ms[..2] == ["sad", "happy"] && ms[..3] == ["sad", "happy", "sad"];
    assert ["sad"][..0] == [];
    assert ["sad", "happy"][..1] == ["sad"];
    assert ["sad", "happy", "sad"][..2] == ["sad", "happy"];
    assert MoodCounts(["sad"]) == map["sad" := 1];
    assert MoodCounts(["sad", "happy"]) == map["sad" := 1, "happy" := 1];
    assert MoodCounts(["sad", "happy", "sad"]) == map["sad" := 2, "happy" := 1];
    assert MoodCounts(ms) == map["sad" := 2, "happy" := 2];
    assert FirstSeen(["sad"]) == ["sad"];
    assert FirstSeen(["sad", "happy"]) == ["sad", "happy"];
    assert FirstSeen(["sad", "happy", "sad"]) == ["sad", "happy"];
    assert FirstSeen(ms) == ["sad", "happy"];
  }
}
