/** The `Response` document: one prompt/response exchange of a user, with the
    prompt's embedding vector and a mood label. `Create` is the document
    constructor followed by validation, as `Response.create` performs it. */
module ResponseModel {
  import opened Wrappers

  type UserId = string

  /** The embedding model's vector length, the only length the validator
      accepts. */
  const EmbeddingLength: nat := 1536

  /** The six values allowed for `moodTag`. */
  const MoodLabels: seq<string> := ["happy", "sad", "anxious", "angry", "depressed", "neutral"]

  const DefaultMood: string := "neutral"

  /** A stored document. `moodTag` is optional because a document written by
      other means than this schema may lack it. */
  datatype ResponseDoc = ResponseDoc(
    userId: UserId, prompt: string, response: string, embedding: seq<real>,
    moodTag: Option<string>, timestamp: int)

  /** The fields handed to `Response.create`; absent ones are `None`. */
  datatype ResponseInput = ResponseInput(
    userId: Option<UserId>, prompt: Option<string>, response: Option<string>,
    embedding: Option<seq<real>>, moodTag: Option<string>, timestamp: Option<int>)

  /** A created document, or the set of paths that failed validation. */
  datatype Created = Saved(doc: ResponseDoc) | Invalid(paths: set<string>)

  /** The `required` check on a string path: absent and empty both fail. */
  predicate RequiredString(s: Option<string>) {
    s.Some? && s.value != ""
  }

  /** The embedding validator; an absent array takes the default `[]`. */
  predicate ValidEmbedding(e: seq<real>) {
    |e| == EmbeddingLength
  }

  predicate IsMoodLabel(m: string) {
    m in MoodLabels
  }

  /** The paths whose validators fail on `input`. */
  function FailingPaths(input: ResponseInput): set<string> {
    (if input.userId.None? then {"userId"} else {}) +
    (if !RequiredString(input.prompt) then {"prompt"} else {}) +
    (if !RequiredString(input.response) then {"response"} else {}) +
    (if !ValidEmbedding(input.embedding.GetOr([])) then {"embedding"} else {}) +
    (if !IsMoodLabel(input.moodTag.GetOr(DefaultMood)) then {"moodTag"} else {})
  }

  /** `Response.create(input)` at time `now`: defaults are applied (`[]` for the
      embedding, "neutral" for the mood, `now` for the timestamp), then every
      validator runs; the document is saved only when none fails. */
  function Create(input: ResponseInput, now: int): (r: Created)
    ensures r.Saved? <==> input.userId.Some? && RequiredString(input.prompt) &&
                          RequiredString(input.response) &&
                          input.embedding.Some? && |input.embedding.value| == EmbeddingLength &&
                          (input.moodTag.None? || IsMoodLabel(input.moodTag.value))
    ensures r.Saved? ==> r.doc.moodTag.Some? && IsMoodLabel(r.doc.moodTag.value)
    ensures r.Saved? && input.moodTag.None? ==> r.doc.moodTag == Some(DefaultMood)
    ensures r.Saved? ==> r.doc.timestamp == input.timestamp.GetOr(now)
    ensures r.Saved? ==> r.doc.userId == input.userId.value && r.doc.prompt == input.prompt.value &&
                         r.doc.response == input.response.value && r.doc.embedding == input.embedding.value
    ensures r.Invalid? ==> r.paths != {}
    ensures r.Invalid? ==> ("userId" in r.paths <==> input.userId.None?)
    ensures r.Invalid? ==> ("prompt" in r.paths <==> !RequiredString(input.prompt))
    ensures r.Invalid? ==> ("response" in r.paths <==> !RequiredString(input.response))
    ensures r.Invalid? ==> ("embedding" in r.paths <==>
                              input.embedding.None? || |input.embedding.value| != EmbeddingLength)
    ensures r.Invalid? ==> ("moodTag" in r.paths <==>
                              input.moodTag.Some? && !IsMoodLabel(input.moodTag.value))
  {
    var paths := FailingPaths(input);
    if paths != {} then Invalid(paths)
    else
      assert "userId" !in paths && "prompt" !in paths && "response" !in paths;
      assert "embedding" !in paths && "moodTag" !in paths;
      Saved(ResponseDoc(input.userId.value, input.prompt.value, input.response.value,
                        input.embedding.GetOr([]), Some(input.moodTag.GetOr(DefaultMood)),
                        input.timestamp.GetOr(now)))
  }
}
