/** The "Listen" button that reads a text aloud. Generating speech streams the
    audio from the text-to-speech service in chunks, joins them into one byte
    buffer and plays it; later presses replay the same audio. With `autoPlay`
    the speech is generated on mount and the parent is told once, through
    `onPlayed`, that it has played.

    The service's chunks, the object URL made for the buffer, and whether the
    audio element is mounted are parameters; the service call, the blob and
    the audio element themselves are left out. */
module TextToSpeech {
  import opened Wrappers
  import UriComponent

  type Byte = UriComponent.Byte

  // ---------------------------------------------------------------------------
  // Joining the chunks

  /** The chunks one after another. */
  function Flatten(chunks: seq<seq<Byte>>): seq<Byte> {
    if chunks == [] then [] else Flatten(chunks[..|chunks| - 1]) + chunks[|chunks| - 1]
  }

  /** `chunks.reduce((acc, val) => acc + val.length, 0)`. */
  function TotalLength(chunks: seq<seq<Byte>>): (n: nat)
    ensures n == |Flatten(chunks)|
  {
    if chunks == [] then 0 else TotalLength(chunks[..|chunks| - 1]) + |chunks[|chunks| - 1]|
  }

  /** Every chunk appears whole in the joined buffer, at the sum of the
      lengths before it. */
  lemma {:induction false} ChunkAt(chunks: seq<seq<Byte>>, i: nat)
    requires i < |chunks|
    ensures TotalLength(chunks[..i]) + |chunks[i]| <= |Flatten(chunks)|
    ensures Flatten(chunks)[TotalLength(chunks[..i])..TotalLength(chunks[..i]) + |chunks[i]|] == chunks[i]
    decreases |chunks|
  {
    var last := |chunks| - 1;
    assert chunks[..last] + [chunks[last]] == chunks;
    if i == last {
      assert chunks[..i] == chunks[..last];
    } else {
      assert chunks[..last][..i] == chunks[..i];
      ChunkAt(chunks[..last], i);
    }
  }

  /** The copy loop of `generateSpeech`: a buffer of the total length, each
      chunk written at the running offset. */
  method Combine(chunks: seq<seq<Byte>>) returns (combined: array<Byte>)
    ensures fresh(combined)
    ensures combined.Length == TotalLength(chunks)
    ensures combined[..] == Flatten(chunks)
  {
    var totalLength := TotalLength(chunks);
    combined := new Byte[totalLength](_ => 0);
    var offset := 0;
    var i := 0;
    while i < |chunks|
      invariant 0 <= i <= |chunks|
      invariant offset == TotalLength(chunks[..i]) <= totalLength
      invariant combined[..offset] == Flatten(chunks[..i])
    {
      var chunk := chunks[i];
      assert chunks[..i + 1] == chunks[..i] + [chunk];
      ChunkAt(chunks, i);
      assert TotalLength(chunks[..i + 1]) == offset + |chunk|;
      // `combinedArray.set(chunk, offset)`
      forall k | 0 <= k < |chunk| {
        combined[offset + k] := chunk[k];
      }
      assert combined[..offset + |chunk|] == combined[..offset] + chunk;
      offset := offset + |chunk|;
      i := i + 1;
    }
    assert chunks[..i] == chunks;
  }

  // ---------------------------------------------------------------------------
  // The button

  class Speaker {
    const autoPlay: bool
    var loading: bool
    var audioUrl: Option<string>
    /** The bytes behind `audioUrl`. */
    var audio: seq<Byte>
    var hasAutoPlayed: bool
    /** How many times the parent has been told the audio played. */
    var playedCalls: nat
    /** How many times the audio element was asked to play. */
    var plays: nat

    /** The parent is told at most once, and only with `autoPlay`. */
    predicate Valid()
      reads this
    {
      playedCalls == (if hasAutoPlayed then 1 else 0) && (hasAutoPlayed ==> autoPlay)
    }

    constructor (autoPlay: bool)
      ensures Valid() && this.autoPlay == autoPlay
      ensures !loading && audioUrl.None? && audio == [] && !hasAutoPlayed && playedCalls == 0 && plays == 0
    {
      this.autoPlay := autoPlay;
      loading := false;
      audioUrl := None;
      audio := [];
      hasAutoPlayed := false;
      playedCalls := 0;
      plays := 0;
    }

    /** The start of `generateSpeech`: nothing while a request is loading,
        otherwise loading starts. The result says whether it started. */
    method BeginGenerate() returns (started: bool)
      requires Valid()
      modifies this
      ensures Valid()
      ensures started == !old(loading) && loading
      ensures audioUrl == old(audioUrl) && audio == old(audio) && hasAutoPlayed == old(hasAutoPlayed)
      ensures playedCalls == old(playedCalls) && plays == old(plays)
    {
      if loading {
        return false;
      }
      loading := true;
      return true;
    }

    /** The end of `generateSpeech`, with `result` the streamed chunks (`None`
        when the service failed) and `url` the object URL made for the
        buffer: on success the joined audio is kept and played if the element
        is mounted, telling the parent once on an auto-play; loading ends
        either way. */
    method FinishGenerate(result: Option<seq<seq<Byte>>>, url: string, mounted: bool)
      requires Valid()
      modifies this
      ensures Valid() && !loading
      ensures result.None? ==>
                audioUrl == old(audioUrl) && audio == old(audio) && plays == old(plays) &&
                hasAutoPlayed == old(hasAutoPlayed)
      ensures result.Some? ==> audioUrl == Some(url) && audio == Flatten(result.value)
      ensures result.Some? ==> plays == old(plays) + (if mounted then 1 else 0)
      ensures result.Some? ==> hasAutoPlayed == (old(hasAutoPlayed) || (mounted && autoPlay))
    {
      if result.Some? {
        var combined := Combine(result.value);
        audio := combined[..];
        audioUrl := Some(url);
        if mounted {
          plays := plays + 1;
          NotifyOnce();
        }
      }
      loading := false;
    }

    /** Both call sites of `onPlayed`: the flag is set before the call, so the
        parent hears of it once. */
    method NotifyOnce()
      requires Valid()
      modifies this
      ensures Valid()
      ensures hasAutoPlayed == (old(hasAutoPlayed) || autoPlay)
      ensures playedCalls == (if hasAutoPlayed then 1 else 0)
      ensures loading == old(loading) && audioUrl == old(audioUrl) && audio == old(audio) && plays == old(plays)
    {
      if !hasAutoPlayed && autoPlay {
        hasAutoPlayed := true;
        playedCalls := playedCalls + 1;
      }
    }

    /** The audio element's `ended` listener. */
    method OnEnded()
      requires Valid()
      modifies this
      ensures Valid() && playedCalls <= 1
      ensures hasAutoPlayed == (old(hasAutoPlayed) || autoPlay)
      ensures loading == old(loading) && audioUrl == old(audioUrl) && audio == old(audio) && plays == old(plays)
    {
      NotifyOnce();
    }

    /** `handleGenerateSpeech`: replay existing audio (if the element is
        mounted), otherwise start generating. The result says whether a
        generation started. */
    method HandleGenerateSpeech(mounted: bool) returns (started: bool)
      requires Valid()
      modifies this
      ensures Valid()
      ensures old(audioUrl).Some? ==> !started && plays == old(plays) + (if mounted then 1 else 0) &&
                                      loading == old(loading)
      ensures old(audioUrl).None? ==> started == !old(loading) && loading && plays == old(plays)
      ensures audioUrl == old(audioUrl) && audio == old(audio)
      ensures hasAutoPlayed == old(hasAutoPlayed) && playedCalls == old(playedCalls)
    {
      if audioUrl.Some? {
        if mounted {
          plays := plays + 1;
        }
        return false;
      }
      started := BeginGenerate();
    }

    /** The mount effect: with `autoPlay` and no auto-play yet, generate. */
    method OnMount() returns (started: bool)
      requires Valid()
      modifies this
      ensures Valid()
      ensures started <==> autoPlay && !old(hasAutoPlayed) && !old(loading)
      ensures started ==> loading
      ensures audioUrl == old(audioUrl) && audio == old(audio) && plays == old(plays)
      ensures hasAutoPlayed == old(hasAutoPlayed) && playedCalls == old(playedCalls)
    {
      started := false;
      if autoPlay && !hasAutoPlayed {
        started := BeginGenerate();
      }
    }
  }
}
