/**
 * The speech-recognition adapter: a recognizer that is present only when the
 * host provides one, the `isListening` and `transcript` state it publishes,
 * the guarded start/stop requests, and the engine callbacks that drive it.
 */
module VoiceRecognition {

  /** One entry of a result batch: its `isFinal` flag and its first alternative's text. */
  datatype RecognitionResult = RecognitionResult(isFinal: bool, transcript: string)

  /** A result event: the batch of results and the index of the first changed one. */
  datatype ResultEvent = ResultEvent(resultIndex: nat, results: seq<RecognitionResult>)

  /** The calls the adapter makes on the host recognizer. */
  datatype EngineRequest = StartRequest | StopRequest

  /** What one result contributes to the final transcript. */
  function Contribution(r: RecognitionResult): string {
    if r.isFinal then r.transcript else ""
  }

  /** In-order concatenation of the contributions of `rs`. */
  function FinalText(rs: seq<RecognitionResult>): string {
    if rs == [] then "" else FinalText(rs[..|rs| - 1]) + Contribution(rs[|rs| - 1])
  }

  /** The results an event asks the adapter to look at: those from `resultIndex` on. */
  function Fresh(ev: ResultEvent): seq<RecognitionResult> {
    if ev.resultIndex <= |ev.results| then ev.results[ev.resultIndex..] else []
  }

  /** The text an event's batch yields. */
  function BatchText(ev: ResultEvent): string {
    FinalText(Fresh(ev))
  }

  /** The loop of `onresult`: fold the final results from `resultIndex` onward. */
  method CollectFinal(ev: ResultEvent) returns (finalTranscript: string)
    ensures finalTranscript == BatchText(ev)
  {
    finalTranscript := "";
    var i := ev.resultIndex;
    while i < |ev.results|
      invariant ev.resultIndex <= i
      invariant ev.resultIndex <= |ev.results| ==> i <= |ev.results|
      invariant finalTranscript ==
        if ev.resultIndex <= |ev.results| then FinalText(ev.results[ev.resultIndex..i]) else ""
    {
      assert ev.results[ev.resultIndex..i + 1][..i - ev.resultIndex] == ev.results[ev.resultIndex..i];
      if ev.results[i].isFinal {
        finalTranscript := finalTranscript + ev.results[i].transcript;
      }
      i := i + 1;
    }
    assert ev.resultIndex <= |ev.results| ==> ev.results[ev.resultIndex..i] == Fresh(ev);
  }

  // ---------------------------------------------------------------------------
  // Properties of the fold.

  /** The fold distributes over splitting the batch. */
  lemma {:induction false} FinalTextAppend(a: seq<RecognitionResult>, b: seq<RecognitionResult>)
    ensures FinalText(a + b) == FinalText(a) + FinalText(b)
    decreases |b|
  {
    if b == [] {
      assert a + b == a;
    } else {
      assert (a + b)[..|a + b| - 1] == a + b[..|b| - 1];
      FinalTextAppend(a, b[..|b| - 1]);
    }
  }

  /** The texts of the final results of `rs`, in order (a reference definition). */
  function FinalTexts(rs: seq<RecognitionResult>): seq<string> {
    if rs == [] then []
    else if rs[0].isFinal then [rs[0].transcript] + FinalTexts(rs[1..])
    else FinalTexts(rs[1..])
  }

  function Concat(ws: seq<string>): string {
    if ws == [] then "" else ws[0] + Concat(ws[1..])
  }

  /** The fold is exactly the concatenation of the final results' texts, in order. */
  lemma {:induction false} FinalTextIsConcatOfFinals(rs: seq<RecognitionResult>)
    ensures FinalText(rs) == Concat(FinalTexts(rs))
    decreases |rs|
  {
    if rs != [] {
      FinalTextIsConcatOfFinals(rs[1..]);
      FinalTextAppend([rs[0]], rs[1..]);
      assert [rs[0]] + rs[1..] == rs;
      assert FinalText([rs[0]]) == Contribution(rs[0]) by {
        assert [rs[0]][..0] == [];
      }
    }
  }

  /** Two batches with the same flags that agree on every final text yield the same text. */
  lemma {:induction false} FinalTextDependsOnFinalsOnly(rs: seq<RecognitionResult>, ss: seq<RecognitionResult>)
    requires |rs| == |ss|
    requires forall i :: 0 <= i < |rs| ==> rs[i].isFinal == ss[i].isFinal
    requires forall i :: 0 <= i < |rs| && rs[i].isFinal ==> rs[i].transcript == ss[i].transcript
    ensures FinalText(rs) == FinalText(ss)
    decreases |rs|
  {
    if rs != [] {
      FinalTextDependsOnFinalsOnly(rs[..|rs| - 1], ss[..|ss| - 1]);
    }
  }

  /**
   * Results before `resultIndex` and the text of non-final results never
   * contribute: two events that agree on the index, on the flags and on the
   * final texts from the index on yield the same transcript.
   */
  lemma EarlierAndInterimResultsIgnored(ev: ResultEvent, ev': ResultEvent)
    requires ev.resultIndex == ev'.resultIndex && |ev.results| == |ev'.results|
    requires forall i :: ev.resultIndex <= i < |ev.results| ==>
      ev.results[i].isFinal == ev'.results[i].isFinal &&
      (ev.results[i].isFinal ==> ev.results[i].transcript == ev'.results[i].transcript)
    ensures BatchText(ev) == BatchText(ev')
  {
    if ev.resultIndex <= |ev.results| {
      FinalTextDependsOnFinalsOnly(Fresh(ev), Fresh(ev'));
    }
  }

  /** The fold is empty exactly when no final result from `resultIndex` on carries text. */
  lemma {:induction false} FinalTextEmptyIff(rs: seq<RecognitionResult>)
    ensures FinalText(rs) == "" <==> forall i :: 0 <= i < |rs| && rs[i].isFinal ==> rs[i].transcript == ""
    decreases |rs|
  {
    if rs != [] {
      var init := rs[..|rs| - 1];
      FinalTextEmptyIff(init);
      assert forall i :: 0 <= i < |init| ==> init[i] == rs[i];
    }
  }

  // ---------------------------------------------------------------------------
  // The adapter state.

  class Recognizer {
    /** The host provided a recognizer. */
    var present: bool
    var isSupported: bool
    var isListening: bool
    var transcript: string
    /** The start/stop calls made on the host recognizer, oldest first. */
    var requests: seq<EngineRequest>

    /** Without a recognizer nothing is ever listened to, published or requested. */
    ghost predicate Valid()
      reads this
    {
      isSupported == present &&
      (!present ==> !isListening && transcript == "" && requests == [])
    }

    /** The adapter after its mount effect ran, on a host that does or does not offer recognition. */
    constructor (hostHasRecognition: bool)
      ensures Valid()
      ensures present == hostHasRecognition && isSupported == hostHasRecognition
      ensures !isListening && transcript == "" && requests == []
    {
      present := hostHasRecognition;
      isSupported := hostHasRecognition;
      isListening := false;
      transcript := "";
      requests := [];
    }

    /** Clears the transcript and asks the engine to start, when present and idle; else nothing. */
    method StartListening()
      requires Valid()
      modifies this
      ensures Valid()
      ensures present == old(present) && isSupported == old(isSupported)
      ensures isListening == old(isListening)
      ensures old(present && !isListening) ==> transcript == "" && requests == old(requests) + [StartRequest]
      ensures !old(present && !isListening) ==> transcript == old(transcript) && requests == old(requests)
    {
      if present && !isListening {
        transcript := "";
        requests := requests + [StartRequest];
      }
    }

    /** Asks the engine to stop, only when present and listening; idle, it is a no-op. */
    method StopListening()
      requires Valid()
      modifies this
      ensures Valid()
      ensures present == old(present) && isSupported == old(isSupported)
      ensures isListening == old(isListening) && transcript == old(transcript)
      ensures requests == if old(present && isListening) then old(requests) + [StopRequest] else old(requests)
    {
      if present && isListening {
        requests := requests + [StopRequest];
      }
    }

    /** Engine `onstart`: the only way `isListening` becomes true. */
    method OnStart()
      requires Valid() && present
      modifies this`isListening
      ensures Valid() && isListening
    {
      isListening := true;
    }

    /** Engine `onend`. */
    method OnEnd()
      requires Valid() && present
      modifies this`isListening
      ensures Valid() && !isListening
    {
      isListening := false;
    }

    /** Engine `onerror`: same observable effect as `onend`. */
    method OnError()
      requires Valid() && present
      modifies this`isListening
      ensures Valid() && !isListening
    {
      isListening := false;
    }

    /** Engine `onresult`: publish the batch's final text when it is non-empty. */
    method OnResult(ev: ResultEvent)
      requires Valid() && present
      modifies this`transcript
      ensures Valid()
      ensures transcript == if BatchText(ev) != "" then BatchText(ev) else old(transcript)
    {
      var finalTranscript := CollectFinal(ev);
      if finalTranscript != "" {
        transcript := finalTranscript;
      }
    }
  }
}
