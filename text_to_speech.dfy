/**
 * The speech-synthesis adapter: `speak` cancels the host's utterance queue and
 * enqueues one utterance with the first acceptable voice, `stop` cancels and
 * clears `isSpeaking`, and the utterance callbacks drive `isSpeaking`.
 */
module TextToSpeech {
  import opened Wrappers
  import opened Text

  /** A host voice: its display name and its BCP 47 language tag. */
  datatype Voice = Voice(name: string, lang: string)

  /** An utterance as queued: its text and the voice set on it, if any (else the host default). */
  datatype Utterance = Utterance(text: string, voice: Option<Voice>)

  /**
   * The single `find` predicate: one disjunction, not a ranking. A voice is
   * acceptable when `Google` or `Microsoft` occurs anywhere in its name, or
   * its language tag begins with `en`.
   */
  predicate Acceptable(v: Voice)
    ensures Acceptable(v) <==>
      OccursAtSomeShift(v.name, "Google") || OccursAtSomeShift(v.name, "Microsoft") || OccursAt(v.lang, "en", 0)
  {
    Contains(v.name, "Google") || Contains(v.name, "Microsoft") || StartsWith(v.lang, "en")
  }

  /** `voices.find(Acceptable)`: the first acceptable voice in list order, if any. */
  function FindVoice(voices: seq<Voice>): (r: Option<Voice>)
    ensures r.None? <==> forall i :: 0 <= i < |voices| ==> !Acceptable(voices[i])
    ensures r.Some? ==>
      exists k :: 0 <= k < |voices| && voices[k] == r.value && Acceptable(r.value) &&
        forall i :: 0 <= i < k ==> !Acceptable(voices[i])
  {
    if voices == [] then None
    else if Acceptable(voices[0]) then Some(voices[0])
    else
      var r := FindVoice(voices[1..]);
      assert r.Some? ==>
        exists k :: 0 <= k < |voices| && voices[k] == r.value && Acceptable(r.value) &&
          forall i :: 0 <= i < k ==> !Acceptable(voices[i]) by {
        if r.Some? {
          var k :| 0 <= k < |voices[1..]| && voices[1..][k] == r.value && Acceptable(r.value) &&
            forall i :: 0 <= i < k ==> !Acceptable(voices[1..][i]);
          assert voices[k + 1] == r.value;
          forall i | 0 <= i < k + 1 ensures !Acceptable(voices[i]) {
            if i > 0 { assert voices[i] == voices[1..][i - 1]; }
          }
        }
      }
      assert r.None? ==> forall i :: 0 <= i < |voices| ==> !Acceptable(voices[i]) by {
        if r.None? {
          forall i | 0 <= i < |voices| ensures !Acceptable(voices[i]) {
            if i > 0 { assert voices[i] == voices[1..][i - 1]; }
          }
        }
      }
      r
  }

  /** The utterance `speak(text)` builds from the host's current voice list. */
  function MakeUtterance(text: string, voices: seq<Voice>): (u: Utterance)
    ensures u.text == text
    ensures u.voice.None? <==> forall i :: 0 <= i < |voices| ==> !Acceptable(voices[i])
    ensures u.voice.Some? ==>
      exists k :: 0 <= k < |voices| && voices[k] == u.voice.value && Acceptable(voices[k]) &&
        forall i :: 0 <= i < k ==> !Acceptable(voices[i])
  {
    Utterance(text, FindVoice(voices))
  }

  /** The preference is a single OR: an English voice listed before a Google voice wins. */
  lemma NoTieredPreference()
    ensures FindVoice([Voice("Alex", "en-US"), Voice("Google Deutsch", "de-DE")]) == Some(Voice("Alex", "en-US"))
  {
    assert StartsWith("en-US", "en");
  }

  /** A list with no acceptable voice leaves the utterance's voice unset. */
  lemma NoAcceptableVoiceLeavesDefault(text: string, voices: seq<Voice>)
    requires forall i :: 0 <= i < |voices| ==>
      !Contains(voices[i].name, "Google") && !Contains(voices[i].name, "Microsoft") &&
      !StartsWith(voices[i].lang, "en")
    ensures MakeUtterance(text, voices) == Utterance(text, None)
  {
  }

  /** The adapter's observable state together with the host queue. */
  datatype SpeechState = SpeechState(isSupported: bool, isSpeaking: bool, queue: seq<Utterance>)

  /** The state after `stop()`. */
  function AfterStop(st: SpeechState): SpeechState {
    if st.isSupported then st.(isSpeaking := false, queue := []) else st
  }

  /** The state after `speak(text)` with host voices `voices`. */
  function AfterSpeak(st: SpeechState, text: string, voices: seq<Voice>): SpeechState {
    if st.isSupported then st.(queue := [MakeUtterance(text, voices)]) else st
  }

  /** Stopping twice leaves the same state as stopping once. */
  lemma StopIsIdempotent(st: SpeechState)
    ensures AfterStop(AfterStop(st)) == AfterStop(st)
  {
  }

  /**
   * At most one utterance is ever queued: speaking again while an utterance is
   * queued replaces it, and `speak` never changes `isSpeaking` or support.
   */
  lemma SpeakIsExclusive(st: SpeechState, first: string, second: string, voices: seq<Voice>)
    requires |st.queue| <= 1
    ensures |AfterSpeak(st, first, voices).queue| <= 1
    ensures st.isSupported ==> AfterSpeak(AfterSpeak(st, first, voices), second, voices).queue == [MakeUtterance(second, voices)]
    ensures AfterSpeak(st, first, voices).isSpeaking == st.isSpeaking
    ensures AfterSpeak(st, first, voices).isSupported == st.isSupported
  {
  }

  class Synthesizer {
    /** The host offers speech synthesis. */
    var isSupported: bool
    var isSpeaking: bool
    /** The host synthesis queue, oldest utterance first. */
    var queue: seq<Utterance>

    /** Without synthesis nothing is queued and nothing speaks; at most one utterance is ever queued. */
    ghost predicate Valid()
      reads this
    {
      (!isSupported ==> !isSpeaking && queue == []) && |queue| <= 1
    }

    function State(): SpeechState
      reads this
    {
      SpeechState(isSupported, isSpeaking, queue)
    }

    /** The adapter after its mount effect ran. */
    constructor (hostHasSynthesis: bool)
      ensures Valid()
      ensures isSupported == hostHasSynthesis && !isSpeaking && queue == []
    {
      isSupported := hostHasSynthesis;
      isSpeaking := false;
      queue := [];
    }

    /**
     * `speak(text)`: cancel the queue, then enqueue one utterance for `text`
     * with the first acceptable voice of `voices` (the host's `getVoices()`).
     * It never sets `isSpeaking` itself.
     */
    method Speak(text: string, voices: seq<Voice>)
      requires Valid()
      modifies this`queue
      ensures Valid()
      ensures State() == AfterSpeak(old(State()), text, voices)
    {
      if !isSupported {
        return;
      }
      queue := [];
      var utterance := MakeUtterance(text, voices);
      queue := queue + [utterance];
    }

    /** `stop()`: when supported, cancel the queue and clear `isSpeaking`; else nothing. */
    method Stop()
      requires Valid()
      modifies this`queue, this`isSpeaking
      ensures Valid()
      ensures State() == AfterStop(old(State()))
    {
      if isSupported {
        queue := [];
        isSpeaking := false;
      }
    }

    /** Utterance `onstart`: the only way `isSpeaking` becomes true. */
    method OnStart()
      requires Valid() && isSupported
      modifies this`isSpeaking
      ensures Valid() && isSpeaking
    {
      isSpeaking := true;
    }

    /** Utterance `onend`. */
    method OnEnd()
      requires Valid() && isSupported
      modifies this`isSpeaking
      ensures Valid() && !isSpeaking
    {
      isSpeaking := false;
    }

    /** Utterance `onerror`: same observable effect as `onend`. */
    method OnError()
      requires Valid() && isSupported
      modifies this`isSpeaking
      ensures Valid() && !isSpeaking
    {
      isSpeaking := false;
    }
  }
}
