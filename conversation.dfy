/**
 * The conversation controller: the message log, the input and modal flags, and
 * the handlers that turn user gestures into log appends and adapter calls.
 * `Date.now()` readings, `Math.random()` and the clock text are parameters;
 * the 300 ms `setTimeout` before speaking is a FIFO of pending replies.
 */
module Conversation {
  import opened Wrappers
  import opened Text
  import opened AiResponses
  import opened VoiceRecognition
  import opened TextToSpeech
  import opened Camera

  /** One entry of the thread. */
  datatype Message = Message(text: string, isUser: bool, timestamp: int)

  /** The log is a sequence of (user, assistant) pairs. */
  ghost predicate Paired(log: seq<Message>) {
    |log| % 2 == 0 && forall i :: 0 <= i < |log| ==> log[i].isUser == (i % 2 == 0)
  }

  /** Every assistant reply is stamped strictly after the prompt before it. */
  ghost predicate RepliesFollowPrompts(log: seq<Message>) {
    forall i :: 0 < i < |log| && i % 2 == 1 ==> log[i - 1].timestamp < log[i].timestamp
  }

  /** In a paired log every user message is immediately answered by an assistant message. */
  lemma PairedAnswersEveryPrompt(log: seq<Message>)
    requires Paired(log)
    ensures forall i :: 0 <= i < |log| && log[i].isUser ==> i + 1 < |log| && !log[i + 1].isUser
  {
    forall i | 0 <= i < |log| && log[i].isUser
      ensures i + 1 < |log| && !log[i + 1].isUser
    {
      assert i % 2 == 0;
    }
  }

  /** Appending a (user, assistant) pair keeps the log paired. */
  lemma AppendPairKeepsPaired(log: seq<Message>, prompt: Message, reply: Message)
    requires Paired(log) && prompt.isUser && !reply.isUser
    ensures Paired(log + [prompt, reply])
  {
  }

  /** Appending a prompt and a later-stamped reply keeps replies after their prompts. */
  lemma AppendPairKeepsOrder(log: seq<Message>, prompt: Message, reply: Message)
    requires Paired(log) && RepliesFollowPrompts(log) && prompt.timestamp < reply.timestamp
    ensures RepliesFollowPrompts(log + [prompt, reply])
  {
    var l := log + [prompt, reply];
    forall i | 0 < i < |l| && i % 2 == 1 ensures l[i - 1].timestamp < l[i].timestamp {
      if i < |log| {
        assert l[i - 1] == log[i - 1] && l[i] == log[i];
      } else {
        assert i == |log| + 1;
      }
    }
  }

  class ChatApp {
    var messages: seq<Message>
    var inputValue: string
    var inputActive: bool
    var showMicModal: bool
    var showCameraModal: bool
    /** Replies whose delayed `speak` is scheduled but has not fired, oldest first. */
    var pendingSpeech: seq<string>

    const mic: Recognizer
    const speech: Synthesizer
    const camera: CameraFeed

    ghost predicate Valid()
      reads this, mic, speech, camera
    {
      mic.Valid() && speech.Valid() && camera.Valid() &&
      Paired(messages) &&
      (!speech.isSupported ==> pendingSpeech == [])
    }

    /** A fresh session on a host that does or does not offer recognition and synthesis. */
    constructor (hostHasRecognition: bool, hostHasSynthesis: bool)
      ensures Valid() && fresh(mic) && fresh(speech) && fresh(camera)
      ensures messages == [] && inputValue == "" && !inputActive
      ensures !showMicModal && !showCameraModal && pendingSpeech == []
      ensures mic.isSupported == hostHasRecognition && speech.isSupported == hostHasSynthesis
      ensures !mic.isListening && mic.transcript == "" && mic.requests == []
      ensures !speech.isSpeaking && speech.queue == []
      ensures !camera.isActive && camera.error.None? && !camera.streamHeld && camera.leaked == 0
    {
      messages := [];
      inputValue := "";
      inputActive := false;
      showMicModal := false;
      showCameraModal := false;
      pendingSpeech := [];
      mic := new Recognizer(hostHasRecognition);
      speech := new Synthesizer(hostHasSynthesis);
      camera := new CameraFeed();
    }

    /**
     * `handleSendMessage(messageText)`. `userNow` and `replyNow` are the two
     * `Date.now()` readings, `random` the `Math.random()` value and `clock` the
     * time text the generator may embed.
     */
    method HandleSendMessage(messageText: string, userNow: int, replyNow: int, random: real, clock: string)
      returns (sent: bool)
      requires Valid() && 0.0 <= random < 1.0
      modifies this, speech
      ensures Valid()
      ensures sent <==> !IsBlank(messageText)
      ensures !sent ==> unchanged(this) && unchanged(speech)
      ensures sent ==> messages == old(messages) + [
        Message(messageText, true, userNow),
        Message(GenerateAIResponse(messageText, random, clock), false, replyNow + 1)]
      ensures sent ==> inputValue == "" && !inputActive
      ensures sent && speech.isSupported ==>
        speech.queue == [] && !speech.isSpeaking &&
        pendingSpeech == old(pendingSpeech) + [GenerateAIResponse(messageText, random, clock)]
      ensures sent && !speech.isSupported ==> unchanged(speech) && pendingSpeech == old(pendingSpeech)
      ensures showMicModal == old(showMicModal) && showCameraModal == old(showCameraModal)
      ensures speech.isSupported == old(speech.isSupported)
      ensures userNow <= replyNow && RepliesFollowPrompts(old(messages)) ==> RepliesFollowPrompts(messages)
    {
      if IsBlank(messageText) {
        return false;
      }
      var userMessage := Message(messageText, true, userNow);
      var aiResponseText := GenerateAIResponse(messageText, random, clock);
      var aiMessage := Message(aiResponseText, false, replyNow + 1);
      AppendPairKeepsPaired(messages, userMessage, aiMessage);
      if userNow <= replyNow && RepliesFollowPrompts(messages) {
        AppendPairKeepsOrder(messages, userMessage, aiMessage);
      }
      messages := messages + [userMessage, aiMessage];
      if speech.isSupported {
        speech.Stop();
        assert speech.queue == [] && !speech.isSpeaking;
        pendingSpeech := pendingSpeech + [aiResponseText];
      }
      inputValue := "";
      inputActive := false;
      sent := true;
    }

    /** The delayed `speak(aiResponseText)` of the oldest pending reply fires. */
    method FireSpeechTimer(voices: seq<Voice>)
      requires Valid() && pendingSpeech != []
      modifies this`pendingSpeech, speech`queue
      ensures Valid()
      ensures pendingSpeech == old(pendingSpeech[1..])
      ensures speech.queue == [MakeUtterance(old(pendingSpeech[0]), voices)]
    {
      var text := pendingSpeech[0];
      pendingSpeech := pendingSpeech[1..];
      speech.Speak(text, voices);
    }

    /** `handleInputKeyDown`: Enter sends a non-blank input; every other key does nothing. */
    method HandleInputKeyDown(key: string, userNow: int, replyNow: int, random: real, clock: string)
      returns (sent: bool)
      requires Valid() && 0.0 <= random < 1.0
      modifies this, speech
      ensures Valid()
      ensures sent <==> key == "Enter" && !IsBlank(old(inputValue))
      ensures !sent ==> unchanged(this) && unchanged(speech)
      ensures sent ==> messages == old(messages) + [
        Message(old(inputValue), true, userNow),
        Message(GenerateAIResponse(old(inputValue), random, clock), false, replyNow + 1)]
      ensures sent ==> inputValue == "" && !inputActive
      ensures showMicModal == old(showMicModal) && showCameraModal == old(showCameraModal)
    {
      if key == "Enter" && !IsBlank(inputValue) {
        sent := HandleSendMessage(inputValue, userNow, replyNow, random, clock);
      } else {
        sent := false;
      }
    }

    /** The send button: `handleSendMessage(inputValue)`. */
    method HandleSendClick(userNow: int, replyNow: int, random: real, clock: string)
      returns (sent: bool)
      requires Valid() && 0.0 <= random < 1.0
      modifies this, speech
      ensures Valid()
      ensures sent <==> !IsBlank(old(inputValue))
      ensures !sent ==> unchanged(this) && unchanged(speech)
      ensures sent ==> messages == old(messages) + [
        Message(old(inputValue), true, userNow),
        Message(GenerateAIResponse(old(inputValue), random, clock), false, replyNow + 1)]
      ensures sent ==> inputValue == "" && !inputActive
      ensures showMicModal == old(showMicModal) && showCameraModal == old(showCameraModal)
    {
      sent := HandleSendMessage(inputValue, userNow, replyNow, random, clock);
    }

    /**
     * The transcript effect: a finished recognition (a non-empty transcript while
     * not listening) is submitted as a message; while listening nothing is sent.
     */
    method TranscriptEffect(userNow: int, replyNow: int, random: real, clock: string)
      returns (sent: bool)
      requires Valid() && 0.0 <= random < 1.0
      modifies this, speech
      ensures Valid()
      ensures sent <==> mic.transcript != "" && !mic.isListening && !IsBlank(mic.transcript)
      ensures !sent ==> unchanged(this) && unchanged(speech)
      ensures sent ==> messages == old(messages) + [
        Message(mic.transcript, true, userNow),
        Message(GenerateAIResponse(mic.transcript, random, clock), false, replyNow + 1)]
      ensures showMicModal == old(showMicModal) && showCameraModal == old(showCameraModal)
    {
      if mic.transcript != "" && !mic.isListening {
        sent := HandleSendMessage(mic.transcript, userNow, replyNow, random, clock);
      } else {
        sent := false;
      }
    }

    /**
     * `handleMicClick`: stop and hide while listening, otherwise show and start.
     * The mic button is disabled without recognition support, so the handler
     * only runs when a recognizer is present.
     */
    method HandleMicClick()
      requires Valid() && mic.isSupported
      modifies this`showMicModal, mic
      ensures Valid()
      ensures showMicModal == !old(mic.isListening)
      ensures mic.isListening == old(mic.isListening) && mic.present == old(mic.present)
      ensures old(mic.isListening) ==>
        mic.requests == old(mic.requests) + [StopRequest] && mic.transcript == old(mic.transcript)
      ensures !old(mic.isListening) ==>
        mic.requests == old(mic.requests) + [StartRequest] && mic.transcript == ""
    {
      if mic.isListening {
        mic.StopListening();
        showMicModal := false;
      } else {
        showMicModal := true;
        mic.StartListening();
      }
    }

    /** The mic modal's Stop button: stop listening (if listening) and hide the modal. */
    method CloseMicModal()
      requires Valid()
      modifies this`showMicModal, mic
      ensures Valid() && !showMicModal
      ensures mic.present == old(mic.present)
      ensures mic.isListening == old(mic.isListening) && mic.transcript == old(mic.transcript)
      ensures mic.requests ==
        if old(mic.present && mic.isListening) then old(mic.requests) + [StopRequest] else old(mic.requests)
    {
      mic.StopListening();
      showMicModal := false;
    }

    /** `handleCameraClick`: stop and hide while active, otherwise show and start. */
    method HandleCameraClick(outcome: AcquireOutcome)
      requires Valid()
      modifies this`showCameraModal, camera
      ensures Valid()
      ensures showCameraModal == !old(camera.isActive)
      ensures old(camera.isActive) ==> !camera.isActive && !camera.streamHeld
      ensures !old(camera.isActive) ==> camera.isActive == (outcome == GrantedPlaying)
      ensures !old(camera.isActive) ==>
        camera.leaked == old(camera.leaked) + if outcome != AccessFailed && old(camera.streamHeld) then 1 else 0
      ensures old(camera.isActive) ==> camera.leaked == old(camera.leaked)
      ensures old(camera.isActive) ==> camera.error == old(camera.error)
      ensures !old(camera.isActive) ==>
        camera.streamHeld == (outcome != AccessFailed || old(camera.streamHeld)) &&
        camera.error == if outcome == AccessFailed || outcome == GrantedPlayFailed then Some(CameraError) else None
    {
      if camera.isActive {
        camera.StopCamera();
        showCameraModal := false;
      } else {
        showCameraModal := true;
        camera.StartCamera(outcome);
      }
    }

    /** The camera modal's Close button: stop the camera and hide the modal. */
    method CloseCameraModal()
      requires Valid()
      modifies this`showCameraModal, camera`isActive, camera`streamHeld
      ensures Valid() && !showCameraModal && !camera.isActive && !camera.streamHeld
    {
      camera.StopCamera();
      showCameraModal := false;
    }

    /** The input's `onChange`. */
    method EditInput(value: string)
      requires Valid()
      modifies this`inputValue
      ensures Valid() && inputValue == value
    {
      inputValue := value;
    }

    /** A click on the input bar activates the input. */
    method ActivateInput()
      requires Valid()
      modifies this`inputActive
      ensures Valid() && inputActive
    {
      inputActive := true;
    }

    /** The input's `onBlur` deactivates it. */
    method BlurInput()
      requires Valid()
      modifies this`inputActive
      ensures Valid() && !inputActive
    {
      inputActive := false;
    }
  }
}
