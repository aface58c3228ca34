# Chat assistant core, modelled in Dafny

This project models the logic inside a browser chat UI that simulates a conversational assistant. It covers four pieces:

- **Keyword response generator** (`generateAIResponse`). It lower-cases a message and tests an ordered chain of substring rules: `hello`/`hi`, `how are you`, `weather`, `time`, `help`. The first match wins. If none matches, it returns one of eight templates followed by the original message.
- **Speech-recognition adapter** (`useVoiceRecognition`). It has guarded start/stop requests, engine callbacks that drive `isListening`, and the `onresult` fold that builds the final transcript.
- **Speech-synthesis adapter** (`useTextToSpeech`). `speak` cancels the host queue and then enqueues one utterance. It picks the voice with one `find` predicate. `isSpeaking` is driven by callbacks and by `stop`.
- **Conversation controller** (the handlers of `App`). It holds the message log and the UI flags. It appends (user, assistant) pairs, schedules the spoken reply, and toggles the mic and camera.

The camera adapter (`useCamera`) is modelled only as far as the controller needs it: its stream reference, active and error flags, and a count of leaked streams. A grant made while the stream reference already holds a stream overwrites the reference without stopping the old stream's tracks (`src/hooks/useCamera.ts:25`). This is reachable from the camera button after a grant whose `play()` failed: the open camera modal's full-screen overlay (`src/App.tsx:131`) blocks a mouse click on the button, but the button keeps focus, so a second activation comes from the keyboard. The model counts such streams in `leaked`, and `stopCamera` never releases them.

Files:
- `wrappers.dfy`: `Option`.
- `text.dfy`: ASCII `toLowerCase`, `includes`, `startsWith`, `trim`.
- `ai_responses.dfy`: the generator.
- `voice_recognition.dfy`: the recognition adapter.
- `text_to_speech.dfy`: the synthesis adapter.
- `camera.dfy`: the camera adapter.
- `conversation.dfy`: the controller.

The host's non-deterministic inputs are parameters:
- `Math.random()` is a real in [0, 1). The template index is `floor(random * 8)`, as in the source.
- `toLocaleTimeString()` is a clock string.
- The two `Date.now()` readings of a send are two integers.
- `getVoices()` is a voice list.
- The outcome of a camera acquisition is a value of `AcquireOutcome`.

Engine events are methods that can be called in any order. Their only precondition is that the engine exists.

The model follows the code in three places where it is easy to misread:
- Voice selection is a single OR predicate (`Google` in the name, or `Microsoft` in the name, or a language tag starting with `en`). It is not a tiered preference, so an English voice listed before a Google voice is chosen (`NoTieredPreference`).
- `startListening` does not set `isListening`. It only issues a start request, and `isListening` becomes true when the engine reports `onstart`.
- Voice submission is the effect on `(transcript, isListening)`. Each time it runs, it submits when the transcript is non-empty and listening is off. It is a condition checked whenever those values change, not a detected transition.

## Model

| member | source | states |
|---|---|---|
| Text.Lower | src/utils/aiResponses.ts:15 | Lower-casing preserves length, maps each ASCII capital to its lower-case letter (+32), leaves every other character alone, and leaves no ASCII capital |
| Text.LowerIdempotent | src/utils/aiResponses.ts:15 | Lower-casing an already lower-cased message changes nothing |
| Text.Contains | src/utils/aiResponses.ts:17 | `includes` is true exactly when the pattern occurs at some index of the string (plain substring containment, not word matching) |
| Text.Trim | src/App.tsx:48 | `trim()` returns a contiguous slice `s[a..b]` of the string with only whitespace before `a` and after `b`; it is empty exactly when every character is ECMAScript whitespace, and a non-empty result starts and ends with a non-whitespace character |
| Text.StartsWith | src/hooks/useTextToSpeech.ts:40 | `startsWith(p)` holds exactly when `p` occurs at index 0, in the same occurrence sense as `includes` |
| Text.IsBlank | src/App.tsx:48 | The blank-input guard holds exactly when every character of the string is ECMAScript whitespace |
| Text.BlankIffTrimmedEmpty | src/App.tsx:48 | The blank-input guard holds exactly when `trim()` returns the empty string |
| AiResponses.Dispatch | src/utils/aiResponses.ts:17-35 | The if-chain on the lower-cased message picks the greeting exactly when `hello` or `hi` occurs anywhere in it, and the fallback exactly when none of `hello`, `hi`, `how are you`, `weather`, `time`, `help` occurs |
| AiResponses.TemplateIndex | src/utils/aiResponses.ts:38 | `floor(random * responses.length)` is a valid template index for every random value in [0, 1) |
| AiResponses.GenerateAIResponse | src/utils/aiResponses.ts:2-40 | The generator is total (any string, any random value, any clock text) and always returns a non-empty reply |
| AiResponses.FirstMatch | src/utils/aiResponses.ts:17-35 | Reference semantics of an ordered rule table: Fallback exactly when no entry's keyword occurs; otherwise the rule of the first entry one of whose keywords occurs, every earlier entry failing |
| AiResponses.DispatchIsFirstMatch | src/utils/aiResponses.ts:17-35 | The source's if-chain selects exactly the first-match-wins rule of the table hello/hi, how are you, weather, time, help |
| AiResponses.GreetingWins | src/utils/aiResponses.ts:17-19 | If the lower-cased message contains `hello` or `hi`, the greeting is returned whatever other keywords it contains |
| AiResponses.SubstringGreeting | src/utils/aiResponses.ts:17 | "this" and "Which" get the greeting, because `hi` is a substring test |
| AiResponses.GreetingBeforeHowAreYou | src/utils/aiResponses.ts:17-23 | "Hi there, how are you?" gets the greeting, not the how-are-you reply |
| AiResponses.HowAreYouExactly | src/utils/aiResponses.ts:17-23 | The how-are-you rule is chosen if and only if the lower-cased message contains `how are you` and contains neither `hello` nor `hi` |
| AiResponses.LaterRulesInOrder | src/utils/aiResponses.ts:25-35 | The weather, time and help rules are each chosen if and only if every earlier rule fails and their own keyword occurs, in that fixed order |
| AiResponses.KeywordReplies | src/utils/aiResponses.ts:21-35 | The how-are-you, weather and help rules answer with their fixed literal replies |
| AiResponses.TimeReplyEmbedsClock | src/utils/aiResponses.ts:29-31 | The time rule answers "The current time is " + clock + ". Is there anything specific you'd like to know about time or scheduling?" with the injected clock text |
| AiResponses.WeatherQuestion | src/utils/aiResponses.ts:25-27 | "What's the weather?" gets the weather reply verbatim |
| AiResponses.FallbackQuotesMessage | src/utils/aiResponses.ts:38-39 | With no keyword, the reply is template k (for some k < 8) + " You mentioned: \"" + the original, not lower-cased, message + "\". That's quite interesting to discuss!", so the message occurs in the reply |
| AiResponses.DispatchIgnoresCase | src/utils/aiResponses.ts:15-35 | Messages with equal lower-case forms take the same rule and, outside the fallback, get the same reply; lower-casing a message first does not change its rule |
| VoiceRecognition.CollectFinal | src/hooks/useVoiceRecognition.ts:30-35 | The `onresult` loop returns the in-order concatenation of the final results' texts from `resultIndex` to the end (empty when `resultIndex` is past the end) |
| VoiceRecognition.FinalTextAppend | src/hooks/useVoiceRecognition.ts:30-35 | The fold of a batch split in two is the fold of the first part followed by the fold of the second |
| VoiceRecognition.FinalTextIsConcatOfFinals | src/hooks/useVoiceRecognition.ts:31-33 | The fold equals the concatenation of the texts of exactly the final results, in order |
| VoiceRecognition.FinalTextDependsOnFinalsOnly | src/hooks/useVoiceRecognition.ts:32-33 | Batches with the same flags that agree on every final text fold to the same string, whatever their interim texts |
| VoiceRecognition.EarlierAndInterimResultsIgnored | src/hooks/useVoiceRecognition.ts:31-33 | Results before `resultIndex` and the texts of non-final results never affect the published text |
| VoiceRecognition.FinalTextEmptyIff | src/hooks/useVoiceRecognition.ts:36-38 | The fold is empty if and only if every final result in it has empty text; this is when `onresult` leaves the transcript alone |
| VoiceRecognition.Recognizer.constructor | src/hooks/useVoiceRecognition.ts:17-27 | After mount, `isSupported` and the recognizer's presence both equal the host's support; the adapter is idle with an empty transcript and no requests |
| VoiceRecognition.Recognizer.StartListening | src/hooks/useVoiceRecognition.ts:54-59 | When present and not listening, the transcript is cleared and one start request is issued; otherwise nothing changes; `isListening` is never set here |
| VoiceRecognition.Recognizer.StopListening | src/hooks/useVoiceRecognition.ts:61-65 | A stop request is issued only when present and listening; while idle or unsupported it is a no-op; flags and transcript are untouched |
| VoiceRecognition.Recognizer.OnStart | src/hooks/useVoiceRecognition.ts:41 | Engine `onstart` sets `isListening` and changes nothing else |
| VoiceRecognition.Recognizer.OnEnd | src/hooks/useVoiceRecognition.ts:42 | Engine `onend` clears `isListening` and changes nothing else |
| VoiceRecognition.Recognizer.OnError | src/hooks/useVoiceRecognition.ts:43 | Engine `onerror` clears `isListening`, the same observable effect as `onend` |
| VoiceRecognition.Recognizer.OnResult | src/hooks/useVoiceRecognition.ts:29-39 | The transcript becomes the batch's final text when that is non-empty, and is otherwise unchanged |
| TextToSpeech.FindVoice | src/hooks/useTextToSpeech.ts:36-41 | Returns a voice if and only if some voice satisfies the OR predicate, and then it is the first such voice in list order |
| TextToSpeech.Acceptable | src/hooks/useTextToSpeech.ts:37-41 | A voice is acceptable exactly when `Google` or `Microsoft` occurs somewhere in its name or its language tag begins with `en` |
| TextToSpeech.MakeUtterance | src/hooks/useTextToSpeech.ts:26-44 | The utterance carries the text; its voice is left unset (host default) exactly when no voice is acceptable, and otherwise is the first acceptable voice in list order |
| TextToSpeech.NoTieredPreference | src/hooks/useTextToSpeech.ts:37-41 | An English voice listed before a Google voice is chosen: the predicate is one disjunction, not a ranking |
| TextToSpeech.NoAcceptableVoiceLeavesDefault | src/hooks/useTextToSpeech.ts:42-44 | With no Google, Microsoft or `en` voice, the utterance has no voice set |
| TextToSpeech.Synthesizer.constructor | src/hooks/useTextToSpeech.ts:14-18 | After mount, `isSupported` equals the host's support, nothing is speaking and the queue is empty |
| TextToSpeech.Synthesizer.Speak | src/hooks/useTextToSpeech.ts:20-47 | The new state is the speak transition of the old one, and the class invariant keeps at most one utterance queued. When supported, the queue afterwards holds exactly one utterance for the text (cancel, then enqueue). When unsupported, nothing changes. `isSpeaking` is never touched |
| TextToSpeech.Synthesizer.Stop | src/hooks/useTextToSpeech.ts:49-54 | The new state is the stop transition of the old one. When supported, the queue is emptied and `isSpeaking` cleared. When unsupported, all state is unchanged |
| TextToSpeech.Synthesizer.OnStart | src/hooks/useTextToSpeech.ts:31 | Utterance `onstart` sets `isSpeaking`, the only way it becomes true |
| TextToSpeech.Synthesizer.OnEnd | src/hooks/useTextToSpeech.ts:32 | Utterance `onend` clears `isSpeaking` |
| TextToSpeech.Synthesizer.OnError | src/hooks/useTextToSpeech.ts:33 | Utterance `onerror` clears `isSpeaking` |
| TextToSpeech.StopIsIdempotent | src/hooks/useTextToSpeech.ts:49-54 | Applying the stop transition twice gives the same state as applying it once |
| TextToSpeech.SpeakIsExclusive | src/hooks/useTextToSpeech.ts:24-46 | `speak` keeps at most one utterance queued. Two `speak` calls in a row leave only the second utterance. `speak` never changes `isSpeaking` or support |
| Camera.CameraFeed.constructor | src/hooks/useCamera.ts:11-15 | The camera starts inactive, without a stream, without an error and with no leaked stream |
| Camera.CameraFeed.StartCamera | src/hooks/useCamera.ts:17-35 | The error is cleared and then set to "Failed to access camera" exactly when acquisition or `play()` fails; a granted stream is held; the camera becomes active only when the stream plays; a grant while a stream is already held leaks that stream (the leak count grows by one) |
| Camera.CameraFeed.StopCamera | src/hooks/useCamera.ts:37-46 | The referenced stream is released and the camera is inactive, also when it already was; leaked streams stay leaked |
| Conversation.PairedAnswersEveryPrompt | src/App.tsx:53 | In a paired log, every user message is immediately followed by an assistant message |
| Conversation.AppendPairKeepsPaired | src/App.tsx:53 | Appending a (user, assistant) pair keeps the log of even length with entry i a user message exactly when i is even |
| Conversation.AppendPairKeepsOrder | src/App.tsx:49-53 | Appending a prompt and a later-stamped reply keeps every reply stamped after its prompt |
| Conversation.ChatApp.constructor | src/App.tsx:17-31 | A session starts with an empty log, empty inactive input, hidden modals, nothing scheduled, and adapters reflecting host support; recognition is idle with an empty transcript and no requests, synthesis is silent with an empty queue, and the camera is inactive with no stream, no leak and no error |
| Conversation.ChatApp.HandleSendMessage | src/App.tsx:47-63 | Blank input (empty after `trim()`) changes nothing. Otherwise the log becomes old + [user (untrimmed text, first clock reading), assistant (generated reply, second reading + 1)], the input is cleared and deactivated, and when TTS is supported speech is stopped and the reply scheduled. A non-decreasing clock keeps replies after prompts |
| Conversation.ChatApp.FireSpeechTimer | src/App.tsx:58 | The oldest scheduled reply is spoken: the synthesis queue becomes exactly that reply's utterance |
| Conversation.ChatApp.HandleInputKeyDown | src/App.tsx:65-67 | Sends exactly when the key is Enter and the input is non-blank, appending the input and its reply, clearing and deactivating the input and leaving both modal flags alone; any other key or blank input changes nothing |
| Conversation.ChatApp.HandleSendClick | src/App.tsx:263-273 | The send button sends the current input under the same blank-input guard, appending it and its reply, clearing and deactivating the input and leaving both modal flags alone |
| Conversation.ChatApp.TranscriptEffect | src/App.tsx:43-45 | A non-blank transcript is submitted exactly when listening is off, appending it and its reply and leaving both modal flags alone; while listening, or with an empty transcript, nothing changes |
| Conversation.ChatApp.HandleMicClick | src/App.tsx:80-89 | The button is enabled only with recognition support. While listening it issues a stop and hides the modal; otherwise it shows the modal, issues a start request and clears the transcript |
| Conversation.ChatApp.CloseMicModal | src/App.tsx:119-124 | The modal's Stop button makes a guarded stop request and hides the mic modal; recognition support, the listening flag and the transcript are unchanged |
| Conversation.ChatApp.HandleCameraClick | src/App.tsx:69-78 | While active it stops the camera and hides the modal; otherwise it shows the modal and starts the camera: the error is cleared and set to "Failed to access camera" exactly when acquisition or `play()` fails, a granted stream is held (leaking one already held), and the camera is active only if the stream plays. A stop leaves the error message in place |
| Conversation.ChatApp.CloseCameraModal | src/App.tsx:137-142 | The Close Camera button stops the camera and hides the camera modal |
| Conversation.ChatApp.EditInput | src/App.tsx:230 | The input's change handler sets the input value |
| Conversation.ChatApp.ActivateInput | src/App.tsx:210 | A click on the input bar activates the input |
| Conversation.ChatApp.BlurInput | src/App.tsx:231 | Leaving the input deactivates it |

## Left out

- Rendering: JSX markup, styling, the theme toggle, the 3D logo (`src/components/ThreeDLogo.tsx`), `scrollIntoView`/`focus` effects and the file-attachment button, whose input does nothing.
- Unicode- and locale-aware `toLowerCase`. The model lower-cases ASCII letters only. `trim` uses the full ECMAScript whitespace set.
- Real time. The 300 ms delay before speaking is a FIFO of pending replies that `FireSpeechTimer` drains in order. `Date.now()`, `Math.random()`, `toLocaleTimeString()` and `getVoices()` are parameters.
- The float utterance parameters `rate`, `pitch` and `volume`.
- React semantics: re-renders, effect scheduling, batched state updates and stale closures. State changes are direct method calls. The environment should call `TranscriptEffect` only after `transcript` or `isListening` changes, as the effect's dependency list does (`src/App.tsx:45`); the model does not enforce this, so two calls with no change in between would send the same transcript twice.
- Hook cleanup on unmount: stopping the recognizer and stopping the camera.
- Host engines. In the model, `queue` keeps a finished utterance until the next cancel; the host's own removal of finished utterances is not modelled. The real recognition and synthesis engines are represented only by their callbacks.
- The camera's video element binding (`srcObject`) and `console.error` logging. Only the stream reference, the leak count, and the active and error flags are modelled.
- Camera.CameraFeed.StartCamera: the acquisition is one atomic step. The awaits at `src/hooks/useCamera.ts:20` and `:28` are not split out, so a click or a stop that arrives while `getUserMedia` or `play()` is pending is not modelled. Such a click can also start a second acquisition and leak a stream.
- Conversation.ChatApp.HandleInputKeyDown: the speech-output effects of the send are those of `HandleSendMessage`; they are not restated in its contract.
- Conversation.ChatApp.HandleSendClick: the speech-output effects of the send are those of `HandleSendMessage`; they are not restated in its contract.
- Conversation.ChatApp.TranscriptEffect: the input-field reset and speech-output effects of the send are those of `HandleSendMessage`; they are not restated in its contract.
