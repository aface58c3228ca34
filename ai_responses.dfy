/**
 * The keyword response generator: an ordered chain of substring rules tested
 * against the lower-cased message, first match wins, with a fallback that picks
 * one of eight templates at random and quotes the original message.
 *
 * The two non-deterministic inputs are parameters: `random` stands for the
 * value of `Math.random()` (a real in [0, 1)) and `clock` for the text of
 * `new Date().toLocaleTimeString()`.
 */
module AiResponses {
  import opened Text

  /** The reply branches, in the order the generator tests them. */
  datatype Rule = Greeting | HowAreYou | Weather | Time | Help | Fallback

  const GreetingReply: string :=
    "Hello! It's great to meet you. How can I assist you today?"
  const HowAreYouReply: string :=
    "I'm doing well, thank you for asking! I'm here and ready to help you with whatever you need."
  const WeatherReply: string :=
    "I don't have access to real-time weather data, but I'd recommend checking a weather app or website for the most current conditions in your area."
  const HelpReply: string :=
    "I'm here to help! You can ask me questions, have a conversation, or just chat. I can respond both in text and voice. What would you like to know?"

  /** The fallback templates, in source order. */
  const Templates: seq<string> := [
    "That's an interesting question! Let me think about that for you.",
    "I understand what you're asking. Here's my perspective on that topic.",
    "Great point! I'd be happy to help you with that.",
    "That's a thoughtful question. Based on what you've shared, I think...",
    "I appreciate you asking that. Let me provide you with some insights.",
    "Excellent question! Here's what I can tell you about that.",
    "I'm glad you brought that up. From my understanding...",
    "That's something I can definitely help you with. Here's my take:"
  ]

  /** The reply of the `time` rule, around the injected clock text. */
  function TimeReply(clock: string): string {
    "The current time is " + clock + ". Is there anything specific you'd like to know about time or scheduling?"
  }

  const MentionPrefix: string := " You mentioned: \""
  const MentionSuffix: string := "\". That's quite interesting to discuss!"

  /** The fallback reply: a template followed by the verbatim original message. */
  function FallbackReply(template: string, userMessage: string): string {
    template + MentionPrefix + userMessage + MentionSuffix
  }

  /** The fallback template index: the random value scaled by the number of templates, rounded down. */
  function TemplateIndex(random: real): (k: nat)
    requires 0.0 <= random < 1.0
    ensures k < |Templates|
  {
    (random * (|Templates| as real)).Floor
  }

  /**
   * The rule chosen for an already lower-cased message: the source's if-chain.
   * The greeting is chosen exactly when `hello` or `hi` occurs somewhere in the
   * message, and the fallback exactly when none of the six keywords occurs.
   */
  function Dispatch(lower: string): (r: Rule)
    ensures r == Greeting <==> OccursAtSomeShift(lower, "hello") || OccursAtSomeShift(lower, "hi")
    ensures r == Fallback <==>
      !OccursAtSomeShift(lower, "hello") && !OccursAtSomeShift(lower, "hi") &&
      !OccursAtSomeShift(lower, "how are you") && !OccursAtSomeShift(lower, "weather") &&
      !OccursAtSomeShift(lower, "time") && !OccursAtSomeShift(lower, "help")
  {
    if Contains(lower, "hello") || Contains(lower, "hi") then Greeting
    else if Contains(lower, "how are you") then HowAreYou
    else if Contains(lower, "weather") then Weather
    else if Contains(lower, "time") then Time
    else if Contains(lower, "help") then Help
    else Fallback
  }

  /** The rule the generator applies to a raw message. */
  function RuleOf(userMessage: string): Rule {
    Dispatch(Lower(userMessage))
  }

  /** `generateAIResponse(userMessage)`. */
  function GenerateAIResponse(userMessage: string, random: real, clock: string): (r: string)
    requires 0.0 <= random < 1.0
    ensures r != []
  {
    match RuleOf(userMessage)
    case Greeting => GreetingReply
    case HowAreYou => HowAreYouReply
    case Weather => WeatherReply
    case Time => TimeReply(clock)
    case Help => HelpReply
    case Fallback => FallbackReply(Templates[TemplateIndex(random)], userMessage)
  }

  // ---------------------------------------------------------------------------
  // An independent reference: the rules as an ordered table, first match wins.

  /** Each rule with the keywords that trigger it, in priority order. */
  const RuleTable: seq<(Rule, seq<string>)> := [
    (Greeting, ["hello", "hi"]),
    (HowAreYou, ["how are you"]),
    (Weather, ["weather"]),
    (Time, ["time"]),
    (Help, ["help"])
  ]

  /** Some keyword of `keywords` occurs in `lower`. */
  predicate AnyKeyword(lower: string, keywords: seq<string>) {
    exists w :: w in keywords && Contains(lower, w)
  }

  /** The rule of the first table entry one of whose keywords occurs in `lower`. */
  function FirstMatch(table: seq<(Rule, seq<string>)>, lower: string): (r: Rule)
    requires forall j :: 0 <= j < |table| ==> table[j].0 != Fallback
    ensures r == Fallback <==> forall j :: 0 <= j < |table| ==> !AnyKeyword(lower, table[j].1)
    ensures r != Fallback ==>
      exists j :: 0 <= j < |table| && table[j].0 == r && AnyKeyword(lower, table[j].1) &&
        forall i :: 0 <= i < j ==> !AnyKeyword(lower, table[i].1)
  {
    if table == [] then Fallback
    else if AnyKeyword(lower, table[0].1) then table[0].0
    else
      var r := FirstMatch(table[1..], lower);
      assert r != Fallback ==>
        exists j :: 0 <= j < |table| && table[j].0 == r && AnyKeyword(lower, table[j].1) &&
          forall i :: 0 <= i < j ==> !AnyKeyword(lower, table[i].1) by {
        if r != Fallback {
          var j :| 0 <= j < |table[1..]| && table[1..][j].0 == r && AnyKeyword(lower, table[1..][j].1) &&
            forall i :: 0 <= i < j ==> !AnyKeyword(lower, table[1..][i].1);
          assert table[j + 1] == table[1..][j];
          forall i | 0 <= i < j + 1 ensures !AnyKeyword(lower, table[i].1) {
            if i > 0 { assert table[i] == table[1..][i - 1]; }
          }
        }
      }
      assert (forall j :: 0 <= j < |table| ==> !AnyKeyword(lower, table[j].1)) <==>
             (forall j :: 0 <= j < |table[1..]| ==> !AnyKeyword(lower, table[1..][j].1)) by {
        if forall j :: 0 <= j < |table[1..]| ==> !AnyKeyword(lower, table[1..][j].1) {
          forall j | 0 <= j < |table| ensures !AnyKeyword(lower, table[j].1) {
            if j > 0 { assert table[j] == table[1..][j - 1]; }
          }
        }
      }
      r
  }

  // ---------------------------------------------------------------------------
  // Properties of the generator.

  /** One step of the table walk. */
  lemma FirstMatchStep(table: seq<(Rule, seq<string>)>, lower: string)
    requires table != [] && forall j :: 0 <= j < |table| ==> table[j].0 != Fallback
    ensures FirstMatch(table, lower) ==
      if AnyKeyword(lower, table[0].1) then table[0].0 else FirstMatch(table[1..], lower)
  {
  }

  lemma AnyOfOne(lower: string, w: string)
    ensures AnyKeyword(lower, [w]) <==> Contains(lower, w)
  {
    assert w in [w];
  }

  lemma AnyOfTwo(lower: string, w: string, v: string)
    ensures AnyKeyword(lower, [w, v]) <==> Contains(lower, w) || Contains(lower, v)
  {
    assert w in [w, v] && v in [w, v];
  }

  /** The source's if-chain is exactly first-match-wins over the rule table. */
  lemma DispatchIsFirstMatch(lower: string)
    ensures Dispatch(lower) == FirstMatch(RuleTable, lower)
  {
    var t1 := [(HowAreYou, ["how are you"]), (Weather, ["weather"]), (Time, ["time"]), (Help, ["help"])];
    var t2 := [(Weather, ["weather"]), (Time, ["time"]), (Help, ["help"])];
    var t3 := [(Time, ["time"]), (Help, ["help"])];
    var t4 := [(Help, ["help"])];
    assert RuleTable[1..] == t1 && t1[1..] == t2 && t2[1..] == t3 && t3[1..] == t4 && t4[1..] == [];
    FirstMatchStep(RuleTable, lower);
    FirstMatchStep(t1, lower);
    FirstMatchStep(t2, lower);
    FirstMatchStep(t3, lower);
    FirstMatchStep(t4, lower);
    AnyOfTwo(lower, "hello", "hi");
    AnyOfOne(lower, "how are you");
    AnyOfOne(lower, "weather");
    AnyOfOne(lower, "time");
    AnyOfOne(lower, "help");
  }

  /** A message containing `hello` or `hi` in any letter case gets the greeting, whatever else it contains. */
  lemma GreetingWins(userMessage: string, random: real, clock: string)
    requires 0.0 <= random < 1.0
    requires Contains(Lower(userMessage), "hello") || Contains(Lower(userMessage), "hi")
    ensures RuleOf(userMessage) == Greeting
    ensures GenerateAIResponse(userMessage, random, clock) == GreetingReply
  {
  }

  /** `hi` is a substring test, not a word test: "this" and "Which" are greetings. */
  lemma SubstringGreeting(random: real, clock: string)
    requires 0.0 <= random < 1.0
    ensures GenerateAIResponse("this", random, clock) == GreetingReply
    ensures GenerateAIResponse("Which", random, clock) == GreetingReply
  {
    assert Lower("this")[1..3] == "hi";
    assert OccursAt(Lower("this"), "hi", 1);
    assert Lower("Which")[1..3] == "hi";
    assert OccursAt(Lower("Which"), "hi", 1);
  }

  /** First match wins: a greeting followed by a question is still a greeting. */
  lemma GreetingBeforeHowAreYou(random: real, clock: string)
    requires 0.0 <= random < 1.0
    ensures GenerateAIResponse("Hi there, how are you?", random, clock) == GreetingReply
  {
    var l := Lower("Hi there, how are you?");
    assert l[0..2] == "hi";
    assert OccursAt(l, "hi", 0);
  }

  /** The `how are you` reply is chosen exactly when that phrase occurs and no greeting keyword does. */
  lemma HowAreYouExactly(userMessage: string)
    ensures RuleOf(userMessage) == HowAreYou <==>
      var l := Lower(userMessage);
      Contains(l, "how are you") && !Contains(l, "hello") && !Contains(l, "hi")
  {
  }

  /** The weather, time and help rules fire only after every earlier rule failed, in that order. */
  lemma LaterRulesInOrder(userMessage: string)
    ensures var l := Lower(userMessage);
      var earlier := !Contains(l, "hello") && !Contains(l, "hi") && !Contains(l, "how are you");
      (RuleOf(userMessage) == Weather <==> earlier && Contains(l, "weather")) &&
      (RuleOf(userMessage) == Time <==> earlier && !Contains(l, "weather") && Contains(l, "time")) &&
      (RuleOf(userMessage) == Help <==>
         earlier && !Contains(l, "weather") && !Contains(l, "time") && Contains(l, "help"))
  {
  }

  /** The how-are-you, weather and help rules answer with their fixed literals. */
  lemma KeywordReplies(userMessage: string, random: real, clock: string)
    requires 0.0 <= random < 1.0
    ensures RuleOf(userMessage) == HowAreYou ==> GenerateAIResponse(userMessage, random, clock) == HowAreYouReply
    ensures RuleOf(userMessage) == Weather ==> GenerateAIResponse(userMessage, random, clock) == WeatherReply
    ensures RuleOf(userMessage) == Help ==> GenerateAIResponse(userMessage, random, clock) == HelpReply
  {
  }

  /** The time rule embeds the injected clock text in its fixed frame. */
  lemma TimeReplyEmbedsClock(userMessage: string, random: real, clock: string)
    requires 0.0 <= random < 1.0
    requires RuleOf(userMessage) == Time
    ensures GenerateAIResponse(userMessage, random, clock) ==
      "The current time is " + clock + ". Is there anything specific you'd like to know about time or scheduling?"
  {
  }

  /** The lower-cased question "what's the weather?" takes the weather rule. */
  lemma WeatherQuestionDispatch(l: string)
    requires l == "what's the weather?"
    ensures Dispatch(l) == Weather
  {
    assert l[11..18] == "weather";
    assert OccursAt(l, "weather", 11);
    MissingLetterExcludes(l, "hello", 2);
    MissingLetterExcludes(l, "hi", 1);
    MissingLetterExcludes(l, "how are you", 8);
  }

  /** A question about the weather gets the fixed weather reply verbatim. */
  lemma WeatherQuestion(random: real, clock: string)
    requires 0.0 <= random < 1.0
    ensures GenerateAIResponse("What's the weather?", random, clock) == WeatherReply
  {
    LowerFixesLowercase("hat's the weather?");
    LowerConcat("W", "hat's the weather?");
    assert Lower("What's the weather?") == "what's the weather?";
    WeatherQuestionDispatch(Lower("What's the weather?"));
  }

  /**
   * With no keyword, the reply is one of the eight templates followed by the
   * ORIGINAL (not lower-cased) message, which therefore occurs in the reply.
   */
  lemma FallbackQuotesMessage(userMessage: string, random: real, clock: string)
    requires 0.0 <= random < 1.0
    requires RuleOf(userMessage) == Fallback
    ensures var r := GenerateAIResponse(userMessage, random, clock);
      (exists k :: 0 <= k < |Templates| &&
         r == Templates[k] + " You mentioned: \"" + userMessage + "\". That's quite interesting to discuss!") &&
      Contains(r, userMessage)
  {
    var k := TemplateIndex(random);
    var r := GenerateAIResponse(userMessage, random, clock);
    var at := |Templates[k]| + |MentionPrefix|;
    assert r == (Templates[k] + MentionPrefix) + userMessage + MentionSuffix;
    assert r[at..at + |userMessage|] == userMessage;
    assert OccursAt(r, userMessage, at);
  }

  /** Dispatch depends on the lower-cased message only; lower-casing first changes nothing. */
  lemma DispatchIgnoresCase(a: string, b: string, random: real, clock: string)
    requires 0.0 <= random < 1.0
    requires Lower(a) == Lower(b)
    ensures RuleOf(a) == RuleOf(b)
    ensures RuleOf(Lower(a)) == RuleOf(a)
    ensures RuleOf(a) != Fallback ==> GenerateAIResponse(a, random, clock) == GenerateAIResponse(b, random, clock)
  {
    LowerIdempotent(a);
  }
}
