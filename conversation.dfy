/**
 * The dialogue bookkeeping of `ConversationManager` (src/conversation.py):
 * the conversation states, the session defaults, the keyword detectors for
 * greetings and farewells, and the canned prompt and fallback texts chosen
 * by state.
 */
module Conversation {
  import opened Wrappers
  import opened Text
  import opened Profile

  datatype ConversationState =
    | Greeting
    | CollectingInfo
    | TechStackInput
    | GeneratingQuestions
    | FollowUp
    | Ending

  // ---------------------------------------------------------------------
  // Keyword detection
  // ---------------------------------------------------------------------

  const ConversationEndings: seq<string> := [
    "bye", "goodbye", "exit", "quit", "end", "stop", "thank you",
    "thanks", "that's all", "done", "finish", "no more questions"]

  const GreetingKeywords: seq<string> := [
    "hello", "hi", "hey", "good morning", "good afternoon",
    "good evening", "start", "begin", "ready"]

  /** Python's `any(k in text for k in keywords)`. */
  function AnyKeywordIn(text: string, keywords: seq<string>): (r: bool)
    ensures r <==> exists k :: 0 <= k < |keywords| && Contains(text, keywords[k])
    decreases |keywords|
  {
    if keywords == [] then false
    else Contains(text, keywords[0]) || AnyKeywordIn(text, keywords[1..])
  }

  /** For keywords without whitespace at their ends, stripping the text first changes no answer. */
  lemma AnyKeywordInStrip(text: string, keywords: seq<string>)
    requires WordsTrimmed(keywords)
    ensures AnyKeywordIn(Strip(text), keywords) == AnyKeywordIn(text, keywords)
  {
    forall k | 0 <= k < |keywords|
      ensures Contains(Strip(text), keywords[k]) <==> Contains(text, keywords[k])
    {
      ContainsStrip(text, keywords[k]);
    }
  }

  /** `detect_conversation_ending`: an empty message never ends the
      conversation; otherwise it ends when some farewell occurs anywhere in
      the lower-cased message (the strip the source applies first never
      matters). */
  function DetectConversationEnding(userInput: string): (r: bool)
    ensures r <==> (userInput != [] &&
      exists k :: 0 <= k < |ConversationEndings| && Contains(Lower(userInput), ConversationEndings[k]))
  {
    if userInput == [] then false
    else
      AnyKeywordInStrip(Lower(userInput), ConversationEndings);
      AnyKeywordIn(Strip(Lower(userInput)), ConversationEndings)
  }

  /** `detect_greeting`, the same test against the greeting keywords. */
  function DetectGreeting(userInput: string): (r: bool)
    ensures r <==> (userInput != [] &&
      exists k :: 0 <= k < |GreetingKeywords| && Contains(Lower(userInput), GreetingKeywords[k]))
  {
    if userInput == [] then false
    else
      AnyKeywordInStrip(Lower(userInput), GreetingKeywords);
      AnyKeywordIn(Strip(Lower(userInput)), GreetingKeywords)
  }

  /** Both detectors ignore letter case. */
  lemma DetectionIgnoresCase(userInput: string)
    ensures DetectConversationEnding(Lower(userInput)) == DetectConversationEnding(userInput)
    ensures DetectGreeting(Lower(userInput)) == DetectGreeting(userInput)
  {
    assert Lower(Lower(userInput)) == Lower(userInput);
  }

  /** No keyword has an upper-case letter. */
  predicate KeywordsLower(keywords: seq<string>) {
    forall k, i :: 0 <= k < |keywords| && 0 <= i < |keywords[k]| ==> !IsUpper(keywords[k][i])
  }

  /** A keyword surrounded by any text, in any letter case, is found: the
      test is on substrings, not words ("weekend" ends the conversation,
      "this" is a greeting). */
  lemma KeywordAnywhere(pre: string, keyword: string, post: string)
    requires forall i :: 0 <= i < |keyword| ==> !IsUpper(keyword[i])
    ensures Contains(Lower(pre + keyword + post), keyword)
  {
    var s := pre + keyword + post;
    forall i | 0 <= i < |keyword| ensures Lower(s)[|pre| + i] == keyword[i] {
      assert s[|pre| + i] == keyword[i];
    }
    assert Lower(s)[|pre|..|pre| + |keyword|] == keyword;
    assert OccursAt(Lower(s), keyword, |pre|);
    ContainsIff(Lower(s), keyword);
  }

  lemma FarewellAnywhere(pre: string, k: nat, post: string)
    requires k < |ConversationEndings|
    ensures DetectConversationEnding(pre + ConversationEndings[k] + post)
  {
    assert KeywordsLower(ConversationEndings);
    KeywordAnywhere(pre, ConversationEndings[k], post);
  }

  lemma GreetingAnywhere(pre: string, k: nat, post: string)
    requires k < |GreetingKeywords|
    ensures DetectGreeting(pre + GreetingKeywords[k] + post)
  {
    assert KeywordsLower(GreetingKeywords);
    KeywordAnywhere(pre, GreetingKeywords[k], post);
  }

  // ---------------------------------------------------------------------
  // Prompts and fallbacks by state
  // ---------------------------------------------------------------------

  // The multi-line texts are represented by their opening lines.
  const GreetingPrompt: string := "Welcome to TalentScout AI!"
  const CollectingInfoPrompt: string :=
    "Great! I need a bit more information to personalize your interview questions."
  const TechStackPrompt: string :=
    "Perfect! Now I'd like to know about your technical expertise."
  const FollowUpPrompt: string := "Great! I can generate interview questions for you."
  const EndingPrompt: string := "Thank you for using TalentScout AI!"
  const DefaultPrompt: string :=
    "I'm here to help with your interview preparation. What would you like to know?"

  /** The `prompts` table of `get_conversation_prompt`; it has no entry for
      the question-generation state. */
  const ConversationPrompts: map<ConversationState, string> := map[
    Greeting := GreetingPrompt,
    CollectingInfo := CollectingInfoPrompt,
    TechStackInput := TechStackPrompt,
    FollowUp := FollowUpPrompt,
    Ending := EndingPrompt]

  /** `get_conversation_prompt`: the table's text for the state, otherwise
      the default; the user's message plays no part. */
  function GetConversationPrompt(state: ConversationState, userInput: string): (r: string)
    ensures state in ConversationPrompts ==> r == ConversationPrompts[state]
    ensures r == DefaultPrompt <==> state == GeneratingQuestions
  {
    assert forall st :: st in ConversationPrompts ==> |ConversationPrompts[st]| != |DefaultPrompt|;
    if state in ConversationPrompts then ConversationPrompts[state]
    else assert state == GeneratingQuestions; DefaultPrompt
  }

  const GreetingFallback: string := "I'd be happy to help you prepare for your interview!"
  const CollectingInfoFallback: string :=
    "I need a bit more information to help you better. Please provide:"
  const TechStackFallback: string :=
    "I'd like to know about your technical skills to generate relevant questions."
  const FollowUpFallback: string := "I can help generate interview questions for you!"
  const DefaultFallback: string :=
    "I'm here to help with interview preparation. Could you please rephrase or provide more specific information?"

  /** The `fallback_responses` table: no entry for question generation or
      for the ending. */
  const FallbackResponses: map<ConversationState, string> := map[
    Greeting := GreetingFallback,
    CollectingInfo := CollectingInfoFallback,
    TechStackInput := TechStackFallback,
    FollowUp := FollowUpFallback]

  /** Words that suggest the user is lost. */
  const HelpWords: seq<string> := ["confused", "help", "what", "how", "don't understand"]

  const HelpHint: string :=
    "\n\n**Need help?** I'm designed to generate personalized interview questions. Just share your information naturally, and I'll guide you through the process!"

  /** The base text of `generate_fallback_response`. */
  function FallbackBase(state: ConversationState): (r: string)
    ensures state in FallbackResponses ==> r == FallbackResponses[state]
    ensures r == DefaultFallback <==> state == GeneratingQuestions || state == Ending
  {
    assert forall st :: st in FallbackResponses ==> |FallbackResponses[st]| != |DefaultFallback|;
    if state in FallbackResponses then FallbackResponses[state]
    else assert state == GeneratingQuestions || state == Ending; DefaultFallback
  }

  /** `generate_fallback_response`: the base text for the state, followed by
      the help hint exactly when a help word occurs in the lower-cased
      message (unstripped). */
  function GenerateFallbackResponse(userInput: string, state: ConversationState): (r: string)
    ensures |r| >= |FallbackBase(state)| && r[..|FallbackBase(state)|] == FallbackBase(state)
    ensures r != FallbackBase(state) <==>
      exists k :: 0 <= k < |HelpWords| && Contains(Lower(userInput), HelpWords[k])
    ensures r != FallbackBase(state) ==> r[|FallbackBase(state)|..] == HelpHint
  {
    var base := FallbackBase(state);
    if AnyKeywordIn(Lower(userInput), HelpWords) then base + HelpHint else base
  }

  // ---------------------------------------------------------------------
  // Session state
  // ---------------------------------------------------------------------

  /** One entry of the conversation history. */
  datatype Turn = Turn(role: string, content: string)

  /** The values `initialize_session` stores in the session. */
  datatype SessionValue =
    | StateValue(state: ConversationState)
    | ProfileValue(profile: CandidateProfile)
    | HistoryValue(turns: seq<Turn>)
    | QuestionsValue(questions: seq<string>)
    | StepValue(step: int)

  /** The keys of the session store: the five the conversation manager
      initialises (named `conversation_state`, `candidate_profile`,
      `conversation_history`, `generated_questions` and `current_step`),
      and any other key the rest of the application stores. */
  datatype SessionKey =
    | StateKey
    | ProfileKey
    | HistoryKey
    | QuestionsKey
    | StepKey
    | OtherKey(name: string)

  const SessionKeys: set<SessionKey> := {StateKey, ProfileKey, HistoryKey, QuestionsKey, StepKey}

  /** `if key not in session: session[key] = value`. */
  function SetDefault(entries: map<SessionKey, SessionValue>, key: SessionKey, value: SessionValue): (r: map<SessionKey, SessionValue>)
    ensures r.Keys == entries.Keys + {key}
    ensures forall k :: k in entries ==> r[k] == entries[k]
    ensures key !in entries ==> r[key] == value
  {
    if key in entries then entries else entries[key := value]
  }

  /** The session after the defaults have been filled in, key by key in
      the source's order: every key that exists keeps its value, and each
      missing one of the five gets its default (`newProfile`, a new
      profile, for the profile). */
  function WithDefaults(entries: map<SessionKey, SessionValue>, newProfile: SessionValue): (r: map<SessionKey, SessionValue>)
    ensures r.Keys == entries.Keys + SessionKeys
    ensures forall key :: key in entries ==> r[key] == entries[key]
  {
    var withState := SetDefault(entries, StateKey, StateValue(Greeting));
    var withProfile := SetDefault(withState, ProfileKey, newProfile);
    var withHistory := SetDefault(withProfile, HistoryKey, HistoryValue([]));
    var withQuestions := SetDefault(withHistory, QuestionsKey, QuestionsValue([]));
    var r := SetDefault(withQuestions, StepKey, StepValue(0));
    assert r.Keys == entries.Keys + {StateKey} + {ProfileKey} + {HistoryKey} + {QuestionsKey} + {StepKey};
    r
  }

  /** Each missing key receives its own default. */
  lemma WithDefaultsFillsMissing(entries: map<SessionKey, SessionValue>, newProfile: SessionValue)
    ensures var r := WithDefaults(entries, newProfile);
      && (StateKey !in entries ==> r[StateKey] == StateValue(Greeting))
      && (ProfileKey !in entries ==> r[ProfileKey] == newProfile)
      && (HistoryKey !in entries ==> r[HistoryKey] == HistoryValue([]))
      && (QuestionsKey !in entries ==> r[QuestionsKey] == QuestionsValue([]))
      && (StepKey !in entries ==> r[StepKey] == StepValue(0))
  {
  }

  /** Filling in defaults a second time changes nothing, whatever profile
      the second round would have created. */
  lemma WithDefaultsIdempotent(entries: map<SessionKey, SessionValue>, p: SessionValue, q: SessionValue)
    ensures WithDefaults(WithDefaults(entries, p), q) == WithDefaults(entries, p)
  {
    var once := WithDefaults(entries, p);
    assert SetDefault(once, StateKey, StateValue(Greeting)) == once;
    assert SetDefault(once, ProfileKey, q) == once;
    assert SetDefault(once, HistoryKey, HistoryValue([])) == once;
    assert SetDefault(once, QuestionsKey, QuestionsValue([])) == once;
    assert SetDefault(once, StepKey, StepValue(0)) == once;
  }

  /** Streamlit's per-browser-session store. */
  class SessionState {
    var entries: map<SessionKey, SessionValue>

    constructor ()
      ensures entries == map[]
    {
      entries := map[];
    }
  }

  /** `initialize_session`: adds each missing key with its default and
      touches nothing that is already there; a missing profile is a new,
      empty one. */
  method InitializeSession(session: SessionState)
    modifies session
    ensures exists p: SessionValue ::
      && session.entries == WithDefaults(old(session.entries), p)
      && (ProfileKey !in old(session.entries) ==>
            p.ProfileValue? && fresh(p.profile) && p.profile.Data() == EmptyProfile)
  {
    var entries := session.entries;
    ghost var before := entries;
    entries := SetDefault(entries, StateKey, StateValue(Greeting));
    ghost var withState := entries;
    ghost var newProfile := if ProfileKey in entries then entries[ProfileKey] else StepValue(0);
    if ProfileKey !in entries {
      var profile := new CandidateProfile("", "", "", 0, None, "");
      newProfile := ProfileValue(profile);
      entries := entries[ProfileKey := ProfileValue(profile)];
    }
    assert entries == SetDefault(withState, ProfileKey, newProfile);
    entries := SetDefault(entries, HistoryKey, HistoryValue([]));
    entries := SetDefault(entries, QuestionsKey, QuestionsValue([]));
    entries := SetDefault(entries, StepKey, StepValue(0));
    assert entries == WithDefaults(before, newProfile);
    session.entries := entries;
  }
}
