/**
 * Question generation of src/prompts.py. The language model is not part of
 * the model: a call is a `Request` (what the program sends) handed to a
 * `service` that answers with a `Completion`, either the generated text or
 * the message of the exception the client raised.
 */
module Prompts {
  import opened Wrappers
  import opened Text
  import Helpers

  const DefaultModel: string := "llama-3.3-70b-versatile"
  /** The temperatures 0.7 and 0.6, in tenths. */
  const TechTemperatureTenths: nat := 7
  const BehavioralTemperatureTenths: nat := 6
  const MaxTokensTech: nat := 1000
  const MaxTokensBehavioral: nat := 800
  const DefaultTechQuestions: nat := 5
  const DefaultBehavioralQuestions: nat := 5

  const RolePrompts: map<string, string> := map[
    "software engineer" := "Focus on coding, algorithms, and system design",
    "data scientist" := "Emphasize statistics, ML, and data analysis",
    "devops engineer" := "Concentrate on infrastructure, CI/CD, and monitoring",
    "product manager" := "Focus on strategy, user experience, and stakeholder management",
    "designer" := "Emphasize user experience, design principles, and tools"
  ]
  const GenericGuidance: string := "Focus on technical proficiency and problem-solving"
  const ErrorPrefix: string := "Error generating questions: "

  /** The difficulty word of the technical prompt. */
  function DifficultyTier(experience: int): (r: string)
    ensures r == "beginner" <==> experience < 2
    ensures r == "intermediate" <==> 2 <= experience < 5
    ensures r == "advanced" <==> 5 <= experience
  {
    if experience < 2 then "beginner" else if experience < 5 then "intermediate" else "advanced"
  }

  /** The tier uses the same thresholds as the displayed difficulty band. */
  lemma TierIsLoweredDescription(experience: int)
    ensures DifficultyTier(experience) == Lower(Helpers.DifficultyDescription(experience))
  {
    if experience < 2 {
      LowerWord("Beginner", "beginner");
    } else if experience < 5 {
      LowerWord("Intermediate", "intermediate");
    } else {
      LowerWord("Advanced", "advanced");
    }
  }

  /** A capitalised word lowers to its lower-case spelling. */
  lemma LowerWord(word: string, lowered: string)
    requires |word| == |lowered| && word != []
    requires IsUpper(word[0]) && lowered[0] as int == word[0] as int + 32
    requires forall i :: 1 <= i < |word| ==> IsLower(word[i]) && lowered[i] == word[i]
    ensures Lower(word) == lowered
  {
    assert forall i :: 0 <= i < |word| ==> Lower(word)[i] == lowered[i];
  }

  /** `ROLE_PROMPTS.get(position.lower(), ...)`. */
  function RoleGuidance(position: string): (r: string)
    ensures r in RolePrompts.Values || r == GenericGuidance
    ensures Lower(position) in RolePrompts ==> r == RolePrompts[Lower(position)]
    ensures r == GenericGuidance <==> Lower(position) !in RolePrompts
  {
    var key := Lower(position);
    if key in RolePrompts then RolePrompts[key] else GenericGuidance
  }

  /** Only the case of the position matters. */
  lemma RoleGuidanceIgnoresCase(p: string, q: string)
    requires Lower(p) == Lower(q)
    ensures RoleGuidance(p) == RoleGuidance(q)
  {
  }

  /** The position is not trimmed: a leading blank loses the role's
      guidance. */
  lemma RoleGuidanceUntrimmed(position: string)
    ensures RoleGuidance([' '] + position) == GenericGuidance
  {
    var key := Lower([' '] + position);
    assert key[0] == ' ';
    assert forall k :: k in RolePrompts ==> k[0] != ' ';
  }

  /** `model or DEFAULT_MODEL`: a given, non-empty model name wins. */
  function SelectModel(model: Option<string>): (r: string)
    ensures r != ""
    ensures model.Some? && model.value != "" ==> r == model.value
    ensures model.None? || model.value == "" ==> r == DefaultModel
  {
    if model.Some? && model.value != "" then model.value else DefaultModel
  }

  /** The values the prompt text is made from. */
  datatype Prompt =
    | TechPrompt(count: nat, techStack: string, position: string, experience: int, difficulty: string, guidance: string)
    | BehavioralPrompt(count: nat, position: string, experience: int)

  /** A chat completion request: model, prompt, temperature and token
      budget. */
  datatype Request = Request(model: string, prompt: Prompt, temperatureTenths: nat, maxTokens: nat)

  /** The client's answer: the message content, or the exception text. */
  datatype Completion = Success(content: string) | Failure(error: string)

  /** The technical request: the given model or the default one, five
      questions, the difficulty word of the experience band, and the
      guidance of the role when its lower-cased name is in the table. */
  function TechRequest(techStack: string, position: string, experience: int, model: Option<string>): (q: Request)
    ensures model.Some? && model.value != "" ==> q.model == model.value
    ensures model.None? || model.value == "" ==> q.model == DefaultModel
    ensures q.temperatureTenths == TechTemperatureTenths && q.maxTokens == MaxTokensTech
    ensures q.prompt.TechPrompt? && q.prompt.count == DefaultTechQuestions
    ensures q.prompt.techStack == techStack && q.prompt.position == position && q.prompt.experience == experience
    ensures q.prompt.difficulty == Lower(Helpers.DifficultyDescription(experience))
    ensures Lower(position) in RolePrompts ==> q.prompt.guidance == RolePrompts[Lower(position)]
    ensures Lower(position) !in RolePrompts ==> q.prompt.guidance == GenericGuidance
  {
    TierIsLoweredDescription(experience);
    Request(SelectModel(model),
            TechPrompt(DefaultTechQuestions, techStack, position, experience, DifficultyTier(experience), RoleGuidance(position)),
            TechTemperatureTenths, MaxTokensTech)
  }

  /** The behavioural request: the given model or the default one, and
      five questions for the position and experience as given. */
  function BehavioralRequest(position: string, experience: int, model: Option<string>): (q: Request)
    ensures model.Some? && model.value != "" ==> q.model == model.value
    ensures model.None? || model.value == "" ==> q.model == DefaultModel
    ensures q.temperatureTenths == BehavioralTemperatureTenths && q.maxTokens == MaxTokensBehavioral
    ensures q.prompt.BehavioralPrompt? && q.prompt.count == DefaultBehavioralQuestions
    ensures q.prompt.position == position && q.prompt.experience == experience
  {
    Request(SelectModel(model), BehavioralPrompt(DefaultBehavioralQuestions, position, experience),
            BehavioralTemperatureTenths, MaxTokensBehavioral)
  }

  /** `content.strip().split('\n')`, each line stripped, blank ones dropped. */
  function QuestionLines(content: string): (r: seq<string>)
    ensures forall k :: 0 <= k < |r| ==> r[k] != "" && Strip(r[k]) == r[k] && '\n' !in r[k]
  {
    var pieces := SplitOn(Strip(content), '\n');
    StrippedNonBlankAvoids(pieces, '\n');
    StrippedNonBlank(pieces)
  }

  /** A line that is non-empty, stripped and on one line. */
  predicate CleanLine(line: string) {
    line != "" && Trimmed(line, IsSpace) && '\n' !in line
  }

  /** Round trip: clean questions written one per line are read back as
      they are. */
  lemma QuestionLinesOfJoin(lines: seq<string>)
    requires forall k :: 0 <= k < |lines| ==> CleanLine(lines[k])
    ensures QuestionLines(Join(lines, "\n")) == lines
  {
    if lines == [] {
      BlankLines("");
    } else {
      var text := Join(lines, "\n");
      JoinStripped(text, lines);
      LinesOfTrimmedJoin(text, lines);
    }
  }

  /** Clean lines joined by newlines leave nothing to strip. */
  lemma JoinStripped(text: string, lines: seq<string>)
    requires lines != [] && text == Join(lines, "\n")
    requires forall k :: 0 <= k < |lines| ==> CleanLine(lines[k])
    ensures Strip(text) == text
  {
    JoinEnds(lines, "\n");
    EndsTrimmed(text, lines[0], lines[|lines| - 1]);
  }

  /** A text that begins and ends like clean lines leaves nothing to strip. */
  lemma EndsTrimmed(text: string, first: string, last: string)
    requires CleanLine(first) && CleanLine(last)
    requires |text| > 0 && text[0] == first[0] && text[|text| - 1] == last[|last| - 1]
    ensures Strip(text) == text
  {
    StripTrimmed(text);
  }

  lemma LinesOfTrimmedJoin(text: string, lines: seq<string>)
    requires lines != [] && text == Join(lines, "\n") && Strip(text) == text
    requires forall k :: 0 <= k < |lines| ==> CleanLine(lines[k])
    ensures QuestionLines(text) == lines
  {
    SplitOnJoin(lines, '\n');
    LinesOfTrimmed(text, lines);
  }

  /** An unstripped text whose newline pieces are clean lines reads back
      as those pieces. */
  lemma LinesOfTrimmed(text: string, lines: seq<string>)
    requires Strip(text) == text && SplitOn(text, '\n') == lines
    requires forall k :: 0 <= k < |lines| ==> CleanLine(lines[k])
    ensures QuestionLines(text) == lines
  {
    forall k | 0 <= k < |lines| ensures Strip(lines[k]) == lines[k] {
      StripTrimmed(lines[k]);
    }
    StrippedNonBlankIdentity(lines);
  }

  /** What a generation call returns for the client's answer: one line,
      the prefix and the exception text, for a failure; clean lines for a
      success. */
  function QuestionsFrom(outcome: Completion): (r: seq<string>)
    ensures outcome.Failure? ==>
      |r| == 1 && |r[0]| >= |ErrorPrefix| && r[0][..|ErrorPrefix|] == ErrorPrefix && r[0][|ErrorPrefix|..] == outcome.error
    ensures outcome.Success? ==> forall k :: 0 <= k < |r| ==> CleanLine(r[k])
  {
    match outcome
    case Success(content) => QuestionLines(content)
    case Failure(error) => [ErrorPrefix + error]
  }

  /** `generate_tech_questions`, the client call being `service`. */
  function GenerateTechQuestions(techStack: string, position: string, experience: int, model: Option<string>,
                                 service: Request -> Completion): (r: seq<string>)
    ensures var outcome := service(TechRequest(techStack, position, experience, model));
      outcome.Failure? ==> |r| == 1 && |r[0]| >= |ErrorPrefix| && r[0][..|ErrorPrefix|] == ErrorPrefix && r[0][|ErrorPrefix|..] == outcome.error
    ensures service(TechRequest(techStack, position, experience, model)).Success? ==>
      forall k :: 0 <= k < |r| ==> CleanLine(r[k])
  {
    QuestionsFrom(service(TechRequest(techStack, position, experience, model)))
  }

  /** `generate_behavioral_questions`, the client call being `service`. */
  function GenerateBehavioralQuestions(position: string, experience: int, model: Option<string>,
                                       service: Request -> Completion): (r: seq<string>)
    ensures var outcome := service(BehavioralRequest(position, experience, model));
      outcome.Failure? ==> |r| == 1 && |r[0]| >= |ErrorPrefix| && r[0][..|ErrorPrefix|] == ErrorPrefix && r[0][|ErrorPrefix|..] == outcome.error
    ensures service(BehavioralRequest(position, experience, model)).Success? ==>
      forall k :: 0 <= k < |r| ==> CleanLine(r[k])
  {
    QuestionsFrom(service(BehavioralRequest(position, experience, model)))
  }

  /** A model that answers with clean lines, one per line, has them
      returned unchanged and in order. */
  lemma TechQuestionsFaithful(techStack: string, position: string, experience: int, model: Option<string>,
                              service: Request -> Completion, lines: seq<string>)
    requires service(TechRequest(techStack, position, experience, model)) == Success(Join(lines, "\n"))
    requires forall k :: 0 <= k < |lines| ==> CleanLine(lines[k])
    ensures GenerateTechQuestions(techStack, position, experience, model, service) == lines
  {
    QuestionLinesOfJoin(lines);
  }

  lemma BehavioralQuestionsFaithful(position: string, experience: int, model: Option<string>,
                                    service: Request -> Completion, lines: seq<string>)
    requires service(BehavioralRequest(position, experience, model)) == Success(Join(lines, "\n"))
    requires forall k :: 0 <= k < |lines| ==> CleanLine(lines[k])
    ensures GenerateBehavioralQuestions(position, experience, model, service) == lines
  {
    QuestionLinesOfJoin(lines);
  }

  /** Blank answers give no questions at all: the caller sees an empty
      list, not an error. */
  lemma BlankAnswerGivesNothing(content: string)
    requires forall i :: 0 <= i < |content| ==> IsSpace(content[i])
    ensures QuestionsFrom(Success(content)) == []
  {
    BlankLines(content);
  }

  lemma BlankLines(content: string)
    requires forall i :: 0 <= i < |content| ==> IsSpace(content[i])
    ensures QuestionLines(content) == []
  {
    SplitOnAbsent("", '\n');
    assert StrippedNonBlank([""]) == StrippedNonBlank([""][1..]);
  }
}
