# TalentScout AI chatbot: a Dafny model of its intake logic

TalentScout AI is an interview-preparation chatbot. This project models its
deterministic core.

- In src/conversation.py, the candidate record (`CandidateProfile`) and
  the `ConversationManager` operations:
  - the greeting and farewell detectors;
  - the per-state prompt and fallback texts;
  - session initialisation;
  - the tech-stack extractor;
  - the profile-field extractor `parse_user_info`;
  - the completed-field count in the sidebar.
- The four input helpers of src/utils/helpers.py.
- The parts of src/prompts.py that do not talk to the language model: the
  difficulty tier, the role-guidance lookup, the model default, the
  post-processing of the answer into question lines, and turning a failed
  call into an error line.

Modules, one per file:

| file | module | what it holds |
|---|---|---|
| wrappers.dfy | `Wrappers` | `Option`, which models Python's `None` |
| text.dfy | `Text` | the ASCII string operations the source uses (`lower`, `title`, `strip`, `split`, `join`, `in`, `int`, `str`), with their properties |
| patterns.dfy | `Patterns` | one hand-written matcher per regular expression in src/conversation.py, plus `re.search` and `re.findall` over them |
| comprehension.dfy | `Comprehension` | what a filtering list comprehension keeps, as an increasing map of positions |
| unique.dfy | `Unique` | the deduplication loop of `extract_tech_stack`, for any key and clean-up functions |
| profile.dfy | `Profile` | `CandidateProfile` as a class, its field snapshot `ProfileData`, and the completed-field count |
| conversation.dfy | `Conversation` | states, keyword detectors, prompt and fallback lookups, and the session store with `initialize_session` |
| techstack.dfy | `TechStack` | `extract_tech_stack` |
| intake.dfy | `Intake` | `parse_user_info` |
| helpers.dfy | `Helpers` | `format_questions`, `validate_tech_stack`, `get_difficulty_description`, `sanitize_input` |
| prompts.dfy | `Prompts` | question generation, with the client call as a parameter |

The model follows the form of the code, file by file:

- Code that updates state becomes methods:
  - `parse_user_info` assigns fields of the profile object it is given;
  - `extract_tech_stack` fills a list and a `seen` set in a loop;
  - `initialize_session` inserts keys into the session store;
  - `format_questions` appends inside an enumerate loop.

  Each method is proved equal to a specification function of its inputs,
  or of the old state (`ParsedProfile`, `TechStackOf`, `WithDefaults`,
  `FormattedQuestions`). The properties the source promises are lemmas
  about those functions.
- Code that is expression-only becomes functions with contracts. This
  covers the detectors, the lookups, validation, sanitising and the
  prompts module.

Each regular expression is written as a matcher that returns the first
match at a position. Where Python's backtracking decides which match
wins, the matcher tries the alternatives in the same order.
`Patterns.Search` is the leftmost match, as `re.search` returns it, and
`Patterns.FindAll` is the sequence of non-overlapping matches, as
`re.findall` returns it, with no match skipped (`Patterns.FindAllComplete`).

## Model

| member | source | states |
|---|---|---|
| Profile.CandidateProfile.constructor | src/conversation.py:20-31 | every field takes its argument; a missing tech stack becomes the empty list |
| Profile.CompletedFields | src/conversation.py:366-373 | the count is at most 5; it is 5 exactly when all five tracked fields are truthy, and 0 exactly when none is |
| Profile.CompletedFieldsMonotone | src/conversation.py:366-373 | filling fields, and clearing none, never lowers the count |
| Conversation.AnyKeywordIn | src/conversation.py:70 | `any(k in text ...)` is true exactly when some keyword is a substring of the text |
| Conversation.AnyKeywordInStrip | src/conversation.py:69-70 | for keywords without edge whitespace, stripping the text first changes no answer |
| Conversation.DetectConversationEnding | src/conversation.py:64-70 | false on empty input; otherwise true exactly when some farewell is a substring of the lower-cased input |
| Conversation.DetectGreeting | src/conversation.py:72-78 | the same test with the greeting keywords |
| Conversation.DetectionIgnoresCase | src/conversation.py:64-78 | lower-casing the input first changes neither detector |
| Conversation.KeywordAnywhere | src/conversation.py:70 | a lower-case keyword inside any surrounding text, in any letter case, is found |
| Conversation.FarewellAnywhere | src/conversation.py:37-70 | every farewell keyword ends the conversation wherever it occurs, so "weekend" does too |
| Conversation.GreetingAnywhere | src/conversation.py:42-78 | every greeting keyword is detected wherever it occurs |
| Conversation.GetConversationPrompt | src/conversation.py:120-202 | a state in the table gets its text; the default text comes back exactly for the question-generation state |
| Conversation.FallbackBase | src/conversation.py:281-330 | a state in the table gets its text; the default comes back exactly for question generation and for the ending |
| Conversation.GenerateFallbackResponse | src/conversation.py:279-336 | the result starts with the base text; it is longer exactly when a help word occurs in the lower-cased input, and then the help hint follows |
| Conversation.SetDefault | src/conversation.py:49-50 | the key is added when missing, and every existing entry keeps its value |
| Conversation.WithDefaults | src/conversation.py:47-62 | the five keys are present afterwards; no other key is added; existing values are unchanged |
| Conversation.WithDefaultsFillsMissing | src/conversation.py:47-62 | each missing key gets its own default: `GREETING`, a profile, `[]`, `[]`, `0` |
| Conversation.WithDefaultsIdempotent | src/conversation.py:47-62 | initialising twice gives the same session as initialising once |
| Conversation.InitializeSession | src/conversation.py:47-62 | the new store is `WithDefaults` of the old one; a missing profile is a new, empty `CandidateProfile` |
| TechStack.ReplaceSeparators | src/conversation.py:98 | no `,`, `;` or `&` survives: each becomes a space, and every other character stays in its place |
| TechStack.PotentialTechs | src/conversation.py:101-105 | each kept token is 2-15 characters from `[a-zA-Z0-9.+#-]`, and there are no more tokens than words |
| TechStack.PotentialTechsFromWords | src/conversation.py:101-105 | each kept token is some word with `.,!?()[]{}` stripped from its ends |
| TechStack.PotentialTechsSelects | src/conversation.py:101-105 | the comprehension keeps exactly the words whose edge-stripped form passes the token filter, stripped, in their order; none is missed |
| TechStack.MessageTokens | src/conversation.py:98-105 | each token taken from the message itself is 2-15 token characters and has nothing to strip |
| TechStack.VocabularyMatches | src/conversation.py:92-94 | what the vocabulary patterns find in lower-case text, pattern after pattern, are words of the three vocabularies, verbatim |
| TechStack.PatternMatchesAreWords | src/conversation.py:93 | what one vocabulary pattern finds is one of its words |
| TechStack.MatchIsWord | src/conversation.py:84-86 | a vocabulary match in lower-case text is a vocabulary word |
| TechStack.Limit | src/conversation.py:118 | `[:10]`: at most ten entries, a prefix of the list, the whole list when it is short |
| TechStack.ExtractTechStack | src/conversation.py:80-118 | the loops compute `TechStackOf(input)`: vocabulary matches, then tokens, deduplicated, then cut to ten |
| TechStack.VocabularyWordStripped | src/conversation.py:84-86 | a vocabulary word has nothing to strip |
| TechStack.FoundTechs | src/conversation.py:89-107 | every candidate, vocabulary matches first and then the message's tokens, is a vocabulary word or a token, and is its own strip |
| TechStack.UniqueShape | src/conversation.py:110-116 | the deduplicated entries have distinct `strip().lower()` keys, at least two characters each, each a vocabulary word or a token |
| TechStack.TechStackOf | src/conversation.py:110-118 | the result has at most ten entries, distinct `strip().lower()` keys, at least two characters each, each a vocabulary word or a token |
| TechStack.TechStackComplete | src/conversation.py:110-118 | below the cap, every candidate that is first with its key, and whose key is longer than one character, is in the result |
| TechStack.TechStackOrder | src/conversation.py:112-118 | the entries come from increasing candidate positions, vocabulary matches before tokens: first-seen order |
| Unique.DedupByAt | src/conversation.py:112-116 | one loop iteration decides the head of the remaining result |
| Unique.DedupKeeps | src/conversation.py:112-116 | the loop keeps exactly the first items with an eligible, unseen key, cleaned and in order |
| Unique.DedupByDistinct | src/conversation.py:113-116 | the keys of the kept items are new and pairwise distinct |
| Intake.FirstIndex | src/conversation.py:223-267 | the position of the first acceptable element: the one that ends a loop with `break` |
| Intake.EmailAfter | src/conversation.py:209-213 | a filled email is kept; an empty one takes the leftmost address match, and stays empty when there is none |
| Intake.YearsFound | src/conversation.py:224-227 | a number is found exactly when the pattern matches the lower-cased text |
| Intake.ExperienceAfter | src/conversation.py:216-232 | a set experience is kept; an unset one becomes a number in [0, 50] or stays 0 |
| Intake.ExperienceFallsThrough | src/conversation.py:223-232 | the first pattern whose number is in range decides; out-of-range numbers fall through |
| Intake.ExperienceWithoutUsableYears | src/conversation.py:223-232 | without a usable number the experience stays 0 |
| Intake.NameFound | src/conversation.py:242-244 | a candidate name is found exactly when the pattern matches the text as typed |
| Intake.NameAfter | src/conversation.py:235-249 | a filled name is never overwritten |
| Intake.NameFallsThrough | src/conversation.py:241-249 | the first pattern whose stripped match is acceptable decides the name |
| Intake.NameAcceptedOnly | src/conversation.py:244-248 | a newly set name is capitalised words, not a stop word, and at most three words |
| Intake.NameFoundShaped | src/conversation.py:237-244 | the stripped group of a name match is capitalised words |
| Intake.PositionAfter | src/conversation.py:252-267 | a filled position is never overwritten |
| Intake.PositionFallsThrough | src/conversation.py:259-267 | a capture of the wrong length falls through to the next capture, then to the next pattern |
| Intake.PositionAcceptedOnly | src/conversation.py:262-264 | a newly set position is 3-50 characters and title-cased: its letters are upper-case exactly at the start of each word |
| Intake.EmailAcceptedOnly | src/conversation.py:210-213 | a newly set email is the slice of the leftmost address match, shaped like an address, with no match further left, the field having been empty |
| Intake.ParsedProfile | src/conversation.py:204-267 | filled fields are never overwritten; tech stack and question type are untouched |
| Intake.MissingFields | src/conversation.py:269-275 | the issues are exactly the labels of the empty fields among name, email and position, each once, in that order |
| Intake.ParseIdempotent | src/conversation.py:204-277 | parsing the same message a second time changes nothing |
| Intake.ParseFillsFields | src/conversation.py:204-277 | parsing never lowers the completed-field count |
| Intake.ParseUserInfo | src/conversation.py:204-277 | the returned profile is the object passed in; its new fields are `ParsedProfile` of the old ones; the issues are the missing labels |
| Intake.ParseFields | src/conversation.py:209-267 | the four extraction steps compute `ParsedProfile` |
| Intake.MissingIssues | src/conversation.py:269-275 | the issue list built is `MissingFields` of the profile |
| Intake.TakeEmail | src/conversation.py:209-213 | only the email changes, to `EmailAfter` |
| Intake.TakeExperience | src/conversation.py:215-232 | only the experience changes, to the first usable number when it was unset |
| Intake.TakeName | src/conversation.py:234-249 | only the name changes, to the first acceptable match when it was empty |
| Intake.TakePosition | src/conversation.py:251-267 | only the position changes, to the first capture of reasonable length, title-cased, when it was empty |
| Intake.TakeFirstRole | src/conversation.py:261-265 | the first capture of reasonable length is stored title-cased; the position is set exactly when there is one |
| Helpers.FormattedQuestions | src/utils/helpers.py:5-15 | a missing or empty list gives "No questions generated."; an all-blank list gives "No valid questions found."; otherwise the numbered lines |
| Helpers.Numbered | src/utils/helpers.py:10-13 | at most one line per question |
| Helpers.FormatQuestions | src/utils/helpers.py:5-15 | the loop computes `FormattedQuestions` |
| Helpers.NumberedLines | src/utils/helpers.py:10-13 | each line is `"i. " + strip(q)` for a non-blank question at 1-based position i; every non-blank question has its line, in order, and blank ones leave gaps |
| Helpers.NumberedEmpty | src/utils/helpers.py:10-15 | no line is produced exactly when every question is blank |
| Helpers.LabelNumber | src/utils/helpers.py:13 | a label is the digits of the position, `". "`, then the stripped question, and the digits read back as the position |
| Helpers.Technologies | src/utils/helpers.py:22 | each entry of the cleaned list is non-empty, stripped and free of commas |
| Helpers.ValidateTechStack | src/utils/helpers.py:17-30 | each error occurs exactly under its condition, checked in the source's order; the input is accepted exactly when it is non-blank and has one to ten pieces, and the accepted list is the stripped non-blank comma pieces |
| Helpers.AcceptedShape | src/utils/helpers.py:22-30 | an accepted list has 1-10 entries, each non-empty, stripped and comma-free |
| Helpers.SplitJoined | src/utils/helpers.py:22 | splitting a `", "`-join at commas gives the first entry, then each further entry behind a space |
| Helpers.ValidateJoined | src/utils/helpers.py:22-30 | validating the `", "`-join of an accepted list gives the same list |
| Helpers.JoinedTechnologies | src/utils/helpers.py:22-30 | 1-10 clean entries joined by `", "` validate to themselves |
| Helpers.TechnologiesOfJoin | src/utils/helpers.py:22 | cleaning the pieces of the join gives back the entries |
| Helpers.DifficultyDescription | src/utils/helpers.py:32-39 | "Beginner" exactly below 2, "Intermediate" exactly for 2-4, "Advanced" exactly from 5 |
| Helpers.DifficultyMonotone | src/utils/helpers.py:32-39 | more experience never gives an easier band |
| Helpers.SanitizeInput | src/utils/helpers.py:41-45 | "" for None or empty input; otherwise a prefix of the stripped text of at most 500 characters, the whole of it when that fits, and exactly 500 characters when it does not |
| Helpers.SanitizeNotIdempotent | src/utils/helpers.py:45 | a cut just after a space leaves trailing whitespace, so sanitising twice differs from sanitising once |
| Prompts.DifficultyTier | src/prompts.py:29 | "beginner" exactly below 2, "intermediate" exactly for 2-4, "advanced" exactly from 5 |
| Prompts.TierIsLoweredDescription | src/prompts.py:29 | the tier is the lower-cased difficulty description |
| Prompts.RoleGuidance | src/prompts.py:32 | the table's entry for `position.lower()` when there is one; otherwise, and only then, the generic guidance |
| Prompts.RoleGuidanceIgnoresCase | src/prompts.py:32 | positions that lower-case to the same key get the same guidance |
| Prompts.RoleGuidanceUntrimmed | src/prompts.py:32 | the position is not stripped, so a leading blank loses the role's guidance |
| Prompts.SelectModel | src/prompts.py:35 | here and at line 69, a given, non-empty model name is used; None or "" gives the default model |
| Prompts.TechRequest | src/prompts.py:26-57 | the given non-empty model or else the default, temperature 0.7, 1000 tokens, 5 questions, stack, position and experience as given, the lower-cased difficulty band, and the guidance for `position.lower()` when the table has it, else the generic guidance |
| Prompts.BehavioralRequest | src/prompts.py:65-90 | the given non-empty model or else the default, temperature 0.6, 800 tokens, 5 questions, position and experience as given |
| Prompts.QuestionLines | src/prompts.py:59-60 | here and at lines 92-93, every line returned is non-empty, stripped and free of newlines |
| Prompts.QuestionLinesOfJoin | src/prompts.py:59-60 | here and at lines 92-93, clean lines joined by newlines come back unchanged and in order |
| Prompts.BlankLines | src/prompts.py:59-60 | an all-whitespace answer gives no lines |
| Prompts.QuestionsFrom | src/prompts.py:59-63 | here and at lines 92-96, a failure gives exactly one line, `"Error generating questions: "` followed by the exception text; a success gives only clean lines: non-empty, no whitespace at the ends, no newline |
| Prompts.GenerateTechQuestions | src/prompts.py:26-63 | a failed call gives the one error line with the exception text; a successful one gives clean lines |
| Prompts.GenerateBehavioralQuestions | src/prompts.py:65-96 | a failed call gives the one error line with the exception text; a successful one gives clean lines |
| Prompts.TechQuestionsFaithful | src/prompts.py:59-60 | an answer made of clean lines is returned as exactly those lines |
| Prompts.BehavioralQuestionsFaithful | src/prompts.py:92-93 | the same for behavioural questions |
| Prompts.BlankAnswerGivesNothing | src/prompts.py:59-60 | here and at lines 92-93, a blank answer gives an empty list, not an error |
| Patterns.MatchAt | src/conversation.py:210-256 | for the email, experience, name and role patterns, and the vocabularies at lines 84-86, a match at position i starts at i, and its group lies inside it |
| Patterns.EmailParts | src/conversation.py:210 | a match is an address shape: local part, `@`, domain, a dot, a top-level part of at least two letters or `\|`, then a word boundary |
| Patterns.ExperienceGroup | src/conversation.py:217-220 | the group of an experience match is a non-empty run of digits |
| Patterns.NameGroup | src/conversation.py:237-238 | the group of a name match is capitalised words; the leading-name pattern matches only at 0 |
| Patterns.VocabularyGroup | src/conversation.py:84-93 | the lower-cased group of a vocabulary match is a word of its list |
| Patterns.EmailGroup | src/conversation.py:213 | `group()` of an email match is the whole matched slice, shaped like an address |
| Patterns.Search | src/conversation.py:211-242 | `re.search`: the match at the leftmost position that matches, with no match at any earlier position, and None only when no position matches |
| Patterns.FindAll | src/conversation.py:260 | here and at line 93, `re.findall`'s matches are matches of the pattern, in order and non-overlapping |
| Patterns.FindAllComplete | src/conversation.py:260 | here and at line 93, `re.findall` skips no match: the pattern matches nowhere before the first match, between consecutive matches or after the last, and nowhere when the list is empty |
| Patterns.SearchGroup | src/conversation.py:211-244 | the group of the leftmost match, present exactly when there is a match |
| Text.Lower | src/conversation.py:90 | ASCII `str.lower()`: the same length, letters lowered, nothing else changed |
| Text.Title | src/conversation.py:264 | ASCII `str.title()` keeps the length of the text |
| Text.TitleCases | src/conversation.py:264 | ASCII `str.title()`, character by character: a letter is upper-cased exactly when it comes first or follows a non-letter, and lower-cased otherwise; other characters are kept |
| Text.TitledCase | src/conversation.py:264 | in a string that title-casing leaves alone, letters are upper-case exactly at the start of each run of letters |
| Text.TitleKeepsLetters | src/conversation.py:264 | ASCII `str.title()` changes only letter case: lower-casing the result gives the lower-cased input |
| Text.TitleIdempotent | src/conversation.py:264 | title-casing twice is title-casing once |
| Text.StripBy | src/conversation.py:102 | `str.strip(chars)`: the result is no longer than the text and has no stripped character at either end |
| Text.StripByShape | src/conversation.py:102 | `str.strip(chars)` removes only stripped characters: the result is a slice of the text with nothing but stripped characters before and after it |
| Text.Strip | src/utils/helpers.py:22 | `str.strip()`: no longer than the text, no whitespace at either end, and empty exactly when the text is all whitespace |
| Text.StripIdempotent | src/utils/helpers.py:22 | stripping twice is stripping once |
| Text.StripIsSlice | src/utils/helpers.py:45 | a strip is a slice of the text with no whitespace at its ends |
| Text.ContainsIff | src/conversation.py:70 | Python's `part in s` holds exactly when the part occurs at some position |
| Text.ContainsStrip | src/conversation.py:69-70 | a part without edge whitespace occurs in the strip exactly when it occurs in the text |
| Text.SplitWs | src/conversation.py:98 | `str.split()`: the pieces are non-empty and contain no whitespace |
| Text.SplitWsJoin | src/conversation.py:98 | splitting a space-joined list of non-empty, whitespace-free words gives back the words |
| Text.SplitOn | src/utils/helpers.py:22 | `str.split(sep)`: at least one piece, and no piece contains the separator |
| Text.SplitOnJoin | src/prompts.py:59 | splitting a join of separator-free pieces gives the pieces back |
| Text.StrippedNonBlank | src/utils/helpers.py:22 | the comprehension `[t.strip() for t in xs if t.strip()]`: no longer than the input, its elements non-empty and stripped |
| Text.StrippedNonBlankSelects | src/utils/helpers.py:22 | the comprehension keeps exactly the stripped forms of the non-blank pieces, in their order; none is missed |
| Text.NatToString | src/utils/helpers.py:13 | `str(i)`: a non-empty run of digits, with a leading zero only for 0 itself |
| Text.ParseDigitsOfNatToString | src/conversation.py:227 | `int` reads back the digits that `str` writes |

## Left out

- src/app.py, and all Streamlit rendering, are not part of this model.
  This covers `format_conversation_message`, the `st.*` calls of
  `display_candidate_profile` and its float progress fraction. Only the
  completed-field count is modelled.
- src/config.py is not part of this model. It holds constants only, and
  src/prompts.py repeats the ones it uses.
- The Groq client is not modelled. Its creation and the `.env` loading
  depend on the environment. Each completion call becomes a `service`
  parameter that maps a `Request` to a `Completion`: the answer's text, or
  the exception's message.
- `analyze_candidate_fit` (src/prompts.py:98 on) is not modelled. It only
  makes a client call.
- The prompt f-strings are modelled as the `Prompt` datatype of the values
  they interpolate. The rendered text is not modelled.
- The multi-line prompt and fallback texts of `get_conversation_prompt`
  and `generate_fallback_response` are shortened to their first lines,
  without the emoji. Only which text is chosen is verified.
- Temperatures are whole tenths, 7 and 6, because Dafny has no floating
  point.
- Text is ASCII. Python's `lower`, `title`, `strip`, `\s`, `\d` and `\b`
  are Unicode-aware, and the model covers only their ASCII behaviour.
- Patterns.MatchAt: the matchers follow the source's regular
  expressions. They do not implement the general backtracking of
  Python's `re`. They reproduce its result only for these patterns, by
  trying alternatives in the order `re` would.
- Intake.TakeExperience: the `try`/`except (ValueError, IndexError)`
  around `int(match.group(1))` is not modelled. IndexError cannot occur,
  because every experience pattern has a group. ValueError occurs only
  for a digit run longer than Python's limit on integer-string
  conversion (4300 digits by default), and the source then moves on to
  the next pattern. The model reads a digit run of any length. Such a
  run is out of the 0-50 range, and the model moves on too, unless
  leading zeros pad a small value: the model accepts that value where
  the source raises and skips it.
- The session store is a map from a `SessionKey` datatype to a
  `SessionValue` datatype. It is not a dictionary keyed by strings, and
  values of other types are not modelled.
- Dialogue flow is not modelled. The source has no state machine that
  moves between the conversation states.

## Behaviour of the code worth knowing

- Tech-stack extraction lists the vocabulary matches first, taken from
  the lower-cased message, and then the message's own tokens of 2-15
  characters. A token that repeats a vocabulary match, ignoring case, is
  dropped. So for "I work with Python, Django, React, PostgreSQL,
  Docker, and AWS." the result starts "python", "django", "react",
  "postgresql", "docker", "aws", in lower case, followed by "work",
  "with" and "and" (src/conversation.py:89-116).
  `TechStack.FoundTechs` defines the candidate order, and
  `TechStack.TechStackOrder` proves that the result follows it.
- The profile marks an unset text field with the empty string and an
  unset experience with 0 (src/conversation.py:21-31). The sign of an
  experience passed in is never checked. So `Profile.ProfileData` has plain `string` and `int` fields.
- A captured position is judged by its length after stripping, 3 to 50
  characters, and stored title-cased (src/conversation.py:262-264).
  `Intake.RoleLengthOk` measures it
  the same way.
