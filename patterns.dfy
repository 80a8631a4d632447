/**
 * Hand-written matchers for the regular expressions of the candidate intake
 * heuristics (src/conversation.py), on ASCII text.
 *
 * `MatchAt(p, s, i)` answers what Python's backtracking engine answers when
 * it tries pattern `p` at offset `i` of `s`; `Search` is `re.search` (the
 * leftmost offset at which `MatchAt` succeeds) and `FindAll` is
 * `re.findall` (successive non-overlapping matches, each search resuming
 * where the previous match ended). Every pattern here is written so that
 * the backtracking order is explicit: a greedy run is taken whole and, where
 * giving characters back can lead to another outcome, the shorter runs are
 * tried in order, longest first. Where giving back can never succeed, the
 * comment on the matcher says why.
 */
module Patterns {
  import opened Wrappers
  import opened Text

  /** The patterns of src/conversation.py, in the order the code lists them. */
  datatype Pattern =
    /** `\b[A-Za-z0-9._%+-]+@[A-Za-z0-9.-]+\.[A-Z|a-z]{2,}\b` */
    | EmailAddress
    /** `(\d+)\s*(?:years?|yrs?)\s*(?:of\s*)?(?:experience|exp)` */
    | YearsOfExperience
    /** `(?:experience|exp)\s*(?:of\s*)?(\d+)\s*(?:years?|yrs?)` */
    | ExperienceOfYears
    /** `(\d+)\s*(?:years?|yrs?)\s*(?:in|working|coding|programming)` */
    | YearsIn
    /** `(?:have|with|got)\s*(\d+)\s*(?:years?|yrs?)` */
    | HaveYears
    /** `(?:i\'?m|name is|call me|i am)\s+([A-Z][a-z]+(?:\s+[A-Z][a-z]+)*)`, case-sensitive */
    | NameAfterCue
    /** `^([A-Z][a-z]+(?:\s+[A-Z][a-z]+)*)`, case-sensitive */
    | LeadingName
    /** `(?:applying for|role of|position of|job of|as a|as an)\s+([^,.!?]+)`, ignoring case */
    | RoleAfterCue
    /** `([A-Za-z\s]+(?:developer|engineer|designer|manager|analyst|scientist|architect|lead|director))`, ignoring case */
    | RoleTitle
    /** `(?:i\'?m a|work as a|i am a)\s+([^,.!?]+)`, ignoring case */
    | RoleAfterSelf
    /** The three technology vocabularies `\b(?:python|java|...)\b`, ignoring case. */
    | CoreTech
    | WebTech
    | DataTech
  {
    predicate IsExperience() {
      YearsOfExperience? || ExperienceOfYears? || YearsIn? || HaveYears?
    }

    predicate IsName() {
      NameAfterCue? || LeadingName?
    }

    predicate IsVocabulary() {
      CoreTech? || WebTech? || DataTech?
    }
  }

  /** A successful match: the whole match is `s[start..end]`; group 1 (the
      whole match for a pattern without a group) is `s[groupStart..groupEnd]`. */
  datatype Match = Match(start: nat, groupStart: nat, groupEnd: nat, end: nat)

  predicate WellFormed(s: string, m: Match) {
    m.start <= m.groupStart <= m.groupEnd <= m.end <= |s| && m.start < m.end
  }

  function Group(s: string, m: Match): string
    requires WellFormed(s, m)
  {
    s[m.groupStart..m.groupEnd]
  }

  function Groups(s: string, ms: seq<Match>): (r: seq<string>)
    requires forall k :: 0 <= k < |ms| ==> WellFormed(s, ms[k])
    ensures |r| == |ms|
    ensures forall k :: 0 <= k < |ms| ==> r[k] == Group(s, ms[k])
  {
    seq(|ms|, k requires 0 <= k < |ms| => Group(s, ms[k]))
  }

  // ---------------------------------------------------------------------
  // Primitives
  // ---------------------------------------------------------------------

  /** The same under `re.IGNORECASE`; `lit` is written in lower case. */
  predicate LiteralAtIgnoringCase(s: string, i: nat, lit: string) {
    i + |lit| <= |s| && Lower(s[i..i + |lit|]) == lit
  }

  /** `\b`: exactly one of the characters around offset `i` is a word character. */
  predicate WordBoundary(s: string, i: nat)
    requires i <= |s|
  {
    (i > 0 && IsWordChar(s[i - 1])) != (i < |s| && IsWordChar(s[i]))
  }

  /** The first of `lits` that occurs at `i`, by its end offset: an
      alternation of literals whose continuation cannot tell them apart. */
  function FirstLiteral(s: string, i: nat, lits: seq<string>): (r: Option<nat>)
    ensures r.Some? ==> exists k :: 0 <= k < |lits| && OccursAt(s, lits[k], i) && r.value == i + |lits[k]|
    ensures r.None? ==> forall k :: 0 <= k < |lits| ==> !OccursAt(s, lits[k], i)
    decreases |lits|
  {
    if lits == [] then None
    else if OccursAt(s, lits[0], i) then Some(i + |lits[0]|)
    else
      var r := FirstLiteral(s, i, lits[1..]);
      assert forall k :: 1 <= k < |lits| ==> lits[k] == lits[1..][k - 1];
      r
  }

  /** `c?`, greedy. */
  function OptionalChar(s: string, j: nat, c: char): (k: nat)
    requires j <= |s|
    ensures j <= k <= |s|
  {
    if j < |s| && s[j] == c then j + 1 else j
  }

  // ---------------------------------------------------------------------
  // Email address
  // ---------------------------------------------------------------------

  predicate IsLocalChar(c: char) {
    IsLetter(c) || IsDigit(c) || c == '.' || c == '_' || c == '%' || c == '+' || c == '-'
  }

  predicate IsDomainChar(c: char) {
    IsLetter(c) || IsDigit(c) || c == '.' || c == '-'
  }

  /** `[A-Z|a-z]`: the `|` inside the class is a literal bar. */
  predicate IsTldChar(c: char) {
    IsLetter(c) || c == '|'
  }

  /** What a match of the email pattern at `i` with its `@` at `at`, its
      last dot at `dot` and its end at `end` consists of. */
  predicate EmailShaped(s: string, i: nat, at: nat, dot: nat, end: nat) {
    && i < at && at + 1 < dot && dot + 2 < end <= |s|
    && (forall j :: i <= j < at ==> IsLocalChar(s[j]))
    && s[at] == '@'
    && (forall j :: at < j < dot ==> IsDomainChar(s[j]))
    && s[dot] == '.'
    && (forall j :: dot < j < end ==> IsTldChar(s[j]))
    && WordBoundary(s, i) && WordBoundary(s, end)
  }

  /** `[A-Z|a-z]{2,}\b` over the run `[t, t + n)` of top-level-domain
      characters, giving back one character at a time. */
  function TldEnd(s: string, t: nat, n: nat): (r: Option<nat>)
    requires t + n <= |s|
    ensures r.Some? ==> t + 2 <= r.value <= t + n && WordBoundary(s, r.value)
    decreases n
  {
    if n < 2 then None
    else if WordBoundary(s, t + n) then Some(t + n)
    else TldEnd(s, t, n - 1)
  }

  /** `[A-Za-z0-9.-]+\.[A-Z|a-z]{2,}\b` where the domain run starts at `d`
      and currently ends at `e`; the run is given back one character at a
      time. The result is the offset of the dot and the end of the match. */
  function DomainEnd(s: string, d: nat, e: nat): (r: Option<(nat, nat)>)
    requires d < e <= |s|
    requires forall j :: d <= j < e ==> IsDomainChar(s[j])
    ensures r.Some? ==> var (dot, end) := r.value;
      && d < dot <= e && dot + 2 < end <= |s| && s[dot] == '.'
      && (forall j :: d <= j < dot ==> IsDomainChar(s[j]))
      && (forall j :: dot < j < end ==> IsTldChar(s[j]))
      && WordBoundary(s, end)
    decreases e
  {
    var tld :=
      if e < |s| && s[e] == '.' then TldEnd(s, e + 1, RunEnd(s, e + 1, IsTldChar) - (e + 1))
      else None;
    if tld.Some? then Some((e, tld.value))
    else if e - 1 > d then DomainEnd(s, d, e - 1)
    else None
  }

  /** The email pattern tried at `i`: the offsets of the `@`, the last dot
      and the end. The local part is the whole run of local characters:
      giving any back would leave a local character, never `@`, next. */
  function EmailParts(s: string, i: nat): (r: Option<(nat, nat, nat)>)
    requires i <= |s|
    ensures r.Some? ==> EmailShaped(s, i, r.value.0, r.value.1, r.value.2)
  {
    if !WordBoundary(s, i) then None
    else
      var at := RunEnd(s, i, IsLocalChar);
      if at == i || at == |s| || s[at] != '@' then None
      else
        var k := RunEnd(s, at + 1, IsDomainChar);
        if k == at + 1 then None
        else match DomainEnd(s, at + 1, k)
          case None => None
          case Some((dot, end)) => Some((at, dot, end))
  }

  // ---------------------------------------------------------------------
  // Years of experience (applied to the lower-cased input)
  // ---------------------------------------------------------------------

  /** `(?:years?|yrs?)`, greedy on the `s`. In every experience pattern the
      text after the unit either is the end of the pattern or must start
      with whitespace, `o`, `e`, `i`, `w`, `c` or `p`, so giving the `s`
      back can never succeed. */
  function YearUnitEnd(s: string, j: nat): (r: Option<nat>)
    requires j <= |s|
    ensures r.Some? ==> j + 2 <= r.value <= |s|
  {
    if OccursAt(s, "year", j) then Some(OptionalChar(s, j + 4, 's'))
    else if OccursAt(s, "yr", j) then Some(OptionalChar(s, j + 2, 's'))
    else None
  }

  /** `(?:of\s*)?`, greedy. The text after it must be a digit or `exp`, which
      an `o` never is, so skipping a present `of` can never succeed. */
  function OptionalOf(s: string, j: nat): (k: nat)
    requires j <= |s|
    ensures j <= k <= |s|
  {
    if OccursAt(s, "of", j) then RunEnd(s, j + 2, IsSpace) else j
  }

  /** `(\d+)\s*(?:years?|yrs?)` at `o`: the end of the digits and of the unit.
      The digit run is taken whole: a shorter one leaves a digit next, which
      is neither whitespace nor `y`. The same holds for the whitespace run. */
  function DigitsThenUnit(s: string, o: nat): (r: Option<(nat, nat)>)
    requires o <= |s|
    ensures r.Some? ==> o < r.value.0 < r.value.1 <= |s| && AllDigits(s[o..r.value.0])
  {
    if o < |s| && IsDigit(s[o]) then
      var d := RunEnd(s, o, IsDigit);
      match YearUnitEnd(s, RunEnd(s, d, IsSpace))
      case None => None
      case Some(u) => Some((d, u))
    else None
  }

  function YearsOfExperienceAt(s: string, i: nat): (r: Option<Match>)
    requires i <= |s|
    ensures r.Some? ==> r.value.start == i == r.value.groupStart && WellFormed(s, r.value)
    ensures r.Some? ==> r.value.groupStart < r.value.groupEnd && AllDigits(Group(s, r.value))
  {
    match DigitsThenUnit(s, i)
    case None => None
    case Some((d, u)) =>
      match FirstLiteral(s, OptionalOf(s, RunEnd(s, u, IsSpace)), ["experience", "exp"])
      case None => None
      case Some(e) => Some(Match(i, i, d, e))
  }

  /** `experience` and `exp` can both occur at `i`; when `experience` does,
      trying `exp` instead leaves an `e` next, which fits neither `\s`, `of`
      nor `\d`, so only the longer alternative can lead to a match. */
  function ExperienceOfYearsAt(s: string, i: nat): (r: Option<Match>)
    requires i <= |s|
    ensures r.Some? ==> r.value.start == i && WellFormed(s, r.value)
    ensures r.Some? ==> r.value.groupStart < r.value.groupEnd && AllDigits(Group(s, r.value))
  {
    if !OccursAt(s, "exp", i) then None
    else
      var j := if OccursAt(s, "experience", i) then i + 10 else i + 3;
      var o := OptionalOf(s, RunEnd(s, j, IsSpace));
      match DigitsThenUnit(s, o)
      case None => None
      case Some((d, u)) => Some(Match(i, o, d, u))
  }

  function YearsInAt(s: string, i: nat): (r: Option<Match>)
    requires i <= |s|
    ensures r.Some? ==> r.value.start == i == r.value.groupStart && WellFormed(s, r.value)
    ensures r.Some? ==> r.value.groupStart < r.value.groupEnd && AllDigits(Group(s, r.value))
  {
    match DigitsThenUnit(s, i)
    case None => None
    case Some((d, u)) =>
      match FirstLiteral(s, RunEnd(s, u, IsSpace), ["in", "working", "coding", "programming"])
      case None => None
      case Some(e) => Some(Match(i, i, d, e))
  }

  function HaveYearsAt(s: string, i: nat): (r: Option<Match>)
    requires i <= |s|
    ensures r.Some? ==> r.value.start == i && WellFormed(s, r.value)
    ensures r.Some? ==> r.value.groupStart < r.value.groupEnd && AllDigits(Group(s, r.value))
  {
    match FirstLiteral(s, i, ["have", "with", "got"])
    case None => None
    case Some(j) =>
      var o := RunEnd(s, j, IsSpace);
      match DigitsThenUnit(s, o)
      case None => None
      case Some((d, u)) => Some(Match(i, o, d, u))
  }

  // ---------------------------------------------------------------------
  // Names (case-sensitive)
  // ---------------------------------------------------------------------

  /** What a name group consists of: capitalised words separated by
      whitespace, starting with a capital and ending with a small letter. */
  predicate NameShaped(g: string) {
    && |g| >= 2 && IsUpper(g[0]) && IsLower(g[|g| - 1])
    && forall j :: 0 <= j < |g| ==> IsLetter(g[j]) || IsSpace(g[j])
  }

  /** `[A-Z][a-z]+`, with the small letters taken greedily. */
  function CapitalWordEnd(s: string, i: nat): (r: Option<nat>)
    requires i <= |s|
    ensures r.Some? ==> i + 2 <= r.value <= |s| && IsUpper(s[i])
    ensures r.Some? ==> forall j :: i < j < r.value ==> IsLower(s[j])
  {
    if i + 1 < |s| && IsUpper(s[i]) && IsLower(s[i + 1]) then Some(RunEnd(s, i + 1, IsLower))
    else None
  }

  /** `(?:\s+[A-Z][a-z]+)*` from `e`, greedy. Nothing follows it in the
      pattern, so the first way it succeeds is the match: as many further
      words as there are. */
  function MoreCapitalWords(s: string, e: nat): (k: nat)
    requires 0 < e <= |s| && IsLower(s[e - 1])
    ensures e <= k <= |s| && IsLower(s[k - 1])
    ensures forall j :: e <= j < k ==> IsLetter(s[j]) || IsSpace(s[j])
    decreases |s| - e
  {
    var w := RunEnd(s, e, IsSpace);
    if w > e then
      match CapitalWordEnd(s, w)
      case Some(e2) => MoreCapitalWords(s, e2)
      case None => e
    else e
  }

  /** A name group starting at `w`, by its end. */
  function NameWordsEnd(s: string, w: nat): (r: Option<nat>)
    requires w <= |s|
    ensures r.Some? ==> w < r.value <= |s| && NameShaped(s[w..r.value])
  {
    match CapitalWordEnd(s, w)
    case None => None
    case Some(e) => Some(MoreCapitalWords(s, e))
  }

  /** At most one of the cue literals can occur at any offset (they differ
      in their first or second character), so the first one that occurs is
      the only alternative that can match. */
  function NameAfterCueAt(s: string, i: nat): (r: Option<Match>)
    requires i <= |s|
    ensures r.Some? ==> r.value.start == i && WellFormed(s, r.value) && NameShaped(Group(s, r.value))
  {
    match FirstLiteral(s, i, ["i'm", "im", "name is", "call me", "i am"])
    case None => None
    case Some(j) =>
      var w := RunEnd(s, j, IsSpace);
      if w == j then None
      else match NameWordsEnd(s, w)
        case None => None
        case Some(e) => Some(Match(i, w, e, e))
  }

  function LeadingNameAt(s: string, i: nat): (r: Option<Match>)
    requires i <= |s|
    ensures r.Some? ==> r.value.start == i == 0 && WellFormed(s, r.value) && NameShaped(Group(s, r.value))
  {
    if i != 0 then None
    else match NameWordsEnd(s, 0)
      case None => None
      case Some(e) => Some(Match(0, 0, e, e))
  }

  // ---------------------------------------------------------------------
  // Roles (ignoring case)
  // ---------------------------------------------------------------------

  predicate IsClausePunct(c: char) {
    c == ',' || c == '.' || c == '!' || c == '?'
  }

  predicate NotClausePunct(c: char) { !IsClausePunct(c) }

  /** `\s+([^,.!?]+)` at `j`, by the bounds of the group. The whitespace run
      is taken whole; when nothing but a punctuation mark or the end follows
      it, giving back its last character lets that single whitespace
      character be the group (a run of one cannot be given back). */
  function ClauseAfterSpaces(s: string, j: nat): (r: Option<(nat, nat)>)
    requires j <= |s|
    ensures r.Some? ==> j < r.value.0 < r.value.1 <= |s|
    ensures r.Some? ==> forall k :: r.value.0 <= k < r.value.1 ==> !IsClausePunct(s[k])
  {
    var w := RunEnd(s, j, IsSpace);
    if w == j then None
    else if w < |s| && !IsClausePunct(s[w]) then Some((w, RunEnd(s, w, NotClausePunct)))
    else if w - j >= 2 then Some((w - 1, w))
    else None
  }

  /** An alternation of cue literals followed by `\s+([^,.!?]+)`, with full
      backtracking between the alternatives. */
  function CueThenClause(s: string, i: nat, cues: seq<string>): (r: Option<Match>)
    requires i <= |s|
    ensures r.Some? ==> r.value.start == i && WellFormed(s, r.value)
    decreases |cues|
  {
    if cues == [] then None
    else if LiteralAtIgnoringCase(s, i, cues[0]) && ClauseAfterSpaces(s, i + |cues[0]|).Some? then
      var (g0, g1) := ClauseAfterSpaces(s, i + |cues[0]|).value;
      Some(Match(i, g0, g1, g1))
    else CueThenClause(s, i, cues[1..])
  }

  const RoleCues: seq<string> := ["applying for", "role of", "position of", "job of", "as a", "as an"]

  /** `i\'?m a` is the two literals `i'm a` and `im a`, in that order. */
  const SelfCues: seq<string> := ["i'm a", "im a", "work as a", "i am a"]

  const RoleNouns: seq<string> :=
    ["developer", "engineer", "designer", "manager", "analyst", "scientist", "architect", "lead", "director"]

  predicate IsLetterOrSpace(c: char) { IsLetter(c) || IsSpace(c) }

  /** The first role noun, in the pattern's order, that occurs at `e`. */
  function RoleNounAt(s: string, e: nat, nouns: seq<string>): (r: Option<nat>)
    ensures r.Some? ==> e < r.value <= |s|
    decreases |nouns|
  {
    if nouns == [] then None
    else if nouns[0] != [] && LiteralAtIgnoringCase(s, e, nouns[0]) then Some(e + |nouns[0]|)
    else RoleNounAt(s, e, nouns[1..])
  }

  /** `[A-Za-z\s]+` starting at `i` and ending at `e`, given back one
      character at a time (at least one is kept), each time trying the
      alternation of role nouns. */
  function RoleTitleBack(s: string, i: nat, e: nat): (r: Option<nat>)
    requires i < e <= |s|
    ensures r.Some? ==> i < r.value <= |s|
    decreases e
  {
    match RoleNounAt(s, e, RoleNouns)
    case Some(x) => Some(x)
    case None => if e - 1 > i then RoleTitleBack(s, i, e - 1) else None
  }

  function RoleTitleAt(s: string, i: nat): (r: Option<Match>)
    requires i <= |s|
    ensures r.Some? ==> r.value.start == i == r.value.groupStart && WellFormed(s, r.value)
  {
    if i < |s| && IsLetterOrSpace(s[i]) then
      match RoleTitleBack(s, i, RunEnd(s, i, IsLetterOrSpace))
      case None => None
      case Some(x) => Some(Match(i, i, x, x))
    else None
  }

  // ---------------------------------------------------------------------
  // Technology vocabularies (ignoring case, on the lower-cased input)
  // ---------------------------------------------------------------------

  /** `node\.?js` and the like are written as two literals, with the dot
      first, which is the order the optional dot is tried in. */
  const CoreTechWords: seq<string> := [
    "python", "java", "javascript", "js", "typescript", "ts", "react", "angular", "vue",
    "node.js", "nodejs", "django", "flask", "fastapi", "spring", "laravel", "php", "ruby",
    "rails", "go", "golang", "rust", "c++", "c#", "swift", "kotlin", "flutter", "dart", "sql",
    "mysql", "postgresql", "mongodb", "redis", "docker", "kubernetes", "aws", "azure", "gcp",
    "git", "jenkins", "terraform", "ansible"]

  const WebTechWords: seq<string> := [
    "html", "css", "sass", "scss", "bootstrap", "tailwind", "jquery", "express",
    "nest.js", "nestjs", "next.js", "nextjs", "nuxt.js", "nuxtjs", "svelte", "ember",
    "backbone", "d3.js", "d3js", "three.js", "threejs", "chart.js", "chartjs"]

  const DataTechWords: seq<string> := [
    "machine learning", "ml", "ai", "artificial intelligence", "data science", "pandas",
    "numpy", "scipy", "scikit-learn", "tensorflow", "pytorch", "keras", "opencv"]

  function Vocabulary(p: Pattern): seq<string>
    requires p.IsVocabulary()
  {
    match p
    case CoreTech => CoreTechWords
    case WebTech => WebTechWords
    case DataTech => DataTechWords
  }

  /** `(?:w1|w2|...)\b` at `i`: the first word, in list order, that occurs
      at `i` and is followed by a word boundary. */
  function WordFromListAt(s: string, i: nat, words: seq<string>): (r: Option<nat>)
    requires i <= |s|
    ensures r.Some? ==> i < r.value <= |s| && Lower(s[i..r.value]) in words
    decreases |words|
  {
    if words == [] then None
    else if words[0] != [] && LiteralAtIgnoringCase(s, i, words[0]) && WordBoundary(s, i + |words[0]|) then
      Some(i + |words[0]|)
    else WordFromListAt(s, i, words[1..])
  }

  function VocabularyAt(s: string, i: nat, words: seq<string>): (r: Option<Match>)
    requires i <= |s|
    ensures r.Some? ==> r.value.start == i == r.value.groupStart && WellFormed(s, r.value)
    ensures r.Some? ==> r.value.groupEnd == r.value.end && Lower(Group(s, r.value)) in words
  {
    if !WordBoundary(s, i) then None
    else match WordFromListAt(s, i, words)
      case None => None
      case Some(e) => Some(Match(i, i, e, e))
  }

  // ---------------------------------------------------------------------
  // Matching, search and findall
  // ---------------------------------------------------------------------

  function MatchAt(p: Pattern, s: string, i: nat): (r: Option<Match>)
    requires i <= |s|
    ensures r.Some? ==> r.value.start == i && WellFormed(s, r.value)
  {
    match p
    case EmailAddress =>
      (match EmailParts(s, i)
       case None => None
       case Some((at, dot, end)) => Some(Match(i, i, end, end)))
    case YearsOfExperience => YearsOfExperienceAt(s, i)
    case ExperienceOfYears => ExperienceOfYearsAt(s, i)
    case YearsIn => YearsInAt(s, i)
    case HaveYears => HaveYearsAt(s, i)
    case NameAfterCue => NameAfterCueAt(s, i)
    case LeadingName => LeadingNameAt(s, i)
    case RoleAfterCue => CueThenClause(s, i, RoleCues)
    case RoleTitle => RoleTitleAt(s, i)
    case RoleAfterSelf => CueThenClause(s, i, SelfCues)
    case CoreTech => VocabularyAt(s, i, CoreTechWords)
    case WebTech => VocabularyAt(s, i, WebTechWords)
    case DataTech => VocabularyAt(s, i, DataTechWords)
  }

  lemma ExperienceGroup(p: Pattern, s: string, i: nat)
    requires p.IsExperience() && i <= |s| && MatchAt(p, s, i).Some?
    ensures Group(s, MatchAt(p, s, i).value) != [] && AllDigits(Group(s, MatchAt(p, s, i).value))
  {
  }

  lemma NameGroup(p: Pattern, s: string, i: nat)
    requires p.IsName() && i <= |s| && MatchAt(p, s, i).Some?
    ensures NameShaped(Group(s, MatchAt(p, s, i).value))
    ensures p.LeadingName? ==> i == 0
  {
  }

  lemma VocabularyGroup(p: Pattern, s: string, i: nat)
    requires p.IsVocabulary() && i <= |s| && MatchAt(p, s, i).Some?
    ensures Lower(Group(s, MatchAt(p, s, i).value)) in Vocabulary(p)
  {
  }

  lemma EmailGroup(s: string, i: nat)
    requires i <= |s| && MatchAt(EmailAddress, s, i).Some?
    ensures var m := MatchAt(EmailAddress, s, i).value;
      Group(s, m) == s[i..m.end] && exists at, dot :: EmailShaped(s, i, at, dot, m.end)
  {
    var parts := EmailParts(s, i).value;
    assert EmailShaped(s, i, parts.0, parts.1, parts.2);
  }

  /** `re.search` from offset `i`: the match at the leftmost offset where
      the pattern matches. */
  function Search(p: Pattern, s: string, i: nat): (r: Option<Match>)
    requires i <= |s|
    ensures r.Some? ==> i <= r.value.start <= |s| && MatchAt(p, s, r.value.start) == r
    ensures r.Some? ==> forall j :: i <= j < r.value.start ==> MatchAt(p, s, j).None?
    ensures r.None? ==> forall j :: i <= j <= |s| ==> MatchAt(p, s, j).None?
    decreases |s| - i
  {
    match MatchAt(p, s, i)
    case Some(m) => Some(m)
    case None =>
      if i < |s| then
        var r := Search(p, s, i + 1);
        NoMatchBefore(p, s, i, r);
        r
      else None
  }

  /** A miss at `i` extends the leftmost guarantee of the search from
      `i + 1` down to `i`. */
  lemma NoMatchBefore(p: Pattern, s: string, i: nat, r: Option<Match>)
    requires i < |s| && MatchAt(p, s, i).None?
    requires r.Some? ==> i + 1 <= r.value.start <= |s| && forall j :: i + 1 <= j < r.value.start ==> MatchAt(p, s, j).None?
    requires r.None? ==> forall j :: i + 1 <= j <= |s| ==> MatchAt(p, s, j).None?
    ensures r.Some? ==> forall j :: i <= j < r.value.start ==> MatchAt(p, s, j).None?
    ensures r.None? ==> forall j :: i <= j <= |s| ==> MatchAt(p, s, j).None?
  {
    var end := if r.Some? then r.value.start else |s| + 1;
    forall j | i <= j < end ensures MatchAt(p, s, j).None? {
      if j == i {
      } else {
        assert i + 1 <= j;
      }
    }
  }

  /** `m` is what the pattern matches at `m.start`. */
  predicate FoundAt(p: Pattern, s: string, m: Match) {
    m.start <= |s| && MatchAt(p, s, m.start) == Some(m)
  }

  /** `re.findall` from offset `i`, as the list of matches: each search
      resumes at the end of the previous match. */
  function FindAll(p: Pattern, s: string, i: nat): (r: seq<Match>)
    requires i <= |s|
    ensures forall k :: 0 <= k < |r| ==>
              WellFormed(s, r[k]) && i <= r[k].start && FoundAt(p, s, r[k])
    ensures forall k :: 0 <= k < |r| - 1 ==> r[k].end <= r[k + 1].start
    decreases |s| - i
  {
    match Search(p, s, i)
    case None => []
    case Some(m) =>
      var rest := FindAll(p, s, m.end);
      MatchesBefore(p, s, i, m, rest);
      [m] + rest
  }

  /** A match in front of the later matches keeps the list in order. */
  lemma MatchesBefore(p: Pattern, s: string, i: nat, m: Match, rest: seq<Match>)
    requires WellFormed(s, m) && i <= m.start && FoundAt(p, s, m)
    requires forall k :: 0 <= k < |rest| ==>
               WellFormed(s, rest[k]) && m.end <= rest[k].start && FoundAt(p, s, rest[k])
    requires forall k :: 0 <= k < |rest| - 1 ==> rest[k].end <= rest[k + 1].start
    ensures var r := [m] + rest;
      && (forall k :: 0 <= k < |r| ==> WellFormed(s, r[k]) && i <= r[k].start && FoundAt(p, s, r[k]))
      && (forall k :: 0 <= k < |r| - 1 ==> r[k].end <= r[k + 1].start)
  {
    var r := [m] + rest;
    forall k | 0 <= k < |r| ensures WellFormed(s, r[k]) && i <= r[k].start && FoundAt(p, s, r[k]) {
      if k > 0 {
        FoundLater(p, s, i, m, rest, k - 1);
      }
    }
    OrderedBefore(m, rest);
  }

  lemma FoundLater(p: Pattern, s: string, i: nat, m: Match, rest: seq<Match>, k: nat)
    requires m.start < m.end && i <= m.start && k < |rest|
    requires WellFormed(s, rest[k]) && m.end <= rest[k].start && FoundAt(p, s, rest[k])
    ensures var r := [m] + rest;
      WellFormed(s, r[k + 1]) && i <= r[k + 1].start && FoundAt(p, s, r[k + 1])
  {
    assert ([m] + rest)[k + 1] == rest[k];
  }

  lemma OrderedBefore(m: Match, rest: seq<Match>)
    requires rest != [] ==> m.end <= rest[0].start
    requires forall k :: 0 <= k < |rest| - 1 ==> rest[k].end <= rest[k + 1].start
    ensures forall k :: 0 <= k < |[m] + rest| - 1 ==> ([m] + rest)[k].end <= ([m] + rest)[k + 1].start
  {
    var r := [m] + rest;
    forall k | 0 <= k < |r| - 1 ensures r[k].end <= r[k + 1].start {
      if k > 0 {
        assert r[k] == rest[k - 1] && r[k + 1] == rest[k];
      }
    }
  }

  /** The pattern matches at no offset from `a` up to (not including) `b`. */
  predicate NoMatchIn(p: Pattern, s: string, a: nat, b: nat) {
    forall j :: a <= j < b && j <= |s| ==> MatchAt(p, s, j).None?
  }

  /** `re.findall` skips no match: the pattern matches nowhere before the
      first match, between two consecutive matches, or after the last one,
      and nowhere at all when the list is empty. */
  lemma FindAllComplete(p: Pattern, s: string, i: nat)
    requires i <= |s|
    ensures var r := FindAll(p, s, i);
      && (|r| == 0 ==> NoMatchIn(p, s, i, |s| + 1))
      && (|r| > 0 ==> NoMatchIn(p, s, i, r[0].start) && NoMatchIn(p, s, r[|r| - 1].end, |s| + 1))
      && (forall k :: 0 <= k < |r| - 1 ==> NoMatchIn(p, s, r[k].end, r[k + 1].start))
  {
    FindAllFirstGap(p, s, i);
    FindAllLastGap(p, s, i);
    FindAllInnerGaps(p, s, i);
  }

  lemma FindAllFirstGap(p: Pattern, s: string, i: nat)
    requires i <= |s|
    ensures var r := FindAll(p, s, i);
      && (|r| == 0 ==> NoMatchIn(p, s, i, |s| + 1))
      && (|r| > 0 ==> NoMatchIn(p, s, i, r[0].start))
  {
    SearchGap(p, s, i);
    if Search(p, s, i).Some? {
      FindAllStep(p, s, i);
    }
  }

  lemma {:induction false} FindAllLastGap(p: Pattern, s: string, i: nat)
    requires i <= |s|
    ensures var r := FindAll(p, s, i);
      |r| > 0 ==> NoMatchIn(p, s, r[|r| - 1].end, |s| + 1)
    decreases |s| - i
  {
    if Search(p, s, i).Some? {
      var m := Search(p, s, i).value;
      FindAllStep(p, s, i);
      var rest := FindAll(p, s, m.end);
      if |rest| == 0 {
        FindAllFirstGap(p, s, m.end);
      } else {
        FindAllLastGap(p, s, m.end);
        LastOfCons(m, rest);
      }
    }
  }

  lemma LastOfCons(m: Match, rest: seq<Match>)
    requires rest != []
    ensures ([m] + rest)[|rest|] == rest[|rest| - 1]
  {
  }

  lemma {:induction false} FindAllInnerGaps(p: Pattern, s: string, i: nat)
    requires i <= |s|
    ensures var r := FindAll(p, s, i);
      forall k :: 0 <= k < |r| - 1 ==> NoMatchIn(p, s, r[k].end, r[k + 1].start)
    decreases |s| - i
  {
    if Search(p, s, i).Some? {
      var m := Search(p, s, i).value;
      FindAllStep(p, s, i);
      FindAllFirstGap(p, s, m.end);
      FindAllInnerGaps(p, s, m.end);
      InnerGapsOfCons(p, s, m, FindAll(p, s, m.end));
    }
  }

  /** The gaps of `[m] + rest` are the gap after `m` and those of `rest`. */
  lemma InnerGapsOfCons(p: Pattern, s: string, m: Match, rest: seq<Match>)
    requires |rest| > 0 ==> NoMatchIn(p, s, m.end, rest[0].start)
    requires forall k :: 0 <= k < |rest| - 1 ==> NoMatchIn(p, s, rest[k].end, rest[k + 1].start)
    ensures var r := [m] + rest;
      forall k :: 0 <= k < |r| - 1 ==> NoMatchIn(p, s, r[k].end, r[k + 1].start)
  {
    var r := [m] + rest;
    forall k | 0 <= k < |r| - 1 ensures NoMatchIn(p, s, r[k].end, r[k + 1].start) {
      if k > 0 {
        assert r[k] == rest[k - 1] && r[k + 1] == rest[k];
      }
    }
  }

  /** The search leaves a gap in front of what it finds, or finds nothing. */
  lemma SearchGap(p: Pattern, s: string, i: nat)
    requires i <= |s|
    ensures Search(p, s, i).None? ==> FindAll(p, s, i) == [] && NoMatchIn(p, s, i, |s| + 1)
    ensures Search(p, s, i).Some? ==> NoMatchIn(p, s, i, Search(p, s, i).value.start)
  {
  }

  /** After a found match, the list goes on from the end of that match. */
  lemma FindAllStep(p: Pattern, s: string, i: nat)
    requires i <= |s| && Search(p, s, i).Some?
    ensures var m := Search(p, s, i).value;
      m.end <= |s| && FindAll(p, s, i) == [m] + FindAll(p, s, m.end)
  {
  }

  /** The strings `re.findall` returns. */
  function FindAllGroups(p: Pattern, s: string): (r: seq<string>)
  {
    var ms := FindAll(p, s, 0);
    Groups(s, ms)
  }

  /** `re.search(...).group(1)` (or `.group()` for a pattern without a group). */
  function SearchGroup(p: Pattern, s: string): (r: Option<string>)
    ensures r.Some? <==> Search(p, s, 0).Some?
    ensures r.Some? ==> r.value == Group(s, Search(p, s, 0).value)
  {
    match Search(p, s, 0)
    case None => None
    case Some(m) => Some(Group(s, m))
  }
}
