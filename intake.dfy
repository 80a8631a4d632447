/**
 * `ConversationManager.parse_user_info` (src/conversation.py): pulls the
 * email address, years of experience, name and position out of a message
 * into a candidate profile, in place, without overwriting a field that is
 * already filled, and reports the identity fields still missing.
 *
 * Each field is taken from an ordered cascade of patterns in which the
 * first acceptable match wins; a match that is rejected (years out of
 * range, a stop word for a name, a role of the wrong length) falls through
 * to the next candidate.
 */
module Intake {
  import opened Wrappers
  import opened Text
  import opened Patterns
  import opened Profile

  /** Position of the first element satisfying `ok`, or `|xs|` when there
      is none. */
  function FirstIndex<T>(xs: seq<T>, ok: T -> bool): (i: nat)
    ensures i <= |xs|
    ensures i < |xs| ==> ok(xs[i])
    ensures forall j :: 0 <= j < i ==> !ok(xs[j])
    decreases |xs|
  {
    if xs == [] then 0
    else if ok(xs[0]) then 0
    else 1 + FirstIndex(xs[1..], ok)
  }

  // ---------------------------------------------------------------------
  // Email
  // ---------------------------------------------------------------------

  /** The email field after the email step: a filled field is kept; an
      empty one takes the leftmost address in the message, and stays empty
      when there is none. */
  function EmailAfter(userInput: string, current: string): (r: string)
    ensures current != "" ==> r == current
    ensures current == "" && Search(EmailAddress, userInput, 0).None? ==> r == ""
    ensures current == "" && Search(EmailAddress, userInput, 0).Some? ==>
              r == Group(userInput, Search(EmailAddress, userInput, 0).value)
  {
    match SearchGroup(EmailAddress, userInput)
    case Some(address) => if current == "" then address else current
    case None => current
  }

  // ---------------------------------------------------------------------
  // Experience
  // ---------------------------------------------------------------------

  /** The experience patterns, in the order they are tried. All run on the
      lower-cased message. */
  const ExperiencePatterns: seq<Pattern> := [YearsOfExperience, ExperienceOfYears, YearsIn, HaveYears]

  /** The largest number of years that is believed. */
  const MaxYears: nat := 50

  /** `int(match.group(1))` for the first match of an experience pattern. */
  function YearsFound(p: Pattern, lowered: string): (r: Option<nat>)
    requires p.IsExperience()
    ensures r.Some? <==> Search(p, lowered, 0).Some?
  {
    match Search(p, lowered, 0)
    case None => None
    case Some(m) =>
      ExperienceGroup(p, lowered, m.start);
      Some(ParseDigits(Group(lowered, m)))
  }

  /** An experience pattern matches and its number is in `[0, 50]`. */
  predicate UsableYears(p: Pattern, lowered: string) {
    p.IsExperience() && YearsFound(p, lowered).Some? && YearsFound(p, lowered).value <= MaxYears
  }

  /** The first experience pattern whose number is usable. */
  function ExperienceIndex(lowered: string): nat {
    FirstIndex(ExperiencePatterns, p => UsableYears(p, lowered))
  }

  /** The experience field after the experience step. */
  function ExperienceAfter(lowered: string, current: int): (r: int)
    ensures current != 0 ==> r == current
    ensures current == 0 ==> 0 <= r <= MaxYears
  {
    if current != 0 then current
    else
      var i := ExperienceIndex(lowered);
      if i < |ExperiencePatterns| then YearsFound(ExperiencePatterns[i], lowered).value else current
  }

  // ---------------------------------------------------------------------
  // Name
  // ---------------------------------------------------------------------

  /** The name patterns, in the order they are tried, on the message as
      typed (case matters). */
  const NamePatterns: seq<Pattern> := [NameAfterCue, LeadingName]

  /** Capitalised words that are not taken as a name. */
  const CommonWords: set<string> := {"Hi", "Hello", "Good", "Thanks", "Please", "Senior", "Junior", "Lead"}

  const MaxNameWords: nat := 3

  predicate AcceptableName(name: string) {
    name !in CommonWords && |SplitWs(name)| <= MaxNameWords
  }

  /** The stripped group of the first match of a name pattern. */
  function NameFound(p: Pattern, userInput: string): (r: Option<string>)
    ensures r.Some? <==> Search(p, userInput, 0).Some?
  {
    match SearchGroup(p, userInput)
    case None => None
    case Some(g) => Some(Strip(g))
  }

  predicate NameAccepted(p: Pattern, userInput: string) {
    NameFound(p, userInput).Some? && AcceptableName(NameFound(p, userInput).value)
  }

  function NameIndex(userInput: string): nat {
    FirstIndex(NamePatterns, p => NameAccepted(p, userInput))
  }

  /** The name field after the name step. */
  function NameAfter(userInput: string, current: string): (r: string)
    ensures current != "" ==> r == current
  {
    if current != "" then current
    else
      var i := NameIndex(userInput);
      if i < |NamePatterns| then NameFound(NamePatterns[i], userInput).value else current
  }

  // ---------------------------------------------------------------------
  // Position
  // ---------------------------------------------------------------------

  /** The role patterns, in the order they are tried; all ignore case. */
  const RolePatterns: seq<Pattern> := [RoleAfterCue, RoleTitle, RoleAfterSelf]

  const MinRoleLength: nat := 3
  const MaxRoleLength: nat := 50

  /** A captured role of reasonable length once stripped. */
  predicate RoleLengthOk(capture: string) {
    MinRoleLength <= |Strip(capture)| <= MaxRoleLength
  }

  /** What `re.findall` returns for a role pattern. */
  function RoleCaptures(p: Pattern, userInput: string): seq<string> {
    FindAllGroups(p, userInput)
  }

  /** A role pattern yields a capture of reasonable length. */
  predicate RoleFound(p: Pattern, userInput: string) {
    FirstIndex(RoleCaptures(p, userInput), RoleLengthOk) < |RoleCaptures(p, userInput)|
  }

  function RoleIndex(userInput: string): nat {
    FirstIndex(RolePatterns, p => RoleFound(p, userInput))
  }

  /** The position field after the role step: the first capture of
      reasonable length, pattern by pattern, title-cased. */
  function PositionAfter(userInput: string, current: string): (r: string)
    ensures current != "" ==> r == current
  {
    if current != "" then current
    else
      var i := RoleIndex(userInput);
      if i < |RolePatterns| then
        var captures := RoleCaptures(RolePatterns[i], userInput);
        Title(Strip(captures[FirstIndex(captures, RoleLengthOk)]))
      else current
  }

  // ---------------------------------------------------------------------
  // The whole step and the issue list
  // ---------------------------------------------------------------------

  /** The profile after `parse_user_info`, from the profile before. */
  function ParsedProfile(userInput: string, d: ProfileData): (r: ProfileData)
    ensures d.email != "" ==> r.email == d.email
    ensures d.experience != 0 ==> r.experience == d.experience
    ensures d.name != "" ==> r.name == d.name
    ensures d.position != "" ==> r.position == d.position
    ensures r.techStack == d.techStack && r.questionType == d.questionType
  {
    d.(email := EmailAfter(userInput, d.email),
       experience := ExperienceAfter(Lower(userInput), d.experience),
       name := NameAfter(userInput, d.name),
       position := PositionAfter(userInput, d.position))
  }

  const NameIssue: string := "Please provide your name"
  const EmailIssue: string := "Please provide your email address"
  const PositionIssue: string := "Please specify the job position/role"

  /** Where a label stands in the fixed reporting order. */
  function IssueRank(issue: string): nat {
    if issue == NameIssue then 0 else if issue == EmailIssue then 1 else 2
  }

  /** The labels of the identity fields still empty: exactly the labels of
      the empty fields among name, email and position are reported, each
      once, in that order; experience and the tech stack never are. */
  function MissingFields(d: ProfileData): (r: seq<string>)
    ensures NameIssue in r <==> d.name == ""
    ensures EmailIssue in r <==> d.email == ""
    ensures PositionIssue in r <==> d.position == ""
    ensures forall k :: 0 <= k < |r| ==> r[k] == NameIssue || r[k] == EmailIssue || r[k] == PositionIssue
    ensures forall k, l :: 0 <= k < l < |r| ==> IssueRank(r[k]) < IssueRank(r[l])
  {
    (if d.name == "" then [NameIssue] else [])
    + (if d.email == "" then [EmailIssue] else [])
    + (if d.position == "" then [PositionIssue] else [])
  }

  // ---------------------------------------------------------------------
  // Properties of the cascades
  // ---------------------------------------------------------------------

  /** An out-of-range or missing number falls through: the first pattern
      with a usable number decides the experience. */
  lemma ExperienceFallsThrough(lowered: string, i: nat)
    requires i < |ExperiencePatterns| && UsableYears(ExperiencePatterns[i], lowered)
    requires forall j :: 0 <= j < i ==> !UsableYears(ExperiencePatterns[j], lowered)
    ensures ExperienceAfter(lowered, 0) == YearsFound(ExperiencePatterns[i], lowered).value
  {
    assert ExperienceIndex(lowered) == i;
  }

  /** Without a usable number the experience stays unset. */
  lemma ExperienceWithoutUsableYears(lowered: string)
    requires forall j :: 0 <= j < |ExperiencePatterns| ==> !UsableYears(ExperiencePatterns[j], lowered)
    ensures ExperienceAfter(lowered, 0) == 0
  {
    assert ExperienceIndex(lowered) == |ExperiencePatterns|;
  }

  /** A rejected name falls through: the first pattern whose stripped
      match is acceptable decides the name. */
  lemma NameFallsThrough(userInput: string, i: nat)
    requires i < |NamePatterns| && NameAccepted(NamePatterns[i], userInput)
    requires forall j :: 0 <= j < i ==> !NameAccepted(NamePatterns[j], userInput)
    ensures NameAfter(userInput, "") == NameFound(NamePatterns[i], userInput).value
  {
    assert NameIndex(userInput) == i;
  }

  /** A capture of the wrong length falls through, first to the next
      capture of the same pattern, then to the next pattern. */
  lemma PositionFallsThrough(userInput: string, i: nat, k: nat)
    requires i < |RolePatterns| && k < |RoleCaptures(RolePatterns[i], userInput)|
    requires RoleLengthOk(RoleCaptures(RolePatterns[i], userInput)[k])
    requires forall j :: 0 <= j < k ==> !RoleLengthOk(RoleCaptures(RolePatterns[i], userInput)[j])
    requires forall j :: 0 <= j < i ==> !RoleFound(RolePatterns[j], userInput)
    ensures PositionAfter(userInput, "") == Title(Strip(RoleCaptures(RolePatterns[i], userInput)[k]))
  {
    var captures := RoleCaptures(RolePatterns[i], userInput);
    assert FirstIndex(captures, RoleLengthOk) == k;
    assert RoleIndex(userInput) == i;
  }

  /** A name that is set is capitalised words, not a stop word, and at
      most three words. */
  lemma NameAcceptedOnly(userInput: string, d: ProfileData)
    ensures var r := ParsedProfile(userInput, d);
      r.name != d.name ==> d.name == "" && AcceptableName(r.name) && NameShaped(r.name)
  {
    var r := ParsedProfile(userInput, d);
    if r.name != d.name {
      var i := NameIndex(userInput);
      NameFoundShaped(NamePatterns[i], userInput);
    }
  }

  /** The stripped group of a name match is the group itself. */
  lemma NameFoundShaped(p: Pattern, userInput: string)
    requires p.IsName() && NameFound(p, userInput).Some?
    ensures NameShaped(NameFound(p, userInput).value)
  {
    var m := Search(p, userInput, 0).value;
    NameGroup(p, userInput, m.start);
    NameShapedStripped(Group(userInput, m));
  }

  lemma NameShapedStripped(g: string)
    requires NameShaped(g)
    ensures Strip(g) == g
  {
    StripTrimmed(g);
  }

  /** A position that is set is 3 to 50 characters long and title-cased:
      its letters are upper-case exactly at the start of each word. */
  lemma PositionAcceptedOnly(userInput: string, d: ProfileData)
    ensures var r := ParsedProfile(userInput, d);
      r.position != d.position ==>
        && d.position == "" && MinRoleLength <= |r.position| <= MaxRoleLength && Title(r.position) == r.position
        && forall i :: 0 <= i < |r.position| && IsLetter(r.position[i]) ==>
             (IsUpper(r.position[i]) <==> i == 0 || !IsLetter(r.position[i - 1]))
  {
    var r := ParsedProfile(userInput, d);
    if r.position != d.position {
      var captures := RoleCaptures(RolePatterns[RoleIndex(userInput)], userInput);
      TitleIdempotent(Strip(captures[FirstIndex(captures, RoleLengthOk)]), false);
      TitledCase(r.position);
    }
  }

  /** An email that is set is the leftmost address-shaped slice of the
      message: no address match starts further left. */
  lemma EmailAcceptedOnly(userInput: string, d: ProfileData)
    ensures var r := ParsedProfile(userInput, d);
      r.email != d.email ==>
        && d.email == ""
        && Search(EmailAddress, userInput, 0).Some?
        && var m := Search(EmailAddress, userInput, 0).value;
           && r.email == userInput[m.start..m.end]
           && (exists at: nat, dot: nat :: EmailShaped(userInput, m.start, at, dot, m.end))
           && forall j :: 0 <= j < m.start ==> MatchAt(EmailAddress, userInput, j).None?
  {
    var r := ParsedProfile(userInput, d);
    if r.email != d.email {
      var m := Search(EmailAddress, userInput, 0).value;
      EmailGroup(userInput, m.start);
    }
  }

  /** Parsing the same message twice changes nothing the second time. */
  lemma ParseIdempotent(userInput: string, d: ProfileData)
    ensures ParsedProfile(userInput, ParsedProfile(userInput, d)) == ParsedProfile(userInput, d)
  {
    var once := ParsedProfile(userInput, d);
    NameAcceptedOnly(userInput, d);
    PositionAcceptedOnly(userInput, d);
    EmailAcceptedOnly(userInput, d);
  }

  /** Parsing never lowers the number of completed fields. */
  lemma ParseFillsFields(userInput: string, d: ProfileData)
    ensures CompletedFields(d) <= CompletedFields(ParsedProfile(userInput, d))
  {
    CompletedFieldsMonotone(d, ParsedProfile(userInput, d));
  }

  /** `parse_user_info`, step by step as the source does it, on the profile
      object it is given (which is also the one it returns). */
  method ParseUserInfo(userInput: string, profile: CandidateProfile)
    returns (updatedProfile: CandidateProfile, issues: seq<string>)
    modifies profile
    ensures updatedProfile == profile
    ensures profile.Data() == ParsedProfile(userInput, old(profile.Data()))
    ensures issues == MissingFields(profile.Data())
  {
    updatedProfile := profile;
    ParseFields(userInput, profile);
    issues := MissingIssues(profile);
  }

  /** The four extraction steps in their order: email, experience, name
      and position. */
  method ParseFields(userInput: string, profile: CandidateProfile)
    modifies profile
    ensures profile.Data() == ParsedProfile(userInput, old(profile.Data()))
  {
    TakeEmail(userInput, profile);
    TakeExperience(userInput, profile);
    TakeName(userInput, profile);
    TakePosition(userInput, profile);
  }

  /** The issue list built from the profile's fields. */
  method MissingIssues(profile: CandidateProfile) returns (issues: seq<string>)
    ensures issues == MissingFields(profile.Data())
  {
    issues := [];
    if profile.name == "" {
      issues := issues + [NameIssue];
    }
    if profile.email == "" {
      issues := issues + [EmailIssue];
    }
    if profile.position == "" {
      issues := issues + [PositionIssue];
    }
  }

  /** The email step. */
  method TakeEmail(userInput: string, profile: CandidateProfile)
    modifies profile
    ensures profile.Data() == old(profile.Data()).(email := EmailAfter(userInput, old(profile.email)))
  {
    var emailMatch := Search(EmailAddress, userInput, 0);
    if emailMatch.Some? && profile.email == "" {
      profile.email := Group(userInput, emailMatch.value);
    }
  }

  /** The experience loop: patterns in order, the first usable number
      wins; the loop runs, doing nothing, when the field is already set. */
  method TakeExperience(userInput: string, profile: CandidateProfile)
    modifies profile
    ensures profile.Data() == old(profile.Data()).(experience := ExperienceAfter(Lower(userInput), old(profile.experience)))
  {
    ghost var before := profile.Data();
    var lowered := Lower(userInput);
    for i := 0 to |ExperiencePatterns|
      invariant profile.Data() == before
      invariant before.experience == 0 ==> ExperienceIndex(lowered) >= i
    {
      var m := Search(ExperiencePatterns[i], lowered, 0);
      if m.Some? && profile.experience == 0 {
        ExperienceGroup(ExperiencePatterns[i], lowered, m.value.start);
        var years := ParseDigits(Group(lowered, m.value));
        if 0 <= years <= MaxYears {
          profile.experience := years;
          break;
        }
      }
    }
  }

  /** The name step: the loop runs only when the name is empty. */
  method TakeName(userInput: string, profile: CandidateProfile)
    modifies profile
    ensures profile.Data() == old(profile.Data()).(name := NameAfter(userInput, old(profile.name)))
  {
    if profile.name != "" {
      return;
    }
    ghost var before := profile.Data();
    for i := 0 to |NamePatterns|
      invariant profile.Data() == before
      invariant NameIndex(userInput) >= i
    {
      var m := Search(NamePatterns[i], userInput, 0);
      if m.Some? {
        var potentialName := Strip(Group(userInput, m.value));
        if potentialName !in CommonWords && |SplitWs(potentialName)| <= MaxNameWords {
          profile.name := potentialName;
          break;
        }
      }
    }
  }

  /** The role step: when the position is empty, the captures of each
      pattern in turn, the first of reasonable length wins. */
  method TakePosition(userInput: string, profile: CandidateProfile)
    modifies profile
    ensures profile.Data() == old(profile.Data()).(position := PositionAfter(userInput, old(profile.position)))
  {
    if profile.position != "" {
      return;
    }
    ghost var before := profile.Data();
    for i := 0 to |RolePatterns|
      invariant profile.Data() == before
      invariant RoleIndex(userInput) >= i
    {
      var matches := FindAllGroups(RolePatterns[i], userInput);
      TakeFirstRole(matches, profile);
      if profile.position != "" {
        break;
      }
    }
  }

  /** The loop over one pattern's captures: the first of reasonable length
      is stored title-cased. */
  method TakeFirstRole(matches: seq<string>, profile: CandidateProfile)
    requires profile.position == ""
    modifies profile
    ensures var k := FirstIndex(matches, RoleLengthOk);
      profile.Data() == old(profile.Data()).(position := if k < |matches| then Title(Strip(matches[k])) else "")
    ensures profile.position != "" <==> FirstIndex(matches, RoleLengthOk) < |matches|
  {
    ghost var before := profile.Data();
    for k := 0 to |matches|
      invariant profile.Data() == before
      invariant FirstIndex(matches, RoleLengthOk) >= k
    {
      var potentialRole := Strip(matches[k]);
      if MinRoleLength <= |potentialRole| <= MaxRoleLength {
        profile.position := Title(potentialRole);
        break;
      }
    }
  }
}
