/**
 * The candidate record of src/conversation.py (`CandidateProfile`), which
 * the intake code fills in place, and the completed-field count that the
 * sidebar shows.
 */
module Profile {
  import opened Wrappers

  /** The values of a profile's fields at one moment. */
  datatype ProfileData = ProfileData(
    name: string,
    email: string,
    position: string,
    experience: int,
    techStack: seq<string>,
    questionType: string)

  /** A profile created with every default: empty strings, no experience
      (0 stands for "not given") and no technologies. */
  const EmptyProfile: ProfileData := ProfileData("", "", "", 0, [], "")

  class CandidateProfile {
    var name: string
    var email: string
    var position: string
    var experience: int
    var techStack: seq<string>
    var questionType: string

    /** The dataclass constructor followed by `__post_init__`, which turns a
        missing tech stack into the empty list. */
    constructor (name: string, email: string, position: string, experience: int,
                 techStack: Option<seq<string>>, questionType: string)
      ensures Data() == ProfileData(name, email, position, experience,
                                    if techStack.Some? then techStack.value else [], questionType)
    {
      this.name := name;
      this.email := email;
      this.position := position;
      this.experience := experience;
      this.techStack := if techStack.Some? then techStack.value else [];
      this.questionType := questionType;
    }

    function Data(): ProfileData
      reads this
    {
      ProfileData(name, email, position, experience, techStack, questionType)
    }
  }

  /** The fields the sidebar tracks. */
  const TotalFields: nat := 5

  /** Which tracked fields a profile has filled, in Python's truthiness:
      a non-empty string or list, a non-zero number. */
  predicate NameFilled(p: ProfileData) { p.name != "" }
  predicate EmailFilled(p: ProfileData) { p.email != "" }
  predicate PositionFilled(p: ProfileData) { p.position != "" }
  predicate ExperienceFilled(p: ProfileData) { p.experience != 0 }
  predicate TechStackFilled(p: ProfileData) { p.techStack != [] }

  /** `completed_fields` of `display_candidate_profile`: how many of the
      five tracked fields are filled. */
  function CompletedFields(p: ProfileData): (n: nat)
    ensures n <= TotalFields
    ensures n == TotalFields <==>
      NameFilled(p) && EmailFilled(p) && PositionFilled(p) && ExperienceFilled(p) && TechStackFilled(p)
    ensures n == 0 <==>
      !NameFilled(p) && !EmailFilled(p) && !PositionFilled(p) && !ExperienceFilled(p) && !TechStackFilled(p)
  {
    (if NameFilled(p) then 1 else 0)
    + (if EmailFilled(p) then 1 else 0)
    + (if PositionFilled(p) then 1 else 0)
    + (if ExperienceFilled(p) then 1 else 0)
    + (if TechStackFilled(p) then 1 else 0)
  }

  /** Filling fields, and never clearing one, can only raise the count. */
  lemma CompletedFieldsMonotone(p: ProfileData, q: ProfileData)
    requires NameFilled(p) ==> NameFilled(q)
    requires EmailFilled(p) ==> EmailFilled(q)
    requires PositionFilled(p) ==> PositionFilled(q)
    requires ExperienceFilled(p) ==> ExperienceFilled(q)
    requires TechStackFilled(p) ==> TechStackFilled(q)
    ensures CompletedFields(p) <= CompletedFields(q)
  {
  }
}
