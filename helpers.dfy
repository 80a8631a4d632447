/**
 * The input helpers of src/utils/helpers.py: numbering questions for
 * display, validating a comma-separated tech stack, the difficulty band of
 * an experience level and trimming user input.
 */
module Helpers {
  import opened Wrappers
  import opened Text

  // ---------------------------------------------------------------------
  // format_questions
  // ---------------------------------------------------------------------

  const NoQuestions: string := "No questions generated."
  const NoValidQuestions: string := "No valid questions found."

  /** `f"{i}. {question.strip()}"`. */
  function Label(i: nat, question: string): string {
    NatToString(i) + ". " + Strip(question)
  }

  /** The labels of the non-blank questions, each numbered by its 1-based
      position in the whole list; at most one line per question. */
  function Numbered(questions: seq<string>): (r: seq<string>)
    ensures |r| <= |questions|
    decreases |questions|
  {
    if questions == [] then []
    else
      var n := |questions| - 1;
      Numbered(questions[..n]) + (if Strip(questions[n]) != "" then [Label(n + 1, questions[n])] else [])
  }

  /** What `format_questions` returns; `None` is Python's `None`. A
      missing or empty list and an all-blank list each get their notice;
      otherwise the numbered lines are the result. */
  function FormattedQuestions(questionsList: Option<seq<string>>): (r: seq<string>)
    ensures questionsList.None? || questionsList.value == [] ==> r == [NoQuestions]
    ensures questionsList.Some? && questionsList.value != [] &&
            (forall i :: 0 <= i < |questionsList.value| ==> Strip(questionsList.value[i]) == "") ==>
              r == [NoValidQuestions]
    ensures questionsList.Some? && (exists i :: 0 <= i < |questionsList.value| && Strip(questionsList.value[i]) != "") ==>
              r == Numbered(questionsList.value)
  {
    if questionsList.None? || questionsList.value == [] then [NoQuestions]
    else
      var formatted := Numbered(questionsList.value);
      NumberedEmpty(questionsList.value);
      if formatted == [] then [NoValidQuestions] else formatted
  }

  /** `format_questions`, with its enumerate loop. */
  method FormatQuestions(questionsList: Option<seq<string>>) returns (r: seq<string>)
    ensures r == FormattedQuestions(questionsList)
  {
    if questionsList.None? || questionsList.value == [] {
      return [NoQuestions];
    }
    var questions := questionsList.value;
    var formatted: seq<string> := [];
    for i := 0 to |questions|
      invariant formatted == Numbered(questions[..i])
    {
      assert questions[..i + 1][..i] == questions[..i];
      var question := questions[i];
      if Strip(question) != "" {
        formatted := formatted + [Label(i + 1, question)];
      }
    }
    assert questions[..|questions|] == questions;
    r := if formatted != [] then formatted else [NoValidQuestions];
  }

  /** `idx` lists, in increasing order, the positions of exactly the
      non-blank questions, and line `k` of `lines` labels question `idx[k]`
      with its 1-based position. */
  predicate LinesAt(questions: seq<string>, idx: seq<nat>, lines: seq<string>) {
    && LinesLabel(questions, idx, lines)
    && (forall k, l :: 0 <= k < l < |idx| ==> idx[k] < idx[l])
    && LinesComplete(questions, idx)
  }

  predicate LinesLabel(questions: seq<string>, idx: seq<nat>, lines: seq<string>) {
    && |idx| == |lines|
    && forall k :: 0 <= k < |lines| ==>
         idx[k] < |questions| && Strip(questions[idx[k]]) != "" && lines[k] == Label(idx[k] + 1, questions[idx[k]])
  }

  predicate LinesComplete(questions: seq<string>, idx: seq<nat>) {
    forall i :: 0 <= i < |questions| && Strip(questions[i]) != "" ==> i in idx
  }

  /** Each numbered line labels a non-blank question with its own position,
      and every non-blank question has its line, in order; blank questions
      leave gaps in the numbering. */
  lemma {:induction false} NumberedLines(questions: seq<string>) returns (idx: seq<nat>)
    ensures LinesAt(questions, idx, Numbered(questions))
    decreases |questions|
  {
    if questions == [] {
      idx := [];
    } else {
      var n := |questions| - 1;
      var before := NumberedLines(questions[..n]);
      idx := NumberedLinesStep(questions, before);
    }
  }

  lemma NumberedLinesStep(questions: seq<string>, before: seq<nat>) returns (idx: seq<nat>)
    requires questions != []
    requires LinesAt(questions[..|questions| - 1], before, Numbered(questions[..|questions| - 1]))
    ensures LinesAt(questions, idx, Numbered(questions))
  {
    var n := |questions| - 1;
    var prev := Numbered(questions[..n]);
    if Strip(questions[n]) != "" {
      idx := before + [n];
      assert Numbered(questions) == prev + [Label(n + 1, questions[n])];
      LinesKeep(questions, before, prev);
    } else {
      idx := before;
      assert Numbered(questions) == prev;
      LinesSkip(questions, before, prev);
    }
  }

  /** A non-blank last question adds its line and its position. */
  lemma LinesKeep(questions: seq<string>, before: seq<nat>, prev: seq<string>)
    requires questions != [] && Strip(questions[|questions| - 1]) != ""
    requires LinesAt(questions[..|questions| - 1], before, prev)
    ensures LinesAt(questions, before + [|questions| - 1], prev + [Label(|questions|, questions[|questions| - 1])])
  {
    var n := |questions| - 1;
    LinesKeepLabel(questions, before, prev);
    LinesKeepComplete(questions, before);
    assert forall k :: 0 <= k < |before| ==> before[k] < n;
  }

  lemma LinesKeepLabel(questions: seq<string>, before: seq<nat>, prev: seq<string>)
    requires questions != [] && Strip(questions[|questions| - 1]) != ""
    requires LinesLabel(questions[..|questions| - 1], before, prev)
    ensures LinesLabel(questions, before + [|questions| - 1], prev + [Label(|questions|, questions[|questions| - 1])])
  {
    var n := |questions| - 1;
    var init := questions[..n];
    var lines := prev + [Label(n + 1, questions[n])];
    var idx := before + [n];
    forall k | 0 <= k < |lines|
      ensures idx[k] < |questions| && Strip(questions[idx[k]]) != "" && lines[k] == Label(idx[k] + 1, questions[idx[k]])
    {
      if k < |prev| {
        assert idx[k] == before[k] && lines[k] == prev[k];
        assert init[before[k]] == questions[before[k]];
      }
    }
  }

  lemma LinesKeepComplete(questions: seq<string>, before: seq<nat>)
    requires questions != []
    requires LinesComplete(questions[..|questions| - 1], before)
    ensures LinesComplete(questions, before + [|questions| - 1])
  {
    var n := |questions| - 1;
    var init := questions[..n];
    var idx := before + [n];
    forall i | 0 <= i < |questions| && Strip(questions[i]) != "" ensures i in idx {
      if i < n {
        assert init[i] == questions[i];
        assert i in before;
      } else {
        assert idx[|before|] == n;
      }
    }
  }

  /** A blank last question changes neither the lines nor the positions. */
  lemma LinesSkip(questions: seq<string>, before: seq<nat>, prev: seq<string>)
    requires questions != [] && Strip(questions[|questions| - 1]) == ""
    requires LinesAt(questions[..|questions| - 1], before, prev)
    ensures LinesAt(questions, before, prev)
  {
    var n := |questions| - 1;
    var init := questions[..n];
    assert forall k :: 0 <= k < |before| ==> init[before[k]] == questions[before[k]];
    forall i | 0 <= i < |questions| && Strip(questions[i]) != "" ensures i in before {
      assert i < n;
      assert init[i] == questions[i];
    }
  }

  /** Only an all-blank list has no numbered line. */
  lemma {:induction false} NumberedEmpty(questions: seq<string>)
    ensures Numbered(questions) == [] <==> forall i :: 0 <= i < |questions| ==> Strip(questions[i]) == ""
    decreases |questions|
  {
    if questions != [] {
      var n := |questions| - 1;
      NumberedEmpty(questions[..n]);
      assert forall i :: 0 <= i < n ==> questions[..n][i] == questions[i];
    }
  }

  /** The number in front of a label reads back as the position. */
  lemma LabelNumber(i: nat, question: string)
    ensures var text := Label(i, question);
      var digits := NatToString(i);
      && text[..|digits|] == digits
      && text[|digits|..|digits| + 2] == ". "
      && text[|digits| + 2..] == Strip(question)
      && ParseDigits(text[..|digits|]) == i
  {
    ParseDigitsOfNatToString(i);
  }

  // ---------------------------------------------------------------------
  // validate_tech_stack
  // ---------------------------------------------------------------------

  const MaxTechnologies: nat := 10
  const EmptyStack: string := "Tech stack cannot be empty"
  const NoTechnology: string := "Please enter at least one technology"
  const TooManyTechnologies: string := "Please limit to 10 technologies or fewer"

  /** The `(ok, value)` pair: the cleaned list, or an error message. */
  datatype Validation = Accepted(technologies: seq<string>) | Rejected(message: string)

  /** The comma-separated entries, stripped, blank ones dropped: each is
      non-empty, stripped and free of commas. */
  function Technologies(techStack: string): (r: seq<string>)
    ensures forall k :: 0 <= k < |r| ==> r[k] != "" && Strip(r[k]) == r[k] && ',' !in r[k]
  {
    StrippedNonBlankAvoids(SplitOn(techStack, ','), ',');
    StrippedNonBlank(SplitOn(techStack, ','))
  }

  function ValidateTechStack(techStack: Option<string>): (r: Validation)
    ensures r == Rejected(EmptyStack) <==> techStack.None? || Strip(techStack.value) == ""
    ensures r == Rejected(NoTechnology) <==>
      techStack.Some? && Strip(techStack.value) != "" && Technologies(techStack.value) == []
    ensures r == Rejected(TooManyTechnologies) <==>
      techStack.Some? && Strip(techStack.value) != "" && |Technologies(techStack.value)| > MaxTechnologies
    ensures r.Accepted? <==>
      techStack.Some? && Strip(techStack.value) != "" && 1 <= |Technologies(techStack.value)| <= MaxTechnologies
    ensures r.Accepted? ==> r.technologies == Technologies(techStack.value)
  {
    if techStack.None? || Strip(techStack.value) == "" then Rejected(EmptyStack)
    else
      var technologies := Technologies(techStack.value);
      if technologies == [] then Rejected(NoTechnology)
      else if |technologies| > MaxTechnologies then Rejected(TooManyTechnologies)
      else Accepted(technologies)
  }

  /** An accepted list has one to ten entries, each non-empty, stripped and
      free of commas. */
  lemma AcceptedShape(techStack: Option<string>)
    ensures var r := ValidateTechStack(techStack);
      r.Accepted? ==>
        && 1 <= |r.technologies| <= MaxTechnologies
        && forall k :: 0 <= k < |r.technologies| ==>
             r.technologies[k] != "" && Strip(r.technologies[k]) == r.technologies[k] && ',' !in r.technologies[k]
  {
  }

  /** Entries that can come out of a successful validation. */
  predicate CleanTechnology(t: string) {
    t != "" && Trimmed(t, IsSpace) && ',' !in t
  }

  /** The pieces of `", ".join(ts)` split at commas: the first entry, then
      each further entry behind its space. */
  lemma {:induction false} SplitJoined(ts: seq<string>)
    requires ts != []
    requires forall k :: 0 <= k < |ts| ==> CleanTechnology(ts[k])
    ensures var pieces := SplitOn(Join(ts, ", "), ',');
      && |pieces| == |ts|
      && pieces[0] == ts[0]
      && forall k :: 1 <= k < |ts| ==> pieces[k] == " " + ts[k]
    decreases |ts|
  {
    if |ts| == 1 {
      SplitOnAbsent(ts[0], ',');
    } else {
      var rest := Join(ts[1..], ", ");
      SplitJoined(ts[1..]);
      var restPieces := SplitOn(rest, ',');
      CommaSpace(ts[0], rest);
      SplitOnAt(ts[0], ',', [' '] + rest);
      SplitOnBehind(' ', rest, ',');
      PiecesOfJoined(ts, restPieces, SplitOn(Join(ts, ", "), ','));
    }
  }

  lemma CommaSpace(a: string, rest: string)
    ensures a + ", " + rest == a + [','] + ([' '] + rest)
  {
  }

  /** The pieces of the whole join, from the pieces of its tail. */
  lemma PiecesOfJoined(ts: seq<string>, restPieces: seq<string>, pieces: seq<string>)
    requires |ts| > 1 && |restPieces| == |ts| - 1 && restPieces[0] == ts[1]
    requires forall k :: 1 <= k < |ts| - 1 ==> restPieces[k] == " " + ts[k + 1]
    requires pieces == [ts[0]] + ([[' '] + restPieces[0]] + restPieces[1..])
    ensures |pieces| == |ts| && pieces[0] == ts[0]
    ensures forall k :: 1 <= k < |ts| ==> pieces[k] == " " + ts[k]
  {
    forall k | 2 <= k < |ts| ensures pieces[k] == " " + ts[k] {
      assert pieces[k] == restPieces[k - 1];
    }
  }

  /** Round trip: the `", "`-join of an accepted list, validated again,
      gives the same list. */
  lemma ValidateJoined(techStack: Option<string>)
    requires ValidateTechStack(techStack).Accepted?
    ensures var ts := ValidateTechStack(techStack).technologies;
      ValidateTechStack(Some(Join(ts, ", "))) == Accepted(ts)
  {
    var ts := ValidateTechStack(techStack).technologies;
    AcceptedShape(techStack);
    JoinedTechnologies(ts);
  }

  lemma JoinedTechnologies(ts: seq<string>)
    requires 1 <= |ts| <= MaxTechnologies
    requires forall k :: 0 <= k < |ts| ==> CleanTechnology(ts[k])
    ensures ValidateTechStack(Some(Join(ts, ", "))) == Accepted(ts)
  {
    TechnologiesOfJoin(ts);
    JoinStartsWith(ts);
  }

  /** Splitting the join at commas and cleaning the pieces gives back the
      entries. */
  lemma TechnologiesOfJoin(ts: seq<string>)
    requires ts != []
    requires forall k :: 0 <= k < |ts| ==> CleanTechnology(ts[k])
    ensures Technologies(Join(ts, ", ")) == ts
  {
    SplitJoined(ts);
    var pieces := SplitOn(Join(ts, ", "), ',');
    forall k | 0 <= k < |ts| ensures Strip(pieces[k]) == ts[k] {
      StripTrimmed(ts[k]);
      if k > 0 {
        StripDropsLeadingSpace(' ', ts[k]);
      }
    }
    StrippedCleanTail(pieces, ts);
  }

  /** Pieces that strip to non-empty entries clean back to exactly those
      entries. */
  lemma {:induction false} StrippedCleanTail(pieces: seq<string>, ts: seq<string>)
    requires |pieces| == |ts|
    requires forall k :: 0 <= k < |ts| ==> ts[k] != "" && Strip(pieces[k]) == ts[k]
    ensures StrippedNonBlank(pieces) == ts
    decreases |pieces|
  {
    if pieces != [] {
      StrippedCleanTail(pieces[1..], ts[1..]);
      assert [ts[0]] + ts[1..] == ts;
    }
  }

  /** A joined list of clean entries is not blank: it starts with its first
      entry. */
  lemma JoinStartsWith(ts: seq<string>)
    requires ts != [] && CleanTechnology(ts[0])
    ensures Strip(Join(ts, ", ")) != ""
  {
    var joined := Join(ts, ", ");
    assert joined[0] == ts[0][0];
  }

  // ---------------------------------------------------------------------
  // get_difficulty_description
  // ---------------------------------------------------------------------

  function DifficultyDescription(experience: int): (r: string)
    ensures r == "Beginner" <==> experience < 2
    ensures r == "Intermediate" <==> 2 <= experience < 5
    ensures r == "Advanced" <==> 5 <= experience
  {
    if experience < 2 then "Beginner"
    else if experience < 5 then "Intermediate"
    else "Advanced"
  }

  /** The bands in increasing order of difficulty. */
  function DifficultyRank(description: string): nat {
    if description == "Beginner" then 0 else if description == "Intermediate" then 1 else 2
  }

  /** More experience never gives an easier band. */
  lemma DifficultyMonotone(e1: int, e2: int)
    requires e1 <= e2
    ensures DifficultyRank(DifficultyDescription(e1)) <= DifficultyRank(DifficultyDescription(e2))
  {
  }

  // ---------------------------------------------------------------------
  // sanitize_input
  // ---------------------------------------------------------------------

  const MaxInputLength: nat := 500

  /** `text.strip()[:500]`, or `""` for `None` and the empty string. */
  function SanitizeInput(text: Option<string>): (r: string)
    ensures |r| <= MaxInputLength
    ensures text.Some? ==> |r| <= |Strip(text.value)| && r == Strip(text.value)[..|r|]
    ensures text.Some? && |Strip(text.value)| <= MaxInputLength ==> r == Strip(text.value)
    ensures text.Some? && |Strip(text.value)| > MaxInputLength ==> |r| == MaxInputLength
    ensures text.None? ==> r == ""
  {
    if text.None? || text.value == "" then ""
    else
      var stripped := Strip(text.value);
      if |stripped| <= MaxInputLength then stripped else stripped[..MaxInputLength]
  }

  /** Sanitising is not idempotent: a cut that lands just after a space
      leaves trailing whitespace, which a second pass strips. */
  lemma SanitizeNotIdempotent(s: string)
    requires |s| == MaxInputLength - 1
    requires !IsSpace(s[0]) && !IsSpace(s[|s| - 1])
    ensures var once := SanitizeInput(Some(s + " x"));
      SanitizeInput(Some(once)) != once
  {
    var t := s + " x";
    StripTrimmed(t);
    assert t[..MaxInputLength] == s + " ";
    var once := s + " ";
    StripByExact(once, IsSpace, 0, |s|);
    assert once[0..|s|] == s;
    assert |Strip(once)| < |once|;
  }
}
