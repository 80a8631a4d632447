/**
 * `ConversationManager.extract_tech_stack` (src/conversation.py): the
 * technologies named in a message, gathered from three vocabularies and
 * from the message's own tokens, deduplicated ignoring case and whitespace,
 * in first-seen order, at most ten.
 */
module TechStack {
  import opened Text
  import opened Patterns
  import opened Unique
  import opened Comprehension

  const MaxTechs: nat := 10

  /** The three vocabulary patterns, in the source's order. */
  const TechPatterns: seq<Pattern> := [CoreTech, WebTech, DataTech]

  /** Membership in a word list, unfolded one word at a time. */
  predicate InWords(t: string, words: seq<string>)
    decreases |words|
  {
    words != [] && (words[0] == t || InWords(t, words[1..]))
  }

  lemma {:induction false} InWordsIff(t: string, words: seq<string>)
    ensures InWords(t, words) <==> t in words
    decreases |words|
  {
    if words != [] {
      InWordsIff(t, words[1..]);
      assert words == [words[0]] + words[1..];
    }
  }

  /** A word of one of the three vocabularies. */
  predicate IsVocabularyWord(t: string) {
    InWords(t, CoreTechWords) || InWords(t, WebTechWords) || InWords(t, DataTechWords)
  }

  // ---------------------------------------------------------------------
  // The two sources of candidates
  // ---------------------------------------------------------------------

  /** What the first `k` vocabulary patterns find in the lower-cased
      message, pattern after pattern. In lower-case text every match is a
      word of the vocabularies, verbatim. */
  function VocabularyMatches(lowered: string, k: nat): (r: seq<string>)
    requires k <= |TechPatterns|
    ensures (forall i :: 0 <= i < |lowered| ==> !IsUpper(lowered[i])) ==>
              forall t :: t in r ==> IsVocabularyWord(t)
  {
    if k == 0 then []
    else
      var found := FindAllGroups(TechPatterns[k - 1], lowered);
      FoundAreVocabularyWords(TechPatterns[k - 1], lowered);
      VocabularyMatches(lowered, k - 1) + found
  }

  lemma FoundAreVocabularyWords(p: Pattern, lowered: string)
    requires p in TechPatterns
    ensures (forall i :: 0 <= i < |lowered| ==> !IsUpper(lowered[i])) ==>
              forall t :: t in FindAllGroups(p, lowered) ==> IsVocabularyWord(t)
  {
    if forall i :: 0 <= i < |lowered| ==> !IsUpper(lowered[i]) {
      PatternMatchesAreWords(p, lowered);
    }
  }

  /** What one vocabulary pattern finds in lower-case text is one of its
      words. */
  lemma PatternMatchesAreWords(p: Pattern, lowered: string)
    requires p.IsVocabulary()
    requires forall i :: 0 <= i < |lowered| ==> !IsUpper(lowered[i])
    ensures forall t :: t in FindAllGroups(p, lowered) ==> InWords(t, Vocabulary(p))
  {
    var ms := FindAll(p, lowered, 0);
    forall j | 0 <= j < |ms| ensures InWords(Group(lowered, ms[j]), Vocabulary(p)) {
      MatchIsWord(p, lowered, ms[j].start);
    }
  }

  lemma MatchIsWord(p: Pattern, lowered: string, i: nat)
    requires p.IsVocabulary() && i <= |lowered| && MatchAt(p, lowered, i).Some?
    requires forall i :: 0 <= i < |lowered| ==> !IsUpper(lowered[i])
    ensures InWords(Group(lowered, MatchAt(p, lowered, i).value), Vocabulary(p))
  {
    var m := MatchAt(p, lowered, i).value;
    VocabularyGroup(p, lowered, i);
    LowerOfUncased(lowered, m.groupStart, m.groupEnd);
    InWordsIff(Group(lowered, m), Vocabulary(p));
  }

  /** The separators `,`, `;` and `&` that become spaces before splitting. */
  predicate IsSeparator(c: char) { c == ',' || c == ';' || c == '&' }

  /** No separator survives: each becomes a space, and every other
      character stays where it was. */
  function ReplaceSeparators(s: string): (r: string)
    ensures |r| == |s|
    ensures forall i :: 0 <= i < |r| ==> !IsSeparator(r[i])
    ensures forall i :: 0 <= i < |s| && IsSeparator(s[i]) ==> r[i] == ' '
    ensures forall i :: 0 <= i < |s| && !IsSeparator(s[i]) ==> r[i] == s[i]
  {
    seq(|s|, i requires 0 <= i < |s| => if IsSeparator(s[i]) then ' ' else s[i])
  }

  /** The punctuation stripped from both ends of each word. */
  predicate IsEdgePunct(c: char) { c in ".,!?()[]{}" }

  /** The characters of `^[a-zA-Z0-9\.\-\+#]+$`. */
  predicate IsTokenChar(c: char) {
    IsLetter(c) || IsDigit(c) || c == '.' || c == '-' || c == '+' || c == '#'
  }

  /** A word that passes the token filter: 2 to 15 token characters. */
  predicate IsTechToken(t: string) {
    2 <= |t| <= 15 && forall i :: 0 <= i < |t| ==> IsTokenChar(t[i])
  }

  /** Each word with its edge punctuation stripped. */
  function EdgeStripped(w: string): string {
    StripBy(w, IsEdgePunct)
  }

  /** The `potential_techs` comprehension: each word with its edge
      punctuation stripped, kept when it passes the token filter. */
  function PotentialTechs(words: seq<string>): (r: seq<string>)
    ensures |r| <= |words|
    ensures forall k :: 0 <= k < |r| ==> IsTechToken(r[k])
    decreases |words|
  {
    if words == [] then []
    else
      var t := EdgeStripped(words[0]);
      var rest := PotentialTechs(words[1..]);
      if IsTechToken(t) then [t] + rest else rest
  }

  /** Every kept token is one of the words with its edge punctuation
      stripped. */
  lemma PotentialTechsFromWords(words: seq<string>)
    ensures var r := PotentialTechs(words);
      forall k :: 0 <= k < |r| ==> exists j :: 0 <= j < |words| && r[k] == StripBy(words[j], IsEdgePunct)
  {
    var idx := PotentialTechsSelects(words);
    var r := PotentialTechs(words);
    forall k | 0 <= k < |r| ensures exists j :: 0 <= j < |words| && r[k] == StripBy(words[j], IsEdgePunct) {
      assert r[k] == EdgeStripped(words[idx[k]]);
    }
  }

  /** What the comprehension keeps, exactly: the edge-stripped words that
      pass the token filter, in order, found at the positions `idx`. */
  lemma {:induction false} PotentialTechsSelects(words: seq<string>) returns (idx: seq<nat>)
    ensures Selects(words, EdgeStripped, IsTechToken, idx, PotentialTechs(words))
    decreases |words|
  {
    if words == [] {
      idx := [];
    } else {
      var tail := PotentialTechsSelects(words[1..]);
      PotentialTechsStep(words);
      SelectsStep(words, EdgeStripped, IsTechToken, tail, PotentialTechs(words[1..]));
      idx := IndexAfterHead(words, EdgeStripped, IsTechToken, tail);
    }
  }

  lemma PotentialTechsStep(words: seq<string>)
    requires words != []
    ensures PotentialTechs(words) == HeadKept(words, EdgeStripped, IsTechToken) + PotentialTechs(words[1..])
  {
  }

  /** The tokens of the message itself: each a 2-15 character token, with
      nothing to strip. */
  function MessageTokens(userInput: string): (r: seq<string>)
    ensures forall k :: 0 <= k < |r| ==> IsTechToken(r[k]) && Strip(r[k]) == r[k]
  {
    var r := PotentialTechs(SplitWs(ReplaceSeparators(userInput)));
    TokensStripped(r);
    r
  }

  lemma TokensStripped(tokens: seq<string>)
    requires forall k :: 0 <= k < |tokens| ==> IsTechToken(tokens[k])
    ensures forall k :: 0 <= k < |tokens| ==> Strip(tokens[k]) == tokens[k]
  {
    forall k | 0 <= k < |tokens| ensures Strip(tokens[k]) == tokens[k] {
      StripTrimmed(tokens[k]);
    }
  }

  /** `found_techs`: the vocabulary matches, then the tokens. Every
      candidate is a vocabulary word or a token, and is its own strip. */
  function FoundTechs(userInput: string): (r: seq<string>)
    ensures CandidatesShaped(r)
  {
    CandidatesOfMessage(userInput);
    VocabularyMatches(Lower(userInput), |TechPatterns|) + MessageTokens(userInput)
  }

  // ---------------------------------------------------------------------
  // Deduplication
  // ---------------------------------------------------------------------

  /** The key a candidate is deduplicated by: `tech.strip().lower()`. */
  function TechKey(t: string): string {
    Lower(Strip(t))
  }

  // ---------------------------------------------------------------------
  // The operation and its properties
  // ---------------------------------------------------------------------

  /** `unique_techs[:10]`: the first ten entries, or all of them. */
  function Limit(unique: seq<string>): (r: seq<string>)
    ensures |r| <= MaxTechs && |r| <= |unique|
    ensures |r| == MaxTechs || r == unique
    ensures forall k :: 0 <= k < |r| ==> r[k] == unique[k]
  {
    if |unique| <= MaxTechs then unique else unique[..MaxTechs]
  }

  /** The value `extract_tech_stack` returns: at most ten entries, no two
      with the same key, each at least two characters long and each a
      vocabulary word or a token of the message. */
  function TechStackOf(userInput: string): (r: seq<string>)
    ensures |r| <= MaxTechs
    ensures EntriesShaped(r)
  {
    var unique := DedupBy(FoundTechs(userInput), {}, TechKey, Strip);
    UniqueShape(FoundTechs(userInput));
    LimitShape(unique);
    Limit(unique)
  }

  /** `extract_tech_stack`, step by step as the source does it. */
  method ExtractTechStack(userInput: string) returns (techs: seq<string>)
    ensures techs == TechStackOf(userInput)
  {
    var foundTechs: seq<string> := [];
    var lowered := Lower(userInput);
    for k := 0 to |TechPatterns|
      invariant foundTechs == VocabularyMatches(lowered, k)
    {
      foundTechs := foundTechs + FindAllGroups(TechPatterns[k], lowered);
    }
    var words := SplitWs(ReplaceSeparators(userInput));
    foundTechs := foundTechs + PotentialTechs(words);

    var unique: seq<string> := [];
    var seen: set<string> := {};
    for i := 0 to |foundTechs|
      invariant unique + DedupBy(foundTechs[i..], seen, TechKey, Strip) == DedupBy(foundTechs, {}, TechKey, Strip)
    {
      DedupByAt(foundTechs, i, seen, TechKey, Strip);
      var techClean := Lower(Strip(foundTechs[i]));
      if techClean !in seen && |techClean| > 1 {
        unique := unique + [Strip(foundTechs[i])];
        seen := seen + {techClean};
      }
    }
    techs := if |unique| <= MaxTechs then unique else unique[..MaxTechs];
  }

  lemma CoreWordsTrimmed()
    ensures WordsTrimmed(CoreTechWords)
  {
    CoreTrimmedA();
    CoreTrimmedB();
    CoreTrimmedC();
  }

  lemma CoreTrimmedA()
    ensures TrimmedBetween(CoreTechWords, 0, 14)
  {
  }

  lemma CoreTrimmedB()
    ensures TrimmedBetween(CoreTechWords, 14, 28)
  {
  }

  lemma CoreTrimmedC()
    ensures TrimmedBetween(CoreTechWords, 28, 42)
  {
  }

  lemma WebWordsTrimmed()
    ensures WordsTrimmed(WebTechWords)
  {
  }

  lemma DataWordsTrimmed()
    ensures WordsTrimmed(DataTechWords)
  {
  }

  /** A vocabulary word is its own strip. */
  lemma VocabularyWordStripped(t: string)
    requires IsVocabularyWord(t)
    ensures Strip(t) == t
  {
    CoreWordsTrimmed();
    WebWordsTrimmed();
    DataWordsTrimmed();
    InWordsIff(t, CoreTechWords);
    InWordsIff(t, WebTechWords);
    InWordsIff(t, DataTechWords);
    StripTrimmed(t);
  }

  /** Every candidate is a vocabulary word or a token, and is its own
      strip. */
  predicate CandidatesShaped(found: seq<string>) {
    forall t :: t in found ==> (IsVocabularyWord(t) || IsTechToken(t)) && Strip(t) == t
  }

  /** No two entries share a key, and each is a vocabulary word or a token
      of at least two characters. */
  predicate EntriesShaped(r: seq<string>) {
    && (forall k, l :: 0 <= k < l < |r| ==> TechKey(r[k]) != TechKey(r[l]))
    && (forall k :: 0 <= k < |r| ==> |r[k]| >= 2)
    && (forall k :: 0 <= k < |r| ==> IsVocabularyWord(r[k]) || IsTechToken(r[k]))
  }

  lemma CandidatesOfMessage(userInput: string)
    ensures CandidatesShaped(VocabularyMatches(Lower(userInput), |TechPatterns|) + MessageTokens(userInput))
  {
    var lowered := Lower(userInput);
    var matches := VocabularyMatches(lowered, |TechPatterns|);
    var tokens := MessageTokens(userInput);
    LowerHasNoUpper(userInput);
    forall t | t in matches + tokens ensures (IsVocabularyWord(t) || IsTechToken(t)) && Strip(t) == t {
      if t in matches {
        VocabularyWordStripped(t);
      } else {
        assert t in tokens;
      }
    }
  }

  lemma LimitShape(unique: seq<string>)
    requires EntriesShaped(unique)
    ensures EntriesShaped(Limit(unique))
  {
  }

  /** Deduplicating trimmed vocabulary words and tokens gives entries with
      distinct keys, each at least two characters long and each one of the
      candidates. */
  lemma UniqueShape(found: seq<string>)
    requires CandidatesShaped(found)
    ensures EntriesShaped(DedupBy(found, {}, TechKey, Strip))
  {
    UniqueDistinct(found);
    UniqueEntries(found);
  }

  lemma UniqueDistinct(found: seq<string>)
    ensures forall k, l :: 0 <= k < l < |DedupBy(found, {}, TechKey, Strip)| ==>
      TechKey(DedupBy(found, {}, TechKey, Strip)[k]) != TechKey(DedupBy(found, {}, TechKey, Strip)[l])
  {
    forall x ensures TechKey(Strip(x)) == TechKey(x) {
      StripIdempotent(x);
    }
    DedupByDistinct(found, {}, TechKey, Strip);
  }

  lemma UniqueEntries(found: seq<string>)
    requires CandidatesShaped(found)
    ensures var unique := DedupBy(found, {}, TechKey, Strip);
      forall k :: 0 <= k < |unique| ==> |unique[k]| >= 2 && (IsVocabularyWord(unique[k]) || IsTechToken(unique[k]))
  {
    var unique := DedupBy(found, {}, TechKey, Strip);
    var picked := DedupKeeps(found, {}, TechKey, Strip);
    forall k | 0 <= k < |unique|
      ensures |unique[k]| >= 2 && (IsVocabularyWord(unique[k]) || IsTechToken(unique[k]))
    {
      var t := found[picked[k]];
      assert t in found && unique[k] == Strip(t);
      assert |TechKey(unique[k])| > 1;
    }
  }

  /** Nothing eligible is lost below the limit: when the deduplicated list
      has at most ten entries, every candidate that is the first with its
      key, a key longer than one character, appears in the result. */
  lemma TechStackComplete(userInput: string, j: nat)
    requires j < |FoundTechs(userInput)| && FirstEligible(FoundTechs(userInput), {}, TechKey, j)
    requires |DedupBy(FoundTechs(userInput), {}, TechKey, Strip)| <= MaxTechs
    ensures Strip(FoundTechs(userInput)[j]) in TechStackOf(userInput)
  {
    var picked := DedupKeeps(FoundTechs(userInput), {}, TechKey, Strip);
    var k :| 0 <= k < |picked| && picked[k] == j;
    assert TechStackOf(userInput)[k] == Strip(FoundTechs(userInput)[j]);
  }

  /** The order is first-seen order: entries appear in the order of the
      candidates they come from. */
  lemma TechStackOrder(userInput: string) returns (picked: seq<nat>)
    ensures var r := TechStackOf(userInput);
      && |picked| == |r|
      && (forall k :: 0 <= k < |r| ==>
            picked[k] < |FoundTechs(userInput)| && r[k] == Strip(FoundTechs(userInput)[picked[k]]))
      && (forall k, l :: 0 <= k < l < |r| ==> picked[k] < picked[l])
  {
    var all := DedupKeeps(FoundTechs(userInput), {}, TechKey, Strip);
    picked := if |all| <= MaxTechs then all else all[..MaxTechs];
  }
}
