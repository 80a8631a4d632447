/**
 * The ASCII part of Python's string toolkit that the intake code relies on:
 * character classes, `str.lower()`, `str.strip()` (with and without an
 * explicit character set), `str.split()`, `str.split(sep)`, `sep.join(...)`,
 * `str.title()`, the substring test `part in s`, and decimal conversion in
 * both directions (`f"{n}"` and `int(digits)`).
 */
module Text {
  import opened Comprehension

  // ---------------------------------------------------------------------
  // Character classes
  // ---------------------------------------------------------------------

  /** `str.isspace()` and regex `\s` restricted to ASCII (this includes the
      four information separators U+001C..U+001F). */
  predicate IsSpace(c: char) {
    c == ' ' || c == '\t' || c == '\n' || c == '\r' || c == '\U{b}' || c == '\U{c}'
    || ('\U{1c}' <= c <= '\U{1f}')
  }

  predicate NotSpace(c: char) { !IsSpace(c) }

  predicate IsDigit(c: char) { '0' <= c <= '9' }

  predicate IsUpper(c: char) { 'A' <= c <= 'Z' }

  predicate IsLower(c: char) { 'a' <= c <= 'z' }

  predicate IsLetter(c: char) { IsUpper(c) || IsLower(c) }

  /** Regex `\w` restricted to ASCII. */
  predicate IsWordChar(c: char) { IsLetter(c) || IsDigit(c) || c == '_' }

  predicate AllDigits(s: string) {
    forall i :: 0 <= i < |s| ==> IsDigit(s[i])
  }

  // ---------------------------------------------------------------------
  // Case mapping
  // ---------------------------------------------------------------------

  function LowerChar(c: char): (r: char)
    ensures IsUpper(c) ==> IsLower(r) && r as int == c as int + 32
    ensures !IsUpper(c) ==> r == c
  {
    if IsUpper(c) then (c as int + 32) as char else c
  }

  function UpperChar(c: char): (r: char)
    ensures IsLower(c) ==> IsUpper(r) && r as int == c as int - 32
    ensures !IsLower(c) ==> r == c
  {
    if IsLower(c) then (c as int - 32) as char else c
  }

  /** `s.lower()`: every character mapped on its own, so the length is kept. */
  function Lower(s: string): (r: string)
    ensures |r| == |s|
    ensures forall i :: 0 <= i < |s| ==> r[i] == LowerChar(s[i])
  {
    if s == [] then [] else [LowerChar(s[0])] + Lower(s[1..])
  }

  lemma LowerHasNoUpper(s: string)
    ensures forall i :: 0 <= i < |s| ==> !IsUpper(Lower(s)[i])
  {
  }

  /** A slice of a string without upper-case letters is its own
      lower-casing. */
  lemma LowerOfUncased(s: string, a: nat, b: nat)
    requires a <= b <= |s|
    requires forall i :: 0 <= i < |s| ==> !IsUpper(s[i])
    ensures Lower(s[a..b]) == s[a..b]
  {
    var g := s[a..b];
    assert forall j :: 0 <= j < |g| ==> g[j] == s[a + j];
  }

  /** The title-cased form of `c`, given whether a letter comes before it. */
  function TitleChar(c: char, afterLetter: bool): char {
    if !IsLetter(c) then c else if afterLetter then LowerChar(c) else UpperChar(c)
  }

  /** `s.title()` on ASCII, continuing after a letter or not. */
  function TitleFrom(s: string, afterLetter: bool): (r: string)
    ensures |r| == |s|
    decreases |s|
  {
    if s == [] then [] else [TitleChar(s[0], afterLetter)] + TitleFrom(s[1..], IsLetter(s[0]))
  }

  /** Each character of the result depends only on itself and on whether
      the character before it is a letter. */
  lemma {:induction false} TitleFromAt(s: string, afterLetter: bool)
    ensures forall i :: 0 <= i < |s| ==>
              TitleFrom(s, afterLetter)[i] == TitleChar(s[i], if i == 0 then afterLetter else IsLetter(s[i - 1]))
    decreases |s|
  {
    if s != [] {
      var t := s[1..];
      TitleFromAt(t, IsLetter(s[0]));
      var r := TitleFrom(s, afterLetter);
      forall i | 0 < i < |s| ensures r[i] == TitleChar(s[i], IsLetter(s[i - 1])) {
        assert r[i] == TitleFrom(t, IsLetter(s[0]))[i - 1];
        assert t[i - 1] == s[i];
        if i > 1 {
          assert t[i - 2] == s[i - 1];
        }
      }
    }
  }

  function Title(s: string): (r: string)
    ensures |r| == |s|
  {
    TitleFrom(s, false)
  }

  /** `s.title()` on ASCII: a letter is upper-cased exactly when it comes
      first or follows a non-letter, and lower-cased otherwise; every other
      character is kept. */
  lemma TitleCases(s: string)
    ensures forall i :: 0 <= i < |s| && IsLetter(s[i]) ==>
              Title(s)[i] == if i == 0 || !IsLetter(s[i - 1]) then UpperChar(s[i]) else LowerChar(s[i])
    ensures forall i :: 0 <= i < |s| && !IsLetter(s[i]) ==> Title(s)[i] == s[i]
  {
    TitleFromAt(s, false);
    forall i | 0 <= i < |s| && IsLetter(s[i])
      ensures Title(s)[i] == if i == 0 || !IsLetter(s[i - 1]) then UpperChar(s[i]) else LowerChar(s[i])
    {
      assert Title(s)[i] == TitleChar(s[i], if i == 0 then false else IsLetter(s[i - 1]));
    }
    forall i | 0 <= i < |s| && !IsLetter(s[i]) ensures Title(s)[i] == s[i] {
      assert Title(s)[i] == TitleChar(s[i], if i == 0 then false else IsLetter(s[i - 1]));
    }
  }

  /** A string that title-casing leaves alone has its letters upper-case
      exactly at the start of each run of letters. */
  lemma TitledCase(s: string)
    requires Title(s) == s
    ensures forall i :: 0 <= i < |s| && IsLetter(s[i]) ==> (IsUpper(s[i]) <==> i == 0 || !IsLetter(s[i - 1]))
  {
    TitleCases(s);
    forall i | 0 <= i < |s| && IsLetter(s[i]) ensures IsUpper(s[i]) <==> i == 0 || !IsLetter(s[i - 1]) {
      assert Title(s)[i] == s[i];
    }
  }

  /** Title-casing changes case only: lower-casing forgets it. */
  lemma {:induction false} TitleKeepsLetters(s: string, afterLetter: bool)
    ensures Lower(TitleFrom(s, afterLetter)) == Lower(s)
    decreases |s|
  {
    if s != [] {
      TitleKeepsLetters(s[1..], IsLetter(s[0]));
      var r := TitleFrom(s, afterLetter);
      assert r == [r[0]] + TitleFrom(s[1..], IsLetter(s[0]));
      assert Lower(r) == [LowerChar(r[0])] + Lower(TitleFrom(s[1..], IsLetter(s[0])));
      assert Lower(s) == [LowerChar(s[0])] + Lower(s[1..]);
    }
  }

  /** Title-casing a title-cased string changes nothing. */
  lemma {:induction false} TitleIdempotent(s: string, afterLetter: bool)
    ensures TitleFrom(TitleFrom(s, afterLetter), afterLetter) == TitleFrom(s, afterLetter)
    decreases |s|
  {
    if s != [] {
      var r := TitleFrom(s, afterLetter);
      TitleIdempotent(s[1..], IsLetter(s[0]));
      assert IsLetter(r[0]) == IsLetter(s[0]);
      assert r[1..] == TitleFrom(s[1..], IsLetter(s[0]));
    }
  }

  // ---------------------------------------------------------------------
  // Runs of characters, the building block of every matcher
  // ---------------------------------------------------------------------

  /** The end of the longest run of characters satisfying `p` that starts
      at `i` (what a greedy `[...]*` consumes). */
  function RunEnd(s: string, i: nat, p: char -> bool): (k: nat)
    requires i <= |s|
    ensures i <= k <= |s|
    ensures forall j :: i <= j < k ==> p(s[j])
    ensures k < |s| ==> !p(s[k])
    decreases |s| - i
  {
    if i < |s| && p(s[i]) then RunEnd(s, i + 1, p) else i
  }

  /** The start of the longest run of characters satisfying `p` that ends
      at `j` and does not reach below `lo`. */
  function RunStart(s: string, lo: nat, j: nat, p: char -> bool): (k: nat)
    requires lo <= j <= |s|
    ensures lo <= k <= j
    ensures forall m :: k <= m < j ==> p(s[m])
    ensures k > lo ==> !p(s[k - 1])
    decreases j
  {
    if j > lo && p(s[j - 1]) then RunStart(s, lo, j - 1, p) else j
  }

  // ---------------------------------------------------------------------
  // strip
  // ---------------------------------------------------------------------

  /** No character at either end satisfies `p`. */
  predicate Trimmed(s: string, p: char -> bool) {
    s == [] || (!p(s[0]) && !p(s[|s| - 1]))
  }

  /** Words `a` to `b - 1` are non-empty, with no whitespace at either
      end. */
  predicate TrimmedBetween(words: seq<string>, a: nat, b: nat)
    requires a <= b <= |words|
  {
    forall k :: a <= k < b ==> words[k] != [] && !IsSpace(words[k][0]) && !IsSpace(words[k][|words[k]| - 1])
  }

  /** Every word is non-empty, with no whitespace at either end. */
  predicate WordsTrimmed(words: seq<string>) {
    TrimmedBetween(words, 0, |words|)
  }

  /** `s.strip(chars)`, where `p` says which characters are in `chars`:
      no longer than the text, and no character of `p` at either end. */
  function StripBy(s: string, p: char -> bool): (r: string)
    ensures |r| <= |s|
    ensures Trimmed(r, p)
  {
    var a := RunEnd(s, 0, p);
    var b := RunStart(s, a, |s|, p);
    assert a < b ==> !p(s[a]) && !p(s[b - 1]);
    s[a..b]
  }

  /** The result is a slice of the text, and the removed prefix and suffix
      consist of characters of `p` only. */
  lemma StripByShape(s: string, p: char -> bool)
    ensures exists a: nat, b: nat ::
              && a <= b <= |s| && StripBy(s, p) == s[a..b]
              && (forall j :: 0 <= j < a ==> p(s[j]))
              && (forall j :: b <= j < |s| ==> p(s[j]))
  {
    var a := RunEnd(s, 0, p);
    var b := RunStart(s, a, |s|, p);
    assert StripBy(s, p) == s[a..b];
  }

  lemma StripByExact(s: string, p: char -> bool, a: nat, b: nat)
    requires a <= b <= |s|
    requires forall j :: 0 <= j < a ==> p(s[j])
    requires forall j :: b <= j < |s| ==> p(s[j])
    requires Trimmed(s[a..b], p)
    ensures StripBy(s, p) == s[a..b]
  {
    var a' := RunEnd(s, 0, p);
    if a < b {
      assert !p(s[a]) && !p(s[b - 1]);
      assert a' == a;
      var b' := RunStart(s, a', |s|, p);
      assert b' == b;
    } else {
      assert forall j :: 0 <= j < |s| ==> p(s[j]);
      assert a' == |s|;
    }
  }

  lemma StripByTrimmed(s: string, p: char -> bool)
    requires Trimmed(s, p)
    ensures StripBy(s, p) == s
  {
    StripByExact(s, p, 0, |s|);
  }

  lemma StripByIdempotent(s: string, p: char -> bool)
    ensures StripBy(StripBy(s, p), p) == StripBy(s, p)
  {
    StripByTrimmed(StripBy(s, p), p);
  }

  /** Runs are found at the same places, one further on, behind an extra
      leading character. */
  lemma {:induction false} RunEndShift(c: char, s: string, i: nat, p: char -> bool)
    requires i <= |s|
    ensures RunEnd([c] + s, i + 1, p) == RunEnd(s, i, p) + 1
    decreases |s| - i
  {
    var t := [c] + s;
    if i < |s| {
      assert t[i + 1] == s[i];
      if p(s[i]) {
        RunEndShift(c, s, i + 1, p);
      }
    }
  }

  lemma {:induction false} RunStartShift(c: char, s: string, lo: nat, j: nat, p: char -> bool)
    requires lo <= j <= |s|
    ensures RunStart([c] + s, lo + 1, j + 1, p) == RunStart(s, lo, j, p) + 1
    decreases j
  {
    var t := [c] + s;
    if j > lo {
      assert t[j] == s[j - 1];
      if p(s[j - 1]) {
        RunStartShift(c, s, lo, j - 1, p);
      }
    }
  }

  /** A leading character of `p` makes no difference to the result. */
  lemma StripByDropsLeading(c: char, s: string, p: char -> bool)
    requires p(c)
    ensures StripBy([c] + s, p) == StripBy(s, p)
  {
    var t := [c] + s;
    var a := RunEnd(s, 0, p);
    RunEndShift(c, s, 0, p);
    assert RunEnd(t, 0, p) == a + 1;
    RunStartShift(c, s, a, |s|, p);
    var b := RunStart(s, a, |s|, p);
    SliceBehind(c, s, a, b);
  }

  lemma SliceBehind(c: char, s: string, a: nat, b: nat)
    requires a <= b <= |s|
    ensures ([c] + s)[a + 1..b + 1] == s[a..b]
  {
  }

  /** `s.strip()`: surrounding whitespace removed. */
  function Strip(s: string): (r: string)
    ensures |r| <= |s|
    ensures r == [] || (!IsSpace(r[0]) && !IsSpace(r[|r| - 1]))
    ensures r == [] <==> forall i :: 0 <= i < |s| ==> IsSpace(s[i])
  {
    StripByShape(s, IsSpace);
    var r := StripBy(s, IsSpace);
    assert r == [] ==> forall i :: 0 <= i < |s| ==> IsSpace(s[i]);
    r
  }

  lemma StripIdempotent(s: string)
    ensures Strip(Strip(s)) == Strip(s)
  {
    StripByIdempotent(s, IsSpace);
  }

  lemma StripDropsLeadingSpace(c: char, s: string)
    requires IsSpace(c)
    ensures Strip([c] + s) == Strip(s)
  {
    StripByDropsLeading(c, s, IsSpace);
  }

  /** A string without whitespace at either end is its own strip. */
  lemma StripTrimmed(s: string)
    requires Trimmed(s, IsSpace)
    ensures Strip(s) == s
  {
    StripByTrimmed(s, IsSpace);
  }

  /** The stripped string is a slice of the input with blanks around it. */
  lemma StripIsSlice(s: string) returns (a: nat, b: nat)
    ensures a <= b <= |s| && Strip(s) == s[a..b]
    ensures forall j :: 0 <= j < a ==> IsSpace(s[j])
    ensures forall j :: b <= j < |s| ==> IsSpace(s[j])
  {
    StripByShape(s, IsSpace);
    a, b :| a <= b <= |s| && StripBy(s, IsSpace) == s[a..b]
      && (forall j :: 0 <= j < a ==> IsSpace(s[j])) && (forall j :: b <= j < |s| ==> IsSpace(s[j]));
  }

  // ---------------------------------------------------------------------
  // Substring test
  // ---------------------------------------------------------------------

  predicate OccursAt(s: string, part: string, i: nat) {
    i + |part| <= |s| && s[i..i + |part|] == part
  }

  /** Python's `part in s`. */
  predicate Contains(s: string, part: string)
    decreases |s|
  {
    OccursAt(s, part, 0) || (s != [] && Contains(s[1..], part))
  }

  lemma {:induction false} ContainsIff(s: string, part: string)
    ensures Contains(s, part) <==> exists i: nat :: OccursAt(s, part, i)
    decreases |s|
  {
    if s != [] {
      ContainsIff(s[1..], part);
      if Contains(s, part) && !OccursAt(s, part, 0) {
        var i: nat :| OccursAt(s[1..], part, i);
        assert s[1..][i..i + |part|] == s[i + 1..i + 1 + |part|];
        assert OccursAt(s, part, i + 1);
      }
      if i: nat :| OccursAt(s, part, i) {
        if i > 0 {
          assert s[1..][i - 1..i - 1 + |part|] == s[i..i + |part|];
          assert OccursAt(s[1..], part, i - 1);
        }
      }
    } else {
      if i: nat :| OccursAt(s, part, i) {
        assert i == 0;
      }
    }
  }

  lemma OccursInWhole(s: string, a: nat, b: nat, part: string, i: nat)
    requires a <= b <= |s| && OccursAt(s[a..b], part, i)
    ensures OccursAt(s, part, a + i)
  {
    forall k | 0 <= k < |part| ensures s[a + i + k] == part[k] {
      assert s[a..b][i..i + |part|][k] == part[k];
    }
    assert s[a + i..a + i + |part|] == part;
  }

  lemma OccursInSlice(s: string, a: nat, b: nat, part: string, i: nat)
    requires a <= b <= |s| && OccursAt(s, part, i) && a <= i && i + |part| <= b
    ensures OccursAt(s[a..b], part, i - a)
  {
    forall k | 0 <= k < |part| ensures s[a..b][i - a + k] == part[k] {
      assert s[i..i + |part|][k] == part[k];
    }
    assert s[a..b][i - a..i - a + |part|] == part;
  }

  /** Surrounding whitespace never matters to a substring test whose pattern
      has no whitespace at its ends. */
  lemma ContainsStrip(s: string, part: string)
    requires part != [] && Trimmed(part, IsSpace)
    ensures Contains(Strip(s), part) <==> Contains(s, part)
  {
    var a, b := StripIsSlice(s);
    var t := Strip(s);
    ContainsIff(s, part);
    ContainsIff(t, part);
    if Contains(t, part) {
      var i: nat :| OccursAt(t, part, i);
      OccursInWhole(s, a, b, part, i);
    }
    if Contains(s, part) {
      var i: nat :| OccursAt(s, part, i);
      assert s[i..i + |part|] == part;
      assert s[i] == part[0] && s[i + |part| - 1] == part[|part| - 1];
      assert a <= i;
      assert i + |part| <= b;
      OccursInSlice(s, a, b, part, i);
    }
  }

  // ---------------------------------------------------------------------
  // split and join
  // ---------------------------------------------------------------------

  /** `s.split()`: the maximal runs of non-whitespace, in order. */
  function SplitWs(s: string): (r: seq<string>)
    ensures forall k :: 0 <= k < |r| ==> r[k] != []
    ensures forall k, i :: 0 <= k < |r| && 0 <= i < |r[k]| ==> !IsSpace(r[k][i])
    decreases |s|
  {
    var a := RunEnd(s, 0, IsSpace);
    if a == |s| then []
    else
      var b := RunEnd(s, a, NotSpace);
      [s[a..b]] + SplitWs(s[b..])
  }

  /** A run is found exactly where it is. */
  lemma {:induction false} RunEndExact(s: string, i: nat, k: nat, p: char -> bool)
    requires i <= k <= |s|
    requires forall j :: i <= j < k ==> p(s[j])
    requires k < |s| ==> !p(s[k])
    ensures RunEnd(s, i, p) == k
    decreases k - i
  {
    if i < k {
      RunEndExact(s, i + 1, k, p);
    }
  }

  /** Leading whitespace makes no difference to the split. */
  lemma SplitWsDropsLeadingSpace(c: char, t: string)
    requires IsSpace(c)
    ensures SplitWs([c] + t) == SplitWs(t)
  {
    var a := RunEnd(t, 0, IsSpace);
    RunEndShift(c, t, 0, IsSpace);
    LeadingRun(c, t);
    if a == |t| {
      SplitWsNone([c] + t);
      SplitWsNone(t);
    } else {
      var b := RunEnd(t, a, NotSpace);
      RunEndShift(c, t, a, NotSpace);
      SplitWsFirst([c] + t, a + 1, b + 1);
      SplitWsFirst(t, a, b);
      SliceBehind(c, t, a, b);
      TailBehind(c, t, b);
    }
  }

  lemma LeadingRun(c: char, t: string)
    requires IsSpace(c)
    ensures RunEnd([c] + t, 0, IsSpace) == RunEnd([c] + t, 1, IsSpace)
  {
    assert ([c] + t)[0] == c;
  }

  lemma TailBehind(c: char, t: string, b: nat)
    requires b <= |t|
    ensures ([c] + t)[b + 1..] == t[b..]
  {
  }

  /** Nothing but whitespace splits into no pieces. */
  lemma SplitWsNone(s: string)
    requires RunEnd(s, 0, IsSpace) == |s|
    ensures SplitWs(s) == []
  {
  }

  /** The first piece of a split and what is split after it. */
  lemma SplitWsFirst(s: string, a: nat, b: nat)
    requires a == RunEnd(s, 0, IsSpace) && a < |s| && b == RunEnd(s, a, NotSpace)
    ensures SplitWs(s) == [s[a..b]] + SplitWs(s[b..])
  {
  }

  /** A whitespace-free word in front of whitespace (or of nothing) is the
      first piece of the split. */
  lemma SplitWsWord(w: string, t: string)
    requires w != [] && forall i :: 0 <= i < |w| ==> !IsSpace(w[i])
    requires t != [] ==> IsSpace(t[0])
    ensures SplitWs(w + t) == [w] + SplitWs(t)
  {
    var s := w + t;
    RunEndExact(s, 0, 0, IsSpace);
    RunEndExact(s, 0, |w|, NotSpace);
    assert s[0..|w|] == w && s[|w|..] == t;
  }

  /** Splitting a space-joined list of whitespace-free words gives back the
      words. */
  lemma {:induction false} SplitWsJoin(words: seq<string>)
    requires forall k :: 0 <= k < |words| ==> words[k] != [] && forall i :: 0 <= i < |words[k]| ==> !IsSpace(words[k][i])
    ensures SplitWs(Join(words, " ")) == words
    decreases |words|
  {
    if |words| == 1 {
      SplitWsWord(words[0], []);
      assert words[0] + [] == words[0];
    } else if |words| > 1 {
      var j := Join(words[1..], " ");
      SplitWsJoin(words[1..]);
      assert Join(words, " ") == words[0] + (" " + j);
      SplitWsWord(words[0], " " + j);
      SplitWsDropsLeadingSpace(' ', j);
      assert [words[0]] + words[1..] == words;
    }
  }

  /** `s.split(sep)` for a one-character separator: always at least one
      piece, none containing the separator. */
  function SplitOn(s: string, sep: char): (r: seq<string>)
    ensures |r| >= 1
    ensures forall k :: 0 <= k < |r| ==> sep !in r[k]
    decreases |s|
  {
    if s == [] then [[]]
    else
      var rest := SplitOn(s[1..], sep);
      if s[0] == sep then [[]] + rest else [[s[0]] + rest[0]] + rest[1..]
  }

  lemma {:induction false} SplitOnAbsent(s: string, sep: char)
    requires sep !in s
    ensures SplitOn(s, sep) == [s]
    decreases |s|
  {
    if s != [] {
      SplitOnAbsent(s[1..], sep);
      assert [s[0]] + s[1..] == s;
    }
  }

  /** Splitting at the first separator. */
  lemma {:induction false} SplitOnAt(a: string, sep: char, b: string)
    requires sep !in a
    ensures SplitOn(a + [sep] + b, sep) == [a] + SplitOn(b, sep)
    decreases |a|
  {
    if a == [] {
      assert [sep] + b == a + [sep] + b;
      assert ([sep] + b)[1..] == b;
    } else {
      SplitOnAt(a[1..], sep, b);
      var s := a + [sep] + b;
      assert s[1..] == a[1..] + [sep] + b;
      assert [a[0]] + a[1..] == a;
    }
  }

  /** A leading character other than the separator joins the first
      piece. */
  lemma SplitOnBehind(c: char, s: string, sep: char)
    requires c != sep
    ensures SplitOn([c] + s, sep) == [[c] + SplitOn(s, sep)[0]] + SplitOn(s, sep)[1..]
  {
    assert ([c] + s)[1..] == s;
  }

  /** `sep.join(items)`. */
  function Join(items: seq<string>, sep: string): string
    decreases |items|
  {
    if items == [] then []
    else if |items| == 1 then items[0]
    else items[0] + sep + Join(items[1..], sep)
  }

  /** Splitting a join at its one-character separator gives back the
      items, when no item holds the separator. */
  lemma {:induction false} SplitOnJoin(items: seq<string>, sep: char)
    requires items != []
    requires forall k :: 0 <= k < |items| ==> sep !in items[k]
    ensures SplitOn(Join(items, [sep]), sep) == items
    decreases |items|
  {
    if |items| == 1 {
      SplitOnAbsent(items[0], sep);
    } else {
      SplitOnJoin(items[1..], sep);
      SplitOnAt(items[0], sep, Join(items[1..], [sep]));
      assert [items[0]] + items[1..] == items;
    }
  }

  /** A join of non-empty items starts with the first item's first
      character and ends with the last item's last one. */
  lemma {:induction false} JoinEnds(items: seq<string>, sep: string)
    requires items != []
    requires forall k :: 0 <= k < |items| ==> items[k] != []
    ensures var j := Join(items, sep); var last := items[|items| - 1];
      |j| > 0 && j[0] == items[0][0] && j[|j| - 1] == last[|last| - 1]
    decreases |items|
  {
    if |items| > 1 {
      JoinEnds(items[1..], sep);
      assert items[1..][|items| - 2] == items[|items| - 1];
    }
  }

  /** `[p.strip() for p in pieces if p.strip()]`: the pieces stripped,
      blank ones dropped. */
  function StrippedNonBlank(pieces: seq<string>): (r: seq<string>)
    ensures |r| <= |pieces|
    ensures forall k :: 0 <= k < |r| ==> r[k] != [] && Strip(r[k]) == r[k]
    decreases |pieces|
  {
    if pieces == [] then []
    else
      var t := Strip(pieces[0]);
      StripIdempotent(pieces[0]);
      (if t != [] then [t] else []) + StrippedNonBlank(pieces[1..])
  }

  predicate NonBlank(s: string) { s != [] }

  /** What the comprehension keeps, exactly: the stripped forms of the
      non-blank pieces, in order, found at the positions `idx`. */
  lemma {:induction false} StrippedNonBlankSelects(pieces: seq<string>) returns (idx: seq<nat>)
    ensures Selects(pieces, Strip, NonBlank, idx, StrippedNonBlank(pieces))
    decreases |pieces|
  {
    if pieces == [] {
      idx := [];
    } else {
      var tail := StrippedNonBlankSelects(pieces[1..]);
      SelectsStep(pieces, Strip, NonBlank, tail, StrippedNonBlank(pieces[1..]));
      idx := IndexAfterHead(pieces, Strip, NonBlank, tail);
    }
  }

  /** Pieces that are already stripped and non-blank come back unchanged. */
  lemma {:induction false} StrippedNonBlankIdentity(pieces: seq<string>)
    requires forall k :: 0 <= k < |pieces| ==> pieces[k] != [] && Strip(pieces[k]) == pieces[k]
    ensures StrippedNonBlank(pieces) == pieces
    decreases |pieces|
  {
    if pieces != [] {
      StrippedNonBlankIdentity(pieces[1..]);
      assert [pieces[0]] + pieces[1..] == pieces;
    }
  }

  /** A character no piece contains is in no result either. */
  lemma {:induction false} StrippedNonBlankAvoids(pieces: seq<string>, c: char)
    requires forall k :: 0 <= k < |pieces| ==> c !in pieces[k]
    ensures forall k :: 0 <= k < |StrippedNonBlank(pieces)| ==> c !in StrippedNonBlank(pieces)[k]
    decreases |pieces|
  {
    if pieces != [] {
      StrippedNonBlankAvoids(pieces[1..], c);
      var t := Strip(pieces[0]);
      var a, b := StripIsSlice(pieces[0]);
      assert c !in pieces[0];
      assert forall j :: 0 <= j < |t| ==> t[j] == pieces[0][a + j];
      var rest := StrippedNonBlank(pieces[1..]);
      var r := StrippedNonBlank(pieces);
      assert r == (if t != [] then [t] else []) + rest;
    }
  }

  // ---------------------------------------------------------------------
  // Decimal numbers
  // ---------------------------------------------------------------------

  function DigitChar(d: nat): (c: char)
    requires d < 10
    ensures IsDigit(c)
  {
    ('0' as int + d) as char
  }

  function DigitValue(c: char): (d: nat)
    requires IsDigit(c)
    ensures d < 10
  {
    c as int - '0' as int
  }

  /** `f"{n}"`: the canonical decimal numeral, without leading zeros. */
  function NatToString(n: nat): (r: string)
    ensures r != [] && AllDigits(r)
    ensures r[0] == '0' ==> n == 0 && r == "0"
    decreases n
  {
    if n < 10 then [DigitChar(n)] else NatToString(n / 10) + [DigitChar(n % 10)]
  }

  /** `int(s)` for a string of ASCII digits (leading zeros allowed). */
  function ParseDigits(s: string): nat
    requires AllDigits(s)
    decreases |s|
  {
    if s == [] then 0 else ParseDigits(s[..|s| - 1]) * 10 + DigitValue(s[|s| - 1])
  }

  /** Reading back a printed number gives the number. */
  lemma {:induction false} ParseDigitsOfNatToString(n: nat)
    ensures ParseDigits(NatToString(n)) == n
    decreases n
  {
    var r := NatToString(n);
    if n >= 10 {
      ParseDigitsOfNatToString(n / 10);
      assert r[..|r| - 1] == NatToString(n / 10);
    } else {
      assert r[..|r| - 1] == [];
    }
  }
}
