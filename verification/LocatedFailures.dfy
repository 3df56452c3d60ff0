/** Which lines the failure locator lists, under which name and number. */
module LocatedFailures {

  import opened FailureLocator
  import opened RawLog
  import opened TapCounter
  import opened Text

  // ----- names

  /** White space and line terminators of ECMA-262, sections 12.2 and 12.3. */
  const WHITE_SPACE: set<CodeUnit> :=
    {0x09, 0x0A, 0x0B, 0x0C, 0x0D, 0x20, 0xA0, 0x1680, 0x2000, 0x2001, 0x2002, 0x2003, 0x2004, 0x2005, 0x2006, 0x2007,
     0x2008, 0x2009, 0x200A, 0x2028, 0x2029, 0x202F, 0x205F, 0x3000, 0xFEFF}

  lemma SpaceIs(c: CodeUnit)
    ensures Space(c) <==> c in WHITE_SPACE
  {
  }

  /** The longest runs without white space. */
  function Words(s: Utf16): (words: seq<Utf16>)
    ensures s != [] && s[0] !in WHITE_SPACE ==> words != []
  {
    if s == [] then []
    else if s[0] in WHITE_SPACE then Words(s[1..])
    else if |s| == 1 || s[1] in WHITE_SPACE then [[s[0]]] + Words(s[1..])
    else
      var rest := Words(s[1..]);
      [[s[0]] + rest[0]] + rest[1..]
  }

  /** Words with one space between them. */
  function Spaced(words: seq<Utf16>): Utf16 {
    if words == [] then []
    else if |words| == 1 then words[0]
    else words[0] + [0x20] + Spaced(words[1..])
  }

  /** A listed name is the words of the line's name with single spaces, cut to 240 units with an
      ellipsis for the last. */
  lemma NameMeans(name: Utf16)
    ensures var whole := Spaced(Words(name));
            BoundedName(name) == if |whole| <= 240 then whole else whole[..239] + [0x2026]
    ensures Blank(name) <==> Words(name) == []
  {
    hide Words, Spaced, Folded, Trim;
    TrimMeans(name);
    var middle := Trim(name);
    WordsOfTrimmed(name);
    FoldedIs(middle);
    if middle != [] {
      EndsInWord(middle);
    } else {
      NoWords();
    }
  }

  lemma NoWords()
    ensures Words([]) == [] && Spaced([]) == []
  {
  }

  /** A trimmed text lacks exactly the white space around it. */
  lemma TrimMeans(s: Utf16)
    ensures exists before, after ::
              && s == before + Trim(s) + after
              && (forall c :: c in before || c in after ==> c in WHITE_SPACE)
    ensures Trim(s) != [] ==> Trim(s)[0] !in WHITE_SPACE && Trim(s)[|Trim(s)| - 1] !in WHITE_SPACE
  {
    var before := TrimStartIs(s);
    var middle := TrimStart(s);
    var after := TrimEndIs(middle);
    assert s == before + Trim(s) + after;
  }

  lemma {:induction false} TrimStartIs(s: Utf16) returns (before: Utf16)
    ensures s == before + TrimStart(s) && forall c :: c in before ==> c in WHITE_SPACE
    ensures TrimStart(s) != [] ==> TrimStart(s)[0] !in WHITE_SPACE
  {
    before := [];
    if s != [] {
      SpaceIs(s[0]);
      if Space(s[0]) {
        var more := TrimStartIs(s[1..]);
        before := [s[0]] + more;
      }
    }
  }

  lemma {:induction false} TrimEndIs(s: Utf16) returns (after: Utf16)
    ensures s == TrimEnd(s) + after && forall c :: c in after ==> c in WHITE_SPACE
    ensures TrimEnd(s) != [] ==> TrimEnd(s)[|TrimEnd(s)| - 1] !in WHITE_SPACE
    ensures TrimEnd(s) <= s
  {
    after := [];
    if s != [] {
      SpaceIs(s[|s| - 1]);
      if Space(s[|s| - 1]) {
        var more := TrimEndIs(s[..|s| - 1]);
        after := more + [s[|s| - 1]];
      }
    }
  }

  lemma {:induction false} WordsBeforeSpace(s: Utf16, c: CodeUnit)
    requires c in WHITE_SPACE
    ensures Words(s + [c]) == Words(s)
  {
    var t := s + [c];
    if s == [] {
      assert t[1..] == [];
    } else {
      WordsBeforeSpace(s[1..], c);
      assert t[1..] == s[1..] + [c];
    }
  }

  lemma {:induction false} WordsOfTrimmedStart(s: Utf16)
    ensures Words(TrimStart(s)) == Words(s)
  {
    if s != [] {
      SpaceIs(s[0]);
      if Space(s[0]) {
        WordsOfTrimmedStart(s[1..]);
      }
    }
  }

  lemma {:induction false} WordsOfTrimmedEnd(s: Utf16)
    ensures Words(TrimEnd(s)) == Words(s)
  {
    if s != [] {
      var front, last := s[..|s| - 1], s[|s| - 1];
      SpaceIs(last);
      if Space(last) {
        WordsOfTrimmedEnd(front);
        WordsBeforeSpace(front, last);
        assert s == front + [last];
      }
    }
  }

  lemma WordsOfTrimmed(s: Utf16)
    ensures Words(Trim(s)) == Words(s)
  {
    WordsOfTrimmedStart(s);
    WordsOfTrimmedEnd(TrimStart(s));
  }

  lemma {:induction false} EndsInWord(s: Utf16)
    requires s != [] && s[|s| - 1] !in WHITE_SPACE
    ensures Words(s) != []
  {
    if |s| > 1 {
      EndsInWord(s[1..]);
    }
  }

  /** Folding keeps the words, with one space between them and one for white space in front. */
  lemma {:induction false} FoldedIs(s: Utf16)
    requires s != [] ==> s[|s| - 1] !in WHITE_SPACE
    ensures Folded(s) == (if s != [] && s[0] in WHITE_SPACE then [0x20] else []) + Spaced(Words(s))
  {
    hide Words, Spaced, Folded;
    FoldedStep(s);
    if s == [] {
      NoWords();
    } else if |s| == 1 {
      OneUnit(s);
    } else {
      FoldedIs(s[1..]);
      EndsInWord(s[1..]);
      FirstWord(s);
    }
  }

  lemma FoldedStep(s: Utf16)
    ensures s == [] ==> Folded(s) == []
    ensures |s| == 1 && s[0] !in WHITE_SPACE ==> Folded(s) == s
    ensures |s| > 1 ==>
              Folded(s) == (if s[0] !in WHITE_SPACE then [s[0]] else if s[1] in WHITE_SPACE then [] else [0x20])
                           + Folded(s[1..])
  {
    if s != [] {
      SpaceIs(s[0]);
    }
    if |s| > 1 {
      SpaceIs(s[1]);
    }
  }

  lemma OneUnit(s: Utf16)
    requires |s| == 1 && s[0] !in WHITE_SPACE
    ensures Spaced(Words(s)) == s
  {
    assert s[1..] == [];
  }

  /** The words of a text from those after its first unit. */
  lemma FirstWord(s: Utf16)
    requires |s| > 1 && Words(s[1..]) != []
    ensures Spaced(Words(s)) == (if s[0] in WHITE_SPACE then []
                                 else if s[1] in WHITE_SPACE then [s[0], 0x20] else [s[0]]) + Spaced(Words(s[1..]))
  {
    var rest := Words(s[1..]);
    if s[0] in WHITE_SPACE {
    } else if s[1] in WHITE_SPACE {
      SpacedMore([s[0]], rest);
    } else {
      LongerFirst(s[0], rest);
    }
  }

  lemma SpacedMore(word: Utf16, rest: seq<Utf16>)
    requires rest != []
    ensures Spaced([word] + rest) == word + [0x20] + Spaced(rest)
  {
    assert ([word] + rest)[1..] == rest;
  }

  lemma SpacedOne(word: Utf16)
    ensures Spaced([word]) == word
  {
  }

  lemma LongerFirst(c: CodeUnit, words: seq<Utf16>)
    requires words != []
    ensures Spaced([[c] + words[0]] + words[1..]) == [c] + Spaced(words)
  {
    hide Spaced;
    var rest := words[1..];
    if rest == [] {
      assert words == [words[0]] && [[c] + words[0]] + rest == [[c] + words[0]];
      SpacedOne([c] + words[0]);
      SpacedOne(words[0]);
    } else {
      SpacedMore([c] + words[0], rest);
      SpacedMore(words[0], rest);
      assert words == [words[0]] + rest;
    }
  }

  // ----- the lines listed

  /** Whether some line before n is the node runner's number of tests. */
  predicate TestsNamed(classify: seq<Byte> -> LineClass, lines: seq<RawLine>, n: nat)
    requires n <= |lines|
  {
    exists i :: 0 <= i < n && SaysTests(classify(lines[i].bytes))
  }

  predicate SaysTests(line: LineClass) {
    line.Summary? && line.node && line.field.Tests?
  }

  /** A node result before the number of tests. */
  predicate CountedNode(classify: seq<Byte> -> LineClass, lines: seq<RawLine>, i: nat)
    requires i < |lines|
  {
    classify(lines[i].bytes).NodeResult? && !TestsNamed(classify, lines, i)
  }

  predicate Listed(classify: seq<Byte> -> LineClass, lines: seq<RawLine>, i: nat)
    requires i < |lines|
  {
    || classify(lines[i].bytes).TapFailure?
    || (CountedNode(classify, lines, i) && classify(lines[i].bytes).failed)
  }

  /** The places of the listed lines before n, in order. */
  function ListedLines(classify: seq<Byte> -> LineClass, lines: seq<RawLine>, n: nat): (places: seq<nat>)
    requires n <= |lines|
    ensures forall j :: 0 <= j < |places| ==> places[j] < n && Listed(classify, lines, places[j])
    ensures forall i: nat :: i < n && Listed(classify, lines, i) ==> i in places
    ensures forall j, k :: 0 <= j < k < |places| ==> places[j] < places[k]
  {
    if n == 0 then []
    else ListedLines(classify, lines, n - 1) + if Listed(classify, lines, n - 1) then [n - 1] else []
  }

  /** How many node results from line i up to line n are counted. */
  function NodesBetween(classify: seq<Byte> -> LineClass, lines: seq<RawLine>, i: nat, n: nat): nat
    requires i <= n <= |lines|
  {
    if i == n then 0
    else NodesBetween(classify, lines, i, n - 1) + if CountedNode(classify, lines, n - 1) then 1 else 0
  }

  predicate Numbered(line: LineClass) {
    line.TapPass? || line.TapFailure?
  }

  /** The numbering before line n has reached r: the most that counting node results gives, from
      nothing or on from a TAP line's number. */
  ghost predicate ReachedIs(classify: seq<Byte> -> LineClass, lines: seq<RawLine>, n: nat, r: nat)
    requires n <= |lines|
  {
    && NodesBetween(classify, lines, 0, n) <= r
    && (forall i: nat :: i < n && Numbered(classify(lines[i].bytes)) ==>
          classify(lines[i].bytes).number + NodesBetween(classify, lines, i + 1, n) <= r)
    && (r == NodesBetween(classify, lines, 0, n)
        || exists i: nat :: i < n && Numbered(classify(lines[i].bytes))
                            && r == classify(lines[i].bytes).number + NodesBetween(classify, lines, i + 1, n))
  }

  /** A listed failure is about line i. */
  ghost predicate LocationIs(classify: seq<Byte> -> LineClass, lines: seq<RawLine>, i: nat, location: Location)
    requires i < |lines| && Listed(classify, lines, i)
  {
    var line := classify(lines[i].bytes);
    && location.logLine == i + 1 && location.byteOffset == lines[i].byteOffset
    && location.name == BoundedName(line.name)
    && if line.TapFailure? then location.index == line.number
       else location.index > 0 && ReachedIs(classify, lines, i, location.index - 1)
  }

  ghost predicate FailuresAre(classify: seq<Byte> -> LineClass, lines: seq<RawLine>, n: nat, limit: nat, s: Search)
    requires n <= |lines|
  {
    var places := ListedLines(classify, lines, n);
    && s.observedFailureCount == |places|
    && |s.failures| == (if |places| <= limit then |places| else limit)
    && (forall j :: 0 <= j < |s.failures| ==> LocationIs(classify, lines, places[j], s.failures[j]))
  }

  /** What the search has found among the first n lines. */
  ghost predicate SearchIs(classify: seq<Byte> -> LineClass, lines: seq<RawLine>, n: nat, limit: nat, s: Search)
    requires n <= |lines|
  {
    && FailuresAre(classify, lines, n, limit, s)
    && ReachedIs(classify, lines, n, s.sequentialIndex)
    && (s.nodeSummaryStarted <==> TestsNamed(classify, lines, n))
  }

  lemma ReachedOn(classify: seq<Byte> -> LineClass, lines: seq<RawLine>, n: nat, r: nat)
    requires n < |lines| && ReachedIs(classify, lines, n, r)
    ensures var line := classify(lines[n].bytes);
            ReachedIs(classify, lines, n + 1,
                      if CountedNode(classify, lines, n) then r + 1
                      else if Numbered(line) && line.number > r then line.number
                      else r)
  {
    hide CountedNode;
    var line, more := classify(lines[n].bytes), if CountedNode(classify, lines, n) then 1 else 0;
    CountedIsNode(classify, lines, n);
    forall i: nat | i <= n
      ensures NodesBetween(classify, lines, i, n + 1) == NodesBetween(classify, lines, i, n) + more
    {
    }
    assert NodesBetween(classify, lines, n + 1, n + 1) == 0;
    if i: nat :| i < n && Numbered(classify(lines[i].bytes))
                 && r == classify(lines[i].bytes).number + NodesBetween(classify, lines, i + 1, n)
    {
      assert r + more == classify(lines[i].bytes).number + NodesBetween(classify, lines, i + 1, n + 1);
    }
  }

  lemma CountedIsNode(classify: seq<Byte> -> LineClass, lines: seq<RawLine>, n: nat)
    requires n < |lines|
    ensures CountedNode(classify, lines, n) ==> classify(lines[n].bytes).NodeResult?
  {
  }

  /** The list grows by the line just read, if it is listed. */
  lemma FailuresOn(classify: seq<Byte> -> LineClass, lines: seq<RawLine>, n: nat, limit: nat, s: Search, after: Search)
    requires n < |lines| && FailuresAre(classify, lines, n, limit, s)
    requires if Listed(classify, lines, n) then
               && after.observedFailureCount == s.observedFailureCount + 1
               && if |s.failures| < limit then
                    |after.failures| == |s.failures| + 1 && after.failures[..|s.failures|] == s.failures
                    && LocationIs(classify, lines, n, after.failures[|s.failures|])
                  else after.failures == s.failures
             else after.observedFailureCount == s.observedFailureCount && after.failures == s.failures
    ensures FailuresAre(classify, lines, n + 1, limit, after)
  {
    hide Listed, LocationIs;
    var places, more := ListedLines(classify, lines, n), ListedLines(classify, lines, n + 1);
    forall j | 0 <= j < |after.failures| ensures LocationIs(classify, lines, more[j], after.failures[j]) {
      if j < |s.failures| {
        assert more[j] == places[j] && after.failures[j] == after.failures[..|s.failures|][j];
      }
    }
  }

  lemma SearchedLists(classify: seq<Byte> -> LineClass, lines: seq<RawLine>, n: nat, limit: nat, s: Search)
    requires n < |lines| && ReachedIs(classify, lines, n, s.sequentialIndex)
    requires s.nodeSummaryStarted <==> TestsNamed(classify, lines, n)
    ensures var (line, listed) := (classify(lines[n].bytes), Listed(classify, lines, n));
            var after := Searched(s, line, n + 1, lines[n].byteOffset, limit);
            && after.observedFailureCount == s.observedFailureCount + (if listed then 1 else 0)
            && (if listed && |s.failures| < limit then
                  |after.failures| == |s.failures| + 1 && after.failures[..|s.failures|] == s.failures
                  && LocationIs(classify, lines, n, after.failures[|s.failures|])
                else after.failures == s.failures)
            && after.sequentialIndex == (if CountedNode(classify, lines, n) then s.sequentialIndex + 1
                                         else if Numbered(line) && line.number > s.sequentialIndex then line.number
                                         else s.sequentialIndex)
            && (after.nodeSummaryStarted <==> s.nodeSummaryStarted || SaysTests(line))
  {
    hide ReachedIs, BoundedName, TestsNamed;
  }

  lemma SearchOn(classify: seq<Byte> -> LineClass, lines: seq<RawLine>, n: nat, limit: nat, s: Search)
    requires n < |lines| && SearchIs(classify, lines, n, limit, s)
    ensures SearchIs(classify, lines, n + 1, limit,
                     Searched(s, classify(lines[n].bytes), n + 1, lines[n].byteOffset, limit))
  {
    hide ReachedIs, FailuresAre, Searched, Listed, CountedNode, LocationIs;
    var line := classify(lines[n].bytes);
    var after := Searched(s, line, n + 1, lines[n].byteOffset, limit);
    SearchedLists(classify, lines, n, limit, s);
    FailuresOn(classify, lines, n, limit, s, after);
    ReachedOn(classify, lines, n, s.sequentialIndex);
    assert TestsNamed(classify, lines, n + 1) <==> TestsNamed(classify, lines, n) || SaysTests(line);
  }

  /** The search lists, up to its limit, exactly the TAP failures and the node failures before the
      number of tests, in order, each with its place, its bounded name and its number. */
  lemma {:induction false} SearchMeans(classify: seq<Byte> -> LineClass, lines: seq<RawLine>, n: nat, limit: nat)
    requires n <= |lines|
    ensures SearchIs(classify, lines, n, limit, SearchedAll(classify, lines[..n], limit))
  {
    hide Searched, LocationIs, Listed;
    if n > 0 {
      SearchMeans(classify, lines, n - 1, limit);
      SearchOn(classify, lines, n - 1, limit, SearchedAll(classify, lines[..n - 1], limit));
      assert lines[..n][..n - 1] == lines[..n - 1];
    } else {
      assert lines[..0] == [];
    }
  }
}
