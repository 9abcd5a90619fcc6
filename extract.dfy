/**
 * Identifier extraction from a free-text query, shared by the compatibility and the
 * installation retrievers.
 *
 * Part numbers are what `re.findall(r'PS\d+', u)` reports: a left-to-right scan that takes,
 * at the leftmost position where "PS" and a digit start, the longest run of digits, and
 * resumes after it. The scan is not word-bounded, so "APS12" yields "PS12".
 *
 * Model numbers come from four patterns of the form `\b<shape>\b`. Every character a shape
 * admits is a word character, so such a pattern can only match a whole maximal run of word
 * characters; findall of it reports, in text order, the words that fully have the shape.
 */
module Extract {
  import opened Text
  import opened Seqs

  datatype Span = Span(start: nat, end: nat)

  // ---------------------------------------------------------------- part numbers

  /** "PS" followed by a digit starts at position `j` of `u`. */
  predicate PartStartAt(u: string, j: int) {
    0 <= j && j + 2 < |u| && u[j] == 'P' && u[j + 1] == 'S' && IsDigit(u[j + 2])
  }

  /** The end of the longest run of digits starting at `i`. */
  function DigitRunEnd(u: string, i: nat): (e: nat)
    requires i <= |u|
    ensures i <= e <= |u|
    ensures forall k :: i <= k < e ==> IsDigit(u[k])
    ensures e == |u| || !IsDigit(u[e])
    decreases |u| - i
  {
    if i < |u| && IsDigit(u[i]) then DigitRunEnd(u, i + 1) else i
  }

  /** The spans reported by `re.findall(r'PS\d+', u[i:])`, scanning from `i`. */
  function PartSpans(u: string, i: nat): (r: seq<Span>)
    requires i <= |u|
    ensures forall k :: 0 <= k < |r| ==> i <= r[k].start && r[k].start + 3 <= r[k].end <= |u|
    ensures forall k :: 0 <= k < |r| - 1 ==> r[k].end <= r[k + 1].start
    decreases |u| - i
  {
    if i == |u| then []
    else if PartStartAt(u, i) then
      var e := DigitRunEnd(u, i + 2);
      [Span(i, e)] + PartSpans(u, e)
    else PartSpans(u, i + 1)
  }

  /** A span findall may report: "PS", then digits up to the first non-digit or the end. */
  predicate GreedyPartSpan(u: string, sp: Span) {
    && PartStartAt(u, sp.start)
    && sp.start + 3 <= sp.end <= |u|
    && (forall k :: sp.start + 2 <= k < sp.end ==> IsDigit(u[k]))
    && (sp.end == |u| || !IsDigit(u[sp.end]))
  }

  /** Every span of the scan is greedy. */
  lemma {:induction false} PartSpansAreGreedy(u: string, i: nat)
    requires i <= |u|
    ensures forall k :: 0 <= k < |PartSpans(u, i)| ==> GreedyPartSpan(u, PartSpans(u, i)[k])
    decreases |u| - i
  {
    if i == |u| {
    } else if PartStartAt(u, i) {
      var e := DigitRunEnd(u, i + 2);
      PartSpansAreGreedy(u, e);
      var rest := PartSpans(u, e);
      assert PartSpans(u, i) == [Span(i, e)] + rest;
    } else {
      PartSpansAreGreedy(u, i + 1);
    }
  }

  predicate StartsSomeSpan(r: seq<Span>, j: int) {
    exists k :: 0 <= k < |r| && r[k].start == j
  }

  /** Leftmost and complete: from `i` on, a reported span starts at `j` exactly when "PS"
      and a digit start at `j`, so no occurrence is skipped and none is reported twice. */
  lemma {:induction false} PartSpansAreLeftmost(u: string, i: nat, j: int)
    requires i <= |u| && i <= j
    ensures PartStartAt(u, j) <==> StartsSomeSpan(PartSpans(u, i), j)
    decreases |u| - i
  {
    if i == |u| {
    } else if PartStartAt(u, i) {
      var e := DigitRunEnd(u, i + 2);
      var rest := PartSpans(u, e);
      assert PartSpans(u, i) == [Span(i, e)] + rest;
      if j == i {
        assert PartSpans(u, i)[0].start == j;
      } else if j < e {
        NoPartStartInsideSpan(u, i, e, j);
      } else {
        PartSpansAreLeftmost(u, e, j);
        StartsSomeSpanCons(Span(i, e), rest, j);
      }
    } else if j == i {
      var rest := PartSpans(u, i + 1);
      assert forall k :: 0 <= k < |rest| ==> rest[k].start > i;
    } else {
      PartSpansAreLeftmost(u, i + 1, j);
    }
  }

  lemma NoPartStartInsideSpan(u: string, i: nat, e: nat, j: int)
    requires i <= |u| && PartStartAt(u, i) && e == DigitRunEnd(u, i + 2) && i < j < e
    ensures !PartStartAt(u, j) && !StartsSomeSpan(PartSpans(u, i), j)
  {
    if j == i + 1 {
      assert u[j] == 'S';
    } else {
      assert IsDigit(u[j]);
    }
    var r := PartSpans(u, i);
    var rest := PartSpans(u, e);
    assert r == [Span(i, e)] + rest;
    forall k | 0 <= k < |r| ensures r[k].start != j {
      if k > 0 {
        assert r[k] == rest[k - 1];
      }
    }
  }

  lemma StartsSomeSpanCons(sp: Span, rest: seq<Span>, j: int)
    requires sp.start != j
    ensures StartsSomeSpan([sp] + rest, j) <==> StartsSomeSpan(rest, j)
  {
    var r := [sp] + rest;
    if StartsSomeSpan(rest, j) {
      var k :| 0 <= k < |rest| && rest[k].start == j;
      assert r[k + 1].start == j;
    }
    if StartsSomeSpan(r, j) {
      var k :| 0 <= k < |r| && r[k].start == j;
      assert k > 0 && rest[k - 1].start == j;
    }
  }

  /** `re.findall(r'PS\d+', u)` */
  function PartMatches(u: string): (r: seq<string>)
    ensures |r| == |PartSpans(u, 0)|
    ensures forall k :: 0 <= k < |r| ==> r[k] == u[PartSpans(u, 0)[k].start..PartSpans(u, 0)[k].end]
  {
    var sp := PartSpans(u, 0);
    seq(|sp|, k requires 0 <= k < |sp| => u[sp[k].start..sp[k].end])
  }

  /** "PS" followed by at least one digit and nothing else. */
  predicate IsPartNumber(t: string) {
    |t| >= 3 && t[0] == 'P' && t[1] == 'S' && AllDigits(t[2..])
  }

  lemma PartMatchesArePartNumbers(u: string)
    ensures forall t :: t in PartMatches(u) ==> IsPartNumber(t)
  {
    var found := PartMatches(u);
    var sp := PartSpans(u, 0);
    PartSpansAreGreedy(u, 0);
    forall k | 0 <= k < |found| ensures IsPartNumber(found[k]) {
      assert GreedyPartSpan(u, sp[k]);
      var t := found[k];
      assert t == u[sp[k].start..sp[k].end];
      assert forall m :: 2 <= m < |t| ==> t[m] == u[sp[k].start + m];
    }
  }

  /** The part numbers of a query: findall on the upper-cased query, repeats dropped. */
  function PartNumbersIn(query: string): (r: seq<string>)
    ensures Distinct(r)
    ensures forall t :: t in r <==> t in PartMatches(Upper(query))
    ensures forall t :: t in r ==> IsPartNumber(t)
  {
    PartMatchesArePartNumbers(Upper(query));
    Dedup(PartMatches(Upper(query)))
  }

  // ---------------------------------------------------------------- model numbers

  /** The four model-number patterns, in the order they are tried. */
  datatype ModelShape =
    | LettersDigitsLetters    // \b[A-Z]{2,4}\d{3,4}[A-Z]{2,4}\d{0,2}\b   e.g. WDT780SAEM1
    | EightDigitsLetterThree  // \b\d{8}[A-Z]\d{3}\b                       e.g. 66512762K314
    | FiveDigitsLetterThree   // \b\d{5}[A-Z]\d{3}\b                       e.g. 13263K112
    | FourDigitsLetterThree   // \b\d{4}[A-Z]\d{3}\b                       e.g. 2213N414

  const ModelShapes: seq<ModelShape> :=
    [LettersDigitsLetters, EightDigitsLetterThree, FiveDigitsLetterThree, FourDigitsLetterThree]

  /** The end of the longest run of upper-case letters starting at `i`. */
  function UpperRunEnd(w: string, i: nat): (e: nat)
    requires i <= |w|
    ensures i <= e <= |w|
    ensures forall k :: i <= k < e ==> IsUpper(w[k])
    ensures e == |w| || !IsUpper(w[e])
    decreases |w| - i
  {
    if i < |w| && IsUpper(w[i]) then UpperRunEnd(w, i + 1) else i
  }

  /** `[A-Z]{2,4}\d{3,4}[A-Z]{2,4}\d{0,2}` matches all of `w`, read run by run: letters and
      digits are disjoint, so each group must take a whole run. */
  predicate IsLettersDigitsLetters(w: string) {
    var a := UpperRunEnd(w, 0);
    var b := DigitRunEnd(w, a);
    var c := UpperRunEnd(w, b);
    var d := DigitRunEnd(w, c);
    2 <= a <= 4 && 3 <= b - a <= 4 && 2 <= c - b <= 4 && d - c <= 2 && d == |w|
  }

  predicate AllUpperIn(w: string, i: int, j: int)
    requires 0 <= i <= j <= |w|
  {
    forall k :: i <= k < j ==> IsUpper(w[k])
  }

  predicate AllDigitsIn(w: string, i: int, j: int)
    requires 0 <= i <= j <= |w|
  {
    forall k :: i <= k < j ==> IsDigit(w[k])
  }

  /** One way of cutting `w` into the four groups of the first pattern. */
  predicate ShapeOneCut(w: string, a: int, b: int, c: int) {
    && 2 <= a <= 4 && 3 <= b - a <= 4 && 2 <= c - b <= 4 && c <= |w| <= c + 2
    && AllUpperIn(w, 0, a) && AllDigitsIn(w, a, b) && AllUpperIn(w, b, c) && AllDigitsIn(w, c, |w|)
  }

  /** The first pattern as a regular expression reads: some cut into the four groups exists. */
  ghost predicate ShapeOneByCut(w: string) {
    exists a, b, c :: ShapeOneCut(w, a, b, c)
  }

  /** The run-by-run reading of the first pattern agrees with the regular expression, so the
      order in which the regex engine tries group lengths does not change what matches. */
  lemma ShapeOneRunsAgreeWithCut(w: string)
    ensures IsLettersDigitsLetters(w) <==> ShapeOneByCut(w)
  {
    var a := UpperRunEnd(w, 0);
    var b := DigitRunEnd(w, a);
    var c := UpperRunEnd(w, b);
    var d := DigitRunEnd(w, c);
    if IsLettersDigitsLetters(w) {
      assert ShapeOneCut(w, a, b, c);
    }
    if ShapeOneByCut(w) {
      var a', b', c' :| ShapeOneCut(w, a', b', c');
      assert a == a' by { UpperRunIsCut(w, 0, a'); }
      assert b == b' by { DigitRunIsCut(w, a', b'); }
      assert c == c' by { UpperRunIsCut(w, b', c'); }
      assert d == |w| by { DigitRunIsCut(w, c', |w|); }
    }
  }

  lemma {:induction false} UpperRunIsCut(w: string, i: nat, j: nat)
    requires i <= j <= |w| && AllUpperIn(w, i, j) && (j == |w| || !IsUpper(w[j]))
    ensures UpperRunEnd(w, i) == j
    decreases j - i
  {
    if i < j {
      UpperRunIsCut(w, i + 1, j);
    }
  }

  lemma {:induction false} DigitRunIsCut(w: string, i: nat, j: nat)
    requires i <= j <= |w| && AllDigitsIn(w, i, j) && (j == |w| || !IsDigit(w[j]))
    ensures DigitRunEnd(w, i) == j
    decreases j - i
  {
    if i < j {
      DigitRunIsCut(w, i + 1, j);
    }
  }

  /** `\d{n}[A-Z]\d{3}` matches all of `w`. */
  predicate IsDigitsLetterThree(w: string, n: nat) {
    |w| == n + 4 && AllDigitsIn(w, 0, n) && IsUpper(w[n]) && AllDigitsIn(w, n + 1, |w|)
  }

  predicate HasShape(shape: ModelShape, w: string) {
    match shape
    case LettersDigitsLetters => IsLettersDigitsLetters(w)
    case EightDigitsLetterThree => IsDigitsLetterThree(w, 8)
    case FiveDigitsLetterThree => IsDigitsLetterThree(w, 5)
    case FourDigitsLetterThree => IsDigitsLetterThree(w, 4)
  }

  /** No word has two shapes: the first starts with a letter, the others with a digit and
      have different lengths. */
  lemma ShapesAreExclusive(w: string, s: ModelShape, t: ModelShape)
    requires s != t && HasShape(s, w)
    ensures !HasShape(t, w)
  {
    if s.LettersDigitsLetters? || t.LettersDigitsLetters? {
      assert UpperRunEnd(w, 0) >= 2 ==> IsUpper(w[0]);
    }
  }

  /** `\b`-bounded whole word: a maximal run of word characters from `s` to `e`. */
  predicate IsWordSpan(u: string, s: int, e: int) {
    && 0 <= s < e <= |u|
    && (s == 0 || !IsWordChar(u[s - 1]))
    && (e == |u| || !IsWordChar(u[e]))
    && forall k :: s <= k < e ==> IsWordChar(u[k])
  }

  /** Position `i` is not strictly inside a word. */
  predicate NotInsideWord(u: string, i: int)
    requires 0 <= i <= |u|
  {
    i == 0 || i == |u| || !IsWordChar(u[i - 1]) || !IsWordChar(u[i])
  }

  function WordEnd(u: string, i: nat): (e: nat)
    requires i <= |u|
    ensures i <= e <= |u|
    ensures forall k :: i <= k < e ==> IsWordChar(u[k])
    ensures e == |u| || !IsWordChar(u[e])
    decreases |u| - i
  {
    if i < |u| && IsWordChar(u[i]) then WordEnd(u, i + 1) else i
  }

  /** `re.findall(r'\b<shape>\b', u[i:])`: the words from `i` on that have the shape. */
  function ShapeMatches(u: string, i: nat, shape: ModelShape): seq<string>
    requires i <= |u|
    decreases |u| - i
  {
    if i == |u| then []
    else if !IsWordChar(u[i]) then ShapeMatches(u, i + 1, shape)
    else
      var e := WordEnd(u, i);
      (if HasShape(shape, u[i..e]) then [u[i..e]] else []) + ShapeMatches(u, e, shape)
  }

  lemma WordSpanEndIsUnique(u: string, s: int, e: int, e': int)
    requires IsWordSpan(u, s, e) && IsWordSpan(u, s, e')
    ensures e == e'
  {
  }

  /** findall of a model pattern reports exactly the whole words of the text that have the
      shape (both directions). */
  lemma ShapeMatchesExact(u: string, shape: ModelShape)
    ensures forall w :: w in ShapeMatches(u, 0, shape) <==>
      HasShape(shape, w) && exists s, e :: IsWordSpan(u, s, e) && u[s..e] == w
  {
    forall w | w in ShapeMatches(u, 0, shape)
      ensures HasShape(shape, w) && exists s, e :: IsWordSpan(u, s, e) && u[s..e] == w
    {
      var s, e := ShapeMatchesAreWords(u, 0, shape, w);
    }
    forall w, s, e | HasShape(shape, w) && IsWordSpan(u, s, e) && u[s..e] == w
      ensures w in ShapeMatches(u, 0, shape)
    {
      ShapeMatchesHaveEveryWord(u, 0, shape, s, e);
    }
  }

  /** Every reported hit is a whole word, from `i` on, with the shape. */
  lemma {:induction false} ShapeMatchesAreWords(u: string, i: nat, shape: ModelShape, w: string)
    returns (s: int, e: int)
    requires i <= |u| && NotInsideWord(u, i) && w in ShapeMatches(u, i, shape)
    ensures HasShape(shape, w) && i <= s && IsWordSpan(u, s, e) && u[s..e] == w
    decreases |u| - i
  {
    if !IsWordChar(u[i]) {
      s, e := ShapeMatchesAreWords(u, i + 1, shape, w);
    } else {
      var end := WordEnd(u, i);
      var head := if HasShape(shape, u[i..end]) then [u[i..end]] else [];
      assert ShapeMatches(u, i, shape) == head + ShapeMatches(u, end, shape);
      if w in head {
        s, e := i, end;
      } else {
        s, e := ShapeMatchesAreWords(u, end, shape, w);
      }
    }
  }

  /** Every whole word from `i` on that has the shape is reported. */
  lemma {:induction false} ShapeMatchesHaveEveryWord(u: string, i: nat, shape: ModelShape, s: int, e: int)
    requires i <= |u| && NotInsideWord(u, i) && i <= s && IsWordSpan(u, s, e) && HasShape(shape, u[s..e])
    ensures u[s..e] in ShapeMatches(u, i, shape)
    decreases |u| - i
  {
    if !IsWordChar(u[i]) {
      ShapeMatchesHaveEveryWord(u, i + 1, shape, s, e);
    } else {
      var end := WordEnd(u, i);
      var head := if HasShape(shape, u[i..end]) then [u[i..end]] else [];
      assert ShapeMatches(u, i, shape) == head + ShapeMatches(u, end, shape);
      if s == i {
        WordSpanEndIsUnique(u, i, e, end);
      } else {
        assert s >= end;
        ShapeMatchesHaveEveryWord(u, end, shape, s, e);
      }
    }
  }

  /** All findall hits of the given patterns, pattern by pattern (the `extend` loop). */
  function MatchesOfShapes(u: string, shapes: seq<ModelShape>): seq<string>
  {
    if shapes == [] then []
    else MatchesOfShapes(u, shapes[..|shapes| - 1]) + ShapeMatches(u, 0, shapes[|shapes| - 1])
  }

  /** Every hit of `MatchesOfShapes` is a whole word with one of the given shapes. */
  lemma {:induction false} MatchesOfShapesHaveShapes(u: string, shapes: seq<ModelShape>, w: string)
    requires w in MatchesOfShapes(u, shapes)
    ensures exists k :: 0 <= k < |shapes| && w in ShapeMatches(u, 0, shapes[k])
    decreases |shapes|
  {
    var n := |shapes|;
    if w !in ShapeMatches(u, 0, shapes[n - 1]) {
      MatchesOfShapesHaveShapes(u, shapes[..n - 1], w);
      var k :| 0 <= k < n - 1 && w in ShapeMatches(u, 0, shapes[..n - 1][k]);
      assert shapes[..n - 1][k] == shapes[k];
    }
  }

  /** Every hit of each given pattern is among `MatchesOfShapes`. */
  lemma {:induction false} ShapesContributeMatches(u: string, shapes: seq<ModelShape>, k: nat, w: string)
    requires k < |shapes| && w in ShapeMatches(u, 0, shapes[k])
    ensures w in MatchesOfShapes(u, shapes)
    decreases |shapes|
  {
    var n := |shapes|;
    if k < n - 1 {
      assert shapes[..n - 1][k] == shapes[k];
      ShapesContributeMatches(u, shapes[..n - 1], k, w);
    }
  }

  /** `_extract_identifiers`' model numbers: the hits of the four patterns, pattern after
      pattern, each kept once at its first occurrence. */
  function ModelNumbersIn(query: string): (r: seq<string>)
    ensures Distinct(r)
    ensures |r| <= |MatchesOfShapes(Upper(query), ModelShapes)|
  {
    Dedup(MatchesOfShapes(Upper(query), ModelShapes))
  }

  /** A model number is extracted exactly when it is a whole word of the upper-cased query
      with one of the four shapes. */
  lemma ModelNumbersAreShapedWords(query: string, w: string)
    ensures w in ModelNumbersIn(query) <==>
      (exists shape :: HasShape(shape, w)) &&
      (exists s, e :: IsWordSpan(Upper(query), s, e) && Upper(query)[s..e] == w)
  {
    var u := Upper(query);
    if w in ModelNumbersIn(query) {
      MatchesOfShapesHaveShapes(u, ModelShapes, w);
      var k :| 0 <= k < 4 && w in ShapeMatches(u, 0, ModelShapes[k]);
      ShapeMatchesExact(u, ModelShapes[k]);
    }
    if (exists shape :: HasShape(shape, w)) && (exists s, e :: IsWordSpan(u, s, e) && u[s..e] == w) {
      var shape :| HasShape(shape, w);
      ShapeMatchesExact(u, shape);
      var k: nat := match shape
        case LettersDigitsLetters => 0
        case EightDigitsLetterThree => 1
        case FiveDigitsLetterThree => 2
        case FourDigitsLetterThree => 3;
      ShapesContributeMatches(u, ModelShapes, k, w);
    }
  }

  /** The position of the pattern a word matches in the order the patterns are tried. */
  function ShapeRank(w: string): nat {
    if HasShape(LettersDigitsLetters, w) then 0
    else if HasShape(EightDigitsLetterThree, w) then 1
    else if HasShape(FiveDigitsLetterThree, w) then 2
    else 3
  }

  lemma RankOfShape(w: string, k: nat)
    requires k < 4 && HasShape(ModelShapes[k], w)
    ensures ShapeRank(w) == k
  {
    forall t | t != ModelShapes[k] ensures !HasShape(t, w) {
      ShapesAreExclusive(w, ModelShapes[k], t);
    }
  }

  /** The hits of the first `n` patterns come pattern by pattern. */
  lemma {:induction false} MatchesOfShapesGrouped(u: string, n: nat)
    requires n <= 4
    ensures forall i :: 0 <= i < |MatchesOfShapes(u, ModelShapes[..n])| ==>
      ShapeRank(MatchesOfShapes(u, ModelShapes[..n])[i]) < n
    ensures forall i, j :: 0 <= i < j < |MatchesOfShapes(u, ModelShapes[..n])| ==>
      ShapeRank(MatchesOfShapes(u, ModelShapes[..n])[i]) <= ShapeRank(MatchesOfShapes(u, ModelShapes[..n])[j])
  {
    if n > 0 {
      MatchesOfShapesGrouped(u, n - 1);
      assert ModelShapes[..n][..n - 1] == ModelShapes[..n - 1];
      var prev := MatchesOfShapes(u, ModelShapes[..n - 1]);
      var group := ShapeMatches(u, 0, ModelShapes[n - 1]);
      assert MatchesOfShapes(u, ModelShapes[..n]) == prev + group;
      forall w | w in group ensures ShapeRank(w) == n - 1 {
        var s, e := ShapeMatchesAreWords(u, 0, ModelShapes[n - 1], w);
        RankOfShape(w, n - 1);
      }
      assert forall j :: 0 <= j < |group| ==> group[j] in group;
    }
  }

  /** Model numbers are reported pattern by pattern: all hits of an earlier pattern come
      before those of a later one, whatever their places in the query. */
  lemma ModelNumbersGroupedByShape(query: string)
    ensures forall i, j :: 0 <= i < j < |ModelNumbersIn(query)| ==>
      ShapeRank(ModelNumbersIn(query)[i]) <= ShapeRank(ModelNumbersIn(query)[j])
  {
    var m := MatchesOfShapes(Upper(query), ModelShapes);
    var r := ModelNumbersIn(query);
    MatchesOfShapesGrouped(Upper(query), 4);
    assert ModelShapes[..4] == ModelShapes;
    DedupKeepsFirstSeenOrder(m);
    forall i, j | 0 <= i < j < |r| ensures ShapeRank(r[i]) <= ShapeRank(r[j]) {
      var a := IndexOf(m, r[i]);
      var b := IndexOf(m, r[j]);
      assert m[a] == r[i] && m[b] == r[j];
    }
  }
}
