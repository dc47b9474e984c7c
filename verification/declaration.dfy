/** Recognising a class declaration on one line: a hand-written matcher for the single pattern
    `(^class|\sclass)\s+\w+(\s|\()+` searched with `Regex.find`, and the name the extractor
    cuts out of the matched text. */
module Declaration {
  import opened Outcomes
  import opened Text

  /** The character classes the pattern uses: `\s`, `\w` and `(\s|\()`. */
  datatype CharClass = Space | Word | SpaceOrParen

  predicate InClass(c: char, cls: CharClass) {
    match cls
    case Space => IsSpace(c)
    case Word => IsWordChar(c)
    case SpaceOrParen => IsSpace(c) || c == '('
  }

  /** Every character of `line[a..b]` is in `cls`. */
  predicate AllIn(line: string, a: nat, b: nat, cls: CharClass)
    requires a <= b <= |line|
  {
    forall k :: a <= k < b ==> InClass(line[k], cls)
  }

  /** The alternation `(^class|\sclass)` matches at `s`: either `class` opens the line, or a
      whitespace character at `s` is followed by `class`. */
  predicate KeywordAt(line: string, s: nat) {
    (s == 0 && OccursAt(line, "class", 0)) || (s < |line| && IsSpace(line[s]) && OccursAt(line, "class", s + 1))
  }

  /** The index just past `class` for a match of the alternation at `s`. */
  function KeywordEnd(line: string, s: nat): (t: nat)
    requires KeywordAt(line, s)
    ensures 5 <= t <= |line| && s + 5 <= t
  {
    if s == 0 && OccursAt(line, "class", 0) then 5 else s + 6
  }

  /** The whole pattern matches at `s`: after `class` come one or more whitespace characters,
      one or more word characters, and then a whitespace character or `(`. */
  ghost predicate PatternAt(line: string, s: nat) {
    && KeywordAt(line, s)
    && var t := KeywordEnd(line, s);
       exists i, j :: t < i < j < |line| && AllIn(line, t, i, Space) && AllIn(line, i, j, Word) && InClass(line[j], SpaceOrParen)
  }

  /** The pattern matches somewhere in the line. */
  ghost predicate Matches(line: string) {
    exists s: nat :: PatternAt(line, s)
  }

  /** The greedy match found at `start`: `class` ends at `keywordEnd`, the `\w+` token is
      `line[nameStart..nameEnd]`, and the trailing `(\s|\()+` run ends at `end`. */
  datatype Match = Match(start: nat, keywordEnd: nat, nameStart: nat, nameEnd: nat, end: nat)

  /** `m` is the text the regex engine reports for a match starting at `m.start`: every
      quantifier took as many characters as it could. */
  ghost predicate Greedy(line: string, m: Match) {
    && KeywordAt(line, m.start)
    && m.keywordEnd == KeywordEnd(line, m.start) && m.start + 5 <= m.keywordEnd
    && m.keywordEnd < m.nameStart < m.nameEnd < m.end <= |line|
    && AllIn(line, m.keywordEnd, m.nameStart, Space)
    && AllIn(line, m.nameStart, m.nameEnd, Word)
    && AllIn(line, m.nameEnd, m.end, SpaceOrParen)
    && (m.end < |line| ==> !InClass(line[m.end], SpaceOrParen))
  }

  /** The first index at or after `from` whose character is not in `cls`, or the line's length:
      how far a greedy `cls+` or `cls*` reaches. */
  function SpanEnd(line: string, from: nat, cls: CharClass): (r: nat)
    requires from <= |line|
    ensures from <= r <= |line|
    ensures AllIn(line, from, r, cls)
    ensures r < |line| ==> !InClass(line[r], cls)
    decreases |line| - from
  {
    if from == |line| || !InClass(line[from], cls) then from else SpanEnd(line, from + 1, cls)
  }

  /** Any split the declarative pattern admits is the greedy one: whitespace and word
      characters are disjoint, so each run has only one possible end. */
  lemma {:induction false} SplitIsUnique(line: string, t: nat, i: nat, j: nat)
    requires t < i < j < |line| && AllIn(line, t, i, Space) && AllIn(line, i, j, Word) && InClass(line[j], SpaceOrParen)
    ensures SpanEnd(line, t, Space) == i
    ensures SpanEnd(line, i, Word) == j
  {
    assert InClass(line[i], Word) && !InClass(line[i], Space);
    assert !InClass(line[j], Word);
  }

  /** Tries the pattern at one start index. */
  function MatchAt(line: string, s: nat): (r: Option<Match>)
    ensures r.Some? <==> PatternAt(line, s)
    ensures r.Some? ==> r.value.start == s && Greedy(line, r.value)
  {
    if !KeywordAt(line, s) then None
    else
      var t := KeywordEnd(line, s);
      var i := SpanEnd(line, t, Space);
      var j := SpanEnd(line, i, Word);
      if t < i < j < |line| && InClass(line[j], SpaceOrParen) then
        Some(Match(s, t, i, j, SpanEnd(line, j, SpaceOrParen)))
      else
        assert !PatternAt(line, s) by {
          forall i', j' | t < i' < j' < |line| && AllIn(line, t, i', Space) && AllIn(line, i', j', Word)
            ensures !InClass(line[j'], SpaceOrParen)
          {
            assert InClass(line[j'], SpaceOrParen) ==> i' == i && j' == j by {
              if InClass(line[j'], SpaceOrParen) { SplitIsUnique(line, t, i', j'); }
            }
          }
        }
        None
  }

  /** `Regex.find` from index `from`: the leftmost match at or after `from`. */
  function FindFrom(line: string, from: nat): (r: Option<Match>)
    ensures r.None? ==> forall k: nat :: from <= k ==> !PatternAt(line, k)
    ensures r.Some? ==> from <= r.value.start && Greedy(line, r.value) && PatternAt(line, r.value.start)
    ensures r.Some? ==> forall k: nat :: from <= k < r.value.start ==> !PatternAt(line, k)
    decreases |line| - from
  {
    if |line| <= from then None
    else
      match MatchAt(line, from)
      case Some(m) => Some(m)
      case None => FindFrom(line, from + 1)
  }

  /** `COMMON_CLASS_REGEX.find(line)`. */
  function Find(line: string): (r: Option<Match>)
    ensures r.Some? <==> Matches(line)
    ensures r.Some? ==> Greedy(line, r.value) && PatternAt(line, r.value.start)
    ensures r.Some? ==> forall k: nat :: k < r.value.start ==> !PatternAt(line, k)
  {
    FindFrom(line, 0)
  }

  /** Within the matched text, the first `class` is the keyword itself. */
  lemma {:induction false} KeywordOffset(line: string, m: Match)
    requires Greedy(line, m)
    ensures IndexOf(line[m.start..m.end], "class") == m.keywordEnd - 5 - m.start
  {
    var value := line[m.start..m.end];
    if m.start == 0 && OccursAt(line, "class", 0) {
      OccursInSlice(line, m.start, m.end, "class", 0);
      IndexOfIs(value, "class", 0);
    } else {
      OccursInSlice(line, m.start, m.end, "class", 1);
      assert value[0] == line[m.start] && IsSpace(value[0]);
      NotAt(value, "class", 0, 0);
      IndexOfIs(value, "class", 1);
    }
  }

  /** `value.drop(value.indexOf("class") + "class".length).trim().removeSuffix("(")` on the
      matched text `value`. */
  function NameOf(line: string, m: Match): string
    requires Greedy(line, m)
  {
    var value := line[m.start..m.end];
    KeywordOffset(line, m);
    RemoveSuffix(Trim(value[IndexOf(value, "class") + 5..]), "(")
  }

  /** The class name cut out of a declaration line; no name when the pattern does not match. */
  function DeclaredName(line: string): (r: Option<string>)
    ensures r.Some? <==> Matches(line)
    ensures r.Some? ==> r.value == NameOf(line, Find(line).value)
  {
    match Find(line)
    case None => None
    case Some(m) => Some(NameOf(line, m))
  }

  /** Trimming the start of the text after `class` removes exactly the `\s+` run. */
  lemma {:induction false} TrimStartOfMatch(line: string, m: Match)
    requires Greedy(line, m)
    ensures TrimStart(line[m.keywordEnd..m.end]) == line[m.nameStart..m.end]
  {
    var rest := line[m.keywordEnd..m.end];
    var gap := m.nameStart - m.keywordEnd;
    forall k | 0 <= k < gap ensures IsWhitespace(rest[k]) {
      assert rest[k] == line[m.keywordEnd + k] && InClass(line[m.keywordEnd + k], Space);
    }
    assert rest[gap] == line[m.nameStart] && InClass(line[m.nameStart], Word);
    TrimStartAt(rest, gap);
    DropOfSlice(line, m.keywordEnd, m.end, m.nameStart);
  }

  /** Trimming the end of the text from the token on stops at the token or at a `(`. */
  lemma {:induction false} TrimEndOfMatch(line: string, m: Match) returns (e: nat)
    requires Greedy(line, m)
    ensures m.nameEnd <= e <= m.end
    ensures TrimEnd(line[m.nameStart..m.end]) == line[m.nameStart..e]
    ensures e == m.nameEnd || line[e - 1] == '('
    ensures forall k :: e <= k < m.end ==> IsSpace(line[k])
  {
    var ts := line[m.nameStart..m.end];
    var te := TrimEnd(ts);
    e := m.nameStart + |te|;
    assert te == line[m.nameStart..e];
    assert !IsWhitespace(ts[m.nameEnd - 1 - m.nameStart]) by {
      assert ts[m.nameEnd - 1 - m.nameStart] == line[m.nameEnd - 1] && InClass(line[m.nameEnd - 1], Word);
    }
    assert e >= m.nameEnd;
    forall k | e <= k < m.end ensures IsSpace(line[k]) {
      assert ts[k - m.nameStart] == line[k] && InClass(line[k], SpaceOrParen);
    }
    assert te[|te| - 1] == line[e - 1];
    assert e > m.nameEnd ==> InClass(line[e - 1], SpaceOrParen);
  }

  /** Trimming the text after `class` leaves everything from the token up to the last
      character that is not whitespace. */
  lemma {:induction false} TrimmedMatch(line: string, m: Match) returns (e: nat)
    requires Greedy(line, m)
    ensures m.nameEnd <= e <= m.end
    ensures Trim(line[m.keywordEnd..m.end]) == line[m.nameStart..e]
    ensures e == m.nameEnd || line[e - 1] == '('
    ensures forall k :: e <= k < m.end ==> IsSpace(line[k])
  {
    TrimStartOfMatch(line, m);
    e := TrimEndOfMatch(line, m);
  }

  /** The text `drop` leaves is the part of the match after the keyword. */
  lemma {:induction false} DroppedText(line: string, m: Match)
    requires Greedy(line, m)
    ensures NameOf(line, m) == RemoveSuffix(Trim(line[m.keywordEnd..m.end]), "(")
  {
    KeywordOffset(line, m);
    DropOfSlice(line, m.start, m.end, m.keywordEnd);
  }

  /** Removing one `(` from `line[a..b]`: it goes exactly when the last character is `(`. */
  lemma {:induction false} RemoveParen(line: string, a: nat, b: nat)
    requires a < b <= |line|
    ensures line[b - 1] == '(' ==> RemoveSuffix(line[a..b], "(") == line[a..b - 1]
    ensures line[b - 1] != '(' ==> RemoveSuffix(line[a..b], "(") == line[a..b]
  {
    var t := line[a..b];
    assert t[|t| - 1..][0] == t[|t| - 1] == line[b - 1];
    assert t[..|t| - 1] == line[a..b - 1];
  }

  /** The name is the `\w+` token extended into the trailing run: it stops before the run's
      trailing whitespace and drops one final `(`. */
  lemma {:induction false} NameShape(line: string, m: Match) returns (e: nat)
    requires Greedy(line, m)
    ensures m.nameEnd <= e <= m.end
    ensures NameOf(line, m) == line[m.nameStart..e]
    ensures e == m.nameEnd || (m.nameEnd < e < m.end && line[e] == '(')
    ensures forall k :: e < k < m.end ==> IsSpace(line[k])
  {
    DroppedText(line, m);
    var e' := TrimmedMatch(line, m);
    assert InClass(line[m.nameEnd - 1], Word);
    e := ParenCut(line, m.nameStart, m.nameEnd, e', m.end);
  }

  /** Dropping one final `(` from `line[a..e']`, where `e'` ends the token at `n` or follows a
      `(`, and only whitespace runs from `e'` to `end`. */
  lemma {:induction false} ParenCut(line: string, a: nat, n: nat, e': nat, end: nat) returns (e: nat)
    requires a < n <= e' <= end <= |line| && n < end && line[n - 1] != '('
    requires e' == n || line[e' - 1] == '('
    requires forall k :: e' <= k < end ==> IsSpace(line[k])
    ensures n <= e <= end
    ensures RemoveSuffix(line[a..e'], "(") == line[a..e]
    ensures e == n || (n < e < end && line[e] == '(')
    ensures forall k :: e < k < end ==> IsSpace(line[k])
  {
    RemoveParen(line, a, e');
    e := if line[e' - 1] == '(' then e' - 1 else e';
  }

  /** The name always starts with the `\w+` token of the match, and is exactly that token
      unless a `(` appears in the trailing run after its first character. */
  lemma {:induction false} NameIsToken(line: string, m: Match)
    requires Greedy(line, m)
    ensures line[m.nameStart..m.nameEnd] <= NameOf(line, m)
    ensures NameOf(line, m) == line[m.nameStart..m.nameEnd] <==> forall k :: m.nameEnd < k < m.end ==> line[k] != '('
  {
    var e := NameShape(line, m);
    var token := line[m.nameStart..m.nameEnd];
    SlicePrefix(line, m.nameStart, m.nameEnd, e);
    if e == m.nameEnd {
      forall k | m.nameEnd < k < m.end ensures line[k] != '(' {
        assert IsSpace(line[k]);
      }
    } else {
      assert line[e] == '(' && |line[m.nameStart..e]| != |token|;
    }
  }

  /** Two greedy matches from the same start are the same match. */
  lemma {:induction false} GreedyIsUnique(line: string, m: Match, m': Match)
    requires Greedy(line, m) && Greedy(line, m') && m.start == m'.start
    ensures m == m'
  {
    SplitIsUnique(line, m.keywordEnd, m.nameStart, m.nameEnd);
    SplitIsUnique(line, m'.keywordEnd, m'.nameStart, m'.nameEnd);
    SpanIsUnique(line, m.nameEnd, m.end, SpaceOrParen);
    SpanIsUnique(line, m'.nameEnd, m'.end, SpaceOrParen);
  }

  /** A run of `cls` characters that cannot be extended is the greedy one. */
  lemma {:induction false} SpanIsUnique(line: string, from: nat, r: nat, cls: CharClass)
    requires from <= r <= |line| && AllIn(line, from, r, cls) && (r < |line| ==> !InClass(line[r], cls))
    ensures SpanEnd(line, from, cls) == r
  {
  }

  /** A greedy match at the start of the line is what `find` reports. */
  lemma {:induction false} MatchAtStart(line: string, m: Match)
    requires m.start == 0 && Greedy(line, m)
    ensures Find(line) == Some(m)
    ensures DeclaredName(line) == Some(NameOf(line, m))
  {
    assert PatternAt(line, 0);
    var r := MatchAt(line, 0);
    GreedyIsUnique(line, r.value, m);
  }

  /** A line that opens with `class`, whitespace, a word, and a run of whitespace or `(` that
      the rest of the line does not continue, declares a class there. */
  lemma {:induction false} DeclarationAtStart(line: string, gap: string, token: string, run: string, tail: string) returns (m: Match)
    requires line == "class" + gap + token + run + tail
    requires |gap| > 0 && forall k :: 0 <= k < |gap| ==> InClass(gap[k], Space)
    requires |token| > 0 && forall k :: 0 <= k < |token| ==> InClass(token[k], Word)
    requires |run| > 0 && forall k :: 0 <= k < |run| ==> InClass(run[k], SpaceOrParen)
    requires |tail| > 0 ==> !InClass(tail[0], SpaceOrParen)
    ensures m == Match(0, 5, 5 + |gap|, 5 + |gap| + |token|, 5 + |gap| + |token| + |run|)
    ensures Greedy(line, m) && DeclaredName(line) == Some(NameOf(line, m))
    ensures line[m.nameStart..m.nameEnd] == token && line[m.nameEnd..m.end] == run
  {
    m := Match(0, 5, 5 + |gap|, 5 + |gap| + |token|, 5 + |gap| + |token| + |run|);
    assert line[..5] == "class";
    assert forall k :: 5 <= k < m.nameStart ==> line[k] == gap[k - 5];
    assert forall k :: m.nameStart <= k < m.nameEnd ==> line[k] == token[k - m.nameStart];
    assert forall k :: m.nameEnd <= k < m.end ==> line[k] == run[k - m.nameEnd];
    assert m.end < |line| ==> line[m.end] == tail[0];
    assert line[m.nameStart..m.nameEnd] == token;
    assert line[m.nameEnd..m.end] == run;
    MatchAtStart(line, m);
  }

  /** A line holding only `class Foo` is not a declaration: the pattern needs a whitespace
      character or `(` after the name. */
  lemma {:induction false} BareClassIsNotDeclaration()
    ensures DeclaredName("class Foo") == None
  {
    var line := "class Foo";
    assert SpanEnd(line, 5, Space) == 6;
    assert SpanEnd(line, 6, Word) == 9;
    assert MatchAt(line, 0) == None;
    forall s: nat ensures !PatternAt(line, s) {
      assert s > 0 ==> !KeywordAt(line, s);
    }
  }

  /** The name stops at the `(` of a Kotlin primary constructor, whatever the line goes on with. */
  lemma {:induction false} KotlinConstructorName(rest: string)
    requires |rest| > 0 ==> !InClass(rest[0], SpaceOrParen)
    ensures DeclaredName("class Circle(" + rest) == Some("Circle")
  {
    var line := "class Circle(" + rest;
    assert line == "class" + " " + "Circle" + "(" + rest;
    var m := DeclarationAtStart(line, " ", "Circle", "(", rest);
    NameIsToken(line, m);
  }
  /** A line in which `class` does not occur declares nothing. */
  lemma {:induction false} NoKeywordNoDeclaration(line: string)
    requires !Contains(line, "class")
    ensures DeclaredName(line) == None
  {
    forall s: nat ensures !KeywordAt(line, s) {
      assert !OccursAt(line, "class", 0) && !OccursAt(line, "class", s + 1);
    }
  }

  /** The name is cut out of the line: each of its characters is one of the line's. */
  lemma {:induction false} NameFromLine(line: string)
    requires DeclaredName(line).Some?
    ensures forall c :: c in DeclaredName(line).value ==> c in line
  {
    var m := Find(line).value;
    var e := NameShape(line, m);
    SliceChars(line, m.nameStart, e, DeclaredName(line).value);
  }
}
