/** The string primitives the extractor relies on, with the JVM's semantics: character classes of
    `java.util.regex`, `indexOf`, `substring`, `trim`, `removeSuffix`, `lowercase` and `split('\n')`. */
module Text {
  import opened Outcomes

  /** No element occurs twice. */
  predicate Distinct<T(==)>(s: seq<T>) {
    forall i, j :: 0 <= i < j < |s| ==> s[i] != s[j]
  }

  /** The regex class `\s`: space, tab, newline, vertical tab, form feed, carriage return. */
  predicate IsSpace(c: char) {
    c == ' ' || c == '\t' || c == '\n' || c == '\U{B}' || c == '\U{C}' || c == '\r'
  }

  /** The regex class `\w`: ASCII letters, digits and underscore. */
  predicate IsWordChar(c: char) {
    ('a' <= c <= 'z') || ('A' <= c <= 'Z') || ('0' <= c <= '9') || c == '_'
  }

  /** Kotlin's `Char.isWhitespace()`: the `\s` characters, the separators U+001C to U+001F
      and every Unicode space, line or paragraph separator. */
  predicate IsWhitespace(c: char) {
    || IsSpace(c)
    || ('\U{1C}' <= c <= '\U{1F}')
    || c == '\U{A0}' || c == '\U{1680}' || ('\U{2000}' <= c <= '\U{200A}')
    || c == '\U{2028}' || c == '\U{2029}' || c == '\U{202F}' || c == '\U{205F}' || c == '\U{3000}'
  }

  /** `sub` occurs in `s` starting at index `i`. */
  predicate OccursAt(s: string, sub: string, i: nat) {
    i + |sub| <= |s| && s[i..i + |sub|] == sub
  }

  /** `s.contains(sub)`. */
  ghost predicate Contains(s: string, sub: string) {
    exists i: nat :: OccursAt(s, sub, i)
  }

  /** `s.indexOf(sub)`: the first index at which `sub` occurs, or -1. */
  function IndexOf(s: string, sub: string): (r: int)
    ensures -1 <= r
    ensures r == -1 <==> !Contains(s, sub)
    ensures r >= 0 ==> OccursAt(s, sub, r) && forall i: nat :: i < r ==> !OccursAt(s, sub, i)
  {
    SearchFrom(s, sub, 0)
  }

  /** The search behind `IndexOf`, knowing that no occurrence starts before `from`. */
  function SearchFrom(s: string, sub: string, from: nat): (r: int)
    requires forall i: nat :: i < from ==> !OccursAt(s, sub, i)
    ensures -1 <= r
    ensures r == -1 <==> !Contains(s, sub)
    ensures r >= 0 ==> OccursAt(s, sub, r) && forall i: nat :: i < r ==> !OccursAt(s, sub, i)
    decreases |s| - from
  {
    if |s| < from + |sub| then -1
    else if OccursAt(s, sub, from) then from
    else SearchFrom(s, sub, from + 1)
  }

  /** `IndexOf` is `i` when `sub` occurs at `i` and nowhere earlier. */
  lemma {:induction false} IndexOfIs(s: string, sub: string, i: nat)
    requires OccursAt(s, sub, i) && forall j: nat :: j < i ==> !OccursAt(s, sub, j)
    ensures IndexOf(s, sub) == i
  {
  }

  /** A string lacking one character of `sub` does not contain `sub`. */
  lemma {:induction false} MissingChar(s: string, sub: string, k: nat)
    requires k < |sub| && sub[k] !in s
    ensures !Contains(s, sub)
  {
    forall j: nat ensures !OccursAt(s, sub, j) {
      if j + |sub| <= |s| {
        assert s[j..j + |sub|][k] == s[j + k];
      }
    }
  }

  /** `sub` does not occur at `j` when the line differs from it at offset `k`. */
  lemma {:induction false} NotAt(line: string, sub: string, j: nat, k: nat)
    requires k < |sub| && (j + k < |line| ==> line[j + k] != sub[k])
    ensures !OccursAt(line, sub, j)
  {
    if j + |sub| <= |line| {
      assert line[j..j + |sub|][k] == line[j + k];
    }
  }

  /** An occurrence inside `s[a..b]` is an occurrence in the slice, shifted by `a`. */
  lemma {:induction false} OccursInSlice(s: string, a: nat, b: nat, sub: string, p: nat)
    requires a + p + |sub| <= b <= |s| && OccursAt(s, sub, a + p)
    ensures OccursAt(s[a..b], sub, p)
  {
    var v := s[a..b];
    forall k | 0 <= k < |sub| ensures v[p..p + |sub|][k] == sub[k] {
      assert v[p..p + |sub|][k] == s[a + p + k] == s[a + p..a + p + |sub|][k];
    }
  }

  /** A slice holds only characters of the string it is cut from. */
  lemma {:induction false} SliceChars(s: string, a: nat, b: nat, piece: string)
    requires a <= b <= |s| && piece == s[a..b]
    ensures forall c :: c in piece ==> c in s
  {
    forall c | c in piece ensures c in s {
      var k :| 0 <= k < |piece| && piece[k] == c;
      assert s[a + k] == c;
    }
  }

  /** A shorter slice from the same start is a prefix of a longer one. */
  lemma {:induction false} SlicePrefix(s: string, a: nat, b: nat, c: nat)
    requires a <= b <= c <= |s|
    ensures s[a..b] <= s[a..c]
  {
    assert s[a..c][..b - a] == s[a..b] by {
      forall k | 0 <= k < b - a ensures s[a..c][..b - a][k] == s[a..b][k] {
        assert s[a..c][k] == s[a + k];
      }
    }
  }

  /** Dropping the first `c - a` characters of `s[a..b]` leaves `s[c..b]`. */
  lemma {:induction false} DropOfSlice(s: string, a: nat, b: nat, c: nat)
    requires a <= c <= b <= |s|
    ensures s[a..b][c - a..] == s[c..b]
  {
    forall k | 0 <= k < b - c ensures s[a..b][c - a..][k] == s[c..b][k] {
      assert s[a..b][c - a + k] == s[c + k];
    }
  }

  /** `sub` is first found right after `head` when its first character is not in `head`. */
  lemma {:induction false} IndexOfAfter(head: string, sub: string, rest: string)
    requires |sub| > 0 && sub[0] !in head
    ensures IndexOf(head + sub + rest, sub) == |head|
  {
    var line := head + sub + rest;
    assert line[|head|..|head| + |sub|] == sub;
    forall j: nat | j < |head| ensures !OccursAt(line, sub, j) {
      assert line[j] == head[j];
      NotAt(line, sub, j, 0);
    }
    IndexOfIs(line, sub, |head|);
  }

  /** `s.indexOf(c, from)`: the first index at or after `from` holding `c`, or -1
      (also when `from` is past the end, as the JVM does). */
  function IndexOfChar(s: string, c: char, from: nat): (r: int)
    ensures r >= -1
    ensures r == -1 <==> forall i :: from <= i < |s| ==> s[i] != c
    ensures r >= 0 ==> from <= r < |s| && s[r] == c && forall i :: from <= i < r ==> s[i] != c
    decreases |s| - from
  {
    if |s| <= from then -1
    else if s[from] == c then from
    else IndexOfChar(s, c, from + 1)
  }

  /** `s.substring(begin, end)`, which throws unless `0 <= begin <= end <= |s|`. */
  function Substring(s: string, begin: int, end: int): (r: Result<string>)
    ensures r.Ok? <==> 0 <= begin <= end <= |s|
    ensures r.Ok? ==> |r.value| == end - begin && forall i :: 0 <= i < |r.value| ==> r.value[i] == s[begin + i]
    ensures r.Err? ==> r.error == StringIndexOutOfBounds(begin, end, |s|)
  {
    if 0 <= begin <= end <= |s| then Ok(s[begin..end]) else Err(StringIndexOutOfBounds(begin, end, |s|))
  }

  /** Leading Kotlin whitespace removed. */
  function TrimStart(s: string): (r: string)
    ensures |r| <= |s| && r == s[|s| - |r|..]
    ensures forall i :: 0 <= i < |s| - |r| ==> IsWhitespace(s[i])
    ensures |r| > 0 ==> !IsWhitespace(r[0])
  {
    if |s| > 0 && IsWhitespace(s[0]) then TrimStart(s[1..]) else s
  }

  /** Trimming the start removes exactly the whitespace before the first other character. */
  lemma {:induction false} TrimStartAt(s: string, g: nat)
    requires g < |s| && !IsWhitespace(s[g])
    requires forall k :: 0 <= k < g ==> IsWhitespace(s[k])
    ensures TrimStart(s) == s[g..]
  {
    var r := TrimStart(s);
    assert |s| - |r| <= g;
  }

  /** Trailing Kotlin whitespace removed. */
  function TrimEnd(s: string): (r: string)
    ensures |r| <= |s| && r == s[..|r|]
    ensures forall i :: |r| <= i < |s| ==> IsWhitespace(s[i])
    ensures |r| > 0 ==> !IsWhitespace(r[|r| - 1])
  {
    if |s| > 0 && IsWhitespace(s[|s| - 1]) then TrimEnd(s[..|s| - 1]) else s
  }

  /** `s.trim()`. */
  function Trim(s: string): string {
    TrimEnd(TrimStart(s))
  }

  /** `s.removeSuffix(suffix)`: one copy of `suffix` dropped from the end if it is there. */
  function RemoveSuffix(s: string, suffix: string): (r: string)
    ensures r == s || (r + suffix == s)
    ensures |suffix| <= |s| && s[|s| - |suffix|..] == suffix ==> r + suffix == s
  {
    if |suffix| <= |s| && s[|s| - |suffix|..] == suffix then s[..|s| - |suffix|] else s
  }

  /** The lower-case form of `c` as far as it can matter when the result is compared with
      ASCII words: the ASCII capitals, and the Kelvin sign U+212A, whose lower case is `k`. */
  function LowerChar(c: char): char {
    if 'A' <= c <= 'Z' then (c as int + 32) as char
    else if c == '\U{212A}' then 'k'
    else c
  }

  /** `s.lowercase()`, character by character, as far as comparisons with ASCII words see it. */
  function AsciiLower(s: string): (r: string)
    ensures |r| == |s|
    ensures forall i :: 0 <= i < |s| ==> r[i] == LowerChar(s[i])
  {
    seq(|s|, i requires 0 <= i < |s| => LowerChar(s[i]))
  }

  /** The characters of the lower-case words `lowercase()` results are compared with. */
  predicate LowerWordChar(d: char) {
    'a' <= d <= 'z' || d == '+'
  }

  /** `c` is a spelling of `d` in some letter case: `d` itself, its ASCII capital, or, for `k`,
      the Kelvin sign. */
  predicate CaseOf(c: char, d: char) {
    c == d || ('a' <= d <= 'z' && c as int == d as int - 32) || (d == 'k' && c == '\U{212A}')
  }

  /** A character lower-cases to a lower-case word character exactly when it spells it. */
  lemma {:induction false} LowerCharIs(c: char, d: char)
    requires LowerWordChar(d)
    ensures LowerChar(c) == d <==> CaseOf(c, d)
  {
    if 'A' <= c <= 'Z' {
      assert LowerChar(c) as int == c as int + 32;
    }
  }

  /** `s.lowercase() == w`, for a word `w` of lower-case letters and `+`, holds exactly when `s`
      spells `w` letter by letter in any case. This is all the language selection looks at. */
  lemma {:induction false} LowerSpells(s: string, w: string)
    requires forall i :: 0 <= i < |w| ==> LowerWordChar(w[i])
    ensures AsciiLower(s) == w <==> |s| == |w| && forall i :: 0 <= i < |s| ==> CaseOf(s[i], w[i])
  {
    var l := AsciiLower(s);
    if l == w {
      forall i | 0 <= i < |s| ensures CaseOf(s[i], w[i]) {
        LowerCharIs(s[i], w[i]);
      }
    }
    if |s| == |w| && forall i :: 0 <= i < |s| ==> CaseOf(s[i], w[i]) {
      forall i | 0 <= i < |s| ensures l[i] == w[i] {
        LowerCharIs(s[i], w[i]);
      }
      assert l == w;
    }
  }

  /** `ls.joinToString("\n")`. */
  function JoinLines(ls: seq<string>): string
    requires |ls| >= 1
  {
    if |ls| == 1 then ls[0] else ls[0] + "\n" + JoinLines(ls[1..])
  }

  /** No line contains a newline. */
  predicate NoNewlines(ls: seq<string>) {
    forall i :: 0 <= i < |ls| ==> '\n' !in ls[i]
  }

  /** `text.split('\n')`: the pieces between newlines, empty ones included. */
  function SplitLines(text: string): (r: seq<string>)
    ensures |r| >= 1 && NoNewlines(r)
    ensures JoinLines(r) == text
    decreases |text|
  {
    if |text| == 0 then [""]
    else
      var rest := SplitLines(text[1..]);
      if text[0] == '\n' then
        [""] + rest
      else
        JoinConsChar(text[0], rest);
        [[text[0]] + rest[0]] + rest[1..]
  }

  /** Putting a character in front of the first line puts it in front of the joined text. */
  lemma {:induction false} JoinConsChar(c: char, ls: seq<string>)
    requires |ls| >= 1
    ensures JoinLines([[c] + ls[0]] + ls[1..]) == [c] + JoinLines(ls)
  {
    var ls' := [[c] + ls[0]] + ls[1..];
    assert ls'[1..] == ls[1..];
  }

  /** Joining two non-empty runs of lines puts one newline between their joins. */
  lemma {:induction false} JoinAppend(xs: seq<string>, ys: seq<string>)
    requires |xs| >= 1 && |ys| >= 1
    ensures JoinLines(xs + ys) == JoinLines(xs) + "\n" + JoinLines(ys)
    decreases |xs|
  {
    if |xs| == 1 {
      assert (xs + ys)[1..] == ys;
    } else {
      assert (xs + ys)[1..] == xs[1..] + ys;
      JoinAppend(xs[1..], ys);
    }
  }

  /** Splitting undoes joining, for lines that hold no newline. */
  lemma {:induction false} SplitJoin(ls: seq<string>)
    requires |ls| >= 1 && NoNewlines(ls)
    ensures SplitLines(JoinLines(ls)) == ls
    decreases |JoinLines(ls)|
  {
    var t := JoinLines(ls);
    if |ls[0]| == 0 {
      if |ls| > 1 {
        assert t == "\n" + JoinLines(ls[1..]);
        assert t[1..] == JoinLines(ls[1..]);
        SplitJoin(ls[1..]);
        assert ls == [""] + ls[1..];
      }
    } else {
      var c := ls[0][0];
      var tail := [ls[0][1..]] + ls[1..];
      assert ls[0] == [c] + ls[0][1..];
      assert [[c] + tail[0]] + tail[1..] == ls;
      JoinConsChar(c, tail);
      assert t == [c] + JoinLines(tail);
      assert t[1..] == JoinLines(tail);
      assert NoNewlines(tail) by {
        forall i | 0 <= i < |tail| ensures '\n' !in tail[i] {
          if i == 0 {
            assert forall k :: 0 <= k < |tail[0]| ==> tail[0][k] == ls[0][k + 1];
          } else {
            assert tail[i] == ls[i];
          }
        }
      }
      SplitJoin(tail);
      assert c != '\n';
    }
  }

  /** A newline in the text splits it into the lines before it followed by the lines after it. */
  lemma {:induction false} SplitAround(a: string, b: string)
    ensures SplitLines(a + "\n" + b) == SplitLines(a) + SplitLines(b)
  {
    var xs, ys := SplitLines(a), SplitLines(b);
    JoinAppend(xs, ys);
    assert NoNewlines(xs + ys) by {
      forall i | 0 <= i < |xs + ys| ensures '\n' !in (xs + ys)[i] {
        if i < |xs| { assert (xs + ys)[i] == xs[i]; } else { assert (xs + ys)[i] == ys[i - |xs|]; }
      }
    }
    assert JoinLines(xs + ys) == a + "\n" + b;
    SplitJoin(xs + ys);
  }
}
