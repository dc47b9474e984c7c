/** The per-language parent finders: given a declaration line, the name of the class it
    inherits from, no name, or the `substring` exception. Two variants exist: the shared one
    (the `utils` and Android copies, which are identical) and the desktop one. */
module Dialects {
  import opened Outcomes
  import opened Text

  /** The languages `parseCode` accepts. */
  datatype Dialect = Cpp | Java | Kotlin

  /** Which copy of the finders runs. */
  datatype Variant = Shared | Desktop

  /** `when (language.lowercase())`: `cpp` and `c++` choose C++, `java` Java, `kotlin` Kotlin;
      anything else is not supported. */
  function SelectDialect(language: string): (r: Option<Dialect>)
    ensures r == Some(Cpp) <==> AsciiLower(language) == "cpp" || AsciiLower(language) == "c++"
    ensures r == Some(Java) <==> AsciiLower(language) == "java"
    ensures r == Some(Kotlin) <==> AsciiLower(language) == "kotlin"
  {
    var l := AsciiLower(language);
    if l == "cpp" || l == "c++" then Some(Cpp)
    else if l == "java" then Some(Java)
    else if l == "kotlin" then Some(Kotlin)
    else None
  }

  /** Lower-casing changes nothing more once done: the choice depends only on the lower-case
      spelling. */
  lemma {:induction false} SelectIgnoresCase(language: string)
    ensures SelectDialect(AsciiLower(language)) == SelectDialect(language)
  {
    var l := AsciiLower(language);
    forall i | 0 <= i < |l| ensures LowerChar(l[i]) == l[i] {
      var c := language[i];
      assert l[i] == LowerChar(c);
    }
    assert AsciiLower(l) == l;
  }

  /** Which spellings select a finder: exactly the four words, each letter in either case, with
      the Kelvin sign standing for `k`. */
  lemma {:induction false} SelectBySpelling(language: string)
    ensures SelectDialect(language) == Some(Kotlin) <==> |language| == 6 && forall i :: 0 <= i < 6 ==> CaseOf(language[i], "kotlin"[i])
    ensures SelectDialect(language) == Some(Java) <==> |language| == 4 && forall i :: 0 <= i < 4 ==> CaseOf(language[i], "java"[i])
    ensures SelectDialect(language) == Some(Cpp) <==>
      |language| == 3 && ((forall i :: 0 <= i < 3 ==> CaseOf(language[i], "cpp"[i])) || (forall i :: 0 <= i < 3 ==> CaseOf(language[i], "c++"[i])))
  {
    LowerSpells(language, "kotlin");
    LowerSpells(language, "java");
    LowerSpells(language, "cpp");
    LowerSpells(language, "c++");
  }

  /** The spellings the applications pass, in any letter case. */
  lemma {:induction false} SelectExamples()
    ensures SelectDialect("Kotlin") == Some(Kotlin)
    ensures SelectDialect("C++") == Some(Cpp)
    ensures SelectDialect("CPP") == Some(Cpp)
    ensures SelectDialect("JAVA") == Some(Java)
    ensures SelectDialect("python") == None
  {
    assert AsciiLower("Kotlin") == "kotlin";
    assert AsciiLower("C++") == "c++";
    assert AsciiLower("CPP") == "cpp";
    assert AsciiLower("JAVA") == "java";
    assert AsciiLower("python") == "python";
  }

  /** `line.substring(start, line.indexOf(stop, start))`: the text from `start` up to the first
      `stop` at or after it, or the exception when there is none. */
  function TextUpTo(line: string, start: nat, stop: char): (r: Result<string>)
    ensures r.Ok? <==> exists k :: start <= k < |line| && line[k] == stop
    ensures r.Ok? ==> Ends(line, start, stop, r.value)
    ensures r.Err? ==> r.error == StringIndexOutOfBounds(start, -1, |line|)
  {
    var k := IndexOfChar(line, stop, start);
    var r := Substring(line, start, k);
    assert r.Ok? ==> start <= k < |line| && line[k] == stop && r.value == line[start..k] && stop !in r.value by {
      if r.Ok? {
        assert forall j :: 0 <= j < |r.value| ==> r.value[j] == line[start + j];
      }
    }
    r
  }

  /** `name` is what lies between `start` and the first `stop` after it. */
  predicate Ends(line: string, start: nat, stop: char, name: string) {
    && start + |name| < |line|
    && line[start..start + |name|] == name
    && line[start + |name|] == stop
    && stop !in name
  }

  /** The shared C++ finder: after the first `public ` if the line has one, else after the
      first `private `, up to the next space. */
  function CppParent(line: string): (r: Result<Option<string>>)
    ensures r == Ok(None) <==> !Contains(line, "public ") && !Contains(line, "private ")
    ensures Contains(line, "public ") ==> Lifted(TextUpTo(line, IndexOf(line, "public ") + 7, ' ')) == r
    ensures !Contains(line, "public ") && Contains(line, "private ") ==>
      Lifted(TextUpTo(line, IndexOf(line, "private ") + 8, ' ')) == r
  {
    var pub, priv := IndexOf(line, "public "), IndexOf(line, "private ");
    if pub != -1 then Lifted(TextUpTo(line, pub + 7, ' '))
    else if priv != -1 then Lifted(TextUpTo(line, priv + 8, ' '))
    else Ok(None)
  }

  /** The shared Java finder: after the first `extends `, up to the next space. */
  function JavaParent(line: string): (r: Result<Option<string>>)
    ensures r == Ok(None) <==> !Contains(line, "extends ")
    ensures Contains(line, "extends ") ==> Lifted(TextUpTo(line, IndexOf(line, "extends ") + 8, ' ')) == r
  {
    var ext := IndexOf(line, "extends ");
    if ext != -1 then Lifted(TextUpTo(line, ext + 8, ' ')) else Ok(None)
  }

  /** The shared Kotlin finder: after the first ` : public ` if the line has one, else after
      the first `) : `; the parent runs to the first `(` after that point, or to the first
      space when no `(` follows. */
  function KotlinParent(line: string): (r: Result<Option<string>>)
    ensures r == Ok(None) <==> !Contains(line, " : public ") && !Contains(line, ") : ")
    ensures Contains(line, " : public ") ==> KotlinTail(line, IndexOf(line, " : public ") + 10) == r
    ensures !Contains(line, " : public ") && Contains(line, ") : ") ==> KotlinTail(line, IndexOf(line, ") : ") + 4) == r
  {
    var pub, colon := IndexOf(line, " : public "), IndexOf(line, ") : ");
    if pub != -1 then KotlinTail(line, pub + 10)
    else if colon != -1 then KotlinTail(line, colon + 4)
    else Ok(None)
  }

  /** The end of the shared Kotlin finder once the parent's start is known. */
  function KotlinTail(line: string, start: nat): (r: Result<Option<string>>)
    ensures r.Ok? <==> exists k :: start <= k < |line| && (line[k] == '(' || line[k] == ' ')
    ensures r.Ok? ==> r.value.Some?
    ensures r.Ok? && (exists k :: start <= k < |line| && line[k] == '(') ==> Ends(line, start, '(', r.value.value)
    ensures r.Ok? && !(exists k :: start <= k < |line| && line[k] == '(') ==> Ends(line, start, ' ', r.value.value)
  {
    if IndexOfChar(line, '(', start) != -1 then Lifted(TextUpTo(line, start, '('))
    else Lifted(TextUpTo(line, start, ' '))
  }

  /** A found name, or the exception unchanged. */
  function Lifted(r: Result<string>): (l: Result<Option<string>>)
    ensures l.Ok? <==> r.Ok?
    ensures l.Ok? ==> l.value == Some(r.value)
    ensures l.Err? ==> l.error == r.error
  {
    match r
    case Ok(name) => Ok(Some(name))
    case Err(e) => Err(e)
  }

  /** The desktop C++ finder: one character after the first `public` if the line has one,
      else after the first `private`, up to the next space; the skipped character is not
      checked. */
  function DesktopCppParent(line: string): (r: Result<Option<string>>)
    ensures r == Ok(None) <==> !Contains(line, "public") && !Contains(line, "private")
    ensures Contains(line, "public") ==> Lifted(TextUpTo(line, IndexOf(line, "public") + 7, ' ')) == r
    ensures !Contains(line, "public") && Contains(line, "private") ==>
      Lifted(TextUpTo(line, IndexOf(line, "private") + 8, ' ')) == r
  {
    var pub, priv := IndexOf(line, "public"), IndexOf(line, "private");
    if pub != -1 then Lifted(TextUpTo(line, pub + 7, ' '))
    else if priv != -1 then Lifted(TextUpTo(line, priv + 8, ' '))
    else Ok(None)
  }

  /** The desktop Java finder: one character after the first `extends`, up to the next space. */
  function DesktopJavaParent(line: string): (r: Result<Option<string>>)
    ensures r == Ok(None) <==> !Contains(line, "extends")
    ensures Contains(line, "extends") ==> Lifted(TextUpTo(line, IndexOf(line, "extends") + 8, ' ')) == r
  {
    var ext := IndexOf(line, "extends");
    if ext != -1 then Lifted(TextUpTo(line, ext + 8, ' ')) else Ok(None)
  }

  /** The desktop Kotlin finder: after the first `) : ` only, always up to the next `(`. */
  function DesktopKotlinParent(line: string): (r: Result<Option<string>>)
    ensures r == Ok(None) <==> !Contains(line, ") : ")
    ensures Contains(line, ") : ") ==> Lifted(TextUpTo(line, IndexOf(line, ") : ") + 4, '(')) == r
  {
    var colon := IndexOf(line, ") : ");
    if colon != -1 then Lifted(TextUpTo(line, colon + 4, '(')) else Ok(None)
  }

  /** The finder `parseCode` runs for a dialect in a variant. */
  function FindParent(variant: Variant, dialect: Dialect, line: string): (r: Result<Option<string>>)
    ensures r.Ok? && r.value.Some? ==>
      exists start: nat :: Ends(line, start, ' ', r.value.value) || Ends(line, start, '(', r.value.value)
  {
    match (variant, dialect)
    case (Shared, Cpp) => CppParent(line)
    case (Shared, Java) => JavaParent(line)
    case (Shared, Kotlin) => KotlinParent(line)
    case (Desktop, Cpp) => DesktopCppParent(line)
    case (Desktop, Java) => DesktopJavaParent(line)
    case (Desktop, Kotlin) => DesktopKotlinParent(line)
  }

  /** A parent the finders report is cut out of the line: each of its characters is one of
      the line's. */
  lemma {:induction false} ParentFromLine(variant: Variant, dialect: Dialect, line: string)
    requires FindParent(variant, dialect, line).Ok? && FindParent(variant, dialect, line).value.Some?
    ensures forall c :: c in FindParent(variant, dialect, line).value.value ==> c in line
  {
    var p := FindParent(variant, dialect, line).value.value;
    var start: nat :| Ends(line, start, ' ', p) || Ends(line, start, '(', p);
    if Ends(line, start, ' ', p) { EndsInLine(line, start, ' ', p); } else { EndsInLine(line, start, '(', p); }
  }

  /** A stretch of the line holds only characters of the line. */
  lemma {:induction false} EndsInLine(line: string, start: nat, stop: char, p: string)
    requires Ends(line, start, stop, p)
    ensures forall c :: c in p ==> c in line
  {
    forall c | c in p ensures c in line {
      var k :| 0 <= k < |p| && p[k] == c;
      assert line[start + k] == p[k];
    }
  }

  /** An occurrence of `a + b` is an occurrence of `a`. */
  lemma {:induction false} OccursPrefix(s: string, a: string, b: string, i: nat)
    requires OccursAt(s, a + b, i)
    ensures OccursAt(s, a, i)
  {
    assert s[i..i + |a|] == s[i..i + |a + b|][..|a|];
  }

  /** When the first occurrence of `kw` is followed by `c`, it is also the first occurrence of
      `kw` followed by `c`. */
  lemma {:induction false} FirstOccurrenceExtends(s: string, kw: string, c: char)
    requires IndexOf(s, kw) >= 0 && OccursAt(s, kw + [c], IndexOf(s, kw))
    ensures IndexOf(s, kw + [c]) == IndexOf(s, kw)
  {
    var i, j := IndexOf(s, kw), IndexOf(s, kw + [c]);
    assert j >= 0 && j <= i;
    OccursPrefix(s, kw, [c], j);
  }

  /** A line without `kw` has no `kw` followed by anything. */
  lemma {:induction false} AbsentExtends(s: string, kw: string, c: char)
    requires !Contains(s, kw)
    ensures !Contains(s, kw + [c])
  {
    forall i: nat | OccursAt(s, kw + [c], i) ensures false {
      OccursPrefix(s, kw, [c], i);
    }
  }

  /** The first `kw` of the line, if any, is followed by a space. */
  predicate SpacedAtFirst(line: string, kw: string) {
    IndexOf(line, kw) >= 0 ==> OccursAt(line, kw + " ", IndexOf(line, kw))
  }

  /** The two C++ finders agree whenever the first `public` (or, without one, the first
      `private`) is followed by a space; the desktop one skips a character without looking. */
  lemma {:induction false} CppVariantsAgree(line: string)
    requires SpacedAtFirst(line, "public")
    requires !Contains(line, "public") ==> SpacedAtFirst(line, "private")
    ensures DesktopCppParent(line) == CppParent(line)
  {
    assert "public" + [' '] == "public " && "private" + [' '] == "private ";
    if Contains(line, "public") {
      FirstOccurrenceExtends(line, "public", ' ');
    } else {
      AbsentExtends(line, "public", ' ');
      if Contains(line, "private") {
        FirstOccurrenceExtends(line, "private", ' ');
      } else {
        AbsentExtends(line, "private", ' ');
      }
    }
  }

  /** The two Java finders agree whenever the first `extends` is followed by a space. */
  lemma {:induction false} JavaVariantsAgree(line: string)
    requires SpacedAtFirst(line, "extends")
    ensures DesktopJavaParent(line) == JavaParent(line)
  {
    assert "extends" + [' '] == "extends ";
    if Contains(line, "extends") {
      FirstOccurrenceExtends(line, "extends", ' ');
    } else {
      AbsentExtends(line, "extends", ' ');
    }
  }

  /** The two Kotlin finders agree on lines without ` : public ` whose `) : ` is followed by a
      `(` somewhere; the desktop finder neither knows the first marker nor falls back to a space. */
  lemma {:induction false} KotlinVariantsAgree(line: string)
    requires !Contains(line, " : public ")
    requires Contains(line, ") : ") ==> exists k :: IndexOf(line, ") : ") + 4 <= k < |line| && line[k] == '('
    ensures DesktopKotlinParent(line) == KotlinParent(line)
  {
  }

  /** The first occurrence of `sub` is at `i` when `sub` occurs there and its `k`-th character
      occurs nowhere before `i + k`. */
  lemma {:induction false} FirstAt(s: string, sub: string, i: nat, k: nat)
    requires k < |sub| && OccursAt(s, sub, i) && IndexOfChar(s, sub[k], 0) == i + k
    ensures IndexOf(s, sub) == i
  {
    var j := IndexOf(s, sub);
    assert s[j..j + |sub|][k] == s[j + k];
  }

  /** The first `c` at or after `from` is at `r`. */
  lemma {:induction false} FirstCharAt(s: string, c: char, from: nat, r: nat)
    requires from <= r < |s| && s[r] == c && forall i :: from <= i < r ==> s[i] != c
    ensures IndexOfChar(s, c, from) == r
  {
  }

  /** The first `c` at or after `from` is at `r`, stated with membership in the text between. */
  lemma {:induction false} FirstCharAfter(s: string, c: char, from: nat, r: nat)
    requires from <= r < |s| && s[r] == c && c !in s[from..r]
    ensures IndexOfChar(s, c, from) == r
  {
    forall i | from <= i < r ensures s[i] != c {
      assert s[i] == s[from..r][i - from];
    }
  }

  /** The first occurrence of `marker` is at `i` when it occurs there and its `k`-th character
      appears nowhere before `i + k`. */
  lemma {:induction false} FirstMarker(line: string, marker: string, i: nat, k: nat)
    requires k < |marker| && OccursAt(line, marker, i)
    requires forall j :: 0 <= j < i + k ==> line[j] != marker[k]
    ensures IndexOf(line, marker) == i
  {
    FirstCharAt(line, marker[k], 0, i + k);
    FirstAt(line, marker, i, k);
  }

  /** The text from `start` up to the first `stop`, when that `stop` is at `e`. */
  lemma {:induction false} UpToChar(line: string, start: nat, e: nat, stop: char)
    requires start <= e < |line| && line[e] == stop
    requires forall j :: start <= j < e ==> line[j] != stop
    ensures TextUpTo(line, start, stop) == Ok(line[start..e])
  {
    FirstCharAt(line, stop, start, e);
  }

  /** The shared C++ finder, once the first `public ` and the space after it are known. */
  lemma {:induction false} CppAt(line: string, i: nat, e: nat, parent: string)
    requires IndexOf(line, "public ") == i && i + 7 <= e < |line| && line[e] == ' '
    requires forall j :: i + 7 <= j < e ==> line[j] != ' '
    requires line[i + 7..e] == parent
    ensures CppParent(line) == Ok(Some(parent))
  {
    UpToChar(line, i + 7, e, ' ');
  }

  /** The desktop C++ finder, once the first `public` and the next space are known. */
  lemma {:induction false} DesktopCppAt(line: string, i: nat, e: nat, parent: string)
    requires IndexOf(line, "public") == i && i + 7 <= e < |line| && line[e] == ' '
    requires forall j :: i + 7 <= j < e ==> line[j] != ' '
    requires line[i + 7..e] == parent
    ensures DesktopCppParent(line) == Ok(Some(parent))
  {
    UpToChar(line, i + 7, e, ' ');
  }

  /** The shared Java finder, once the first `extends ` and the space after it are known. */
  lemma {:induction false} JavaAt(line: string, i: nat, e: nat, parent: string)
    requires IndexOf(line, "extends ") == i && i + 8 <= e < |line| && line[e] == ' '
    requires forall j :: i + 8 <= j < e ==> line[j] != ' '
    requires line[i + 8..e] == parent
    ensures JavaParent(line) == Ok(Some(parent))
  {
    UpToChar(line, i + 8, e, ' ');
  }

  /** The shared Kotlin finder after a `) : ` marker, when a `(` follows. */
  lemma {:induction false} KotlinParenAt(line: string, i: nat, e: nat, parent: string)
    requires !Contains(line, " : public ") && Contains(line, ") : ") && IndexOf(line, ") : ") + 4 == i
    requires i <= e < |line| && line[e] == '(' && forall j :: i <= j < e ==> line[j] != '('
    requires line[i..e] == parent
    ensures KotlinParent(line) == Ok(Some(parent))
  {
    FirstCharAt(line, '(', i, e);
    UpToChar(line, i, e, '(');
  }

  /** Both Kotlin finders after a `) : ` marker, when no `(` follows. */
  lemma {:induction false} KotlinSpaceAt(line: string, i: nat, e: nat, parent: string)
    requires !Contains(line, " : public ") && Contains(line, ") : ") && IndexOf(line, ") : ") + 4 == i
    requires i <= e < |line| && line[e] == ' '
    requires forall j :: i <= j < e ==> line[j] != ' '
    requires forall j :: i <= j < |line| ==> line[j] != '('
    requires line[i..e] == parent
    ensures KotlinParent(line) == Ok(Some(parent))
    ensures DesktopKotlinParent(line).Err?
  {
    UpToChar(line, i, e, ' ');
    assert IndexOfChar(line, '(', i) == -1;
  }

  /** A C++ declaration whose first `p` starts `public `: the shared finder reports the word
      after it. */
  lemma {:induction false} CppPublic(head: string, parent: string, rest: string)
    requires 'p' !in head && ' ' !in parent
    ensures CppParent(head + "public" + " " + parent + " " + rest) == Ok(Some(parent))
  {
    var line := head + "public" + " " + parent + " " + rest;
    var i, e := |head|, |head| + 7 + |parent|;
    assert line[i..i + 7] == "public ";
    forall j | 0 <= j < i ensures line[j] != 'p' {
      assert line[j] == head[j];
    }
    FirstMarker(line, "public ", i, 0);
    forall j | i + 7 <= j < e ensures line[j] != ' ' {
      assert line[j] == parent[j - i - 7];
    }
    assert line[i + 7..e] == parent;
    CppAt(line, i, e, parent);
  }

  /** A C++ declaration whose first `p` starts `public`: the desktop finder skips the next
      character, whatever it is, and reports the text after it up to a space. */
  lemma {:induction false} DesktopCppAfter(head: string, c: char, word: string, tail: string)
    requires 'p' !in head && ' ' !in word
    ensures DesktopCppParent(head + "public" + [c] + word + " " + tail) == Ok(Some(word))
  {
    var line := head + "public" + [c] + word + " " + tail;
    var i, e := |head|, |head| + 7 + |word|;
    assert line[i..i + 6] == "public";
    forall j | 0 <= j < i ensures line[j] != 'p' {
      assert line[j] == head[j];
    }
    FirstMarker(line, "public", i, 0);
    forall j | i + 7 <= j < e ensures line[j] != ' ' {
      assert line[j] == word[j - i - 7];
    }
    assert line[i + 7..e] == word;
    DesktopCppAt(line, i, e, word);
  }

  /** A C++ declaration whose first `public` is followed by some other character: the shared
      finder passes over it to the next `public `. */
  lemma {:induction false} CppSkipsFirst(head: string, c: char, mid: string, parent: string, rest: string)
    requires 'p' !in head && c != ' ' && c != 'p' && 'p' !in mid && ' ' !in parent
    ensures CppParent(head + "public" + [c] + mid + "public" + " " + parent + " " + rest) == Ok(Some(parent))
  {
    var line := head + "public" + [c] + mid + "public" + " " + parent + " " + rest;
    var i := |head| + 7 + |mid|;
    var e := i + 7 + |parent|;
    assert line[i..i + 7] == "public ";
    forall j: nat | j < i ensures !OccursAt(line, "public ", j) {
      if j == |head| {
        assert line[j + 6] == c;
        NotAt(line, "public ", j, 6);
      } else {
        if j < |head| {
          assert line[j] == head[j];
        } else if j < |head| + 6 {
          assert line[j] == "public"[j - |head|];
        } else if j == |head| + 6 {
          assert line[j] == c;
        } else {
          assert line[j] == mid[j - |head| - 7];
        }
        NotAt(line, "public ", j, 0);
      }
    }
    IndexOfIs(line, "public ", i);
    forall j | i + 7 <= j < e ensures line[j] != ' ' {
      assert line[j] == parent[j - i - 7];
    }
    assert line[i + 7..e] == parent;
    CppAt(line, i, e, parent);
  }

  /** A Java declaration whose first `x` is in `extends `: the shared finder reports the word
      after it. */
  lemma {:induction false} JavaExtends(head: string, parent: string, rest: string)
    requires 'x' !in head && ' ' !in parent
    ensures JavaParent(head + "extends " + parent + " " + rest) == Ok(Some(parent))
  {
    var line := head + "extends " + parent + " " + rest;
    var i, e := |head|, |head| + 8 + |parent|;
    assert line[i..i + 8] == "extends ";
    forall j | 0 <= j < i + 1 ensures line[j] != 'x' {
      if j < i { assert line[j] == head[j]; } else { assert line[j] == 'e'; }
    }
    FirstMarker(line, "extends ", i, 1);
    forall j | i + 8 <= j < e ensures line[j] != ' ' {
      assert line[j] == parent[j - i - 8];
    }
    assert line[i + 8..e] == parent;
    JavaAt(line, i, e, parent);
  }

  /** A Kotlin declaration with no `p` and one `) : `: the marker is at the end of `head`. */
  lemma {:induction false} KotlinColonAt(line: string, head: string, tail: string)
    requires line == head + ") : " + tail && ')' !in head && 'p' !in line
    ensures !Contains(line, " : public ") && Contains(line, ") : ") && IndexOf(line, ") : ") == |head|
  {
    MissingChar(line, " : public ", 3);
    var i := |head|;
    assert line[i..i + 4] == ") : ";
    forall j | 0 <= j < i ensures line[j] != ')' {
      assert line[j] == head[j];
    }
    FirstMarker(line, ") : ", i, 0);
  }

  /** A Kotlin declaration `head) : parent(…` without `p`: the shared finder reports the text up
      to the `(`. */
  lemma {:induction false} KotlinColonParen(head: string, parent: string, rest: string)
    requires ')' !in head && 'p' !in head && 'p' !in parent && 'p' !in rest && '(' !in parent
    ensures KotlinParent(head + ") : " + parent + "(" + rest) == Ok(Some(parent))
  {
    var line := head + ") : " + parent + "(" + rest;
    KotlinColonAt(line, head, parent + "(" + rest);
    ParentBefore(line, |head| + 4, parent, '(');
    KotlinParenAt(line, |head| + 4, |head| + 4 + |parent|, parent);
  }

  /** Where `parent` followed by `stop` sits at `i` and holds no `stop`, the first `stop` from
      `i` ends it. */
  lemma {:induction false} ParentBefore(line: string, i: nat, parent: string, stop: char)
    requires i + |parent| < |line| && line[i..i + |parent| + 1] == parent + [stop] && stop !in parent
    ensures line[i..i + |parent|] == parent && line[i + |parent|] == stop
    ensures forall j :: i <= j < i + |parent| ==> line[j] != stop
  {
    var e := i + |parent|;
    assert line[e] == line[i..e + 1][|parent|];
    forall j | i <= j < e ensures line[j] != stop {
      assert line[j] == line[i..e + 1][j - i] == parent[j - i];
    }
    assert line[i..e] == line[i..e + 1][..|parent|];
  }

  /** A Kotlin declaration `head) : parent …` with no `p` and no `(` after the marker: the
      shared finder stops at the space, the desktop one finds no `(` and throws. */
  lemma {:induction false} KotlinColonSpace(head: string, parent: string, rest: string)
    requires ')' !in head && 'p' !in head && 'p' !in parent && 'p' !in rest
    requires '(' !in parent && '(' !in rest && ' ' !in parent
    ensures KotlinParent(head + ") : " + parent + " " + rest) == Ok(Some(parent))
    ensures DesktopKotlinParent(head + ") : " + parent + " " + rest).Err?
  {
    var line := head + ") : " + parent + " " + rest;
    var i := |head| + 4;
    var e := i + |parent|;
    KotlinColonAt(line, head, parent + " " + rest);
    forall j | i <= j < |line| ensures line[j] != '(' {
      if j < e { assert line[j] == parent[j - i]; }
      else if j > e { assert line[j] == rest[j - e - 1]; }
    }
    forall j | i <= j < e ensures line[j] != ' ' {
      assert line[j] == parent[j - i];
    }
    assert line[i..e] == parent;
    KotlinSpaceAt(line, i, e, parent);
  }

  /** `class Triangle : public Shape {` inherits from `Shape`, whatever follows the space
      after the parent. */
  lemma {:induction false} CppTriangle(rest: string)
    ensures CppParent("class Triangle : " + "public" + " " + "Shape" + " " + rest) == Ok(Some("Shape"))
  {
    CppPublic("class Triangle : ", "Shape", rest);
  }

  /** Two spaces after the marker give the empty parent name, not the absence of a parent. */
  lemma {:induction false} CppEmptyParent(rest: string)
    ensures CppParent("class A : public  B " + rest) == Ok(Some(""))
  {
    var line := "class A : public  B " + rest;
    assert line[10..17] == "public ";
    FirstCharAt(line, 'p', 0, 10);
    FirstAt(line, "public ", 10, 0);
    FirstCharAt(line, ' ', 17, 17);
  }

  /** A declaration that ends with the parent has no space to stop at: `substring` throws. */
  lemma {:induction false} CppParentAtEnd(parent: string)
    requires ' ' !in parent
    ensures CppParent("class A : public " + parent) == Err(StringIndexOutOfBounds(17, -1, 17 + |parent|))
  {
    var line := "class A : public " + parent;
    assert line[10..17] == "public ";
    FirstCharAt(line, 'p', 0, 10);
    FirstAt(line, "public ", 10, 0);
    forall i | 17 <= i < |line| ensures line[i] != ' ' {
      assert line[i] == parent[i - 17];
    }
  }

  /** `class Square extends Rectangle {` inherits from `Rectangle`. */
  lemma {:induction false} JavaSquare(rest: string)
    ensures JavaParent("class Square " + "extends " + "Rectangle" + " " + rest) == Ok(Some("Rectangle"))
  {
    JavaExtends("class Square ", "Rectangle", rest);
  }

  /** The Kotlin square of the samples, `class Square(sideLength: Double) : Rectangle(…`,
      inherits from `Rectangle`: the parent stops at the `(` of the superclass constructor
      call. */
  lemma {:induction false} KotlinSquare(rest: string)
    requires 'p' !in rest
    ensures KotlinParent("class Square" + "(sideLength: Double" + ") : " + "Rectangle" + "(" + rest) == Ok(Some("Rectangle"))
  {
    KotlinColonParen("class Square" + "(sideLength: Double", "Rectangle", rest);
  }

  /** The desktop C++ finder finds `Shape` for `class Circle : public Shape {`, as the shared
      one does. */
  lemma {:induction false} DesktopCppCircle(rest: string)
    ensures DesktopCppParent("class Circle : " + "public" + " " + "Shape" + " " + rest) == Ok(Some("Shape"))
    ensures CppParent("class Circle : " + "public" + " " + "Shape" + " " + rest) == Ok(Some("Shape"))
  {
    DesktopCppAfter("class Circle : ", ' ', "Shape", rest);
    CppPublic("class Circle : ", "Shape", rest);
  }

  /** Where the variants differ, on `class Republican : public State {`: the desktop C++ finder
      takes the `public` inside `Republican` and skips its `a`, so the parent it reports is
      `n`. */
  lemma {:induction false} DesktopCppInsideWord(rest: string)
    ensures DesktopCppParent("class Re" + "public" + "a" + "n" + " " + (": public State " + rest)) == Ok(Some("n"))
  {
    DesktopCppAfter("class Re", 'a', "n", ": public State " + rest);
  }

  /** On the same line the shared C++ finder passes over `Republican`, whose `public` is not
      followed by a space, and reports `State`. */
  lemma {:induction false} CppSkipsWord(rest: string)
    ensures CppParent("class Re" + "public" + "a" + "n : " + "public" + " " + "State" + " " + rest) == Ok(Some("State"))
  {
    CppSkipsFirst("class Re", 'a', "n : ", "State", rest);
  }

  /** Where the Kotlin variants differ, on `class B(x: Int) : A …` with no `(` after the
      parent: the shared finder stops at the space, while the desktop one throws. */
  lemma {:induction false} KotlinVariantsDiffer(rest: string)
    requires '(' !in rest && 'p' !in rest
    ensures KotlinParent("class B(x: Int" + ") : " + "A" + " " + rest) == Ok(Some("A"))
    ensures DesktopKotlinParent("class B(x: Int" + ") : " + "A" + " " + rest).Err?
  {
    KotlinColonSpace("class B(x: Int", "A", rest);
  }
}
