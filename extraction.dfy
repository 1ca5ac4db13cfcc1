/** Locating the method a stack frame points into, in the lines of its
    source file: the two line classifiers (`isMethodDeclaration`,
    `isAnotherMethodOrClassDeclaration`), the brace-balance scan that finds
    where a method ends (`findMethodEndLine`), the backward scan for the
    declaration, the whole-file search and the context window. The two
    classifiers and the brace scan are the same in EnhancedExceptionSpanExporter
    and CodeExtractionUtils.

    The classifiers are `String.matches` calls on patterns built around the
    method name; they are written here as what those patterns accept, for a
    method name taken literally. */
module Extraction {
  import opened Wrappers
  import opened Text

  // ---------------------------------------------------------------------
  // the character classes of the patterns

  /** `\w`: ASCII letters, digits and `_`. */
  predicate IsWordChar(c: char) {
    'a' <= c <= 'z' || 'A' <= c <= 'Z' || '0' <= c <= '9' || c == '_'
  }

  /** `\s`: space, tab, line feed, vertical tab, form feed, carriage return. */
  predicate IsSpace(c: char) {
    c == ' ' || c == '\t' || c == '\n' || c == '\U{000B}' || c == '\U{000C}' || c == '\r'
  }

  /** `.`: anything but a line terminator. */
  predicate IsDotChar(c: char) {
    c != '\n' && c != '\r' && c != '\U{0085}' && c != '\U{2028}' && c != '\U{2029}'
  }

  predicate AllDot(s: string) {
    forall k :: 0 <= k < |s| ==> IsDotChar(s[k])
  }

  predicate AllWord(s: string) {
    forall k :: 0 <= k < |s| ==> IsWordChar(s[k])
  }

  predicate AllSpace(s: string) {
    forall k :: 0 <= k < |s| ==> IsSpace(s[k])
  }

  /** `\b` at position `p`: a word character on exactly one side. */
  predicate Boundary(s: string, p: nat)
    requires p <= |s|
  {
    (p > 0 && IsWordChar(s[p - 1])) != (p < |s| && IsWordChar(s[p]))
  }

  /** The modifier alternation of both classifiers. */
  const Modifiers: seq<string> := ["public", "private", "protected", "static", "final", "abstract", "synchronized"]

  /** The three keywords that start a type declaration. */
  const TypeKeywords: seq<string> := ["class", "interface", "enum"]

  predicate HasModifier(s: string) {
    exists k :: 0 <= k < |Modifiers| && Contains(s, Modifiers[k])
  }

  // ---------------------------------------------------------------------
  // isMethodDeclaration

  /** `\bNAME\s*\(` matches `s[p..e]`. */
  predicate NameCall(s: string, name: string, p: nat, e: nat) {
    p + |name| < e <= |s| && OccursAt(s, name, p) && Boundary(s, p)
      && AllSpace(s[p + |name|..e - 1]) && s[e - 1] == '('
  }

  /** `.*\bNAME\s*\(.*` with the name call at `s[p..e]`; `prefix` says what
      else must hold of `s[..p]`. */
  predicate CallWithin(s: string, name: string, p: nat, e: nat) {
    NameCall(s, name, p, e) && AllDot(s[..p]) && AllDot(s[e..])
  }

  /** `.*\bNAME\s*\(.*`. */
  predicate MentionsCall(s: string, name: string) {
    exists p: nat, e: nat | p <= |s| && e <= |s| :: CallWithin(s, name, p, e)
  }

  /** `.*(public|…|synchronized).*\bNAME\s*\(.*`: the modifier letters are
      themselves matched by `.`, so it is enough that one occurs before the
      name. */
  predicate ModifiedCall(s: string, name: string) {
    exists p: nat, e: nat | p <= |s| && e <= |s| :: CallWithin(s, name, p, e) && HasModifier(s[..p])
  }

  /** `\b\w+\s+` matches `s[w..p]`, with the spaces starting at `j`, and
      `s[..w]` matches `.*`. */
  predicate TypeTokenAt(s: string, w: nat, j: nat, p: nat) {
    w < j < p <= |s| && AllDot(s[..w]) && Boundary(s, w) && AllWord(s[w..j]) && AllSpace(s[j..p])
  }

  predicate TypeTokenBefore(s: string, p: nat) {
    exists w: nat, j: nat | w <= |s| && j <= |s| :: TypeTokenAt(s, w, j, p)
  }

  /** `.*\b\w+\s+\bNAME\s*\(.*`. */
  predicate TypedCall(s: string, name: string) {
    exists p: nat, e: nat | p <= |s| && e <= |s| :: NameCall(s, name, p, e) && AllDot(s[e..]) && TypeTokenBefore(s, p)
  }

  /** The line with everything from the first `//` cut off and trimmed; a
      line without `//` is kept as it is. */
  function StripComment(line: string): (r: string)
    ensures !Contains(line, "//") ==> r == line
  {
    var i := IndexOf(line, "//");
    if i != -1 then Trim(line[..i]) else line
  }

  /** `isMethodDeclaration`. */
  predicate IsMethodDeclaration(line: string, name: string) {
    var t := StripComment(line);
    if t == "" then false
    else if MentionsCall(t, name) then ModifiedCall(t, name) || TypedCall(t, name)
    else false
  }

  // ---------------------------------------------------------------------
  // isAnotherMethodOrClassDeclaration

  /** `\b(class|interface|enum)\s+\w+.*` matches `s[q..]`, with the word
      starting at `j`, and `s[..q]` matches `.*`. */
  predicate TypeHeaderAt(s: string, q: nat, k: nat, j: nat) {
    k < |TypeKeywords| && q + |TypeKeywords[k]| < j < |s|
      && AllDot(s[..q]) && Boundary(s, q) && OccursAt(s, TypeKeywords[k], q)
      && AllSpace(s[q + |TypeKeywords[k]|..j]) && IsWordChar(s[j]) && AllDot(s[j + 1..])
  }

  predicate IsTypeHeader(s: string) {
    exists q: nat, k: nat, j: nat | q <= |s| && k < |TypeKeywords| && j <= |s| :: TypeHeaderAt(s, q, k, j)
  }

  /** `.*(public|…|synchronized).*\w+\s*\(.*` with the word at `s[w..j]`
      and the parenthesis at `k`. */
  predicate ModifiedCallShapeAt(s: string, w: nat, j: nat, k: nat) {
    w < j <= k < |s| && AllDot(s[..w]) && HasModifier(s[..w])
      && AllWord(s[w..j]) && AllSpace(s[j..k]) && s[k] == '(' && AllDot(s[k + 1..])
  }

  predicate HasModifiedCallShape(s: string) {
    exists w: nat, j: nat, k: nat | w <= |s| && j <= |s| && k <= |s| :: ModifiedCallShapeAt(s, w, j, k)
  }

  /** `isAnotherMethodOrClassDeclaration`: a type header always stops the
      backward scan; a modified call shape stops it unless the line
      mentions `current(`. */
  predicate IsAnotherMethodOrClassDeclaration(line: string, current: string) {
    var t := StripComment(line);
    if t == "" then false
    else if IsTypeHeader(t) then true
    else if HasModifiedCallShape(t) then !Contains(t, current + "(")
    else false
  }

  // ---------------------------------------------------------------------
  // what the classifiers accept

  /** Cutting the comment off keeps only characters of the line. */
  lemma StripCommentChars(line: string)
    ensures forall k :: 0 <= k < |StripComment(line)| ==> StripComment(line)[k] in line
  {
    var i := IndexOf(line, "//");
    if i != -1 {
      TrimChars(line[..i]);
      assert forall c :: c in line[..i] ==> c in line;
    }
  }

  /** On a line read from a file, which holds no line feed or carriage
      return, the first test of `isMethodDeclaration` is implied by either
      form of the second: the line is a declaration exactly when, once the
      comment is cut off, a modifier occurs before the call or a type token
      stands right before it. */
  lemma DeclarationForms(line: string, name: string)
    requires '\n' !in line && '\r' !in line
    ensures IsMethodDeclaration(line, name)
        <==> StripComment(line) != "" && (ModifiedCall(StripComment(line), name) || TypedCall(StripComment(line), name))
  {
    var t := StripComment(line);
    StripCommentChars(line);
    assert '\n' !in t && '\r' !in t;
    if TypedCall(t, name) {
      TypedCallIsCall(t, name);
    }
  }

  lemma TypedCallIsCall(t: string, name: string)
    requires '\n' !in t && '\r' !in t
    requires TypedCall(t, name)
    ensures MentionsCall(t, name)
  {
    var p: nat, e: nat :| p <= |t| && e <= |t| && NameCall(t, name, p, e) && AllDot(t[e..]) && TypeTokenBefore(t, p);
    var w: nat, j: nat :| w <= |t| && j <= |t| && TypeTokenAt(t, w, j, p);
    assert AllDot(t[..p]) by {
      forall m | 0 <= m < p ensures IsDotChar(t[..p][m]) {
        assert t[..p][m] == t[m];
        if m < w {
          assert t[..w][m] == t[m];
        } else if m < j {
          assert t[w..j][m - w] == t[m];
        } else {
          assert t[j..p][m - j] == t[m];
          assert t[m] in t;
        }
      }
    }
    assert CallWithin(t, name, p, e);
  }

  /** The typical declaration `type name(…` with nothing but visible
      characters after the parenthesis is recognised. */
  lemma TypedDeclarationRecognised(returnType: string, name: string, rest: string)
    requires |returnType| > 0 && AllWord(returnType)
    requires |name| > 0 && IsWordChar(name[0])
    requires AllDot(name) && AllDot(rest)
    requires !Contains(returnType + " " + name + "(" + rest, "//")
    ensures IsMethodDeclaration(returnType + " " + name + "(" + rest, name)
  {
    var s := returnType + " " + name + "(" + rest;
    var p := |returnType| + 1;
    var e := p + |name| + 1;
    assert s[p..p + |name|] == name;
    assert s[p + |name|..e - 1] == "";
    assert s[e..] == rest;
    assert NameCall(s, name, p, e);
    assert s[0..|returnType|] == returnType;
    assert s[|returnType|..p] == " ";
    assert s[..0] == "";
    assert TypeTokenAt(s, 0, |returnType|, p);
    assert AllDot(s[..p]) by {
      forall m | 0 <= m < p ensures IsDotChar(s[..p][m]) {
        if m < |returnType| {
          assert s[m] == returnType[m];
        }
      }
    }
    assert CallWithin(s, name, p, e);
  }

  /** A line without `(` is never a declaration. */
  lemma NeedsParenthesis(line: string, name: string)
    requires '(' !in line
    ensures !IsMethodDeclaration(line, name)
  {
    StripCommentChars(line);
    assert '(' !in StripComment(line);
  }

  /** `class Name…`, `interface Name…` and `enum Name…` stop the backward
      scan whatever method is sought. */
  lemma TypeHeaderRecognised(k: nat, typeName: string, rest: string, current: string)
    requires k < |TypeKeywords|
    requires |typeName| > 0 && AllWord(typeName) && AllDot(rest)
    requires !Contains(TypeKeywords[k] + " " + typeName + rest, "//")
    ensures IsAnotherMethodOrClassDeclaration(TypeKeywords[k] + " " + typeName + rest, current)
  {
    var kw := TypeKeywords[k];
    var s := kw + " " + typeName + rest;
    var j := |kw| + 1;
    assert s[..|kw|] == kw;
    assert OccursAt(s, kw, 0);
    assert s[|kw|..j] == " ";
    assert s[j] == typeName[0];
    assert AllDot(s[j + 1..]) by {
      forall m | j + 1 <= m < |s| ensures IsDotChar(s[m]) {
        if m < j + |typeName| {
          assert s[m] == typeName[m - j];
        } else {
          assert s[m] == rest[m - j - |typeName|];
        }
      }
    }
    assert s[..0] == "";
    assert TypeHeaderAt(s, 0, k, j);
  }

  // ---------------------------------------------------------------------
  // findMethodEndLine

  function Delta(c: char): int {
    if c == '{' then 1 else if c == '}' then -1 else 0
  }

  /** The running brace count: `{` counts one up, `}` one down. */
  function Balance(s: string): int {
    if |s| == 0 then 0 else Balance(s[..|s| - 1]) + Delta(s[|s| - 1])
  }

  /** Position `k` of `s` is a `}` at which the count returns to zero after
      at least one `{`. */
  predicate ClosesAt(s: string, k: nat) {
    k < |s| && s[k] == '}' && '{' in s[..k] && Balance(s[..k + 1]) == 0
  }

  /** The lines run together: only the braces matter. */
  function Concat(lines: seq<string>): string {
    if |lines| == 0 then "" else Concat(lines[..|lines| - 1]) + lines[|lines| - 1]
  }

  /** Some character of `line`, read after the text `before`, closes. */
  predicate LineCloses(before: string, line: string) {
    exists k :: |before| <= k < |before| + |line| && ClosesAt(before + line, k)
  }

  /** The first line at or after index `i` that closes, counting from index
      `start`, as a 1-based line number; -1 when none does. */
  function EndSearch(lines: seq<string>, start: nat, i: nat): (r: int)
    requires start <= i <= |lines|
    ensures r == -1 || i < r <= |lines|
    decreases |lines| - i
  {
    if i == |lines| then -1
    else if LineCloses(Concat(lines[start..i]), lines[i]) then i + 1
    else EndSearch(lines, start, i + 1)
  }

  /** The line the search returns closes, no line it passes over does, and
      -1 means no line from `i` on closes. */
  lemma {:induction false} EndSearchCloses(lines: seq<string>, start: nat, i: nat)
    requires start <= i <= |lines|
    ensures EndSearch(lines, start, i) > 0 ==>
      LineCloses(Concat(lines[start..EndSearch(lines, start, i) - 1]), lines[EndSearch(lines, start, i) - 1])
    ensures forall m :: i <= m < |lines| && (EndSearch(lines, start, i) == -1 || m < EndSearch(lines, start, i) - 1) ==>
      !LineCloses(Concat(lines[start..m]), lines[m])
    decreases |lines| - i
  {
    if i < |lines| && !LineCloses(Concat(lines[start..i]), lines[i]) {
      EndSearchCloses(lines, start, i + 1);
    }
  }

  /** `findMethodEndLine`: the first line, from the 1-based `methodStartLine`
      on, at which a `}` brings the count back to zero after some `{`; -1
      when the start is out of range or no line does. */
  function EndLine(lines: seq<string>, methodStartLine: int): (r: int)
    ensures r == -1 || 1 <= methodStartLine <= r <= |lines|
  {
    if methodStartLine < 1 || methodStartLine > |lines| then -1
    else EndSearch(lines, methodStartLine - 1, methodStartLine - 1)
  }

  /** The end line is the first line whose braces close the method: it
      closes, no line between the start and it closes, and -1 for a start
      in range means no line from the start on closes. */
  lemma EndLineCloses(lines: seq<string>, methodStartLine: int)
    ensures EndLine(lines, methodStartLine) > 0 ==>
      LineCloses(Concat(lines[methodStartLine - 1..EndLine(lines, methodStartLine) - 1]), lines[EndLine(lines, methodStartLine) - 1])
    ensures EndLine(lines, methodStartLine) > 0 ==>
      forall m :: methodStartLine - 1 <= m < EndLine(lines, methodStartLine) - 1 ==>
        !LineCloses(Concat(lines[methodStartLine - 1..m]), lines[m])
    ensures EndLine(lines, methodStartLine) == -1 && 1 <= methodStartLine <= |lines| ==>
      forall m :: methodStartLine - 1 <= m < |lines| ==> !LineCloses(Concat(lines[methodStartLine - 1..m]), lines[m])
  {
    if 1 <= methodStartLine <= |lines| {
      EndSearchCloses(lines, methodStartLine - 1, methodStartLine - 1);
    }
  }

  lemma ConcatSnoc(lines: seq<string>, start: nat, i: nat)
    requires start <= i < |lines|
    ensures Concat(lines[start..i + 1]) == Concat(lines[start..i]) + lines[i]
  {
    assert lines[start..i + 1][..i - start] == lines[start..i];
  }

  lemma BalanceSnoc(s: string, c: char)
    ensures Balance(s + [c]) == Balance(s) + Delta(c)
    ensures ('{' in s + [c]) <==> ('{' in s || c == '{')
  {
    assert (s + [c])[..|s|] == s;
  }

  /** One character of the scan: how the count, the first-brace flag and
      the closing test follow from the text read so far. */
  /** A prefix of `before + line` that reaches into `line`. */
  lemma JoinPrefix(before: string, line: string, j: nat)
    requires j <= |line|
    ensures (before + line)[..|before| + j] == before + line[..j]
  {
    var s := before + line;
    assert forall m :: 0 <= m < |before| + j ==> s[..|before| + j][m] == (before + line[..j])[m];
  }

  /** `ClosesAt` in terms of the two prefixes it looks at. */
  lemma ClosesAtPrefixes(s: string, k: nat, upTo: string, through: string)
    requires k < |s| && s[..k] == upTo && s[..k + 1] == through
    ensures ClosesAt(s, k) <==> s[k] == '}' && '{' in upTo && Balance(through) == 0
  {
  }

  /** One more character of `line` read after `before`. */
  lemma ReadOneMore(before: string, line: string, j: nat)
    requires j < |line|
    ensures before + line[..j + 1] == (before + line[..j]) + [line[j]]
  {
    assert line[..j + 1] == line[..j] + [line[j]];
  }

  /** Whether the character just read closes. */
  lemma ScanStep(before: string, line: string, j: nat)
    requires j < |line|
    ensures ClosesAt(before + line, |before| + j)
        <==> line[j] == '}' && '{' in before + line[..j] && Balance(before + line[..j + 1]) == 0
  {
    var s := before + line;
    JoinPrefix(before, line, j);
    JoinPrefix(before, line, j + 1);
    assert s[|before| + j] == line[j];
    ClosesAtPrefixes(s, |before| + j, before + line[..j], before + line[..j + 1]);
  }

  /** What the scan of `line` knows after its first `j` characters: the
      count and the first-brace flag of the text read so far, and no
      closing position among those characters. */
  ghost predicate Scanned(before: string, line: string, j: nat, openBraces: int, foundFirstBrace: bool)
    requires j <= |line|
  {
    && openBraces == Balance(before + line[..j])
    && foundFirstBrace == ('{' in before + line[..j])
    && forall k :: |before| <= k < |before| + j ==> !ClosesAt(before + line, k)
  }

  /** A character that does not close the method moves the scan on. */
  lemma ScanAdvance(before: string, line: string, j: nat, openBraces: int, foundFirstBrace: bool)
    requires j < |line| && Scanned(before, line, j, openBraces, foundFirstBrace)
    requires !(line[j] == '}' && foundFirstBrace && openBraces - 1 == 0)
    ensures Scanned(before, line, j + 1, openBraces + Delta(line[j]), foundFirstBrace || line[j] == '{')
  {
    ScanStep(before, line, j);
    ReadOneMore(before, line, j);
    BalanceSnoc(before + line[..j], line[j]);
  }

  /** A `}` that brings the count back to zero after a `{` closes it. */
  lemma ScanCloses(before: string, line: string, j: nat, openBraces: int, foundFirstBrace: bool)
    requires j < |line| && Scanned(before, line, j, openBraces, foundFirstBrace)
    requires line[j] == '}' && foundFirstBrace && openBraces - 1 == 0
    ensures LineCloses(before, line)
  {
    ScanStep(before, line, j);
    ReadOneMore(before, line, j);
    BalanceSnoc(before + line[..j], line[j]);
    assert ClosesAt(before + line, |before| + j);
  }

  /** A line scanned to its end without closing. */
  lemma ScanEnds(before: string, line: string, openBraces: int, foundFirstBrace: bool)
    requires Scanned(before, line, |line|, openBraces, foundFirstBrace)
    ensures !LineCloses(before, line)
    ensures openBraces == Balance(before + line) && foundFirstBrace == ('{' in before + line)
  {
    assert line[..|line|] == line;
  }

  /** The inner loop of `findMethodEndLine`: scans one line, given the
      count and the first-brace flag of the text `before` read so far, and
      reports whether the line closes the method. */
  method ScanLine(ghost before: string, line: string, openBraces: int, foundFirstBrace: bool)
    returns (closed: bool, openAfter: int, foundAfter: bool)
    requires openBraces == Balance(before) && foundFirstBrace == ('{' in before)
    ensures closed <==> LineCloses(before, line)
    ensures !closed ==> openAfter == Balance(before + line) && foundAfter == ('{' in before + line)
  {
    openAfter, foundAfter := openBraces, foundFirstBrace;
    var j := 0;
    assert before + line[..0] == before;
    while j < |line|
      invariant 0 <= j <= |line|
      invariant Scanned(before, line, j, openAfter, foundAfter)
    {
      var c := line[j];
      ghost var open0, found0 := openAfter, foundAfter;
      if c == '{' {
        openAfter := openAfter + 1;
        foundAfter := true;
      } else if c == '}' {
        openAfter := openAfter - 1;
        if foundAfter && openAfter == 0 {
          ScanCloses(before, line, j, open0, found0);
          return true, openAfter, foundAfter;
        }
      }
      ScanAdvance(before, line, j, open0, found0);
      j := j + 1;
    }
    ScanEnds(before, line, openAfter, foundAfter);
    return false, openAfter, foundAfter;
  }

  /** `findMethodEndLine` (EnhancedExceptionSpanExporter, and
      CodeExtractionUtils whose callers pass only starts in range). */
  method FindMethodEndLine(lines: seq<string>, methodStartLine: int) returns (r: int)
    ensures r == EndLine(lines, methodStartLine)
  {
    var startIndex := methodStartLine - 1;
    if startIndex < 0 || startIndex >= |lines| {
      return -1;
    }
    var openBraces := 0;
    var foundFirstBrace := false;
    var i := startIndex;
    while i < |lines|
      invariant startIndex <= i <= |lines|
      invariant EndSearch(lines, startIndex, startIndex) == EndSearch(lines, startIndex, i)
      invariant openBraces == Balance(Concat(lines[startIndex..i]))
      invariant foundFirstBrace == ('{' in Concat(lines[startIndex..i]))
    {
      ghost var before := Concat(lines[startIndex..i]);
      var closed;
      closed, openBraces, foundFirstBrace := ScanLine(before, lines[i], openBraces, foundFirstBrace);
      if closed {
        return i + 1;
      }
      ConcatSnoc(lines, startIndex, i);
      i := i + 1;
    }
    return -1;
  }

  // ---------------------------------------------------------------------
  // the backward scan for the declaration

  /** The scans below take the two line classifiers as values: each tests
      a line of the file, trimmed, for the method name being sought. */
  type LineTest = string -> bool

  function DeclarationTest(name: string): LineTest {
    line => IsMethodDeclaration(Trim(line), name)
  }

  function StopTest(name: string): LineTest {
    line => IsAnotherMethodOrClassDeclaration(Trim(line), name)
  }

  /** The pair of classifiers the scans use for a method name. The
      members above the scans take it as a parameter; the source always
      uses `Declarations`. */
  datatype Classifiers = Classifiers(declares: string -> LineTest, stops: string -> LineTest)

  const Declarations: Classifiers := Classifiers(DeclarationTest, StopTest)

  /** From index `i` down to 0: the 1-based line of the first line that passes `declares`, or -1 when a line passing `stops` comes first,
      or no line passes. */
  function BackwardScan(lines: seq<string>, i: int, declares: LineTest, stops: LineTest): (r: int)
    requires i < |lines|
    ensures r == -1 || 1 <= r <= i + 1
    ensures r > 0 ==> declares(lines[r - 1])
    ensures r > 0 ==> forall m :: r - 1 < m <= i ==> !declares(lines[m]) && !stops(lines[m])
    ensures r == -1 ==> forall m :: 0 <= m <= i && (forall n :: m < n <= i ==> !stops(lines[n])) ==>
      !declares(lines[m])
    decreases i + 1
  {
    if i < 0 then -1
    else
      if declares(lines[i]) then i + 1
      else if stops(lines[i]) then -1
      else BackwardScan(lines, i - 1, declares, stops)
  }

  /** The loop of `findMethodBoundaries` and `findMethodDeclarationLine`. */
  method ScanBackward(lines: seq<string>, from: int, declares: LineTest, stops: LineTest) returns (r: int)
    requires -1 <= from < |lines|
    ensures r == BackwardScan(lines, from, declares, stops)
  {
    var i := from;
    while i >= 0
      invariant -1 <= i <= from
      invariant BackwardScan(lines, from, declares, stops) == BackwardScan(lines, i, declares, stops)
      decreases i + 1
    {
      if declares(lines[i]) {
        return i + 1;
      }
      if stops(lines[i]) {
        break;
      }
      i := i - 1;
    }
    return -1;
  }

  // ---------------------------------------------------------------------
  // method boundaries (EnhancedExceptionSpanExporter)

  datatype Bounds = NotFound | Found(startLine: int, endLine: int)

  /** `findMethodInEntireFile` from index `i` on: the first line passing
      `declares` whose braces close, with its end line. */
  function WholeFileFrom(lines: seq<string>, i: nat, declares: LineTest): (r: Bounds)
    requires i <= |lines|
    ensures r.Found? ==> i + 1 <= r.startLine <= r.endLine <= |lines|
    ensures r.Found? ==> declares(lines[r.startLine - 1]) && r.endLine == EndLine(lines, r.startLine)
    decreases |lines| - i
  {
    if i == |lines| then NotFound
    else if Encloses(lines, i, declares) then Found(i + 1, EndLine(lines, i + 1))
    else WholeFileFrom(lines, i + 1, declares)
  }

  /** Line index `m` declares the method and its braces close. */
  predicate Encloses(lines: seq<string>, m: nat, declares: LineTest)
    requires m < |lines|
  {
    declares(lines[m]) && EndLine(lines, m + 1) != -1
  }

  /** The whole-file search takes the first enclosing declaration: every
      line it passes over is not one, and when it finds none there is
      none. */
  lemma {:induction false} WholeFileFromIsFirst(lines: seq<string>, i: nat, declares: LineTest)
    requires i <= |lines|
    ensures WholeFileFrom(lines, i, declares).Found? <==> exists m :: i <= m < |lines| && Encloses(lines, m, declares)
    ensures WholeFileFrom(lines, i, declares).Found? ==>
      forall m :: i <= m < WholeFileFrom(lines, i, declares).startLine - 1 ==> !Encloses(lines, m, declares)
    decreases |lines| - i
  {
    if i < |lines| && !Encloses(lines, i, declares) {
      WholeFileFromIsFirst(lines, i + 1, declares);
    }
  }

  /** `findMethodBoundaries`: the backward scan from the error line, and
      the whole-file search when the error line is out of range or the scan
      finds nothing. */
  function Boundaries(lines: seq<string>, errorLine: int, declares: LineTest, stops: LineTest): (r: Bounds)
    ensures r.Found? ==> 1 <= r.startLine <= r.endLine <= |lines|
    ensures r.Found? ==> declares(lines[r.startLine - 1]) && r.endLine == EndLine(lines, r.startLine)
  {
    if |lines| == 0 then NotFound
    else if errorLine <= 0 || errorLine > |lines| then WholeFileFrom(lines, 0, declares)
    else
      var start := BackwardScan(lines, Min(errorLine - 1, |lines| - 1), declares, stops);
      if start == -1 then WholeFileFrom(lines, 0, declares)
      else
        var end := EndLine(lines, start);
        if end != -1 && end <= |lines| then Found(start, end) else NotFound
  }

  function Min(a: int, b: int): int {
    if a <= b then a else b
  }

  function Max(a: int, b: int): int {
    if a >= b then a else b
  }

  /** A declaration found by the backward scan is never passed over for
      the whole-file search: if its braces do not close there are no
      boundaries, even when a later declaration of the same name would
      close; and when they do close, the method starts at or above the
      error line. */
  lemma BackwardDeclarationIsFinal(lines: seq<string>, errorLine: int, declares: LineTest, stops: LineTest)
    requires 1 <= errorLine <= |lines|
    requires BackwardScan(lines, errorLine - 1, declares, stops) > 0
    ensures EndLine(lines, BackwardScan(lines, errorLine - 1, declares, stops)) == -1 ==>
      Boundaries(lines, errorLine, declares, stops) == NotFound
    ensures EndLine(lines, BackwardScan(lines, errorLine - 1, declares, stops)) != -1 ==>
      Boundaries(lines, errorLine, declares, stops).Found?
      && Boundaries(lines, errorLine, declares, stops).startLine <= errorLine
  {
    assert Min(errorLine - 1, |lines| - 1) == errorLine - 1;
  }

  method FindMethodInEntireFile(lines: seq<string>, declares: LineTest) returns (r: Bounds)
    ensures r == WholeFileFrom(lines, 0, declares)
  {
    var i := 0;
    while i < |lines|
      invariant 0 <= i <= |lines|
      invariant WholeFileFrom(lines, 0, declares) == WholeFileFrom(lines, i, declares)
    {
      if declares(lines[i]) {
        var methodStartLine := i + 1;
        var methodEndLine := FindMethodEndLine(lines, methodStartLine);
        if methodEndLine != -1 && methodEndLine <= |lines| {
          return Found(methodStartLine, methodEndLine);
        }
      }
      i := i + 1;
    }
    return NotFound;
  }

  method FindMethodBoundaries(lines: seq<string>, errorLine: int, declares: LineTest, stops: LineTest) returns (r: Bounds)
    ensures r == Boundaries(lines, errorLine, declares, stops)
  {
    if |lines| == 0 {
      return NotFound;
    }
    if errorLine <= 0 || errorLine > |lines| {
      r := FindMethodInEntireFile(lines, declares);
      return;
    }
    var methodStartLine := ScanBackward(lines, Min(errorLine - 1, |lines| - 1), declares, stops);
    if methodStartLine == -1 {
      r := FindMethodInEntireFile(lines, declares);
      return;
    }
    var methodEndLine := FindMethodEndLine(lines, methodStartLine);
    if methodEndLine != -1 && methodEndLine <= |lines| {
      r := Found(methodStartLine, methodEndLine);
    } else {
      r := NotFound;
    }
  }

  // ---------------------------------------------------------------------
  // the declaration line of CodeExtractionUtils

  /** The outcome of `findMethodDeclarationLine`: a 1-based line or -1, or
      the `IndexOutOfBoundsException` of reading past the last line. */
  datatype DeclarationSearch = Throws | DeclarationLine(line: int)

  /** `findMethodDeclarationLine`: the same backward scan, started at
      `errorLine - 1` without clamping it to the file. */
  function DeclarationLineOf(lines: seq<string>, errorLine: int, declares: LineTest, stops: LineTest): (r: DeclarationSearch)
    ensures r == Throws <==> errorLine - 1 >= |lines|
    ensures r.DeclarationLine? ==> r.line == -1 || 1 <= r.line <= errorLine
  {
    if errorLine - 1 >= |lines| then Throws
    else DeclarationLine(BackwardScan(lines, errorLine - 1, declares, stops))
  }

  method FindMethodDeclarationLine(lines: seq<string>, errorLine: int, declares: LineTest, stops: LineTest)
    returns (r: DeclarationSearch)
    ensures r == DeclarationLineOf(lines, errorLine, declares, stops)
  {
    if errorLine - 1 >= |lines| {
      return Throws;
    }
    if errorLine - 1 < -1 {
      return DeclarationLine(-1);
    }
    var line := ScanBackward(lines, errorLine - 1, declares, stops);
    return DeclarationLine(line);
  }

  // ---------------------------------------------------------------------
  // the context window

  /** The lines `errorLine - size` through `errorLine + size`, clamped to
      the file. */
  function Window(lineCount: nat, errorLine: int, size: nat): (r: (int, int))
    ensures r.0 >= 1 && r.1 <= lineCount
    ensures r.0 == Max(1, errorLine - size) && r.1 == Min(lineCount, errorLine + size)
    ensures 1 <= errorLine <= lineCount ==> r.0 <= errorLine <= r.1 && r.1 - r.0 <= 2 * size
  {
    (Max(1, errorLine - size), Min(lineCount, errorLine + size))
  }

  /** Lines `first` through `last` (1-based), those outside the file
      skipped: the loop `for i in first..last, if 1 <= i <= size`. */
  function LinesBetween(lines: seq<string>, first: int, last: int): seq<string>
    decreases last - first
  {
    if first > last then []
    else LinesBetween(lines, first, last - 1) + (if 1 <= last <= |lines| then [lines[last - 1]] else [])
  }

  /** Within the file, the lines between two line numbers are the slice
      between them. */
  lemma {:induction false} LinesBetweenSlice(lines: seq<string>, first: int, last: int)
    requires 1 <= first && last <= |lines| && first <= last + 1
    ensures LinesBetween(lines, first, last) == lines[first - 1..last]
    decreases last - first
  {
    if first <= last {
      LinesBetweenSlice(lines, first, last - 1);
      assert lines[first - 1..last] == lines[first - 1..last - 1] + [lines[last - 1]];
    }
  }
}
