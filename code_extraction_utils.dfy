/** CodeExtractionUtils: the code context of a stack frame, that is the
    complete method around the failing line or, failing that, a window of
    lines around it, keyed by 1-based line number in ascending order. The
    source file is read through a lookup from class and file name to lines. */
module CodeExtraction {
  import opened Wrappers
  import opened Text
  import opened StackTrace
  import opened Extraction

  /** A `LinkedHashMap<Integer, String>` filled with fresh keys: the entries
      in insertion order. */
  type NumberedLines = seq<(int, string)>

  /** `readSourceFile`: the lines of a source file, empty when none is found. */
  type SourceLookup = (string, string) -> seq<string>

  /** `CONTEXT_LINES`. */
  const ContextLines: nat := 5

  /** The entries `i -> lines[i - 1]` for `i` from `first` to `last`, those
      outside the file left out. */
  function NumberedRange(lines: seq<string>, first: int, last: int): NumberedLines
    decreases last - first
  {
    if first > last then []
    else if 1 <= first <= |lines| then [(first, lines[first - 1])] + NumberedRange(lines, first + 1, last)
    else NumberedRange(lines, first + 1, last)
  }

  /** The range holds exactly the lines of the file between `first` and
      `last`: consecutive ascending keys from max(1, first) to
      min(|lines|, last), each with its own line. */
  lemma {:induction false} NumberedRangeContents(lines: seq<string>, first: int, last: int)
    ensures var lo, hi := Max(1, first), Min(|lines|, last);
      |NumberedRange(lines, first, last)| == (if lo <= hi then hi - lo + 1 else 0)
      && forall j :: 0 <= j < |NumberedRange(lines, first, last)| ==>
        1 <= lo + j <= |lines| && NumberedRange(lines, first, last)[j] == (lo + j, lines[lo + j - 1])
    decreases last - first
  {
    if first <= last {
      var r, rest := NumberedRange(lines, first, last), NumberedRange(lines, first + 1, last);
      NumberedRangeContents(lines, first + 1, last);
      if 1 <= first <= |lines| {
        assert r == [(first, lines[first - 1])] + rest;
        assert forall j :: 1 <= j < |r| ==> r[j] == rest[j - 1];
      } else {
        assert r == rest;
      }
    }
  }

  /** Extending the range by one line at the top end. */
  lemma NumberedRangeSnoc(lines: seq<string>, first: int, last: int)
    requires first <= last + 1
    ensures NumberedRange(lines, first, last + 1)
         == NumberedRange(lines, first, last) + (if 1 <= last + 1 <= |lines| then [(last + 1, lines[last])] else [])
    decreases last - first
  {
    if first <= last {
      NumberedRangeSnoc(lines, first + 1, last);
    }
  }

  /** The loop `for i in first..last, if 1 <= i <= size: put(i, line)` of
      `extractContextLines` and `extractCompleteMethod`. */
  method PutLines(lines: seq<string>, first: int, last: int) returns (r: NumberedLines)
    ensures r == NumberedRange(lines, first, last)
  {
    r := [];
    var i := first;
    if first > last + 1 {
      return;
    }
    while i <= last
      invariant first <= last + 1 ==> first <= i <= last + 1
      invariant r == NumberedRange(lines, first, i - 1)
      decreases last - i
    {
      NumberedRangeSnoc(lines, first, i - 1);
      if 1 <= i <= |lines| {
        r := r + [(i, lines[i - 1])];
      }
      i := i + 1;
    }
  }

  /** `extractContextLines`: the lines of the clamped window around the
      error line. */
  method ExtractContextLines(lines: seq<string>, errorLine: int, size: nat) returns (r: NumberedLines)
    ensures r == NumberedRange(lines, Max(1, errorLine - size), Min(|lines|, errorLine + size))
  {
    var window := Window(|lines|, errorLine, size);
    r := PutLines(lines, window.0, window.1);
  }

  /** What `extractCompleteMethod` returns: the lines of the method whose
      declaration the backward scan finds and whose braces close, or the
      window of `CONTEXT_LINES` around the error line when there is no
      declaration, no end, or the scan throws. */
  function CompleteMethod(lines: seq<string>, errorLine: int, declares: LineTest, stops: LineTest): NumberedLines {
    var window := NumberedRange(lines, Max(1, errorLine - ContextLines), Min(|lines|, errorLine + ContextLines));
    match DeclarationLineOf(lines, errorLine, declares, stops)
    case Throws => window
    case DeclarationLine(start) =>
      if start == -1 then window
      else
        var end := EndLine(lines, start);
        if end == -1 then window else NumberedRange(lines, start, end)
  }

  /** When a method is found its lines are exactly lines `start` through
      `end`: the declaration is at or above the error line and passes the
      declaration test, and `end` is where its braces close. Otherwise the
      result is the window. */
  lemma CompleteMethodFound(lines: seq<string>, errorLine: int, declares: LineTest, stops: LineTest)
    ensures var d := DeclarationLineOf(lines, errorLine, declares, stops);
      if d.DeclarationLine? && d.line != -1 && EndLine(lines, d.line) != -1 then
        1 <= d.line <= errorLine && d.line <= EndLine(lines, d.line) <= |lines|
        && declares(lines[d.line - 1])
        && CompleteMethod(lines, errorLine, declares, stops) == NumberedRange(lines, d.line, EndLine(lines, d.line))
      else
        CompleteMethod(lines, errorLine, declares, stops)
        == NumberedRange(lines, Max(1, errorLine - ContextLines), Min(|lines|, errorLine + ContextLines))
  {
  }

  /** An error line past the end of the file makes the declaration scan
      read past the last line; the exception falls back to the window. */
  lemma PastTheEndFallsBack(lines: seq<string>, errorLine: int, declares: LineTest, stops: LineTest)
    requires errorLine > |lines|
    ensures CompleteMethod(lines, errorLine, declares, stops)
         == NumberedRange(lines, Max(1, errorLine - ContextLines), Min(|lines|, errorLine + ContextLines))
  {
  }

  /** `extractCompleteMethod`, with the classifiers of `methodName`. */
  method ExtractCompleteMethod(lines: seq<string>, errorLine: int, methodName: string, cl: Classifiers)
    returns (r: NumberedLines)
    ensures r == CompleteMethod(lines, errorLine, cl.declares(methodName), cl.stops(methodName))
  {
    var declares, stops := cl.declares(methodName), cl.stops(methodName);
    var search := FindMethodDeclarationLine(lines, errorLine, declares, stops);
    if search.Throws? || search.line == -1 {
      r := ExtractContextLines(lines, errorLine, ContextLines);
      return;
    }
    var methodStartLine := search.line;
    var methodEndLine := FindMethodEndLine(lines, methodStartLine);
    if methodEndLine == -1 {
      r := ExtractContextLines(lines, errorLine, ContextLines);
      return;
    }
    r := PutLines(lines, methodStartLine, methodEndLine);
  }

  /** The packages `isApplicationCode` treats as framework or system code. */
  const SystemPackages: seq<string> := [
    "java.", "javax.", "sun.", "com.sun.", "org.springframework.", "org.apache.",
    "io.opentelemetry.", "org.slf4j.", "ch.qos.logback.", "org.junit."]

  /** `isApplicationCode`: a class name that starts with none of the system
      packages; null is not application code. */
  function IsApplicationCode(className: Option<string>): (r: bool)
    ensures r <==> className.Some? && forall k :: 0 <= k < |SystemPackages| ==> !StartsWith(className.value, SystemPackages[k])
  {
    className.Some? && NoSystemPrefix(className.value, 0)
  }

  function NoSystemPrefix(className: string, k: nat): (r: bool)
    requires k <= |SystemPackages|
    ensures r <==> forall j :: k <= j < |SystemPackages| ==> !StartsWith(className, SystemPackages[j])
    decreases |SystemPackages| - k
  {
    k == |SystemPackages| || (!StartsWith(className, SystemPackages[k]) && NoSystemPrefix(className, k + 1))
  }

  /** The non-empty map of `extractCodeContext`. */
  datatype CodeContext = CodeContext(
    fileName: string,
    className: string,
    methodName: string,
    lineNumber: int,
    methodLines: NumberedLines,
    errorLine: Option<string>,
    extractionType: string)

  /** `Map.get` on the entries. */
  function LineAt(entries: NumberedLines, key: int): (r: Option<string>)
    ensures r.Some? <==> exists j :: 0 <= j < |entries| && entries[j].0 == key
    ensures r.Some? ==> exists j :: 0 <= j < |entries| && entries[j] == (key, r.value)
  {
    if |entries| == 0 then None
    else if entries[0].0 == key then Some(entries[0].1)
    else
      var r := LineAt(entries[1..], key);
      assert r.Some? ==> exists j :: 0 <= j < |entries[1..]| && entries[1..][j] == (key, r.value);
      r
  }

  /** `extractCodeContext`: no context (the empty map) for a null element,
      a null file name, a line number below 1 or an empty source; otherwise
      the complete method, the line at the error line, and the extraction
      type `complete_method` whether or not the method was found. */
  function ExtractCodeContext(element: Option<Frame>, source: SourceLookup, cl: Classifiers): (r: Option<CodeContext>)
    ensures r.None? <==>
      element.None? || element.value.fileName.None? || element.value.lineNumber <= 0
      || source(element.value.className, element.value.fileName.value) == []
    ensures r.Some? ==>
      && r.value.extractionType == "complete_method"
      && r.value.lineNumber == element.value.lineNumber
      && r.value.errorLine == LineAt(r.value.methodLines, r.value.lineNumber)
  {
    if element.None? then None
    else
      var f := element.value;
      if f.fileName.None? || f.lineNumber <= 0 then None
      else
        var lines := source(f.className, f.fileName.value);
        if lines == [] then None
        else
          var methodLines := CompleteMethod(lines, f.lineNumber, cl.declares(f.methodName), cl.stops(f.methodName));
          Some(CodeContext(f.fileName.value, f.className, f.methodName, f.lineNumber,
            methodLines, LineAt(methodLines, f.lineNumber), "complete_method"))
  }

  /** `Map.get` on a range of lines: the line itself for a key inside the
      clamped range, null outside it. So `error_line` is the source line
      whenever the error line lies in the method or window returned. */
  lemma LineAtRange(lines: seq<string>, first: int, last: int, key: int)
    ensures LineAt(NumberedRange(lines, first, last), key)
         == if Max(1, first) <= key <= Min(|lines|, last) then Some(lines[key - 1]) else None
  {
    var m := NumberedRange(lines, first, last);
    var lo := Max(1, first);
    NumberedRangeContents(lines, first, last);
    if lo <= key <= Min(|lines|, last) {
      assert m[key - lo] == (key, lines[key - 1]);
      LineAtUnique(m, key - lo);
    } else {
      assert forall j :: 0 <= j < |m| ==> m[j].0 != key;
    }
  }

  /** With ascending keys, an entry is the one `Map.get` finds. */
  lemma LineAtUnique(entries: NumberedLines, j: nat)
    requires j < |entries|
    requires forall a, b :: 0 <= a < b < |entries| ==> entries[a].0 < entries[b].0
    ensures LineAt(entries, entries[j].0) == Some(entries[j].1)
  {
    if j > 0 {
      assert entries[0].0 != entries[j].0;
      LineAtUnique(entries[1..], j - 1);
    }
  }

  /** The contexts of the frames examined, in order: application frames
      whose context is not empty. */
  function Contexts(frames: seq<Frame>, source: SourceLookup, cl: Classifiers): (r: seq<CodeContext>)
    ensures |r| <= |frames|
  {
    if |frames| == 0 then []
    else
      var init := Contexts(frames[..|frames| - 1], source, cl);
      var f := frames[|frames| - 1];
      if IsApplicationCode(Some(f.className)) && ExtractCodeContext(Some(f), source, cl).Some? then
        init + [ExtractCodeContext(Some(f), source, cl).value]
      else init
  }

  lemma ContextsSnoc(frames: seq<Frame>, i: nat, source: SourceLookup, cl: Classifiers)
    requires i < |frames|
    ensures Contexts(frames[..i + 1], source, cl)
         == Contexts(frames[..i], source, cl)
          + (if IsApplicationCode(Some(frames[i].className)) && ExtractCodeContext(Some(frames[i]), source, cl).Some?
             then [ExtractCodeContext(Some(frames[i]), source, cl).value] else [])
  {
    assert frames[..i + 1][..i] == frames[..i];
  }

  /** `extractCodeContextFromStackTrace`: only the first ten frames are
      examined; a null or empty trace gives no contexts. */
  method ExtractCodeContextFromStackTrace(stackTrace: Option<seq<Frame>>, source: SourceLookup, cl: Classifiers)
    returns (contexts: seq<CodeContext>)
    ensures stackTrace.None? ==> contexts == []
    ensures stackTrace.Some? ==> contexts == Contexts(stackTrace.value[..Min(|stackTrace.value|, 10)], source, cl)
  {
    contexts := [];
    if stackTrace.None? || |stackTrace.value| == 0 {
      return;
    }
    var trace := stackTrace.value;
    var framesToProcess := Min(|trace|, 10);
    var i := 0;
    while i < framesToProcess
      invariant 0 <= i <= framesToProcess
      invariant contexts == Contexts(trace[..i], source, cl)
    {
      var element := trace[i];
      ContextsSnoc(trace, i, source, cl);
      if IsApplicationCode(Some(element.className)) {
        var context := ExtractCodeContext(Some(element), source, cl);
        if context.Some? {
          contexts := contexts + [context.value];
        }
      }
      i := i + 1;
    }
  }

  /** Every context comes from an application frame among those examined,
      and the contexts keep the frames' order. */
  lemma {:induction false} ContextsFromApplicationFrames(frames: seq<Frame>, source: SourceLookup, cl: Classifiers)
    ensures forall c :: c in Contexts(frames, source, cl) ==>
      exists k :: 0 <= k < |frames| && IsApplicationCode(Some(frames[k].className))
        && ExtractCodeContext(Some(frames[k]), source, cl) == Some(c)
  {
    if |frames| > 0 {
      var init := frames[..|frames| - 1];
      ContextsFromApplicationFrames(init, source, cl);
      forall c | c in Contexts(frames, source, cl)
        ensures exists k ::
          && 0 <= k < |frames| && IsApplicationCode(Some(frames[k].className))
          && ExtractCodeContext(Some(frames[k]), source, cl) == Some(c)
      {
        if c in Contexts(init, source, cl) {
          var k :| 0 <= k < |init| && IsApplicationCode(Some(init[k].className))
            && ExtractCodeContext(Some(init[k]), source, cl) == Some(c);
          assert frames[k] == init[k];
        }
      }
    }
  }
}
