/** The stack-trace text parser. `parseStackTraceLine` and the loop that
    feeds it every trimmed line starting with `at ` appear, token for token
    the same, in EnhancedExceptionSpanExporter (`parseStacktraceForAllCode`)
    and SpanCodeEnhancer (`parseStacktraceString`); CodeContextSpanExporter
    and CodeContextSpanProcessor use the same line parser behind an extra
    line filter (see module CodeContextExporter). */
module StackTrace {
  import opened Wrappers
  import opened Text

  /** `StackTraceElement`: declaring class, method, file (may be null) and
      line number (negative when unknown). */
  datatype Frame = Frame(className: string, methodName: string, fileName: Option<string>, lineNumber: int)

  /** `parseStackTraceLine`: drops the first three characters (`at `), then
      splits at the last `(` into class-and-method and the parenthesised
      text, whose last character is taken to be `)`. Any failure gives null. */
  function ParseFrame(line: string): (r: Option<Frame>)
    ensures r.Some? ==> r.value.fileName.Some?
    ensures r.Some? ==> r.value.lineNumber == -1 || IsInt32(r.value.lineNumber)
  {
    if |line| < 3 then None else ParseCall(line[3..])
  }

  /** A `(` as the last character makes `substring(paren + 1, length - 1)`
      throw, which also gives null. */
  function ParseCall(rest: string): (r: Option<Frame>)
    ensures r.Some? ==> r.value.fileName.Some?
    ensures r.Some? ==> r.value.lineNumber == -1 || IsInt32(r.value.lineNumber)
  {
    var paren := LastIndexOf(rest, '(');
    if paren < 0 || paren + 1 > |rest| - 1 then None
    else
      match SplitMember(rest[..paren])
      case None => None
      case Some(member) =>
        var location := SplitLocation(rest[paren + 1..|rest| - 1]);
        Some(Frame(member.0, member.1, Some(location.0), location.1))
  }

  /** The class is what comes before the last `.`, the method what follows it. */
  function SplitMember(classAndMethod: string): Option<(string, string)> {
    var dot := LastIndexOf(classAndMethod, '.');
    if dot < 0 then None else Some((classAndMethod[..dot], classAndMethod[dot + 1..]))
  }

  /** File and line are split at the last `:`; an unparsable number, or no
      `:` at all, gives line -1. */
  function SplitLocation(fileAndLine: string): (r: (string, int))
    ensures r.1 == -1 || IsInt32(r.1)
  {
    var colon := LastIndexOf(fileAndLine, ':');
    if colon >= 0 then (fileAndLine[..colon], ParseInt(fileAndLine[colon + 1..]).GetOr(-1))
    else (fileAndLine, -1)
  }

  /** What one line of the trace contributes: a frame when the trimmed line
      starts with `at ` and parses. */
  function LineFrame(line: string): Option<Frame> {
    var t := Trim(line);
    if StartsWith(t, "at ") then ParseFrame(t) else None
  }

  function Frames(line: Option<Frame>): seq<Frame> {
    if line.Some? then [line.value] else []
  }

  function FramesOf(lines: seq<string>): seq<Frame> {
    if |lines| == 0 then []
    else FramesOf(lines[..|lines| - 1]) + Frames(LineFrame(lines[|lines| - 1]))
  }

  /** The frames of a whole trace text, in line order. */
  function ParseTrace(text: string): seq<Frame> {
    FramesOf(Split(text, '\n'))
  }

  /** `parseStacktraceForAllCode` / `parseStacktraceString`. */
  method ParseStacktrace(text: string) returns (frames: seq<Frame>)
    ensures frames == ParseTrace(text)
  {
    var lines := Split(text, '\n');
    frames := [];
    var i := 0;
    while i < |lines|
      invariant 0 <= i <= |lines|
      invariant frames == FramesOf(lines[..i])
    {
      var line := Trim(lines[i]);
      if StartsWith(line, "at ") {
        var element := ParseFrame(line);
        if element.Some? {
          frames := frames + [element.value];
        }
      }
      FramesOfSnoc(lines, i);
      i := i + 1;
    }
    assert lines[..|lines|] == lines;
  }

  lemma FramesOfSnoc(lines: seq<string>, i: nat)
    requires i < |lines|
    ensures FramesOf(lines[..i + 1]) == FramesOf(lines[..i]) + Frames(LineFrame(lines[i]))
  {
    assert lines[..i + 1][..i] == lines[..i];
  }

  /** Frames keep the order of their lines: the frames of two blocks of
      lines are the frames of the first followed by those of the second. */
  lemma {:induction false} FramesOfAppend(a: seq<string>, b: seq<string>)
    ensures FramesOf(a + b) == FramesOf(a) + FramesOf(b)
    decreases |b|
  {
    if |b| == 0 {
      assert a + b == a;
    } else {
      var b' := b[..|b| - 1];
      assert (a + b)[..|a + b| - 1] == a + b';
      assert (a + b)[|a + b| - 1] == b[|b| - 1];
      FramesOfAppend(a, b');
    }
  }

  /** Every frame comes from some line of the trace, and there are never
      more frames than lines. */
  lemma {:induction false} FramesComeFromLines(lines: seq<string>)
    ensures |FramesOf(lines)| <= |lines|
    ensures forall f :: f in FramesOf(lines) ==> exists k :: 0 <= k < |lines| && LineFrame(lines[k]) == Some(f)
  {
    if |lines| > 0 {
      var init := lines[..|lines| - 1];
      FramesComeFromLines(init);
      forall f | f in FramesOf(lines)
        ensures exists k :: 0 <= k < |lines| && LineFrame(lines[k]) == Some(f)
      {
        if f in FramesOf(init) {
          var k :| 0 <= k < |init| && LineFrame(init[k]) == Some(f);
          assert lines[k] == init[k];
        } else {
          assert LineFrame(lines[|lines| - 1]) == Some(f);
        }
      }
    }
  }

  // ---------------------------------------------------------------------
  // the parser as the inverse of the JVM's frame text

  /** `at class.method(file:line)`, as `Throwable.printStackTrace` writes a
      frame with a known file and line. */
  function FrameText(f: Frame): string
    requires f.fileName.Some?
  {
    "at " + f.className + "." + f.methodName + "(" + f.fileName.value + ":" + IntToString(f.lineNumber) + ")"
  }

  /** Frames the text form can carry unambiguously: a method name without
      `.`, a file name without `(`, and a line number in `int` range. */
  predicate Printable(f: Frame) {
    f.fileName.Some? && '.' !in f.methodName && '(' !in f.fileName.value && IsInt32(f.lineNumber)
  }

  lemma SplitMemberOf(className: string, methodName: string)
    requires '.' !in methodName
    ensures SplitMember(className + "." + methodName) == Some((className, methodName))
  {
    var cm := className + "." + methodName;
    assert cm == className + ['.'] + methodName;
    LastIndexOfSeparator(className, '.', methodName);
    assert cm[..|className|] == className;
    assert cm[|className| + 1..] == methodName;
  }

  lemma SplitLocationOf(file: string, number: int)
    requires IsInt32(number)
    ensures SplitLocation(file + ":" + IntToString(number)) == (file, number)
  {
    var digits := IntToString(number);
    var inner := file + ":" + digits;
    IntToStringHasNo(number, ':');
    assert inner == file + [':'] + digits;
    LastIndexOfSeparator(file, ':', digits);
    assert inner[..|file|] == file;
    assert inner[|file| + 1..] == digits;
    ParseIntOfIntToString(number);
  }

  lemma SplitLocationWithoutColon(text: string)
    requires ':' !in text
    ensures SplitLocation(text) == (text, -1)
  {
  }

  lemma ParseCallOf(classAndMethod: string, inner: string)
    requires '(' !in inner
    ensures ParseCall(classAndMethod + "(" + inner + ")")
         == match SplitMember(classAndMethod)
            case None => None
            case Some(member) =>
              Some(Frame(member.0, member.1, Some(SplitLocation(inner).0), SplitLocation(inner).1))
  {
    var rest := classAndMethod + "(" + inner + ")";
    assert '(' !in inner + ")";
    assert rest == classAndMethod + ['('] + (inner + ")");
    LastIndexOfSeparator(classAndMethod, '(', inner + ")");
    assert rest[..|classAndMethod|] == classAndMethod;
    assert rest[|classAndMethod| + 1..|rest| - 1] == inner;
  }

  lemma LineFrameOf(rest: string)
    requires |rest| > 0 && !IsTrimmable(rest[|rest| - 1])
    ensures LineFrame("at " + rest) == ParseCall(rest)
  {
    var line := "at " + rest;
    TrimOfTrimmed(line);
    assert StartsWith(line, "at ");
    assert line[3..] == rest;
  }

  /** Parsing the text of a printable frame gives the frame back. */
  lemma ParseFrameText(f: Frame)
    requires Printable(f)
    ensures LineFrame(FrameText(f)) == Some(f)
  {
    var file := f.fileName.value;
    var inner := file + ":" + IntToString(f.lineNumber);
    var classAndMethod := f.className + "." + f.methodName;
    assert FrameText(f) == "at " + (classAndMethod + "(" + inner + ")");
    LineFrameOf(classAndMethod + "(" + inner + ")");
    IntToStringHasNo(f.lineNumber, '(');
    ParseCallOf(classAndMethod, inner);
    SplitMemberOf(f.className, f.methodName);
    SplitLocationOf(file, f.lineNumber);
  }

  /** A frame written without a line number, as in `(Native Method)` or
      `(<generated>)`: the parenthesised text becomes the file name and the
      line is -1. */
  lemma ParseFrameWithoutLine(className: string, methodName: string, text: string)
    requires '.' !in methodName && '(' !in text && ':' !in text
    ensures LineFrame("at " + className + "." + methodName + "(" + text + ")")
         == Some(Frame(className, methodName, Some(text), -1))
  {
    var classAndMethod := className + "." + methodName;
    assert "at " + className + "." + methodName + "(" + text + ")" == "at " + (classAndMethod + "(" + text + ")");
    LineFrameOf(classAndMethod + "(" + text + ")");
    ParseCallOf(classAndMethod, text);
    SplitMemberOf(className, methodName);
    SplitLocationWithoutColon(text);
  }

  /** A line without `(` yields no frame. */
  lemma NoParenNoFrame(line: string)
    requires '(' !in line
    ensures ParseFrame(line) == None
  {
    if |line| >= 3 {
      assert forall k :: 0 <= k < |line[3..]| ==> line[3..][k] == line[k + 3];
    }
  }

  /** Leading white space such as the tab of `printStackTrace` output does
      not change the frame a line yields. */
  lemma LineFrameAfterIndent(indent: string, line: string)
    requires forall k :: 0 <= k < |indent| ==> IsTrimmable(indent[k])
    ensures LineFrame(indent + line) == LineFrame(line)
  {
    TrimAfterIndent(indent, line);
  }

  // ---------------------------------------------------------------------
  // the parser as the inverse of a whole printed trace

  /** Frames whose text stays on one line. */
  predicate OneLine(f: Frame)
    requires f.fileName.Some?
  {
    '\n' !in f.className && '\n' !in f.methodName && '\n' !in f.fileName.value
  }

  /** The frame lines `printStackTrace` writes: a tab, then the frame. */
  function TraceLines(frames: seq<Frame>): (r: seq<string>)
    requires forall k :: 0 <= k < |frames| ==> frames[k].fileName.Some?
    ensures |r| == |frames|
  {
    if |frames| == 0 then []
    else TraceLines(frames[..|frames| - 1]) + ["\t" + FrameText(frames[|frames| - 1])]
  }

  /** Line `k` of the printed frames is frame `k` after a tab. */
  lemma {:induction false} TraceLineAt(frames: seq<Frame>, k: nat)
    requires forall k :: 0 <= k < |frames| ==> frames[k].fileName.Some?
    requires k < |frames|
    ensures TraceLines(frames)[k] == "\t" + FrameText(frames[k])
  {
    var n := |frames| - 1;
    var init := frames[..n];
    var lines := TraceLines(frames);
    assert lines == TraceLines(init) + ["\t" + FrameText(frames[n])];
    if k < n {
      TraceLineAt(init, k);
      assert init[k] == frames[k];
    }
  }

  /** A printed trace: the header line (`exception type: message`), then
      one line per frame. */
  function TraceText(header: string, frames: seq<Frame>): string
    requires forall k :: 0 <= k < |frames| ==> frames[k].fileName.Some?
  {
    Join([header] + TraceLines(frames), "\n")
  }

  /** One printed frame line yields exactly its frame. */
  lemma FrameLineFrames(f: Frame)
    requires Printable(f)
    ensures FramesOf(["\t" + FrameText(f)]) == [f]
  {
    var line := "\t" + FrameText(f);
    assert [line][..0] == [];
    LineFrameAfterIndent("\t", FrameText(f));
    ParseFrameText(f);
  }

  lemma {:induction false} FramesOfTraceLines(frames: seq<Frame>)
    requires forall k :: 0 <= k < |frames| ==> frames[k].fileName.Some? && Printable(frames[k])
    ensures FramesOf(TraceLines(frames)) == frames
  {
    if |frames| > 0 {
      var n := |frames| - 1;
      var rest, last := frames[..n], frames[n];
      var line := "\t" + FrameText(last);
      assert TraceLines(frames) == TraceLines(rest) + [line];
      FramesOfTraceLines(rest);
      FramesOfAppend(TraceLines(rest), [line]);
      FrameLineFrames(last);
      assert rest + [last] == frames;
    }
  }

  /** A one-line frame prints as a line without a line break. */
  lemma TraceLineHasNoBreak(f: Frame)
    requires f.fileName.Some? && OneLine(f)
    ensures '\n' !in "\t" + FrameText(f)
  {
    IntToStringHasNo(f.lineNumber, '\n');
  }

  /** Every printed frame line holds a tab and no line break. */
  lemma TraceLinesHaveNoBreak(frames: seq<Frame>)
    requires forall k :: 0 <= k < |frames| ==> frames[k].fileName.Some? && OneLine(frames[k])
    ensures forall k :: 0 <= k < |frames| ==> TraceLines(frames)[k] != "" && '\n' !in TraceLines(frames)[k]
  {
    forall k | 0 <= k < |frames| ensures TraceLines(frames)[k] != "" && '\n' !in TraceLines(frames)[k] {
      TraceLineAt(frames, k);
      TraceLineHasNoBreak(frames[k]);
    }
  }

  /** Parsing a printed trace gives back every frame, in order, whatever
      the header line says, as long as it is not itself a frame. */
  lemma ParseTraceOfText(header: string, frames: seq<Frame>)
    requires '\n' !in header && LineFrame(header) == None
    requires forall k :: 0 <= k < |frames| ==> frames[k].fileName.Some? && Printable(frames[k]) && OneLine(frames[k])
    ensures ParseTrace(TraceText(header, frames)) == frames
  {
    var lines := TraceLines(frames);
    var parts := [header] + lines;
    TraceLinesHaveNoBreak(frames);
    assert forall k :: 1 <= k < |parts| ==> parts[k] == lines[k - 1];
    SplitOfJoin(parts, '\n');
    assert ParseTrace(TraceText(header, frames)) == FramesOf(parts);
    FramesOfAppend([header], lines);
    assert [header][..0] == [];
    assert FramesOf([header]) == [];
    FramesOfTraceLines(frames);
  }
}
