/** ExceptionStackDetailsInstrumentation: advice around
    `ApplicationSpan.recordException` that adds an `exception.stack_details`
    attribute built from the throwable's own stack trace. Each frame gets a
    record; frames of user classes whose source file is found on the class
    path also get the text of the method, cut out of the file by counting
    braces. The throwable is modelled by its stack trace, the class path and
    the file system by inputs. */
module StackDetailsInstrumentation {
  import opened Wrappers
  import opened Text
  import opened Telemetry
  import opened StackTrace
  import opened JsonText
  import opened Extraction

  // ---------------------------------------------------------------------
  // isExternalFile

  /** The package prefixes `isExternalFile` treats as not the user's. */
  const ExternalPrefixes: seq<string> := [
    "java.", "javax.", "sun.", "com.sun.", "org.springframework.", "io.opentelemetry.", "net.bytebuddy."]

  function IsExternalFile(className: string): (r: bool)
    ensures r <==> exists k :: 0 <= k < |ExternalPrefixes| && StartsWith(className, ExternalPrefixes[k])
  {
    var p := ExternalPrefixes;
    assert p[0] == "java." && p[1] == "javax." && p[2] == "sun." && p[3] == "com.sun.";
    assert p[4] == "org.springframework." && p[5] == "io.opentelemetry." && p[6] == "net.bytebuddy.";
    StartsWith(className, "java.")
    || StartsWith(className, "javax.")
    || StartsWith(className, "sun.")
    || StartsWith(className, "com.sun.")
    || StartsWith(className, "org.springframework.")
    || StartsWith(className, "io.opentelemetry.")
    || StartsWith(className, "net.bytebuddy.")
  }

  // ---------------------------------------------------------------------
  // countBraces and readMethodFromFile

  /** How many times `c` occurs in `s`. */
  function Occurrences(s: string, c: char): (r: nat)
    ensures r <= |s|
  {
    if |s| == 0 then 0 else Occurrences(s[..|s| - 1], c) + (if s[|s| - 1] == c then 1 else 0)
  }

  /** `countBraces`. */
  method CountBraces(line: string, brace: char) returns (count: int)
    ensures count == Occurrences(line, brace)
  {
    count := 0;
    for i := 0 to |line|
      invariant count == Occurrences(line[..i], brace)
    {
      assert line[..i + 1][..i] == line[..i];
      if line[i] == brace {
        count := count + 1;
      }
    }
    assert line[..|line|] == line;
  }

  /** Opening minus closing braces is the running brace count of the
      method-end search in Extraction. */
  lemma {:induction false} OccurrencesBalance(s: string)
    ensures Occurrences(s, '{') - Occurrences(s, '}') == Balance(s)
  {
    if |s| > 0 {
      OccurrencesBalance(s[..|s| - 1]);
    }
  }

  /** What one line adds to the brace count. */
  function Net(line: string): int {
    Occurrences(line, '{') - Occurrences(line, '}')
  }

  /** The brace count after a run of lines. */
  function NetSum(lines: seq<string>): int {
    if |lines| == 0 then 0 else NetSum(lines[..|lines| - 1]) + Net(lines[|lines| - 1])
  }

  /** The text `readMethodFromFile` looks for to start the method. */
  function Marker(methodName: string): string {
    methodName + "("
  }

  /** The first line from `i` on that contains the marker. */
  function StartIndex(lines: seq<string>, methodName: string, i: nat): (r: Option<nat>)
    requires i <= |lines|
    ensures r.Some? ==> i <= r.value < |lines| && Contains(lines[r.value], Marker(methodName))
    ensures r.Some? ==> forall k :: i <= k < r.value ==> !Contains(lines[k], Marker(methodName))
    ensures r.None? ==> forall k :: i <= k < |lines| ==> !Contains(lines[k], Marker(methodName))
    decreases |lines| - i
  {
    if i == |lines| then None
    else if Contains(lines[i], Marker(methodName)) then Some(i)
    else StartIndex(lines, methodName, i + 1)
  }

  /** Line `j` after the start line brings the count down to zero or below:
      the loop breaks there. The start line itself never breaks it. */
  predicate Closes(lines: seq<string>, start: nat, j: nat)
    requires start < j < |lines|
  {
    NetSum(lines[start..j + 1]) <= 0
  }

  /** The last line read: the first closing line from `j` on, or the last
      line of the file. */
  function MethodEnd(lines: seq<string>, start: nat, j: nat): (r: nat)
    requires start < j <= |lines|
    ensures j - 1 <= r < |lines|
    ensures forall k :: j <= k < r ==> !Closes(lines, start, k)
    ensures j <= r < |lines| - 1 ==> Closes(lines, start, r)
    decreases |lines| - j
  {
    if j == |lines| then |lines| - 1
    else if Closes(lines, start, j) then j
    else MethodEnd(lines, start, j + 1)
  }

  /** The lines `readMethodFromFile` collects: from the first line with the
      marker through the first later line that closes the method, or to the
      end of the file; none without a marker. */
  function MethodSpan(lines: seq<string>, methodName: string): (r: Option<(nat, nat)>)
    ensures r.None? <==> forall k :: 0 <= k < |lines| ==> !Contains(lines[k], Marker(methodName))
    ensures r.Some? ==>
      var (s, e) := r.value;
      && s <= e < |lines| && Contains(lines[s], Marker(methodName))
      && (forall k :: 0 <= k < s ==> !Contains(lines[k], Marker(methodName)))
      && (forall k :: s < k < e ==> !Closes(lines, s, k))
      && (e == |lines| - 1 || (s < e && Closes(lines, s, e)))
  {
    match StartIndex(lines, methodName, 0)
    case None => None
    case Some(s) => Some((s, MethodEnd(lines, s, s + 1)))
  }

  /** The trimmed text of the collected lines, each followed by a line
      feed; the empty text when no line has the marker. */
  function MethodBody(lines: seq<string>, methodName: string): string {
    match MethodSpan(lines, methodName)
    case None => ""
    case Some((s, e)) => Trim(LinesText(lines[s..e + 1]))
  }

  /** The state of the reading loop before line `i`: outside the method
      nothing is collected and no earlier line had the marker; inside it the
      lines from the start line are collected and counted, and none of them
      after the start line closed the method. */
  ghost predicate Reading(lines: seq<string>, methodName: string, i: nat, inMethod: bool, start: nat,
                          methodBody: string, braceCount: int)
  {
    && i <= |lines|
    && (!inMethod ==> methodBody == "" && braceCount == 0
                      && StartIndex(lines, methodName, 0) == StartIndex(lines, methodName, i))
    && (inMethod ==>
          && start < i && StartIndex(lines, methodName, 0) == Some(start)
          && methodBody == LinesText(lines[start..i]) && braceCount == NetSum(lines[start..i])
          && MethodEnd(lines, start, start + 1) == MethodEnd(lines, start, i))
  }

  lemma RunSnoc(lines: seq<string>, start: nat, i: nat)
    requires start <= i < |lines|
    ensures NetSum(lines[start..i + 1]) == NetSum(lines[start..i]) + Net(lines[i])
    ensures LinesText(lines[start..i + 1]) == LinesText(lines[start..i]) + lines[i] + "\n"
  {
    assert lines[start..i + 1][..i - start] == lines[start..i];
  }

  /** A line before the method without the marker is skipped. */
  lemma SkipLine(lines: seq<string>, methodName: string, i: nat)
    requires i < |lines| && !Contains(lines[i], Marker(methodName))
    requires Reading(lines, methodName, i, false, 0, "", 0)
    ensures Reading(lines, methodName, i + 1, false, 0, "", 0)
  {
  }

  /** The first line with the marker starts the method. */
  lemma StartLine(lines: seq<string>, methodName: string, i: nat)
    requires i < |lines| && Contains(lines[i], Marker(methodName))
    requires Reading(lines, methodName, i, false, 0, "", 0)
    ensures Reading(lines, methodName, i + 1, true, i, lines[i] + "\n", Net(lines[i]))
  {
    RunSnoc(lines, i, i);
  }

  /** A line inside the method is collected and counted. */
  lemma CollectLine(lines: seq<string>, methodName: string, i: nat, start: nat, methodBody: string, braceCount: int)
    requires i < |lines|
    requires Reading(lines, methodName, i, true, start, methodBody, braceCount)
    ensures methodBody + lines[i] + "\n" == LinesText(lines[start..i + 1])
    ensures braceCount + Net(lines[i]) == NetSum(lines[start..i + 1])
    ensures braceCount + Net(lines[i]) <= 0 ==> Trim(methodBody + lines[i] + "\n") == MethodBody(lines, methodName)
    ensures braceCount + Net(lines[i]) > 0 ==>
      Reading(lines, methodName, i + 1, true, start, methodBody + lines[i] + "\n", braceCount + Net(lines[i]))
  {
    RunSnoc(lines, start, i);
  }

  /** After the loop, whether it ran out of lines or broke at the closing
      line, the collected text is that of the method's span. */
  lemma ReadingDone(lines: seq<string>, methodName: string, inMethod: bool, start: nat, methodBody: string,
                    braceCount: int)
    requires Reading(lines, methodName, |lines|, inMethod, start, methodBody, braceCount)
    ensures Trim(methodBody) == MethodBody(lines, methodName)
  {
  }

  /** `readMethodFromFile`: the file's lines, or none when reading fails
      (the `IOException` path, which answers null). */
  method ReadMethodFromFile(file: Option<seq<string>>, methodName: string) returns (body: Option<string>)
    ensures file.None? ==> body.None?
    ensures file.Some? ==> body == Some(MethodBody(file.value, methodName))
  {
    if file.None? {
      return None;
    }
    var lines := file.value;
    var methodBody := "";
    var inMethod := false;
    var braceCount := 0;
    ghost var start := 0;
    ghost var closed := false;
    var i := 0;
    while i < |lines|
      invariant Reading(lines, methodName, i, inMethod, start, methodBody, braceCount) && !closed
    {
      var line := lines[i];
      if !inMethod && Contains(line, methodName + "(") {
        StartLine(lines, methodName, i);
        inMethod := true;
        start := i;
        methodBody := methodBody + line + "\n";
        var opening := CountBraces(line, '{');
        var closing := CountBraces(line, '}');
        braceCount := braceCount + opening - closing;
      } else if inMethod {
        CollectLine(lines, methodName, i, start, methodBody, braceCount);
        methodBody := methodBody + line + "\n";
        var opening := CountBraces(line, '{');
        var closing := CountBraces(line, '}');
        braceCount := braceCount + opening - closing;
        if braceCount <= 0 {
          closed := true;
          break;
        }
      } else {
        SkipLine(lines, methodName, i);
      }
      i := i + 1;
    }
    if !closed {
      ReadingDone(lines, methodName, inMethod, start, methodBody, braceCount);
    }
    body := Some(Trim(methodBody));
  }

  /** A file without the marker gives the empty body, not null: the record
      still gets an `exception.function_body`. */
  lemma NoMarkerEmptyBody(lines: seq<string>, methodName: string)
    requires forall k :: 0 <= k < |lines| ==> !Contains(lines[k], Marker(methodName))
    ensures MethodBody(lines, methodName) == ""
  {
  }

  // ---------------------------------------------------------------------
  // extractFunctionBody

  /** What `extractFunctionBody` consults: the `java.class.path` property
      (null when unset), `File.pathSeparator`, `File.separatorChar`, whether
      a file exists under a class-path entry, and the file's lines (none
      when reading fails). */
  datatype ClassPath = ClassPath(
    property: Option<string>,
    pathSeparator: char,
    separatorChar: char,
    fileExists: (string, string) -> bool,
    read: (string, string) -> Option<seq<string>>)

  /** `className.replace('.', File.separatorChar)`. */
  function ReplaceDots(className: string, separatorChar: char): (r: string)
    ensures |r| == |className|
    ensures forall k :: 0 <= k < |r| ==> r[k] == if className[k] == '.' then separatorChar else className[k]
  {
    if |className| == 0 then []
    else ReplaceDots(className[..|className| - 1], separatorChar)
         + [if className[|className| - 1] == '.' then separatorChar else className[|className| - 1]]
  }

  /** The relative path of a class's source file. */
  function SourceFileName(className: string, separatorChar: char): string {
    ReplaceDots(className, separatorChar) + ".java"
  }

  /** The search from entry `i` on: the first entry that is not a jar and
      holds the file decides, even when reading it fails. */
  function BodyFrom(paths: seq<string>, i: nat, fileName: string, methodName: string, cp: ClassPath): Option<string>
    requires i <= |paths|
    decreases |paths| - i
  {
    if i == |paths| then None
    else if EndsWith(paths[i], ".jar") then BodyFrom(paths, i + 1, fileName, methodName, cp)
    else if cp.fileExists(paths[i], fileName) then
      match cp.read(paths[i], fileName)
      case None => None
      case Some(lines) => Some(MethodBody(lines, methodName))
    else BodyFrom(paths, i + 1, fileName, methodName, cp)
  }

  /** The body `extractFunctionBody` answers: null without a class path
      (the `NullPointerException` it catches). */
  function FunctionBody(className: string, methodName: string, cp: ClassPath): Option<string> {
    if cp.property.None? then None
    else BodyFrom(Split(cp.property.value, cp.pathSeparator), 0, SourceFileName(className, cp.separatorChar), methodName, cp)
  }

  /** `extractFunctionBody`. */
  method ExtractFunctionBody(className: string, methodName: string, cp: ClassPath) returns (body: Option<string>)
    ensures body == FunctionBody(className, methodName, cp)
  {
    if cp.property.None? {
      return None;
    }
    var paths := Split(cp.property.value, cp.pathSeparator);
    var i := 0;
    while i < |paths|
      invariant 0 <= i <= |paths|
      invariant FunctionBody(className, methodName, cp)
             == BodyFrom(paths, i, SourceFileName(className, cp.separatorChar), methodName, cp)
    {
      var path := paths[i];
      if !EndsWith(path, ".jar") {
        var fileName := ReplaceDots(className, cp.separatorChar) + ".java";
        if cp.fileExists(path, fileName) {
          body := ReadMethodFromFile(cp.read(path, fileName), methodName);
          return;
        }
      }
      i := i + 1;
    }
    return None;
  }

  /** Jar entries are never searched: a class path of jars only gives no
      body. */
  lemma {:induction false} JarsOnlyGiveNoBody(paths: seq<string>, i: nat, fileName: string, methodName: string, cp: ClassPath)
    requires i <= |paths|
    requires forall k :: i <= k < |paths| ==> EndsWith(paths[k], ".jar")
    ensures BodyFrom(paths, i, fileName, methodName, cp) == None
    decreases |paths| - i
  {
    if i < |paths| {
      JarsOnlyGiveNoBody(paths, i + 1, fileName, methodName, cp);
    }
  }

  // ---------------------------------------------------------------------
  // generateStackDetails

  /** The record of one frame, its entries in `put` order: the method, the
      line and the language; with a file name also the file and whether the
      class is external; for a user class whose body is found also the body
      and the placeholder lines 1 and 10 of `extractFunctionLines`. */
  function FrameRecord(element: Frame, body: Option<string>): (r: Record)
    ensures |r| == 3 || |r| == 5 || |r| == 8
    ensures r[..3] == [Field("exception.function_name", JStr(element.methodName)),
                       Field("exception.line", JInt(element.lineNumber)),
                       Field("exception.language", JStr("java"))]
    ensures |r| == 3 <==> element.fileName.None?
    ensures |r| == 8 <==> element.fileName.Some? && !IsExternalFile(element.className) && body.Some?
    ensures |r| >= 5 ==> r[4] == Field("exception.is_file_external", JBool(IsExternalFile(element.className)))
    ensures |r| == 8 ==> r[5] == Field("exception.function_body", JStr(body.value))
  {
    [Field("exception.function_name", JStr(element.methodName)),
     Field("exception.line", JInt(element.lineNumber)),
     Field("exception.language", JStr("java"))]
    + match element.fileName
      case None => []
      case Some(fileName) =>
        var isExternal := IsExternalFile(element.className);
        [Field("exception.file", JStr(fileName)), Field("exception.is_file_external", JBool(isExternal))]
        + if isExternal || body.None? then []
          else [Field("exception.function_body", JStr(body.value)),
                Field("exception.start_line", JInt(1)),
                Field("exception.end_line", JInt(10))]
  }

  /** The body lookup a frame gets: only with a file name and for a class
      that is not external. */
  function LookupFor(element: Frame, cp: ClassPath): Option<string> {
    if element.fileName.None? || IsExternalFile(element.className) then None
    else FunctionBody(element.className, element.methodName, cp)
  }

  /** The records of a stack trace, one per frame, in order. */
  function StackRecords(frames: seq<Frame>, cp: ClassPath): (r: seq<Record>)
    ensures |r| == |frames|
  {
    if |frames| == 0 then []
    else StackRecords(frames[..|frames| - 1], cp)
         + [FrameRecord(frames[|frames| - 1], LookupFor(frames[|frames| - 1], cp))]
  }

  /** One frame of `generateStackDetails`. */
  method FrameDetails(element: Frame, cp: ClassPath) returns (frameDetails: Record)
    ensures frameDetails == FrameRecord(element, LookupFor(element, cp))
  {
    frameDetails := [
      Field("exception.function_name", JStr(element.methodName)),
      Field("exception.line", JInt(element.lineNumber)),
      Field("exception.language", JStr("java"))];
    if element.fileName.Some? {
      frameDetails := frameDetails + [Field("exception.file", JStr(element.fileName.value))];
      var isExternal := IsExternalFile(element.className);
      frameDetails := frameDetails + [Field("exception.is_file_external", JBool(isExternal))];
      if !isExternal {
        var functionBody := ExtractFunctionBody(element.className, element.methodName, cp);
        if functionBody.Some? {
          frameDetails := frameDetails + [Field("exception.function_body", JStr(functionBody.value))];
          frameDetails := frameDetails + [Field("exception.start_line", JInt(1)), Field("exception.end_line", JInt(10))];
        }
      }
    }
  }

  /** `generateStackDetails`: the records of every frame, written by
      `convertToJsonString` (null values quoted). */
  method GenerateStackDetails(stackTrace: seq<Frame>, cp: ClassPath) returns (json: string)
    ensures json == ArrayText(StackRecords(stackTrace, cp), true)
  {
    var stackDetailsList := [];
    var i := 0;
    while i < |stackTrace|
      invariant 0 <= i <= |stackTrace|
      invariant stackDetailsList == StackRecords(stackTrace[..i], cp)
    {
      assert stackTrace[..i + 1][..i] == stackTrace[..i];
      var frameDetails := FrameDetails(stackTrace[i], cp);
      stackDetailsList := stackDetailsList + [frameDetails];
      i := i + 1;
    }
    assert stackTrace[..|stackTrace|] == stackTrace;
    json := BuildArray(stackDetailsList, true);
  }

  /** Every frame has a record, external or not. */
  lemma {:induction false} EveryFrameRecorded(frames: seq<Frame>, cp: ClassPath)
    ensures forall k :: 0 <= k < |frames| ==>
      StackRecords(frames, cp)[k] == FrameRecord(frames[k], LookupFor(frames[k], cp))
  {
    if |frames| > 0 {
      var init := frames[..|frames| - 1];
      EveryFrameRecorded(init, cp);
      assert forall k :: 0 <= k < |init| ==> init[k] == frames[k];
    }
  }

  /** The text always starts with `[`, so the `isEmpty` checks of both
      advices always pass. */
  lemma DetailsNeverEmpty(records: seq<Record>, quoteNull: bool)
    ensures |ArrayText(records, quoteNull)| > 0 && ArrayText(records, quoteNull)[0] == '['
  {
  }

  // ---------------------------------------------------------------------
  // the advices

  /** The attribute both advices put. */
  function DetailsAttr(stackTrace: seq<Frame>, cp: ClassPath): Attr {
    Attr("exception.stack_details", Str(ArrayText(StackRecords(stackTrace, cp), true)))
  }

  /** `RecordExceptionWithAttributesAdvice.onEnter`: the attributes with the
      stack details added; unchanged for a null throwable. */
  method OnEnterWithAttributes(throwable: Option<seq<Frame>>, attributes: AttrList, cp: ClassPath)
    returns (out: AttrList)
    ensures throwable.None? ==> out == attributes
    ensures throwable.Some? ==> out == attributes + [DetailsAttr(throwable.value, cp)]
  {
    if throwable.None? {
      return attributes;
    }
    var stackDetails := GenerateStackDetails(throwable.value, cp);
    DetailsNeverEmpty(StackRecords(throwable.value, cp), true);
    out := attributes;
    if stackDetails != "" {
      out := attributes + [Attr("exception.stack_details", Str(stackDetails))];
    }
  }

  /** `RecordExceptionAdvice.onEnter`: for a non-null throwable on an
      application span, the call is forwarded to the two-argument form with
      fresh attributes holding the stack details, and the original method
      is skipped. */
  method OnEnterSingle(isApplicationSpan: bool, throwable: Option<seq<Frame>>, cp: ClassPath)
    returns (skip: bool, forwarded: Option<AttrList>)
    ensures skip <==> throwable.Some? && isApplicationSpan
    ensures skip ==> forwarded == Some([DetailsAttr(throwable.value, cp)])
    ensures !skip ==> forwarded.None?
  {
    if throwable.None? {
      return false, None;
    }
    var stackDetails := GenerateStackDetails(throwable.value, cp);
    DetailsNeverEmpty(StackRecords(throwable.value, cp), true);
    if stackDetails != "" && isApplicationSpan {
      return true, Some([Attr("exception.stack_details", Str(stackDetails))]);
    }
    return false, None;
  }

  /** The forwarded call passes through the two-argument advice, which puts
      the same text again: the recorded value is the text of this stack. */
  lemma ForwardedDetails(stackTrace: seq<Frame>, cp: ClassPath)
    ensures GetString([DetailsAttr(stackTrace, cp)] + [DetailsAttr(stackTrace, cp)], "exception.stack_details")
         == Some(ArrayText(StackRecords(stackTrace, cp), true))
  {
    GetStringSnoc([DetailsAttr(stackTrace, cp)], DetailsAttr(stackTrace, cp), "exception.stack_details");
  }
}
