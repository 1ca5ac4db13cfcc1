/** CodeContextSpanExporter: a span exporter that, for a span with an
    exception event, reads the source lines around the first application
    frame of the event's stack trace and attaches them to the span twice: as
    `code.*` span attributes and as a `code.context.extracted` event.

    The search for the source file on disk is the `SourceLookup` input; the
    clock readings (`Instant.now()`) taken while a span is enriched are the
    `Clock` input; the console output is not modelled. */
module CodeContextExporter {
  import opened Wrappers
  import opened Text
  import opened Telemetry
  import opened StackTrace
  import opened Extraction
  import opened CodeExtraction
  import opened Sequences
  import EnhancedExporter

  // ---------------------------------------------------------------------
  // application frames of a trace

  /** `isApplicationCodeLine`: the line contains none of the system
      packages, anywhere. */
  function IsApplicationCodeLine(line: string): (r: bool)
    ensures r <==> forall k :: 0 <= k < |SystemPackages| ==> !Contains(line, SystemPackages[k])
  {
    NoSystemPackageIn(line, 0)
  }

  function NoSystemPackageIn(line: string, k: nat): (r: bool)
    requires k <= |SystemPackages|
    ensures r <==> forall j :: k <= j < |SystemPackages| ==> !Contains(line, SystemPackages[j])
    decreases |SystemPackages| - k
  {
    k == |SystemPackages| || (!Contains(line, SystemPackages[k]) && NoSystemPackageIn(line, k + 1))
  }

  /** What one line contributes to `parseStacktraceForAppCode`: a frame when
      the trimmed line starts with `at `, is an application line and parses. */
  function AppLineFrame(line: string): Option<Frame> {
    var t := Trim(line);
    if StartsWith(t, "at ") && IsApplicationCodeLine(t) then ParseFrame(t) else None
  }

  function AppFramesOf(lines: seq<string>): seq<Frame> {
    if |lines| == 0 then []
    else AppFramesOf(lines[..|lines| - 1]) + Frames(AppLineFrame(lines[|lines| - 1]))
  }

  lemma AppFramesOfSnoc(lines: seq<string>, i: nat)
    requires i < |lines|
    ensures AppFramesOf(lines[..i + 1]) == AppFramesOf(lines[..i]) + Frames(AppLineFrame(lines[i]))
  {
    assert lines[..i + 1][..i] == lines[..i];
  }

  /** `parseStacktraceForAppCode`. */
  method ParseStacktraceForAppCode(stacktrace: string) returns (appElements: seq<Frame>)
    ensures appElements == AppFramesOf(Split(stacktrace, '\n'))
  {
    var lines := Split(stacktrace, '\n');
    appElements := [];
    var i := 0;
    while i < |lines|
      invariant 0 <= i <= |lines|
      invariant appElements == AppFramesOf(lines[..i])
    {
      var line := Trim(lines[i]);
      if StartsWith(line, "at ") && IsApplicationCodeLine(line) {
        var element := ParseFrame(line);
        if element.Some? {
          appElements := appElements + [element.value];
        }
      }
      AppFramesOfSnoc(lines, i);
      i := i + 1;
    }
    assert lines[..|lines|] == lines;
  }

  /** The class name of a parsed frame is the text right after `at `. */
  lemma ParsedClassFollowsAt(t: string)
    requires ParseFrame(t).Some?
    ensures var c := ParseFrame(t).value.className;
      3 + |c| <= |t| && t[3..3 + |c|] == c
  {
    var rest := t[3..];
    var paren := LastIndexOf(rest, '(');
    var dot := LastIndexOf(rest[..paren], '.');
    assert rest[..paren][..dot] == t[3..3 + dot];
  }

  /** A line that names no system package anywhere yields a frame whose
      class is application code: the line test is at least as strict as
      the class-name test of `isApplicationCode`. */
  lemma AppLineFrameIsApplicationCode(line: string)
    requires AppLineFrame(line).Some?
    ensures IsApplicationCode(Some(AppLineFrame(line).value.className))
  {
    var t := Trim(line);
    var c := AppLineFrame(line).value.className;
    ParsedClassFollowsAt(t);
    forall k | 0 <= k < |SystemPackages|
      ensures !StartsWith(c, SystemPackages[k])
    {
      var p := SystemPackages[k];
      if StartsWith(c, p) {
        assert t[3..3 + |p|] == c[..|p|];
        assert OccursAt(t, p, 3);
      }
    }
  }

  /** Every frame `parseStacktraceForAppCode` returns is application code. */
  lemma {:induction false} AppFramesAreApplicationCode(lines: seq<string>)
    ensures forall f :: f in AppFramesOf(lines) ==> IsApplicationCode(Some(f.className))
  {
    if |lines| > 0 {
      AppFramesAreApplicationCode(lines[..|lines| - 1]);
      var last := AppLineFrame(lines[|lines| - 1]);
      if last.Some? {
        AppLineFrameIsApplicationCode(lines[|lines| - 1]);
      }
    }
  }

  // ---------------------------------------------------------------------
  // the lines around the error

  /** `extractMethodCode`: no lines without a file name, with a line number
      that is not positive, or when no source is found; otherwise the lines
      from `line - 5` to `line + 5` that lie in the file. The upper end is a
      Java `int` sum, so it wraps. */
  function MethodWindow(element: Frame, source: SourceLookup): (r: NumberedLines)
    ensures |r| > 0 ==> element.fileName.Some? && element.lineNumber > 0
  {
    if element.fileName.None? || element.lineNumber <= 0 then []
    else
      var lines := source(element.className, element.fileName.value);
      if |lines| == 0 then []
      else NumberedRange(lines, Max(1, element.lineNumber - ContextLines),
                         Min(|lines|, WrapInt(element.lineNumber + ContextLines)))
  }

  method ExtractMethodCode(element: Frame, source: SourceLookup) returns (methodCode: NumberedLines)
    ensures methodCode == MethodWindow(element, source)
  {
    if element.fileName.None? || element.lineNumber <= 0 {
      return [];
    }
    var sourceLines := source(element.className, element.fileName.value);
    if |sourceLines| == 0 {
      return [];
    }
    var startLine := Max(1, element.lineNumber - ContextLines);
    var endLine := Min(|sourceLines|, WrapInt(element.lineNumber + ContextLines));
    methodCode := PutLines(sourceLines, startLine, endLine);
  }

  /** The window holds the consecutive lines of the frame's file from
      `max(1, line - 5)` on, each under its own number, and it is empty
      exactly when there is no file, no positive line, no source, or the
      line lies more than five lines past the end of the file. */
  lemma MethodWindowContents(element: Frame, source: SourceLookup)
    requires element.fileName.Some? && IsInt32(element.lineNumber + ContextLines)
    ensures var r, lines := MethodWindow(element, source), source(element.className, element.fileName.value);
      var lo := Max(1, element.lineNumber - ContextLines);
      && (|r| > 0 <==> element.lineNumber > 0 && |lines| > 0 && element.lineNumber - ContextLines <= |lines|)
      && |r| <= 2 * ContextLines + 1
      && forall j :: 0 <= j < |r| ==> 1 <= lo + j <= |lines| && r[j] == (lo + j, lines[lo + j - 1])
  {
    var lines := source(element.className, element.fileName.value);
    if element.lineNumber > 0 && |lines| > 0 {
      NumberedRangeContents(lines, Max(1, element.lineNumber - ContextLines),
                            Min(|lines|, element.lineNumber + ContextLines));
    }
  }

  // ---------------------------------------------------------------------
  // formatSourceCode

  /** One entry of the formatted code: its number, `: ` and its text. */
  function Labelled(entry: (int, string)): string {
    IntToString(entry.0) + ": " + entry.1
  }

  /** The labelled entries, in order. */
  function Labels(entries: NumberedLines): (r: seq<string>)
    ensures |r| == |entries|
  {
    Sequences.Mapped(Labelled, entries)
  }

  /** Each entry has its label in its own place. */
  lemma LabelsAt(entries: NumberedLines)
    ensures forall k :: 0 <= k < |entries| ==> Labels(entries)[k] == Labelled(entries[k])
  {
    Sequences.MappedAt(Labelled, entries);
  }

  /** The text `formatSourceCode` builds: one labelled line per entry, in
      order, trimmed. */
  function FormattedCode(entries: NumberedLines): string {
    Trim(LinesText(Labels(entries)))
  }

  method FormatSourceCode(sourceCode: NumberedLines) returns (text: string)
    ensures text == FormattedCode(sourceCode)
  {
    var builder := "";
    var i := 0;
    while i < |sourceCode|
      invariant 0 <= i <= |sourceCode|
      invariant builder == LinesText(Labels(sourceCode[..i]))
    {
      assert sourceCode[..i + 1][..i] == sourceCode[..i];
      builder := builder + (IntToString(sourceCode[i].0) + ": " + sourceCode[i].1) + "\n";
      i := i + 1;
    }
    assert sourceCode[..i] == sourceCode;
    text := Trim(builder);
  }

  /** The formatted window of a frame labels each line of the file around
      the error with its own line number. */
  lemma FormattedWindowLines(element: Frame, source: SourceLookup)
    requires element.fileName.Some? && IsInt32(element.lineNumber + ContextLines)
    ensures var r, lines := MethodWindow(element, source), source(element.className, element.fileName.value);
      var lo := Max(1, element.lineNumber - ContextLines);
      forall j :: 0 <= j < |r| ==>
        (1 <= lo + j <= |lines| && Labels(r)[j] == IntToString(lo + j) + ": " + lines[lo + j - 1])
  {
    var r, lines := MethodWindow(element, source), source(element.className, element.fileName.value);
    var lo := Max(1, element.lineNumber - ContextLines);
    MethodWindowContents(element, source);
    LabelsAt(r);
    forall j | 0 <= j < |r|
      ensures 1 <= lo + j <= |lines| && Labels(r)[j] == IntToString(lo + j) + ": " + lines[lo + j - 1]
    {
      var entry := r[j];
      assert 1 <= lo + j <= |lines| && entry == (lo + j, lines[lo + j - 1]);
      assert Labels(r)[j] == Labelled(entry);
    }
  }

  // ---------------------------------------------------------------------
  // the code context of an exception event

  /** The context map of `extractCodeContextFromExceptionEvent`, its seven
      entries in the order they are put (the iteration order of the
      `HashMap` is taken to be that order); empty when the event has no
      stack trace, the trace no application frame, or the first
      application frame no source lines. `line_number` is an `Integer`,
      stored as a long attribute. */
  function CodeContextOf(event: Event, source: SourceLookup, timestamp: string): (r: AttrList)
    ensures |r| == 0 || |r| == 7
    ensures |r| == 7 ==>
      && r[0].key == "function_name" && r[1].key == "file_name" && r[2].key == "line_number"
      && r[3].key == "class_name" && r[4].key == "function_body"
      && r[5] == Attr("extraction_timestamp", Str(timestamp))
      && r[6] == Attr("extraction_method", Str("span_exporter"))
    ensures forall k :: 0 <= k < |r| ==> !r[k].value.NullStr?
  {
    match GetString(event.attributes, "exception.stacktrace")
    case None => []
    case Some(trace) =>
      var appElements := AppFramesOf(Split(trace, '\n'));
      if |appElements| == 0 then []
      else
        var primary := appElements[0];
        var window := MethodWindow(primary, source);
        if |window| == 0 then []
        else ContextEntries(primary, FormattedCode(window), timestamp)
  }

  /** The key names of a code context, in the order they are put. */
  const ContextKeys: seq<string> :=
    ["function_name", "file_name", "line_number", "class_name", "function_body",
     "extraction_timestamp", "extraction_method"]

  /** The seven entries of a context for a frame and its formatted code. */
  function ContextEntries(primary: Frame, code: string, timestamp: string): (r: AttrList)
    requires primary.fileName.Some?
    ensures |r| == 7
    ensures forall k :: 0 <= k < 7 ==> r[k].key == ContextKeys[k] && !r[k].value.NullStr?
    ensures r[5] == Attr("extraction_timestamp", Str(timestamp))
    ensures r[6] == Attr("extraction_method", Str("span_exporter"))
  {
    [ Attr("function_name", Str(primary.methodName)),
      Attr("file_name", Str(primary.fileName.value)),
      Attr("line_number", Long(primary.lineNumber)),
      Attr("class_name", Str(primary.className)),
      Attr("function_body", Str(code)),
      Attr("extraction_timestamp", Str(timestamp)),
      Attr("extraction_method", Str("span_exporter")) ]
  }

  /** The seven context key names are distinct. */
  lemma ContextKeysDistinct()
    ensures forall i, j :: 0 <= i < j < 7 ==> ContextKeys[i] != ContextKeys[j]
  {
    var lengths := [13, 9, 11, 10, 13, 20, 17];
    forall k | 0 <= k < 7 ensures |ContextKeys[k]| == lengths[k] { }
    assert ContextKeys[0][9] != ContextKeys[4][9];
  }

  method ExtractCodeContextFromExceptionEvent(event: Event, source: SourceLookup, timestamp: string)
    returns (context: AttrList)
    ensures context == CodeContextOf(event, source, timestamp)
  {
    var stacktrace := GetString(event.attributes, "exception.stacktrace");
    if stacktrace.None? {
      return [];
    }
    var appElements := ParseStacktraceForAppCode(stacktrace.value);
    if |appElements| == 0 {
      return [];
    }
    var primaryElement := appElements[0];
    var sourceCode := ExtractMethodCode(primaryElement, source);
    if |sourceCode| == 0 {
      return [];
    }
    var body := FormatSourceCode(sourceCode);
    context := [ Attr("function_name", Str(primaryElement.methodName)),
                 Attr("file_name", Str(primaryElement.fileName.value)),
                 Attr("line_number", Long(primaryElement.lineNumber)),
                 Attr("class_name", Str(primaryElement.className)),
                 Attr("function_body", Str(body)),
                 Attr("extraction_timestamp", Str(timestamp)),
                 Attr("extraction_method", Str("span_exporter")) ];
  }

  /** A non-empty context describes the first application frame of the
      event's stack trace: a frame with a file and a positive line, whose
      class is application code, and the formatted lines around that line. */
  lemma ContextDescribesPrimaryFrame(event: Event, source: SourceLookup, timestamp: string)
    requires |CodeContextOf(event, source, timestamp)| > 0
    ensures var trace := GetString(event.attributes, "exception.stacktrace");
      && trace.Some?
      && var appElements := AppFramesOf(Split(trace.value, '\n'));
      && |appElements| > 0
      && var f, r := appElements[0], CodeContextOf(event, source, timestamp);
      && IsApplicationCode(Some(f.className))
      && f.fileName.Some? && f.lineNumber > 0
      && r[0].value == Str(f.methodName) && r[1].value == Str(f.fileName.value)
      && r[2].value == Long(f.lineNumber) && r[3].value == Str(f.className)
      && |MethodWindow(f, source)| > 0
      && r[4].value == Str(FormattedCode(MethodWindow(f, source)))
  {
    var trace := GetString(event.attributes, "exception.stacktrace").value;
    var appElements := AppFramesOf(Split(trace, '\n'));
    AppFramesAreApplicationCode(Split(trace, '\n'));
    assert appElements[0] in appElements;
  }

  // ---------------------------------------------------------------------
  // the attributes and the event built from a context

  /** The context entries under their `code.` keys, in order. */
  function CodeAttributes(context: AttrList): (r: AttrList)
    ensures |r| == |context|
    ensures forall k :: 0 <= k < |r| ==> r[k] == Attr("code." + context[k].key, context[k].value)
  {
    if |context| == 0 then []
    else CodeAttributes(context[..|context| - 1]) + [Attr("code." + context[|context| - 1].key, context[|context| - 1].value)]
  }

  /** The loop of `createCodeContextEvent` and `addCodeContextAttributes`:
      each entry put under `code.` + its key. The values of the context are
      strings and an `Integer`, which the builder stores as they are (the
      `Integer` as a long). */
  method PutCodeAttributes(builder: AttrList, context: AttrList) returns (r: AttrList)
    ensures r == builder + CodeAttributes(context)
  {
    r := builder;
    var i := 0;
    while i < |context|
      invariant 0 <= i <= |context|
      invariant r == builder + CodeAttributes(context[..i])
    {
      assert context[..i + 1][..i] == context[..i];
      r := r + [Attr("code." + context[i].key, context[i].value)];
      i := i + 1;
    }
    assert context[..i] == context;
  }

  /** The event `createCodeContextEvent` builds (`SimpleEventData`, whose
      attribute count is the size of its attributes). */
  function CodeContextEvent(context: AttrList, epochNanos: int): Event {
    EnrichedEventData("code.context.extracted", epochNanos, CodeAttributes(context))
  }

  method CreateCodeContextEvent(context: AttrList, epochNanos: int) returns (e: Event)
    ensures e.name == "code.context.extracted" && e.epochNanos == epochNanos
    ensures e.attributes == CodeAttributes(context) && e.totalAttributeCount == AttrCount(CodeAttributes(context))
  {
    var attributes := PutCodeAttributes([], context);
    e := EnrichedEventData("code.context.extracted", epochNanos, attributes);
  }

  /** `addCodeContextAttributes`: the span wrapped with its attributes
      followed by the context's. */
  method AddCodeContextAttributes(span: Span, context: AttrList) returns (r: Span)
    ensures r == ContextOverride(span, span.Events(), span.Attributes() + CodeAttributes(context))
  {
    var newAttributes := PutCodeAttributes(span.Attributes(), context);
    r := ContextOverride(span, span.Events(), newAttributes);
  }

  // ---------------------------------------------------------------------
  // enrichSpanWithCodeContext

  /** The two readings of `Instant.now()` while a span is enriched: the
      `extraction_timestamp` text and the time of the code event. */
  datatype Clock = Clock(text: string, epochNanos: int)

  /** `contextOf` gives each event the context extraction finds for it. */
  ghost predicate Extracts(contextOf: Event -> AttrList, source: SourceLookup, timestamp: string) {
    forall e {:trigger CodeContextOf(e, source, timestamp)} :: contextOf(e) == CodeContextOf(e, source, timestamp)
  }

  /** Context extraction with a fixed source and clock reading. */
  function ContextsAt(source: SourceLookup, timestamp: string): (contextOf: Event -> AttrList)
    ensures Extracts(contextOf, source, timestamp)
  {
    e => CodeContextOf(e, source, timestamp)
  }

  /** An event the enrichment stops at: an exception event with a
      non-empty context. */
  predicate Yields(event: Event, contextOf: Event -> AttrList) {
    IsExceptionEvent(event) && |contextOf(event)| > 0
  }

  /** The first place from `i` on whose event yields a context, or
      `|events|` when there is none. */
  function FirstYielding(events: seq<Event>, i: nat, contextOf: Event -> AttrList): (j: nat)
    requires i <= |events|
    ensures i <= j <= |events|
    ensures j < |events| ==> Yields(events[j], contextOf)
    ensures forall k :: i <= k < j ==> !Yields(events[k], contextOf)
    decreases |events| - i
  {
    if i == |events| || Yields(events[i], contextOf) then i
    else FirstYielding(events, i + 1, contextOf)
  }

  /** What `enrichSpanWithCodeContext` returns when it enriches: the
      context of the first yielding event, put as span attributes and as
      one more event. The attribute wrapper is wrapped once more with the
      new events, keeping its attributes. `None` stands for the original
      span being returned. */
  function EnrichedSpan(span: Span, contextOf: Event -> AttrList, epochNanos: int): Option<Span> {
    var events := span.Events();
    var j := FirstYielding(events, 0, contextOf);
    if j == |events| then None
    else
      var context := contextOf(events[j]);
      var withAttributes := ContextOverride(span, events, span.Attributes() + CodeAttributes(context));
      Some(ContextOverride(withAttributes, events + [CodeContextEvent(context, epochNanos)],
                           withAttributes.Attributes()))
  }

  method EnrichSpanWithCodeContext(span: Span, source: SourceLookup, now: Clock, ghost contextOf: Event -> AttrList)
    returns (r: Span)
    requires Extracts(contextOf, source, now.text)
    ensures r == EnrichedSpan(span, contextOf, now.epochNanos).GetOr(span)
  {
    var originalEvents := span.Events();
    var enrichedEvents := originalEvents;
    var i := 0;
    while i < |originalEvents|
      invariant 0 <= i <= |originalEvents|
      invariant forall k :: 0 <= k < i ==> !Yields(originalEvents[k], contextOf)
    {
      var event := originalEvents[i];
      if IsExceptionEvent(event) {
        var codeContext := ExtractCodeContextFromExceptionEvent(event, source, now.text);
        if |codeContext| > 0 {
          assert codeContext == contextOf(event);
          EnrichedAt(span, contextOf, now.epochNanos, i);
          var codeContextEvent := CreateCodeContextEvent(codeContext, now.epochNanos);
          enrichedEvents := enrichedEvents + [codeContextEvent];
          var spanWithAttributes := AddCodeContextAttributes(span, codeContext);
          return ContextOverride(spanWithAttributes, enrichedEvents, spanWithAttributes.Attributes());
        }
        assert codeContext == contextOf(event);
      }
      i := i + 1;
    }
    return span;
  }

  /** The enrichment when the event at `i` is the first that yields. */
  lemma EnrichedAt(span: Span, contextOf: Event -> AttrList, epochNanos: int, i: nat)
    requires i < |span.Events()| && Yields(span.Events()[i], contextOf)
    requires forall k :: 0 <= k < i ==> !Yields(span.Events()[k], contextOf)
    ensures var events, context := span.Events(), contextOf(span.Events()[i]);
      EnrichedSpan(span, contextOf, epochNanos)
      == Some(ContextOverride(ContextOverride(span, events, span.Attributes() + CodeAttributes(context)),
                              events + [CodeContextEvent(context, epochNanos)],
                              span.Attributes() + CodeAttributes(context)))
  {
    assert FirstYielding(span.Events(), 0, contextOf) == i;
  }

  /** The enriched span answers with the original events followed by the
      code event, and with the original attributes followed by the same
      seven `code.*` attributes that event carries; name, status and every
      other accessor are the original's. */
  lemma EnrichedSpanAccessors(span: Span, source: SourceLookup, now: Clock, contextOf: Event -> AttrList)
    requires Extracts(contextOf, source, now.text)
    requires EnrichedSpan(span, contextOf, now.epochNanos).Some?
    ensures var s := EnrichedSpan(span, contextOf, now.epochNanos).value;
      var e := s.Events()[|s.Events()| - 1];
      && |s.Events()| == |span.Events()| + 1
      && s.Events()[..|span.Events()|] == span.Events()
      && e.name == "code.context.extracted" && e.epochNanos == now.epochNanos
      && |e.attributes| == 7
      && s.Attributes() == span.Attributes() + e.attributes
      && s.TotalRecordedEvents() == |span.Events()| + 1
      && s.TotalAttributeCount() == AttrCount(span.Attributes() + e.attributes)
      && s.Name() == span.Name() && s.Status() == span.Status() && s.Extras() == span.Extras()
  {
    var events := span.Events();
    var j := FirstYielding(events, 0, contextOf);
    var context := CodeContextOf(events[j], source, now.text);
    assert |context| == 7;
    var s := EnrichedSpan(span, contextOf, now.epochNanos).value;
    assert s.Events()[..|events|] == events;
  }

  /** The seven `code.*` attributes of a context are seven distinct key
      names, each kept. */
  lemma CodeAttributesCount(event: Event, source: SourceLookup, timestamp: string)
    ensures var context := CodeContextOf(event, source, timestamp);
      var b := CodeAttributes(context);
      && DistinctKeys(b) && (forall k :: 0 <= k < |b| ==> Kept(b[k]) && StartsWith(b[k].key, "code."))
      && AttrCount(b) == |context|
  {
    var context := CodeContextOf(event, source, timestamp);
    var b := CodeAttributes(context);
    forall k | 0 <= k < |b| ensures Kept(b[k]) && StartsWith(b[k].key, "code.") {
      assert b[k].key == "code." + context[k].key;
      assert b[k].key[..5] == "code.";
    }
    if |context| == 7 {
      ContextKeysDistinct();
      forall i, j | 0 <= i < j < 7 ensures b[i].key != b[j].key {
        assert b[i].key[5..] == context[i].key;
        assert b[j].key[5..] == context[j].key;
      }
    }
    AttrCountBound(b);
  }

  /** The enriched span reports the key names of the original attributes
      and of the seven `code.*` ones: at least as many as before, at most
      seven more, and exactly seven more when the span held no `code.`
      key name. */
  lemma EnrichedSpanAttributeCount(span: Span, source: SourceLookup, now: Clock, contextOf: Event -> AttrList)
    requires Extracts(contextOf, source, now.text)
    requires EnrichedSpan(span, contextOf, now.epochNanos).Some?
    ensures var n := EnrichedSpan(span, contextOf, now.epochNanos).value.TotalAttributeCount();
      && AttrCount(span.Attributes()) <= n <= AttrCount(span.Attributes()) + 7
      && ((forall x :: x in KeySet(span.Attributes()) ==> !StartsWith(x, "code."))
          ==> n == AttrCount(span.Attributes()) + 7)
  {
    var events := span.Events();
    var j := FirstYielding(events, 0, contextOf);
    var context := CodeContextOf(events[j], source, now.text);
    var b := CodeAttributes(context);
    assert contextOf(events[j]) == context;
    assert EnrichedSpan(span, contextOf, now.epochNanos).value.TotalAttributeCount()
        == AttrCount(span.Attributes() + b);
    CodeAttributesCount(events[j], source, now.text);
    AttrCountAppend(span.Attributes(), b);
    if forall x :: x in KeySet(span.Attributes()) ==> !StartsWith(x, "code.") {
      forall k | 0 <= k < |b| ensures Lookup(span.Attributes(), b[k].key).None? {
        KeySetSpec(span.Attributes(), b[k].key);
      }
    }
  }

  /** The context used is that of the first exception event that yields
      one, and every earlier exception event yields none. */
  lemma FirstContextIsUsed(span: Span, source: SourceLookup, now: Clock, contextOf: Event -> AttrList)
    requires Extracts(contextOf, source, now.text)
    requires EnrichedSpan(span, contextOf, now.epochNanos).Some?
    ensures exists j ::
      && 0 <= j < |span.Events()|
      && IsExceptionEvent(span.Events()[j])
      && |CodeContextOf(span.Events()[j], source, now.text)| == 7
      && EnrichedSpan(span, contextOf, now.epochNanos).value.Attributes()
         == span.Attributes() + CodeAttributes(CodeContextOf(span.Events()[j], source, now.text))
      && (forall k :: 0 <= k < j && IsExceptionEvent(span.Events()[k]) ==>
            CodeContextOf(span.Events()[k], source, now.text) == [])
  {
    var events := span.Events();
    var j := FirstYielding(events, 0, contextOf);
    assert Yields(events[j], contextOf);
    assert |CodeContextOf(events[j], source, now.text)| == 7;
    forall k | 0 <= k < j && IsExceptionEvent(events[k])
      ensures CodeContextOf(events[k], source, now.text) == []
    {
      assert !Yields(events[k], contextOf);
      assert contextOf(events[k]) == CodeContextOf(events[k], source, now.text);
    }
  }

  /** Enrichment always produces a new span, never the original. */
  lemma EnrichedSpanIsNew(span: Span, contextOf: Event -> AttrList, epochNanos: int)
    requires EnrichedSpan(span, contextOf, epochNanos).Some?
    ensures EnrichedSpan(span, contextOf, epochNanos).value != span
  {
    var s := EnrichedSpan(span, contextOf, epochNanos).value;
    assert s.base.base == span;
    assert span < s.base < s;
  }

  /** The `enhancedSpans` counter after one more span of a batch: bumped
      once more exactly when that span was changed. */
  lemma EnhancedCountStep(spans: seq<Span>, i: nat, done: seq<Span>, next: Span,
                          enhanced0: int, before: int, after: int)
    requires IsInt32(enhanced0) && i < |spans| && |done| == i
    requires before == Bumped(enhanced0, EnhancedExporter.CountChanged(spans[..i], done))
    requires after == if next != spans[i] then IncInt(before) else before
    ensures after == Bumped(enhanced0, EnhancedExporter.CountChanged(spans[..i + 1], done + [next]))
  {
    EnhancedExporter.CountChangedSnoc(spans, i, done, next);
  }

  // ---------------------------------------------------------------------
  // the exporter

  class CodeContextSpanExporter {
    const delegate: DelegateExporter
    /** `readSourceFile`. */
    const source: SourceLookup
    /** The clock readings taken while a span is enriched. */
    const clock: Span -> Clock
    /** Context extraction under each clock reading. */
    ghost const contextOf: string -> Event -> AttrList
    /** The `static int` counters. */
    var processedSpans: int
    var enhancedSpans: int

    /** `contextOf` is the context extraction of this exporter's source. */
    ghost predicate Valid() {
      forall t :: Extracts(contextOf(t), source, t)
    }

    /** The counters hold Java `int` values. */
    predicate CountsInRange()
      reads this
    {
      IsInt32(processedSpans) && IsInt32(enhancedSpans)
    }

    constructor (delegate: DelegateExporter, source: SourceLookup, clock: Span -> Clock)
      ensures this.delegate == delegate && this.source == source && this.clock == clock
      ensures processedSpans == 0 && enhancedSpans == 0
      ensures Valid()
    {
      this.delegate := delegate;
      this.source := source;
      this.clock := clock;
      contextOf := t => ContextsAt(source, t);
      processedSpans := 0;
      enhancedSpans := 0;
    }

    /** What `export` passes on for a span: the enriched span when the span
        has exceptions and enrichment finds a context, the span itself
        otherwise. */
    ghost function Exported(span: Span): Span {
      if EnhancedExporter.HasExceptions(span)
      then EnrichedSpan(span, contextOf(clock(span).text), clock(span).epochNanos).GetOr(span)
      else span
    }

    /** A span is changed by export exactly when it has an exception event
        that yields a code context; an `ERROR` status alone changes nothing. */
    lemma ExportedChangesOnlyWithContext(span: Span)
      requires Valid()
      ensures Exported(span) != span <==>
        exists j :: 0 <= j < |span.Events()| && IsExceptionEvent(span.Events()[j])
          && |CodeContextOf(span.Events()[j], source, clock(span).text)| > 0
    {
      var t := clock(span).text;
      assert Extracts(contextOf(t), source, t);
      var j := FirstYielding(span.Events(), 0, contextOf(t));
      if j < |span.Events()| {
        assert IsExceptionEvent(span.Events()[j]);
        assert CodeContextOf(span.Events()[j], source, t) == contextOf(t)(span.Events()[j]);
        EnrichedSpanIsNew(span, contextOf(t), clock(span).epochNanos);
      } else {
        forall k | 0 <= k < |span.Events()| && IsExceptionEvent(span.Events()[k])
          ensures |CodeContextOf(span.Events()[k], source, t)| == 0
        {
          assert !Yields(span.Events()[k], contextOf(t));
          assert CodeContextOf(span.Events()[k], source, t) == contextOf(t)(span.Events()[k]);
        }
      }
    }

    /** `export`: each span of the batch passed on in its place as
        `Exported` says, both counters advanced, and the batch handed to the
        delegate, whose result is returned. */
    method Export(spans: seq<Span>) returns (result: ResultCode, exported: seq<Span>)
      requires Valid() && CountsInRange()
      modifies this, delegate
      ensures CountsInRange()
      ensures |exported| == |spans|
      ensures forall i :: 0 <= i < |spans| ==> exported[i] == Exported(spans[i])
      ensures processedSpans == Bumped(old(processedSpans), |spans|)
      ensures enhancedSpans == Bumped(old(enhancedSpans), EnhancedExporter.CountChanged(spans, exported))
      ensures delegate.exported == old(delegate.exported) + [exported]
      ensures result == delegate.exportOutcome(exported)
    {
      exported := [];
      var i := 0;
      while i < |spans|
        invariant 0 <= i <= |spans|
        invariant CountsInRange()
        invariant Pairwise(ExportRelation(), spans[..i], exported)
        invariant processedSpans == Bumped(old(processedSpans), i)
        invariant enhancedSpans == Bumped(old(enhancedSpans), EnhancedExporter.CountChanged(spans[..i], exported))
        invariant delegate.exported == old(delegate.exported)
      {
        exported := ExportNext(spans, i, exported, old(processedSpans), old(enhancedSpans));
        i := i + 1;
      }
      assert spans[..i] == spans;
      PairwiseEach(ExportRelation(), spans, exported);
      forall k | 0 <= k < |spans|
        ensures exported[k] == Exported(spans[k])
      {
        assert ExportRelation()(spans[k], exported[k]);
      }
      result := delegate.Export(exported);
    }

    /** `Exported` as a relation, for statements about every place. */
    ghost function ExportRelation(): (Span, Span) -> bool {
      (span, out) => out == Exported(span)
    }

    /** One pass of the loop of `export`, with the counters as the loop
        keeps them. */
    method ExportNext(spans: seq<Span>, i: nat, done: seq<Span>, ghost processed0: int, ghost enhanced0: int)
      returns (out: seq<Span>)
      requires Valid() && CountsInRange() && IsInt32(processed0) && IsInt32(enhanced0)
      requires i < |spans| && Pairwise(ExportRelation(), spans[..i], done)
      requires processedSpans == Bumped(processed0, i)
      requires enhancedSpans == Bumped(enhanced0, EnhancedExporter.CountChanged(spans[..i], done))
      modifies this
      ensures CountsInRange()
      ensures Pairwise(ExportRelation(), spans[..i + 1], out)
      ensures processedSpans == Bumped(processed0, i + 1)
      ensures enhancedSpans == Bumped(enhanced0, EnhancedExporter.CountChanged(spans[..i + 1], out))
    {
      ghost var before := enhancedSpans;
      var next := ExportSpan(spans[i]);
      PairwiseSnoc(ExportRelation(), spans, i, done, next);
      EnhancedCountStep(spans, i, done, next, enhanced0, before, enhancedSpans);
      out := done + [next];
    }

    /** One pass of the loop of `export`. */
    method ExportSpan(span: Span) returns (next: Span)
      requires Valid() && CountsInRange()
      modifies this
      ensures CountsInRange()
      ensures next == Exported(span)
      ensures processedSpans == IncInt(old(processedSpans))
      ensures enhancedSpans == if next != span then IncInt(old(enhancedSpans)) else old(enhancedSpans)
    {
      processedSpans := IncInt(processedSpans);
      next := span;
      if EnhancedExporter.HasExceptions(span) {
        assert Extracts(contextOf(clock(span).text), source, clock(span).text);
        var enrichedSpan := EnrichSpanWithCodeContext(span, source, clock(span), contextOf(clock(span).text));
        if enrichedSpan != span {
          enhancedSpans := IncInt(enhancedSpans);
          next := enrichedSpan;
        }
      }
    }

    /** `flush`: the delegate's result. */
    method Flush() returns (r: ResultCode)
      modifies delegate
      ensures r == delegate.flushOutcome
      ensures delegate.flushes == old(delegate.flushes) + 1 && delegate.exported == old(delegate.exported)
    {
      r := delegate.Flush();
    }

    /** `shutdown`: the delegate's result. */
    method Shutdown() returns (r: ResultCode)
      modifies delegate
      ensures r == delegate.shutdownOutcome
      ensures delegate.shutdowns == old(delegate.shutdowns) + 1 && delegate.exported == old(delegate.exported)
    {
      r := delegate.Shutdown();
    }
  }
}
