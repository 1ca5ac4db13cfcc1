/** SpanCodeEnhancer: turns the exception events of a span, or failing that
    the current thread's stack when the span has error status, into one
    `exception.stack_details` attribute per success: a JSON array with one
    record per application frame whose code context was found. The code
    context is that of CodeExtractionUtils; the current stack is an input. */
module SpanEnhancer {
  import opened Wrappers
  import opened Text
  import opened Telemetry
  import opened StackTrace
  import opened JsonText
  import opened Extraction
  import opened CodeExtraction
  import opened Sequences

  // ---------------------------------------------------------------------
  // the method lines of a context

  /** The lines of a `Map<Integer, String>` in iteration order. */
  function Values(entries: NumberedLines): (r: seq<string>)
    ensures |r| == |entries|
  {
    if |entries| == 0 then [] else Values(entries[..|entries| - 1]) + [entries[|entries| - 1].1]
  }

  lemma ValuesSnoc(entries: NumberedLines, i: nat)
    requires i < |entries|
    ensures Values(entries[..i + 1]) == Values(entries[..i]) + [entries[i].1]
  {
    assert entries[..i + 1][..i] == entries[..i];
  }

  /** The smallest key: `keySet().stream().min()`. */
  function MinKey(entries: NumberedLines): (r: int)
    requires |entries| > 0
    ensures forall j :: 0 <= j < |entries| ==> r <= entries[j].0
    ensures exists j :: 0 <= j < |entries| && entries[j].0 == r
  {
    if |entries| == 1 then entries[0].0
    else
      var init := entries[..|entries| - 1];
      var m := MinKey(init);
      assert forall j :: 0 <= j < |init| ==> init[j] == entries[j];
      if m <= entries[|entries| - 1].0 then m else entries[|entries| - 1].0
  }

  /** The largest key: `keySet().stream().max()`. */
  function MaxKey(entries: NumberedLines): (r: int)
    requires |entries| > 0
    ensures forall j :: 0 <= j < |entries| ==> entries[j].0 <= r
    ensures exists j :: 0 <= j < |entries| && entries[j].0 == r
  {
    if |entries| == 1 then entries[0].0
    else
      var init := entries[..|entries| - 1];
      var m := MaxKey(init);
      assert forall j :: 0 <= j < |init| ==> init[j] == entries[j];
      if m >= entries[|entries| - 1].0 then m else entries[|entries| - 1].0
  }

  /** For the lines a context holds, the smallest and largest keys are the
      two ends of the clamped range. */
  lemma RangeEnds(lines: seq<string>, first: int, last: int)
    requires |NumberedRange(lines, first, last)| > 0
    ensures MinKey(NumberedRange(lines, first, last)) == Max(1, first)
    ensures MaxKey(NumberedRange(lines, first, last)) == Min(|lines|, last)
  {
    var m := NumberedRange(lines, first, last);
    NumberedRangeContents(lines, first, last);
    assert m[0].0 == Max(1, first);
    assert m[|m| - 1].0 == Min(|lines|, last);
  }

  /** `formatMethodBody`: every line followed by a line feed, then the one
      trailing line feed removed. */
  method FormatMethodBody(methodLines: NumberedLines) returns (body: string)
    ensures body == Join(Values(methodLines), "\n")
  {
    var sb := "";
    var i := 0;
    while i < |methodLines|
      invariant 0 <= i <= |methodLines|
      invariant sb == LinesText(Values(methodLines[..i]))
    {
      ValuesSnoc(methodLines, i);
      sb := sb + methodLines[i].1 + "\n";
      i := i + 1;
    }
    assert methodLines[..|methodLines|] == methodLines;
    LinesTextJoin(Values(methodLines));
    if |sb| > 0 && sb[|sb| - 1] == '\n' {
      sb := sb[..|sb| - 1];
    }
    body := sb;
  }

  /** The lines each followed by a line feed are the lines joined by line
      feeds, plus one final line feed. */
  lemma {:induction false} LinesTextJoin(lines: seq<string>)
    ensures |lines| == 0 ==> LinesText(lines) == ""
    ensures |lines| > 0 ==> LinesText(lines) == Join(lines, "\n") + "\n"
  {
    if |lines| > 0 {
      var init := lines[..|lines| - 1];
      LinesTextJoin(init);
      JoinSnoc(init, lines[|lines| - 1], "\n");
      assert init + [lines[|lines| - 1]] == lines;
    }
  }

  // ---------------------------------------------------------------------
  // stack-detail records

  /** `createStackDetailEntry`: the frame's method, file and line, the
      language, whether the class is external, and, when the method lines
      are not empty, their first and last keys and the joined body. The map
      is listed in the order of its `put` calls. */
  function Entry(context: CodeContext, element: Frame): (r: Record)
    ensures |r| == 5 || |r| == 8
    ensures r[3] == Field("exception.language", JStr("java"))
    ensures r[4] == Field("exception.is_file_external", JBool(!IsApplicationCode(Some(element.className))))
    ensures |r| == 8 <==> |context.methodLines| > 0
  {
    [Field("exception.function_name", JStr(element.methodName)),
     Field("exception.file", if element.fileName.Some? then JStr(element.fileName.value) else JNull),
     Field("exception.line", JInt(element.lineNumber)),
     Field("exception.language", JStr("java")),
     Field("exception.is_file_external", JBool(!IsApplicationCode(Some(element.className))))]
    + (if |context.methodLines| > 0 then
         [Field("exception.start_line", JInt(MinKey(context.methodLines))),
          Field("exception.end_line", JInt(MaxKey(context.methodLines))),
          Field("exception.function_body", JStr(Join(Values(context.methodLines), "\n")))]
       else [])
  }

  method CreateStackDetailEntry(context: CodeContext, element: Frame) returns (detail: Record)
    ensures detail == Entry(context, element)
  {
    detail := [
      Field("exception.function_name", JStr(element.methodName)),
      Field("exception.file", if element.fileName.Some? then JStr(element.fileName.value) else JNull),
      Field("exception.line", JInt(element.lineNumber)),
      Field("exception.language", JStr("java")),
      Field("exception.is_file_external", JBool(!IsApplicationCode(Some(element.className))))];
    if |context.methodLines| > 0 {
      var startLine := MinKey(context.methodLines);
      var endLine := MaxKey(context.methodLines);
      var functionBody := FormatMethodBody(context.methodLines);
      detail := detail + [
        Field("exception.start_line", JInt(startLine)),
        Field("exception.end_line", JInt(endLine)),
        Field("exception.function_body", JStr(functionBody))];
    }
  }

  /** `contextOf` answers what CodeExtractionUtils extracts for a frame
      under `source`. (The trigger keeps the definition of
      `ExtractCodeContext` out of proofs that only use `contextOf`.) */
  ghost predicate Extracts(contextOf: Frame -> Option<CodeContext>, source: SourceLookup) {
    forall f {:trigger ExtractCodeContext(Some(f), source, Declarations)} ::
      contextOf(f) == ExtractCodeContext(Some(f), source, Declarations)
  }

  /** The entries `createStackDetails` builds for a stack: one per
      application frame that has a context, in order. */
  function Details(frames: seq<Frame>, contextOf: Frame -> Option<CodeContext>): (r: seq<Record>)
    ensures |r| <= |frames|
  {
    if |frames| == 0 then []
    else
      var init := Details(frames[..|frames| - 1], contextOf);
      var f := frames[|frames| - 1];
      if IsApplicationCode(Some(f.className)) && contextOf(f).Some? then init + [Entry(contextOf(f).value, f)]
      else init
  }

  lemma DetailsSnoc(frames: seq<Frame>, i: nat, contextOf: Frame -> Option<CodeContext>)
    requires i < |frames|
    ensures Details(frames[..i + 1], contextOf)
         == Details(frames[..i], contextOf)
          + (if IsApplicationCode(Some(frames[i].className)) && contextOf(frames[i]).Some?
             then [Entry(contextOf(frames[i]).value, frames[i])] else [])
  {
    assert frames[..i + 1][..i] == frames[..i];
  }

  /** `createStackDetails`. */
  method CreateStackDetails(stackTrace: seq<Frame>, source: SourceLookup, ghost contextOf: Frame -> Option<CodeContext>)
    returns (details: seq<Record>)
    requires Extracts(contextOf, source)
    ensures details == Details(stackTrace, contextOf)
  {
    details := [];
    var i := 0;
    while i < |stackTrace|
      invariant 0 <= i <= |stackTrace|
      invariant details == Details(stackTrace[..i], contextOf)
    {
      details := AddFrameDetail(details, stackTrace, i, source, contextOf);
      i := i + 1;
    }
    assert stackTrace[..|stackTrace|] == stackTrace;
  }

  /** One frame of `createStackDetails`: its entry when the frame is
      application code and has a context. */
  method AddFrameDetail(details: seq<Record>, stackTrace: seq<Frame>, i: nat, source: SourceLookup,
                        ghost contextOf: Frame -> Option<CodeContext>)
    returns (out: seq<Record>)
    requires i < |stackTrace| && Extracts(contextOf, source)
    requires details == Details(stackTrace[..i], contextOf)
    ensures out == Details(stackTrace[..i + 1], contextOf)
  {
    var element := stackTrace[i];
    DetailsSnoc(stackTrace, i, contextOf);
    out := details;
    if IsApplicationCode(Some(element.className)) {
      var codeContext := ExtractCodeContext(Some(element), source, Declarations);
      if codeContext.Some? {
        var detail := CreateStackDetailEntry(codeContext.value, element);
        out := details + [detail];
      }
    }
  }

  /** Only application frames get a record, so every record says its file
      is not external. */
  lemma {:induction false} DetailsNotExternal(frames: seq<Frame>, contextOf: Frame -> Option<CodeContext>)
    ensures forall k :: 0 <= k < |Details(frames, contextOf)| ==>
      |Details(frames, contextOf)[k]| == 5 || |Details(frames, contextOf)[k]| == 8
    ensures forall k :: 0 <= k < |Details(frames, contextOf)| && |Details(frames, contextOf)[k]| >= 5 ==>
      Details(frames, contextOf)[k][4] == Field("exception.is_file_external", JBool(false))
  {
    if |frames| > 0 {
      var init := frames[..|frames| - 1];
      var f := frames[|frames| - 1];
      DetailsNotExternal(init, contextOf);
      if IsApplicationCode(Some(f.className)) && contextOf(f).Some? {
        var e := Entry(contextOf(f).value, f);
        assert Details(frames, contextOf) == Details(init, contextOf) + [e];
      } else {
        assert Details(frames, contextOf) == Details(init, contextOf);
      }
    }
  }

  /** There is one record per context CodeExtractionUtils finds. */
  lemma {:induction false} DetailsMatchContexts(frames: seq<Frame>, source: SourceLookup,
                                                 contextOf: Frame -> Option<CodeContext>)
    requires Extracts(contextOf, source)
    ensures |Details(frames, contextOf)| == |Contexts(frames, source, Declarations)|
  {
    if |frames| > 0 {
      var n := |frames| - 1;
      DetailsMatchContexts(frames[..n], source, contextOf);
      DetailsSnoc(frames, n, contextOf);
      ContextsSnoc(frames, n, source, Declarations);
      assert frames[..n + 1] == frames;
    }
  }

  /** The attribute `addStackDetailsToAttributes` puts: the records as
      `[{...},...]` with strings escaped and null written bare. */
  function DetailsAttr(stackDetails: seq<Record>): Attr {
    Attr("exception.stack_details", Str(ArrayText(stackDetails, false)))
  }

  method AddStackDetailsToAttributes(stackDetails: seq<Record>, attrs: AttrList) returns (out: AttrList)
    ensures out == attrs + [DetailsAttr(stackDetails)]
  {
    var json := BuildArray(stackDetails, false);
    out := attrs + [Attr("exception.stack_details", Str(json))];
  }

  // ---------------------------------------------------------------------
  // enhanceSpanWithCodeContext

  /** The records an exception event yields: those of the frames of its
      non-empty `exception.stacktrace`; none without one. */
  function EventDetails(e: Event, contextOf: Frame -> Option<CodeContext>): seq<Record> {
    var stacktrace := GetString(e.attributes, "exception.stacktrace");
    if IsExceptionEvent(e) && stacktrace.Some? && stacktrace.value != "" then
      Details(ParseTrace(stacktrace.value), contextOf)
    else []
  }

  /** The attributes the event loop puts, one per event that yields
      records. */
  function EventPuts(events: seq<Event>, contextOf: Frame -> Option<CodeContext>): AttrList {
    if |events| == 0 then []
    else
      var d := EventDetails(events[|events| - 1], contextOf);
      EventPuts(events[..|events| - 1], contextOf) + (if |d| > 0 then [DetailsAttr(d)] else [])
  }

  lemma EventPutsSnoc(events: seq<Event>, i: nat, contextOf: Frame -> Option<CodeContext>)
    requires i < |events|
    ensures var d := EventDetails(events[i], contextOf);
      EventPuts(events[..i + 1], contextOf) == EventPuts(events[..i], contextOf) + (if |d| > 0 then [DetailsAttr(d)] else [])
  {
    assert events[..i + 1][..i] == events[..i];
  }

  /** `processStacktraceString`. */
  method ProcessStacktraceString(stacktrace: string, attrs: AttrList, source: SourceLookup,
                                 ghost contextOf: Frame -> Option<CodeContext>)
    returns (ok: bool, out: AttrList)
    requires Extracts(contextOf, source)
    ensures var d := Details(ParseTrace(stacktrace), contextOf);
      ok == (|d| > 0) && out == attrs + (if ok then [DetailsAttr(d)] else [])
  {
    var elements := ParseStacktrace(stacktrace);
    out := attrs;
    if |elements| == 0 {
      return false, out;
    }
    var stackDetails := CreateStackDetails(elements, source, contextOf);
    if |stackDetails| > 0 {
      out := AddStackDetailsToAttributes(stackDetails, attrs);
      return true, out;
    }
    return false, out;
  }

  /** `processExceptionEvent`: only a full stack trace is used; an event
      with just `exception.type` adds nothing. */
  method ProcessExceptionEvent(e: Event, attrs: AttrList, source: SourceLookup,
                               ghost contextOf: Frame -> Option<CodeContext>)
    returns (ok: bool, out: AttrList)
    requires IsExceptionEvent(e) && Extracts(contextOf, source)
    ensures var d := EventDetails(e, contextOf);
      ok == (|d| > 0) && out == attrs + (if ok then [DetailsAttr(d)] else [])
  {
    var stacktrace := GetString(e.attributes, "exception.stacktrace");
    if stacktrace.Some? && stacktrace.value != "" {
      ok, out := ProcessStacktraceString(stacktrace.value, attrs, source, contextOf);
      return;
    }
    return false, attrs;
  }

  /** A frame of the current stack that `processSpanError` uses: application
      code outside this class, with a context. */
  predicate UsableFrame(f: Frame, contextOf: Frame -> Option<CodeContext>) {
    IsApplicationCode(Some(f.className)) && !Contains(f.className, "SpanCodeEnhancer") && contextOf(f).Some?
  }

  /** The first usable frame from index `i` on. */
  function FirstUsable(stack: seq<Frame>, contextOf: Frame -> Option<CodeContext>, i: nat): (r: Option<Frame>)
    requires i <= |stack|
    ensures r.Some? <==> exists k :: i <= k < |stack| && UsableFrame(stack[k], contextOf)
    ensures r.Some? ==> UsableFrame(r.value, contextOf)
    decreases |stack| - i
  {
    if i == |stack| then None
    else if UsableFrame(stack[i], contextOf) then Some(stack[i])
    else FirstUsable(stack, contextOf, i + 1)
  }

  /** `processSpanError`: the record of the first usable frame of the
      current stack, if any. */
  method ProcessSpanError(currentStack: seq<Frame>, attrs: AttrList, source: SourceLookup,
                          ghost contextOf: Frame -> Option<CodeContext>)
    returns (ok: bool, out: AttrList)
    requires Extracts(contextOf, source)
    ensures var f := FirstUsable(currentStack, contextOf, 0);
      ok == f.Some? && out == attrs + (if ok then [DetailsAttr([Entry(contextOf(f.value).value, f.value)])] else [])
  {
    var i := 0;
    while i < |currentStack|
      invariant 0 <= i <= |currentStack|
      invariant FirstUsable(currentStack, contextOf, 0) == FirstUsable(currentStack, contextOf, i)
    {
      var element := currentStack[i];
      if IsApplicationCode(Some(element.className)) && !Contains(element.className, "SpanCodeEnhancer") {
        var stackDetails := CreateStackDetails([element], source, contextOf);
        SingleFrameDetails(element, contextOf);
        if |stackDetails| > 0 {
          out := AddStackDetailsToAttributes(stackDetails, attrs);
          return true, out;
        }
      }
      i := i + 1;
    }
    return false, attrs;
  }

  /** A one-frame stack yields one record exactly when the frame is
      application code with a context. */
  lemma SingleFrameDetails(f: Frame, contextOf: Frame -> Option<CodeContext>)
    ensures Details([f], contextOf)
         == if IsApplicationCode(Some(f.className)) && contextOf(f).Some? then [Entry(contextOf(f).value, f)] else []
  {
    assert [f][..0] == [];
  }

  /** `enhanceSpanWithCodeContext`: every exception event is processed (the
      `|=` does not short-circuit), then the span error path when the status
      is ERROR. The result is true exactly when some attribute was put. */
  method EnhanceSpanWithCodeContext(span: Span, attrs: AttrList, source: SourceLookup, currentStack: seq<Frame>,
                                    ghost contextOf: Frame -> Option<CodeContext>)
    returns (enhanced: bool, out: AttrList)
    requires Extracts(contextOf, source)
    ensures var f := FirstUsable(currentStack, contextOf, 0);
      out == attrs + EventPuts(span.Events(), contextOf)
                   + (if span.Status() == Error && f.Some? then [DetailsAttr([Entry(contextOf(f.value).value, f.value)])] else [])
    ensures enhanced <==> |out| > |attrs|
  {
    enhanced := false;
    out := attrs;
    var events := span.Events();
    var i := 0;
    while i < |events|
      invariant 0 <= i <= |events|
      invariant out == attrs + EventPuts(events[..i], contextOf)
      invariant enhanced <==> |out| > |attrs|
    {
      enhanced, out := ProcessEvent(events, i, attrs, enhanced, out, source, contextOf);
      i := i + 1;
    }
    assert events[..|events|] == events;
    if span.Status() == Error {
      var ok;
      ok, out := ProcessSpanError(currentStack, out, source, contextOf);
      enhanced := enhanced || ok;
    }
  }

  /** One pass of the event loop. */
  method ProcessEvent(events: seq<Event>, i: nat, attrs: AttrList, enhanced: bool, sofar: AttrList,
                      source: SourceLookup, ghost contextOf: Frame -> Option<CodeContext>)
    returns (enhanced': bool, out: AttrList)
    requires i < |events| && Extracts(contextOf, source)
    requires sofar == attrs + EventPuts(events[..i], contextOf) && (enhanced <==> |sofar| > |attrs|)
    ensures out == attrs + EventPuts(events[..i + 1], contextOf) && (enhanced' <==> |out| > |attrs|)
  {
    EventPutsSnoc(events, i, contextOf);
    ghost var d := EventDetails(events[i], contextOf);
    Regroup(attrs, EventPuts(events[..i], contextOf), if |d| > 0 then [DetailsAttr(d)] else []);
    enhanced', out := enhanced, sofar;
    if IsExceptionEvent(events[i]) {
      var ok;
      ok, out := ProcessExceptionEvent(events[i], sofar, source, contextOf);
      enhanced' := enhanced || ok;
    }
  }

  /** Every attribute the enhancer puts is `exception.stack_details`. */
  lemma {:induction false} EventPutsKey(events: seq<Event>, contextOf: Frame -> Option<CodeContext>)
    ensures forall k :: 0 <= k < |EventPuts(events, contextOf)| ==>
      EventPuts(events, contextOf)[k].key == "exception.stack_details"
  {
    if |events| > 0 {
      EventPutsKey(events[..|events| - 1], contextOf);
    }
  }
}
