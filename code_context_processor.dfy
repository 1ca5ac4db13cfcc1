/** CodeContextSpanProcessor: a span processor that remembers, per span
    id, how many events it has already looked at and whether the span was
    enhanced. When a span ends it looks at the events added since, and at
    the first new exception event of a span not yet enhanced it tries to
    add the source lines around the failing line to the span, as an event
    and as attributes.

    The stack-trace parsing, the line window and the formatting are the
    same code as the exporter's (`CodeContextExporter`). The file search of
    `readFromProjectStructure` is the `projectFiles` input, which looks a
    file up by its name only. The console output of `onStart`, `onEnd` and
    `shutdown` is not modelled. */
module CodeContextProcessor {
  import opened Wrappers
  import opened Text
  import opened Telemetry
  import opened StackTrace
  import opened CodeExtraction
  import opened CodeContextExporter

  /** The SDK span as `onStart` and `onEnd` see it: a `ReadWriteSpan` when
      `writable`, otherwise only a `ReadableSpan`. Once `end()` has been
      called the span is `ended` and ignores `addEvent` and `setAttribute`;
      the SDK calls `onEnd` only after that. */
  class RecordingSpan {
    const spanId: string
    const writable: bool
    /** The reading of the span's clock when an event is added. */
    const clockNanos: int
    var ended: bool
    var events: seq<Event>
    var attributes: AttrList

    /** A started span, still recording. */
    constructor (spanId: string, writable: bool, clockNanos: int, events: seq<Event>, attributes: AttrList)
      ensures this.spanId == spanId && this.writable == writable && this.clockNanos == clockNanos
      ensures !ended && this.events == events && this.attributes == attributes
    {
      this.spanId := spanId;
      this.writable := writable;
      this.clockNanos := clockNanos;
      this.ended := false;
      this.events := events;
      this.attributes := attributes;
    }

    /** `end()`: the span stops recording. */
    method End()
      modifies this`ended
      ensures ended
    {
      ended := true;
    }

    /** `addEvent(name, attributes)`: appended while recording, ignored on
        an ended span. */
    method AddEvent(name: string, attrs: AttrList)
      modifies this`events
      ensures events == if ended then old(events) else old(events) + [EnrichedEventData(name, clockNanos, attrs)]
    {
      if !ended {
        events := events + [EnrichedEventData(name, clockNanos, attrs)];
      }
    }

    /** `setAttribute(key, value)`: appended while recording, ignored on an
        ended span. */
    method SetAttribute(key: string, value: AttrValue)
      modifies this`attributes
      ensures attributes == if ended then old(attributes) else old(attributes) + [Attr(key, value)]
    {
      if !ended {
        attributes := attributes + [Attr(key, value)];
      }
    }
  }

  /** `readSourceFile` of the processor: the class name plays no part. */
  function ProjectSource(projectFiles: string -> seq<string>): (source: SourceLookup)
    ensures forall className, fileName :: source(className, fileName) == projectFiles(fileName)
  {
    (className, fileName) => projectFiles(fileName)
  }

  /** `getPrimaryStackElement`: the first application frame of the event's
      stack trace, or null. */
  function PrimaryFrame(event: Event): Option<Frame> {
    match GetString(event.attributes, "exception.stacktrace")
    case None => None
    case Some(trace) =>
      var appElements := AppFramesOf(Split(trace, '\n'));
      if |appElements| == 0 then None else Some(appElements[0])
  }

  method GetPrimaryStackElement(event: Event) returns (primary: Option<Frame>)
    ensures primary == PrimaryFrame(event)
  {
    var stacktrace := GetString(event.attributes, "exception.stacktrace");
    if stacktrace.None? {
      return None;
    }
    var appElements := ParseStacktraceForAppCode(stacktrace.value);
    primary := if |appElements| == 0 then None else Some(appElements[0]);
  }

  /** `extractCodeContextFromEvent`: the window around the primary frame's
      line, empty without one. */
  function SourceWindow(event: Event, source: SourceLookup): (r: NumberedLines)
    ensures |r| > 0 ==> PrimaryFrame(event).Some? && PrimaryFrame(event).value.fileName.Some?
  {
    match PrimaryFrame(event)
    case None => []
    case Some(primary) => MethodWindow(primary, source)
  }

  method ExtractCodeContextFromEvent(event: Event, source: SourceLookup) returns (sourceCode: NumberedLines)
    ensures sourceCode == SourceWindow(event, source)
  {
    var primary := GetPrimaryStackElement(event);
    if primary.None? {
      return [];
    }
    sourceCode := ExtractMethodCode(primary.value, source);
  }

  /** The processor finds source lines for an event exactly when the
      exporter, given the same source, builds a code context for it. */
  lemma SourceWindowMatchesExporter(event: Event, source: SourceLookup, timestamp: string)
    ensures |SourceWindow(event, source)| > 0 <==> |CodeContextOf(event, source, timestamp)| > 0
  {
  }

  /** The attributes of the event strategy 1 adds. */
  function ContextEventAttributes(primary: Frame, sourceCode: NumberedLines): AttrList
    requires primary.fileName.Some?
  {
    [ Attr("code.function.name", Str(primary.methodName)),
      Attr("code.file.name", Str(primary.fileName.value)),
      Attr("code.line.number", Long(primary.lineNumber)),
      Attr("code.function.body", Str(FormattedCode(sourceCode))),
      Attr("code.strategy", Str("readwrite_addevent")) ]
  }

  /** Strategy 1: the code event added to the span (ignored once it has
      ended). */
  method AddCodeContextEvent(span: RecordingSpan, primary: Frame, sourceCode: NumberedLines)
    requires primary.fileName.Some?
    modifies span`events
    ensures span.events ==
      if span.ended then old(span.events)
      else old(span.events) + [EnrichedEventData("code.context.extracted", span.clockNanos,
                                                 ContextEventAttributes(primary, sourceCode))]
  {
    var body := FormatSourceCode(sourceCode);
    var attributes := [ Attr("code.function.name", Str(primary.methodName)),
                        Attr("code.file.name", Str(primary.fileName.value)),
                        Attr("code.line.number", Long(primary.lineNumber)),
                        Attr("code.function.body", Str(body)),
                        Attr("code.strategy", Str("readwrite_addevent")) ];
    span.AddEvent("code.context.extracted", attributes);
  }

  /** Strategy 2: the four attributes set on the span, in order (ignored
      once it has ended). */
  method SetCodeAttributes(span: RecordingSpan, primary: Frame)
    requires primary.fileName.Some?
    modifies span`attributes
    ensures span.attributes == if span.ended then old(span.attributes) else old(span.attributes) + StrategyAttributes(primary)
  {
    span.SetAttribute("code.function.name", Str(primary.methodName));
    span.SetAttribute("code.file.name", Str(primary.fileName.value));
    span.SetAttribute("code.line.number", Long(primary.lineNumber));
    span.SetAttribute("code.strategy", Str("readwrite_setattribute"));
  }

  /** The attributes strategy 2 sets, in order. */
  function StrategyAttributes(primary: Frame): AttrList
    requires primary.fileName.Some?
  {
    [ Attr("code.function.name", Str(primary.methodName)),
      Attr("code.file.name", Str(primary.fileName.value)),
      Attr("code.line.number", Long(primary.lineNumber)),
      Attr("code.strategy", Str("readwrite_setattribute")) ]
  }

  /** The first exception event at or after `i`, or `|events|`. */
  function FirstExceptionFrom(events: seq<Event>, i: nat): (j: nat)
    requires i <= |events|
    ensures i <= j <= |events|
    ensures j < |events| ==> IsExceptionEvent(events[j])
    ensures forall k :: i <= k < j ==> !IsExceptionEvent(events[k])
    decreases |events| - i
  {
    if i == |events| || IsExceptionEvent(events[i]) then i else FirstExceptionFrom(events, i + 1)
  }

  /** The count `checkForNewExceptionEvents` starts from: the stored one,
      0 when none is stored. */
  function LastKnown(counts: map<string, nat>, spanId: string): nat {
    if spanId in counts then counts[spanId] else 0
  }

  /** The event `checkForNewExceptionEvents` tries to enhance the span
      with: the first exception event among those added since the last
      known count, unless the span was already enhanced. */
  function Target(events: seq<Event>, last: nat, alreadyEnhanced: bool): (r: Option<nat>)
    ensures r.Some? ==> last <= r.value < |events| && IsExceptionEvent(events[r.value])
    ensures r.Some? ==> forall k :: last <= k < r.value ==> !IsExceptionEvent(events[k])
    ensures r.None? <==> alreadyEnhanced || forall k :: last <= k < |events| ==> !IsExceptionEvent(events[k])
  {
    if |events| <= last || alreadyEnhanced then None
    else
      var j := FirstExceptionFrom(events, last);
      if j < |events| then Some(j) else None
  }

  class CodeContextSpanProcessor {
    /** `readFromProjectStructure`: the lines of the file with that name. */
    const projectFiles: string -> seq<string>
    var spanEventCounts: map<string, nat>
    var enhancedSpans: set<string>
    /** The `static int` counters. */
    var startCount: int
    var endCount: int
    var interceptCount: int

    /** The counters hold Java `int` values. */
    predicate CountsInRange()
      reads this
    {
      IsInt32(startCount) && IsInt32(endCount) && IsInt32(interceptCount)
    }

    constructor (projectFiles: string -> seq<string>)
      ensures this.projectFiles == projectFiles
      ensures spanEventCounts == map[] && enhancedSpans == {}
      ensures startCount == 0 && endCount == 0 && interceptCount == 0
    {
      this.projectFiles := projectFiles;
      spanEventCounts := map[];
      enhancedSpans := {};
      startCount := 0;
      endCount := 0;
      interceptCount := 0;
    }

    /** `onStart`: the span's count is (re)set to 0. */
    method OnStart(span: RecordingSpan)
      requires CountsInRange()
      modifies this
      ensures CountsInRange()
      ensures startCount == IncInt(old(startCount))
      ensures spanEventCounts == old(spanEventCounts)[span.spanId := 0]
      ensures enhancedSpans == old(enhancedSpans)
      ensures endCount == old(endCount) && interceptCount == old(interceptCount)
    {
      startCount := IncInt(startCount);
      spanEventCounts := spanEventCounts[span.spanId := 0];
    }

    predicate IsStartRequired() {
      true
    }

    predicate IsEndRequired() {
      true
    }

    /** `testMultipleEnhancementStrategies`: with source lines for the
        event's primary frame and a writable span, strategy 1 adds the code
        event and strategy 2 then sets the four attributes; strategy 3 does
        nothing. Success is reported whether or not the span still records:
        on an ended span both writes are ignored. Without source lines
        nothing but the counter changes. */
    method TestMultipleEnhancementStrategies(span: RecordingSpan, exceptionEvent: Event) returns (anySuccess: bool)
      requires CountsInRange()
      modifies this`interceptCount, span`events, span`attributes
      ensures CountsInRange()
      ensures interceptCount == IncInt(old(interceptCount))
      ensures var window := SourceWindow(exceptionEvent, ProjectSource(projectFiles));
        anySuccess == (|window| > 0 && span.writable)
      ensures var window := SourceWindow(exceptionEvent, ProjectSource(projectFiles));
        if |window| > 0 && span.writable && !span.ended then
          var primary := PrimaryFrame(exceptionEvent).value;
          && span.events == old(span.events)
             + [EnrichedEventData("code.context.extracted", span.clockNanos, ContextEventAttributes(primary, window))]
          && span.attributes == old(span.attributes) + StrategyAttributes(primary)
        else span.events == old(span.events) && span.attributes == old(span.attributes)
    {
      interceptCount := IncInt(interceptCount);
      var sourceCode := ExtractCodeContextFromEvent(exceptionEvent, ProjectSource(projectFiles));
      if |sourceCode| == 0 {
        return false;
      }
      // The second abort of the source, on a null primary element, cannot
      // happen: the lines were found from that element.
      var primaryElement := GetPrimaryStackElement(exceptionEvent);
      assert primaryElement.Some? && primaryElement.value.fileName.Some?;
      var primary := primaryElement.value;
      anySuccess := false;
      if span.writable {
        AddCodeContextEvent(span, primary, sourceCode);
        anySuccess := true;
      }
      if span.writable {
        SetCodeAttributes(span, primary);
        anySuccess := true;
      }
    }

    /** `checkForNewExceptionEvents`: only the events added since the last
        known count are looked at; at the first exception event among them,
        if the span was not enhanced yet, enhancement is attempted, the span
        id is recorded as enhanced when it succeeds, and `true` is returned.
        Whenever there are new events the count moves to the current one. */
    method CheckForNewExceptionEvents(span: RecordingSpan) returns (attempted: bool)
      requires CountsInRange()
      modifies this`spanEventCounts, this`enhancedSpans, this`interceptCount, span`events, span`attributes
      ensures CountsInRange()
      ensures var last, events := LastKnown(old(spanEventCounts), span.spanId), old(span.events);
        spanEventCounts == if |events| > last then old(spanEventCounts)[span.spanId := |events|] else old(spanEventCounts)
      ensures var target := Target(old(span.events), LastKnown(old(spanEventCounts), span.spanId),
                                   span.spanId in old(enhancedSpans));
        && attempted == target.Some?
        && (target.None? ==>
              && span.events == old(span.events) && span.attributes == old(span.attributes)
              && enhancedSpans == old(enhancedSpans) && interceptCount == old(interceptCount))
        && (target.Some? ==>
              var event := old(span.events)[target.value];
              var window := SourceWindow(event, ProjectSource(projectFiles));
              var success := |window| > 0 && span.writable;
              && interceptCount == IncInt(old(interceptCount))
              && enhancedSpans == (if success then old(enhancedSpans) + {span.spanId} else old(enhancedSpans))
              && (success && !span.ended ==>
                    && span.events == old(span.events)
                       + [EnrichedEventData("code.context.extracted", span.clockNanos,
                                            ContextEventAttributes(PrimaryFrame(event).value, window))]
                    && span.attributes == old(span.attributes) + StrategyAttributes(PrimaryFrame(event).value))
              && (!(success && !span.ended) ==> span.events == old(span.events) && span.attributes == old(span.attributes)))
    {
      var spanId := span.spanId;
      var events := span.events;
      var lastKnownCount := LastKnown(spanEventCounts, spanId);
      var currentCount := |events|;
      if currentCount > lastKnownCount {
        var i := lastKnownCount;
        while i < currentCount
          invariant lastKnownCount <= i <= currentCount
          invariant forall k :: lastKnownCount <= k < i ==> !(IsExceptionEvent(events[k]) && spanId !in enhancedSpans)
          invariant spanEventCounts == old(spanEventCounts) && enhancedSpans == old(enhancedSpans)
          invariant interceptCount == old(interceptCount)
          invariant span.events == old(span.events) && span.attributes == old(span.attributes)
        {
          if IsExceptionEvent(events[i]) && spanId !in enhancedSpans {
            assert FirstExceptionFrom(events, lastKnownCount) == i;
            EnhanceAndRecord(span, events[i], currentCount);
            return true;
          }
          i := i + 1;
        }
        spanEventCounts := spanEventCounts[spanId := currentCount];
      }
      return false;
    }

    /** The branch of `checkForNewExceptionEvents` that found an exception
        event: enhancement is attempted, the span id is recorded as enhanced
        when it succeeds, and the count moves to the current one. */
    method EnhanceAndRecord(span: RecordingSpan, event: Event, currentCount: nat)
      requires CountsInRange()
      modifies this`spanEventCounts, this`enhancedSpans, this`interceptCount, span`events, span`attributes
      ensures CountsInRange()
      ensures spanEventCounts == old(spanEventCounts)[span.spanId := currentCount]
      ensures var window := SourceWindow(event, ProjectSource(projectFiles));
        var success := |window| > 0 && span.writable;
        && interceptCount == IncInt(old(interceptCount))
        && enhancedSpans == (if success then old(enhancedSpans) + {span.spanId} else old(enhancedSpans))
        && (success && !span.ended ==>
              && span.events == old(span.events)
                 + [EnrichedEventData("code.context.extracted", span.clockNanos,
                                      ContextEventAttributes(PrimaryFrame(event).value, window))]
              && span.attributes == old(span.attributes) + StrategyAttributes(PrimaryFrame(event).value))
        && (!(success && !span.ended) ==> span.events == old(span.events) && span.attributes == old(span.attributes))
    {
      var success := TestMultipleEnhancementStrategies(span, event);
      if success {
        enhancedSpans := enhancedSpans + {span.spanId};
      }
      spanEventCounts := spanEventCounts[span.spanId := currentCount];
    }

    /** `onEnd`: the SDK calls it on a span that has already ended. The new
        events are checked as above, and the span id is then forgotten:
        whatever the check recorded for it, neither the counts nor the
        enhanced set keep an entry for it. Because the span has ended, the
        strategies' writes are ignored and the span comes out unchanged,
        even when an attempt is counted and reported as a success. */
    method OnEnd(span: RecordingSpan)
      requires CountsInRange()
      requires span.ended
      modifies this, span`events, span`attributes
      ensures CountsInRange()
      ensures endCount == IncInt(old(endCount)) && startCount == old(startCount)
      ensures spanEventCounts == old(spanEventCounts) - {span.spanId}
      ensures enhancedSpans == old(enhancedSpans) - {span.spanId}
      ensures span.events == old(span.events) && span.attributes == old(span.attributes)
      ensures var target := Target(old(span.events), LastKnown(old(spanEventCounts), span.spanId),
                                   span.spanId in old(enhancedSpans));
        interceptCount == if target.Some? then IncInt(old(interceptCount)) else old(interceptCount)
    {
      endCount := IncInt(endCount);
      var spanId := span.spanId;
      var enhanced := CheckForNewExceptionEvents(span);
      spanEventCounts := spanEventCounts - {spanId};
      enhancedSpans := enhancedSpans - {spanId};
    }

    /** Where the check has to run for its writes to take effect: before the
        span is marked ended, as the SDK's `onEnding` hook is called. Then a
        successful attempt leaves a code context event on the span after
        all the events it had. */
    method OnEnding(span: RecordingSpan) returns (attempted: bool)
      requires CountsInRange()
      requires !span.ended
      modifies this`spanEventCounts, this`enhancedSpans, this`interceptCount, span`events, span`attributes
      ensures CountsInRange()
      ensures var target := Target(old(span.events), LastKnown(old(spanEventCounts), span.spanId),
                                   span.spanId in old(enhancedSpans));
        && attempted == target.Some?
        && (target.None? ==> span.events == old(span.events) && span.attributes == old(span.attributes))
        && (target.Some? && |SourceWindow(old(span.events)[target.value], ProjectSource(projectFiles))| > 0
            && span.writable ==>
              && span.spanId in enhancedSpans
              && HasCodeContextEvent(span.events)
              && |old(span.events)| < |span.events| && span.events[..|old(span.events)|] == old(span.events))
    {
      ghost var before := span.events;
      ghost var target := Target(before, LastKnown(spanEventCounts, span.spanId), span.spanId in enhancedSpans);
      attempted := CheckForNewExceptionEvents(span);
      if target.Some? {
        var event := before[target.value];
        var window := SourceWindow(event, ProjectSource(projectFiles));
        if |window| > 0 && span.writable {
          EnhancedSpanHasCodeContextEvent(before, span.clockNanos,
                                          ContextEventAttributes(PrimaryFrame(event).value, window));
        }
      }
    }

    /** `shutdown`: always succeeds. */
    method Shutdown() returns (r: ResultCode)
      ensures r == Success
    {
      r := Success;
    }

    /** `forceFlush`: always succeeds. */
    method ForceFlush() returns (r: ResultCode)
      ensures r == Success
    {
      r := Success;
    }
  }

  /** `checkForCodeContextEvents`: some event is named
      `code.context.extracted`. */
  predicate HasCodeContextEvent(events: seq<Event>) {
    exists k :: 0 <= k < |events| && events[k].name == "code.context.extracted"
  }

  /** After a successful strategy 1 the span shows a code context event,
      and the events it had before are still there. */
  lemma EnhancedSpanHasCodeContextEvent(events: seq<Event>, nanos: int, attrs: AttrList)
    ensures var after := events + [EnrichedEventData("code.context.extracted", nanos, attrs)];
      HasCodeContextEvent(after) && after[..|events|] == events
  {
    var after := events + [EnrichedEventData("code.context.extracted", nanos, attrs)];
    assert after[|events|].name == "code.context.extracted";
  }
}
