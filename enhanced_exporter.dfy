/** EnhancedExceptionSpanExporter: the span exporter that replaces each
    exception event of an exported span by a copy carrying
    `exception.stack_details`, a JSON array with one record per frame of
    the event's stack trace, and passes the batch on to the next exporter.

    The search for a source file on disk, class loading and the Jackson
    serializer are inputs of the model: `SourceSearch`, the classifier's
    `resolve` oracle, and `serialize`. */
module EnhancedExporter {
  import opened Wrappers
  import opened Text
  import opened Telemetry
  import opened Sequences
  import opened StackTrace
  import opened Classifier
  import opened Extraction

  // ---------------------------------------------------------------------
  // where source lines come from

  /** `Files.readAllLines` on the first match of the local search:
      the lines, no match at all, or an exception while reading. */
  datatype LocalRead = Located(lines: seq<string>) | Missing | Unreadable

  /** The disk searches of `readSourceFile`: the local project directories
      by file name, and the Spring, JDK and dependency source archives by
      class and file name (each empty when nothing is found). */
  datatype SourceSearch = SourceSearch(
    local: string -> LocalRead,
    spring: (string, string) -> seq<string>,
    jdk: (string, string) -> seq<string>,
    dependency: (string, string) -> seq<string>)

  /** What the disk search of `readSourceFile` yields; `None` when reading
      the local file throws. The archives are searched only when external
      extraction is enabled and nothing was found before, Spring sources
      only for `org.springframework.` classes and JDK sources only for
      `java.` and `jdk.` classes. */
  function DiskSource(search: SourceSearch, extractExternal: bool, className: string, fileName: string)
    : (r: Option<seq<string>>)
    ensures r.None? <==> search.local(fileName).Unreadable?
    ensures search.local(fileName).Located? && search.local(fileName).lines != [] ==>
      r == Some(search.local(fileName).lines)
    ensures !extractExternal && r.Some? ==>
      r.value == (if search.local(fileName).Located? then search.local(fileName).lines else [])
  {
    if search.local(fileName).Unreadable? then None
    else
      var local := match search.local(fileName) case Located(ls) => ls case _ => [];
      var spring :=
        if local == [] && extractExternal && StartsWith(className, "org.springframework.")
        then search.spring(className, fileName) else local;
      var jdk :=
        if spring == [] && extractExternal && (StartsWith(className, "java.") || StartsWith(className, "jdk."))
        then search.jdk(className, fileName) else spring;
      Some(if jdk == [] && extractExternal then search.dependency(className, fileName) else jdk)
  }

  /** With external extraction enabled, a class found nowhere else is
      looked up in the dependency archives last. */
  lemma DependencySearchedLast(search: SourceSearch, className: string, fileName: string)
    requires search.local(fileName).Missing?
    requires !StartsWith(className, "org.springframework.")
    requires !StartsWith(className, "java.") && !StartsWith(className, "jdk.")
    ensures DiskSource(search, true, className, fileName) == Some(search.dependency(className, fileName))
  {
  }

  /** `className + "#" + fileName`. */
  function CacheKey(className: string, fileName: string): string {
    className + "#" + fileName
  }

  /** Two class names without `#` never share a key unless the pairs are
      the same. */
  lemma CacheKeyInjective(c1: string, f1: string, c2: string, f2: string)
    requires '#' !in c1 && '#' !in c2
    requires CacheKey(c1, f1) == CacheKey(c2, f2)
    ensures c1 == c2 && f1 == f2
  {
    var k := CacheKey(c1, f1);
    assert k == c1 + ['#'] + f1 && k == c2 + ['#'] + f2;
    var r := IndexOfChar(k, '#');
    assert k[|c1|] == '#' && k[|c2|] == '#';
    assert r == |c1| && r == |c2|;
    assert c1 == k[..|c1|] == c2;
    assert f1 == k[|c1| + 1..] == f2;
  }

  /** The key ambiguity that `#` inside a class name allows: two different
      lookups share one cache entry. */
  lemma CacheKeyCollision()
    ensures CacheKey("a#b", "c") == CacheKey("a", "b#c")
  {
  }

  /** `maxCacheSize`. */
  const MaxCacheSize: nat := 100

  /** The source cache holds at most `maxCacheSize` entries, and each entry
      holds what the disk search gave for the class and file whose key it
      is; `origins` records that class and file. */
  ghost predicate SourcesAgree(search: SourceSearch, extractExternal: bool,
                               origins: map<string, (string, string)>, cache: map<string, seq<string>>) {
    && |cache| <= MaxCacheSize
    && origins.Keys == cache.Keys
    && forall k :: k in origins ==>
         CacheKey(origins[k].0, origins[k].1) == k
         && DiskSource(search, extractExternal, origins[k].0, origins[k].1) == Some(cache[k])
  }

  /** No cached entry was stored by a class name with `#`. */
  ghost predicate HashFreeOrigins(origins: map<string, (string, string)>) {
    forall k :: k in origins ==> '#' !in origins[k].0
  }

  /** Storing what the disk gave, while there is room, keeps the cache in
      agreement. */
  lemma CacheStoreAgrees(search: SourceSearch, extractExternal: bool,
                    origins: map<string, (string, string)>, cache: map<string, seq<string>>,
                    className: string, fileName: string, lines: seq<string>)
    requires SourcesAgree(search, extractExternal, origins, cache) && |cache| < MaxCacheSize
    requires DiskSource(search, extractExternal, className, fileName) == Some(lines)
    ensures var key := CacheKey(className, fileName);
      SourcesAgree(search, extractExternal, origins[key := (className, fileName)], cache[key := lines])
  {
  }

  // ---------------------------------------------------------------------
  // extracting the function of a frame

  /** `FunctionExtractionResult`. */
  datatype FunctionResult = FunctionResult(success: bool, startLine: int, endLine: int, functionBody: string)

  /** The result as constructed: no success, lines -1, empty body. */
  const NoFunction: FunctionResult := FunctionResult(false, -1, -1, "")

  /** `extractContextLines` of the exporter: lines max(1, L-5) through
      min(size, L+5), each followed by a line feed, the text trimmed. The
      start comes out after the end for an error line more than five lines
      past the end of the file, whose body is then empty. */
  function ContextFallback(lines: seq<string>, errorLine: int): (r: FunctionResult)
    ensures r.success
    ensures r.startLine == Max(1, errorLine - 5) && r.endLine == Min(|lines|, errorLine + 5)
    ensures r.startLine > r.endLine ==> r.functionBody == ""
  {
    var first, last := Max(1, errorLine - 5), Min(|lines|, errorLine + 5);
    FunctionResult(true, first, last, Trim(LinesText(LinesBetween(lines, first, last))))
  }

  /** What `extractCompleteFunction` makes of a non-empty source: the
      method between the boundaries when they are found, the context window
      otherwise; success either way. */
  function FunctionIn(lines: seq<string>, errorLine: int, declares: LineTest, stops: LineTest): (r: FunctionResult)
    ensures r.success
    ensures Boundaries(lines, errorLine, declares, stops).Found? ==>
      r.startLine == Boundaries(lines, errorLine, declares, stops).startLine
      && r.endLine == Boundaries(lines, errorLine, declares, stops).endLine
      && 1 <= r.startLine <= r.endLine <= |lines|
      && r.functionBody == Trim(LinesText(lines[r.startLine - 1..r.endLine]))
    ensures Boundaries(lines, errorLine, declares, stops).NotFound? ==> r == ContextFallback(lines, errorLine)
  {
    match Boundaries(lines, errorLine, declares, stops)
    case Found(s, e) =>
      LinesBetweenSlice(lines, s, e);
      FunctionResult(true, s, e, Trim(LinesText(LinesBetween(lines, s, e))))
    case NotFound => ContextFallback(lines, errorLine)
  }

  /** A body that is not blank always comes with a start at or before its
      end. */
  lemma NonBlankBodyIsOrdered(lines: seq<string>, errorLine: int, declares: LineTest, stops: LineTest)
    ensures Trim(FunctionIn(lines, errorLine, declares, stops).functionBody) != "" ==>
      FunctionIn(lines, errorLine, declares, stops).startLine <= FunctionIn(lines, errorLine, declares, stops).endLine
  {
    var r := FunctionIn(lines, errorLine, declares, stops);
    if Boundaries(lines, errorLine, declares, stops).NotFound? && r.startLine > r.endLine {
      assert r.functionBody == "";
    }
  }

  /** The `StringBuilder` loop: lines `first` through `last` of the file,
      each followed by a line feed. */
  method AppendLines(lines: seq<string>, first: int, last: int) returns (text: string)
    ensures text == LinesText(LinesBetween(lines, first, last))
  {
    text := "";
    if first > last + 1 {
      return;
    }
    var i := first;
    while i <= last
      invariant first <= i <= last + 1
      invariant text == LinesText(LinesBetween(lines, first, i - 1))
      decreases last - i
    {
      ghost var before := LinesBetween(lines, first, i - 1);
      if 1 <= i <= |lines| {
        text := text + lines[i - 1] + "\n";
        assert (before + [lines[i - 1]])[..|before|] == before;
        assert LinesText(before + [lines[i - 1]]) == LinesText(before) + lines[i - 1] + "\n";
      } else {
        assert before + [] == before;
      }
      i := i + 1;
    }
  }

  // ---------------------------------------------------------------------
  // stack-detail records

  /** One record of `exception.stack_details`. */
  datatype StackDetail = StackDetail(
    functionName: string,
    file: Option<string>,
    line: int,
    language: string,
    isFileExternal: bool,
    startLine: int,
    endLine: int,
    functionBody: string)

  const ExtractionFailed: string := "// Function body extraction failed"

  /** `createStackDetailEntry`, given the classification and, when code is
      to be extracted, the extraction result (`None` when the frame is
      external and external extraction is off). */
  function Entry(element: Frame, isExternal: bool, extracted: Option<FunctionResult>): (d: StackDetail)
    ensures d.functionName == element.methodName && d.file == element.fileName && d.line == element.lineNumber
    ensures d.language == "java" && d.isFileExternal == isExternal
    ensures (extracted.Some? && extracted.value.success && Trim(extracted.value.functionBody) != "" ==>
      extracted.value.startLine <= extracted.value.endLine) ==> d.startLine <= d.endLine
  {
    match extracted
    case None => StackDetail(element.methodName, element.fileName, element.lineNumber, "java", isExternal,
      element.lineNumber, element.lineNumber, "")
    case Some(fr) =>
      if fr.success && Trim(fr.functionBody) != "" then
        StackDetail(element.methodName, element.fileName, element.lineNumber, "java", isExternal,
          fr.startLine, fr.endLine, fr.functionBody)
      else
        StackDetail(element.methodName, element.fileName, element.lineNumber, "java", isExternal,
          element.lineNumber, element.lineNumber, ExtractionFailed)
  }

  /** The placeholders: a blank body marks exactly the frames skipped as
      external; an extraction that failed or came back blank is marked by
      the failure text at the frame's own line; otherwise the record carries
      the extraction. */
  lemma EntryPlaceholders(element: Frame, isExternal: bool, extracted: Option<FunctionResult>)
    ensures var d := Entry(element, isExternal, extracted);
      (Trim(d.functionBody) == "" <==> extracted.None?)
      && (extracted.None? ==> d.startLine == element.lineNumber == d.endLine)
      && (extracted.Some? && !(extracted.value.success && Trim(extracted.value.functionBody) != "") ==>
            d.functionBody == ExtractionFailed && d.startLine == element.lineNumber == d.endLine)
      && (extracted.Some? && extracted.value.success && Trim(extracted.value.functionBody) != "" ==>
            d.functionBody == extracted.value.functionBody
            && d.startLine == extracted.value.startLine && d.endLine == extracted.value.endLine)
  {
    var failed := ExtractionFailed;
    assert failed[0] == '/';
    TrimOfTrimmed(failed);
  }

  /** The record of a frame describes it, whatever classification it was
      made with. */
  lemma EntryDescribes(element: Frame, isExternal: string -> bool, extractExternal: bool, extracted: Option<FunctionResult>)
    requires extracted.Some? <==> !isExternal(element.className) || extractExternal
    requires extracted.Some? && extracted.value.success && Trim(extracted.value.functionBody) != "" ==>
      extracted.value.startLine <= extracted.value.endLine
    ensures Describes(element, Entry(element, isExternal(element.className), extracted), isExternal, extractExternal)
  {
    EntryPlaceholders(element, isExternal(element.className), extracted);
  }

  /** `exception.escaped` and the copied attributes of an enriched event:
      those whose key does not start with `exception.`, if their value is a
      string, long, double or boolean, in their original order. */
  function CopiedAttributes(attrs: AttrList): (r: AttrList)
    ensures forall a :: a in r <==>
      (a in attrs && !StartsWith(a.key, "exception.")
       && (a.value.Str? || a.value.Long? || a.value.Double? || a.value.Bool?))
  {
    if |attrs| == 0 then []
    else
      var a := attrs[|attrs| - 1];
      CopiedAttributes(attrs[..|attrs| - 1])
        + (if !StartsWith(a.key, "exception.") && (a.value.Str? || a.value.Long? || a.value.Double? || a.value.Bool?)
           then [a] else [])
  }

  /** `put(key, String)` with a value that may be null. */
  function StringValue(s: Option<string>): AttrValue {
    if s.Some? then Str(s.value) else NullStr
  }

  /** The five attributes the builder starts with, in the order it puts
      them. */
  function HeadAttributes(attrs: AttrList, stacktrace: string, json: string): AttrList {
    [Attr("exception.type", StringValue(GetString(attrs, "exception.type")))]
      + [Attr("exception.message", StringValue(GetString(attrs, "exception.message")))]
      + [Attr("exception.stacktrace", Str(stacktrace))]
      + [Attr("exception.stack_details", Str(json))]
      + [Attr("exception.escaped", Bool(true))]
  }

  lemma HeadStrings(attrs: AttrList, stacktrace: string, json: string)
    ensures var head := HeadAttributes(attrs, stacktrace, json);
      GetString(head, "exception.stack_details") == Some(json)
      && GetString(head, "exception.stacktrace") == Some(stacktrace)
      && GetString(head, "exception.type") == GetString(attrs, "exception.type")
  {
    var t := GetString(attrs, "exception.type");
    var h1 := [Attr("exception.type", StringValue(t))];
    var h2 := h1 + [Attr("exception.message", StringValue(GetString(attrs, "exception.message")))];
    var h3 := h2 + [Attr("exception.stacktrace", Str(stacktrace))];
    var h4 := h3 + [Attr("exception.stack_details", Str(json))];
    var escaped := Attr("exception.escaped", Bool(true));
    GetStringSnoc(h4, escaped, "exception.stack_details");
    GetStringSnoc(h4, escaped, "exception.stacktrace");
    GetStringSnoc(h4, escaped, "exception.type");
    assert "exception.stack_details"[15] != "exception.stacktrace"[15];
    GetStringSnoc(h3, h4[3], "exception.stacktrace");
    assert "exception.stack_details"[10] != "exception.type"[10];
    GetStringSnoc(h3, h4[3], "exception.type");
    assert "exception.stacktrace"[10] != "exception.type"[10];
    GetStringSnoc(h2, h3[2], "exception.type");
    assert "exception.message"[10] != "exception.type"[10];
    GetStringSnoc(h1, h2[1], "exception.type");
    GetStringSnoc([], h1[0], "exception.type");
    assert [] + [h1[0]] == h1;
  }

  /** The attributes of the enriched event: type, message and trace as
      read, the record JSON, `exception.escaped = true`, then the copied
      attributes. */
  function EnrichedAttributes(attrs: AttrList, stacktrace: string, json: string): (r: AttrList)
    ensures |r| == 5 + |CopiedAttributes(attrs)|
    ensures GetString(r, "exception.stack_details") == Some(json)
    ensures GetString(r, "exception.stacktrace") == Some(stacktrace)
    ensures GetString(r, "exception.type") == GetString(attrs, "exception.type")
    ensures r[4] == Attr("exception.escaped", Bool(true))
    ensures r[5..] == CopiedAttributes(attrs)
  {
    var head := HeadAttributes(attrs, stacktrace, json);
    var tail := CopiedAttributes(attrs);
    HeadStrings(attrs, stacktrace, json);
    GetStringPast(head, tail, "exception.stack_details");
    GetStringPast(head, tail, "exception.stacktrace");
    GetStringPast(head, tail, "exception.type");
    assert (head + tail)[5..] == tail;
    head + tail
  }

  /** The attribute count the enriched event reports: the trace, the record
      JSON and `exception.escaped`, the type and the message only when the
      original event has them as strings (a null put is dropped), and the
      key names of the copied attributes, which never clash with those. */
  lemma EnrichedAttributeCount(attrs: AttrList, stacktrace: string, json: string)
    ensures AttrCount(EnrichedAttributes(attrs, stacktrace, json))
         == 3 + (if GetString(attrs, "exception.type").Some? then 1 else 0)
              + (if GetString(attrs, "exception.message").Some? then 1 else 0)
              + AttrCount(CopiedAttributes(attrs))
  {
    var head := HeadAttributes(attrs, stacktrace, json);
    var tail := CopiedAttributes(attrs);
    KeySetAppend(head, tail);
    var hk := HeadKeys(attrs, stacktrace, json);
    forall x | x in KeySet(tail) ensures x !in hk {
      KeySetSpec(tail, x);
      var k :| 0 <= k < |tail| && tail[k].key == x && Kept(tail[k]);
      assert tail[k] in tail;
      assert !StartsWith(x, "exception.");
    }
    assert KeySet(head) * KeySet(tail) == {};
  }

  /** The key names the five head puts leave, and how many there are. */
  lemma HeadKeys(attrs: AttrList, stacktrace: string, json: string) returns (hk: set<string>)
    ensures hk == KeySet(HeadAttributes(attrs, stacktrace, json))
    ensures forall x :: x in hk ==> StartsWith(x, "exception.")
    ensures |hk| == 3 + (if GetString(attrs, "exception.type").Some? then 1 else 0)
                      + (if GetString(attrs, "exception.message").Some? then 1 else 0)
  {
    var t := GetString(attrs, "exception.type");
    var m := GetString(attrs, "exception.message");
    var tk: set<string> := if t.Some? then {"exception.type"} else {};
    var mk: set<string> := if m.Some? then {"exception.message"} else {};
    hk := tk + mk + {"exception.stacktrace", "exception.stack_details", "exception.escaped"};
    PutKeys(t, m, stacktrace, json);
    HeadKeyCount(tk, mk);
  }

  lemma PutKeys(t: Option<string>, m: Option<string>, stacktrace: string, json: string)
    ensures KeySet([Attr("exception.type", StringValue(t))]
                   + [Attr("exception.message", StringValue(m))]
                   + [Attr("exception.stacktrace", Str(stacktrace))]
                   + [Attr("exception.stack_details", Str(json))]
                   + [Attr("exception.escaped", Bool(true))])
         == (if t.Some? then {"exception.type"} else {}) + (if m.Some? then {"exception.message"} else {})
            + {"exception.stacktrace", "exception.stack_details", "exception.escaped"}
  {
    var p1 := [Attr("exception.type", StringValue(t))];
    var p2 := p1 + [Attr("exception.message", StringValue(m))];
    var p3 := p2 + [Attr("exception.stacktrace", Str(stacktrace))];
    var p4 := p3 + [Attr("exception.stack_details", Str(json))];
    assert [] + p1 == p1;
    KeySetSnoc([], p1[0]);
    KeySetSnoc(p1, Attr("exception.message", StringValue(m)));
    KeySetSnoc(p2, Attr("exception.stacktrace", Str(stacktrace)));
    KeySetSnoc(p3, Attr("exception.stack_details", Str(json)));
    KeySetSnoc(p4, Attr("exception.escaped", Bool(true)));
  }

  lemma HeadKeyCount(tk: set<string>, mk: set<string>)
    requires tk <= {"exception.type"} && mk <= {"exception.message"}
    ensures var hk := tk + mk + {"exception.stacktrace", "exception.stack_details", "exception.escaped"};
      |hk| == 3 + |tk| + |mk| && forall x :: x in hk ==> StartsWith(x, "exception.")
  {
    var fixed := {"exception.stacktrace", "exception.stack_details", "exception.escaped"};
    assert "exception.message"[10] != "exception.escaped"[10];
    assert |fixed| == 3;
    assert |tk + mk| == |tk| + |mk|;
    assert (tk + mk) * fixed == {};
    assert StartsWith("exception.type", "exception.");
    assert StartsWith("exception.message", "exception.");
    assert StartsWith("exception.stacktrace", "exception.");
    assert StartsWith("exception.stack_details", "exception.");
    assert StartsWith("exception.escaped", "exception.");
  }

  /** A key under which none of the appended attributes lies is read from
      the first part. */
  lemma {:induction false} GetStringPast(head: AttrList, tail: AttrList, key: string)
    requires forall a :: a in tail ==> !StartsWith(a.key, "exception.")
    requires StartsWith(key, "exception.")
    ensures GetString(head + tail, key) == GetString(head, key)
    decreases |tail|
  {
    if |tail| == 0 {
      assert head + tail == head;
    } else {
      var init := tail[..|tail| - 1];
      assert (head + tail)[..|head + tail| - 1] == head + init;
      assert (head + tail)[|head + tail| - 1] == tail[|tail| - 1];
      assert tail[|tail| - 1] in tail;
      assert forall a :: a in init ==> a in tail;
      GetStringPast(head, init, key);
    }
  }

  /** `hasExceptions`: ERROR status, or some exception-like event. */
  predicate HasExceptions(span: Span) {
    span.Status() == Error || exists i :: 0 <= i < |span.Events()| && IsExceptionEvent(span.Events()[i])
  }

  /** Whether `createEnrichedExceptionEvent` returns an event: a
      non-empty stack trace with at least one frame that parses. */
  predicate Enrichable(event: Event) {
    var trace := GetString(event.attributes, "exception.stacktrace");
    trace.Some? && trace.value != "" && ParseTrace(trace.value) != []
  }

  /** The facts every record states about its frame: method, file, line,
      language, the classification, an ordered line range, and a blank body
      exactly for the external frames whose code is not extracted. */
  ghost predicate Describes(f: Frame, d: StackDetail, isExternal: string -> bool, extractExternal: bool) {
    && d.functionName == f.methodName && d.file == f.fileName
    && d.line == f.lineNumber && d.language == "java"
    && d.isFileExternal == isExternal(f.className)
    && d.startLine <= d.endLine
    && (Trim(d.functionBody) == "" <==> d.isFileExternal && !extractExternal)
  }

  /** `Describes` as a relation, for statements about every place. */
  ghost function Describer(isExternal: string -> bool, extractExternal: bool): (Frame, StackDetail) -> bool {
    (f, d) => Describes(f, d, isExternal, extractExternal)
  }

  /** Record by record, each frame described by the record in its place. */
  ghost predicate AllDescribe(frames: seq<Frame>, details: seq<StackDetail>, isExternal: string -> bool, extractExternal: bool) {
    |frames| == |details| && forall i :: 0 <= i < |frames| ==> Describes(frames[i], details[i], isExternal, extractExternal)
  }

  /** `convertStackDetailsToJson`: `[]` when the serializer throws. */
  function DetailsJson(serialize: seq<StackDetail> -> Option<string>, details: seq<StackDetail>): string {
    serialize(details).GetOr("[]")
  }

  /** The event `createEnrichedExceptionEvent` builds: same name and time,
      and the enriched attributes around the JSON of one record per parsed
      frame. */
  ghost predicate EnrichedFrom(event: Event, e: Event, isExternal: string -> bool, extractExternal: bool,
                               serialize: seq<StackDetail> -> Option<string>)
    requires Enrichable(event)
  {
    var trace := GetString(event.attributes, "exception.stacktrace").value;
    && e.name == event.name && e.epochNanos == event.epochNanos
    && e.totalAttributeCount == AttrCount(e.attributes)
    && exists details: seq<StackDetail> ::
         && AllDescribe(ParseTrace(trace), details, isExternal, extractExternal)
         && e.attributes == EnrichedAttributes(event.attributes, trace, DetailsJson(serialize, details))
  }

  /** The exception events `enrichSpanWithStackDetails` replaces: those
      whose stack trace yields at least one frame. */
  predicate Replaced(e: Event) {
    IsExceptionEvent(e) && Enrichable(e)
  }

  /** What becomes of one event of an enriched span. */
  ghost predicate EventOutcome(event: Event, e: Event, isExternal: string -> bool, extractExternal: bool,
                               serialize: seq<StackDetail> -> Option<string>) {
    if Replaced(event) then EnrichedFrom(event, e, isExternal, extractExternal, serialize) else e == event
  }

  /** `EventOutcome` as a relation, for statements about every place. */
  ghost function Outcome(isExternal: string -> bool, extractExternal: bool,
                         serialize: seq<StackDetail> -> Option<string>): (Event, Event) -> bool {
    (event, e) => EventOutcome(event, e, isExternal, extractExternal, serialize)
  }

  /** A span is passed on as it is, or, when it has exceptions, as a
      wrapper around it that overrides its events. */
  predicate PassedOn(span: Span, out: Span) {
    out == span || (HasExceptions(span) && out.EventsOverride? && out.original == span)
  }

  /** Every entry of `before` is in `after` with the same lines. */
  predicate Keeps(before: map<string, seq<string>>, after: map<string, seq<string>>) {
    forall k :: k in before ==> k in after && after[k] == before[k]
  }

  // ---------------------------------------------------------------------
  // the exporter

  class EnhancedExceptionSpanExporter {
    const delegate: DelegateExporter
    const classification: ClassificationCache
    /** The line classifiers of the boundary search. */
    const cl: Classifiers
    const search: SourceSearch
    /** `isMwOpsaiExtractExternalFunctionCode()`. */
    const extractExternal: bool
    /** `objectMapper.writeValueAsString`; `None` when it throws. */
    const serialize: seq<StackDetail> -> Option<string>
    /** The classification of the cache, as a test on class names. */
    ghost const isExternal: string -> bool

    var sourceFileCache: map<string, seq<string>>
    /** For each cached key, the class and file whose lookup stored it. */
    ghost var origins: map<string, (string, string)>
    /** The `static int` counters. */
    var processedSpans: int
    var enhancedSpans: int

    ghost predicate Valid()
      reads this`sourceFileCache, this`origins, classification
    {
      classification.Valid() && SourcesAgree(search, extractExternal, origins, sourceFileCache)
    }

    /** `isExternal` is the classification of the cache: `Classify` under
        its oracle. */
    ghost predicate Classifying() {
      isExternal == classification.classify && classification.Classifies()
    }

    /** The counters hold Java `int` values. */
    predicate CountsInRange()
      reads this`processedSpans, this`enhancedSpans
    {
      IsInt32(processedSpans) && IsInt32(enhancedSpans)
    }

    /** No cached entry was stored by a class name with `#`. */
    ghost predicate HashFree()
      reads this`origins
    {
      HashFreeOrigins(origins)
    }

    constructor (delegate: DelegateExporter, resolve: string -> Resolution, search: SourceSearch,
                 extractExternal: bool, serialize: seq<StackDetail> -> Option<string>)
      ensures Valid() && HashFree() && Classifying()
      ensures this.delegate == delegate && classification.resolve == resolve && fresh(classification)
      ensures cl == Declarations && this.search == search && this.extractExternal == extractExternal
      ensures this.serialize == serialize
      ensures sourceFileCache == map[] && classification.cache == map[]
      ensures processedSpans == 0 && enhancedSpans == 0
    {
      this.delegate := delegate;
      var cache := new ClassificationCache(resolve);
      classification := cache;
      isExternal := cache.classify;
      cl := Declarations;
      this.search := search;
      this.extractExternal := extractExternal;
      this.serialize := serialize;
      sourceFileCache := map[];
      origins := map[];
      processedSpans := 0;
      enhancedSpans := 0;
    }

    // -------------------------------------------------------------------
    // readSourceFile

    /** The lines a lookup returns in a given cache state. */
    function ReadResult(cache: map<string, seq<string>>, className: string, fileName: string): seq<string> {
      var key := CacheKey(className, fileName);
      if key in cache then cache[key] else DiskSource(search, extractExternal, className, fileName).GetOr([])
    }

    /** The cache after a lookup: a miss that read without error is stored
        while fewer than `maxCacheSize` entries are held. */
    function CacheAfterRead(cache: map<string, seq<string>>, className: string, fileName: string)
      : map<string, seq<string>>
    {
      var key := CacheKey(className, fileName);
      var disk := DiskSource(search, extractExternal, className, fileName);
      if key !in cache && disk.Some? && |cache| < MaxCacheSize then cache[key := disk.value] else cache
    }

    /** In a cache that every lookup by a `#`-free class name filled, a
        lookup by a `#`-free class name reads what the disk holds: the cache
        is invisible. */
    lemma CacheTransparent(className: string, fileName: string)
      requires Valid() && HashFree() && '#' !in className
      ensures ReadResult(sourceFileCache, className, fileName)
           == DiskSource(search, extractExternal, className, fileName).GetOr([])
    {
      var key := CacheKey(className, fileName);
      if key in sourceFileCache {
        CacheKeyInjective(origins[key].0, origins[key].1, className, fileName);
      }
    }

    /** `readSourceFile`. */
    method ReadSourceFile(className: string, fileName: string) returns (lines: seq<string>)
      requires Valid()
      modifies this`sourceFileCache, this`origins
      ensures Valid()
      ensures lines == ReadResult(old(sourceFileCache), className, fileName)
      ensures sourceFileCache == CacheAfterRead(old(sourceFileCache), className, fileName)
      ensures old(HashFree()) && '#' !in className ==> HashFree()
      ensures Keeps(old(sourceFileCache), sourceFileCache)
    {
      var cacheKey := CacheKey(className, fileName);
      if cacheKey in sourceFileCache {
        return sourceFileCache[cacheKey];
      }
      var disk := DiskSource(search, extractExternal, className, fileName);
      if disk.None? {
        return [];
      }
      lines := disk.value;
      if |sourceFileCache| < MaxCacheSize {
        Store(className, fileName, lines);
      }
    }

    /** `sourceFileCache.put(cacheKey, lines)`. */
    method Store(className: string, fileName: string, lines: seq<string>)
      requires Valid() && |sourceFileCache| < MaxCacheSize
      requires DiskSource(search, extractExternal, className, fileName) == Some(lines)
      modifies this`sourceFileCache, this`origins
      ensures Valid()
      ensures sourceFileCache == old(sourceFileCache)[CacheKey(className, fileName) := lines]
      ensures old(HashFree()) && '#' !in className ==> HashFree()
    {
      var cacheKey := CacheKey(className, fileName);
      CacheStoreAgrees(search, extractExternal, origins, sourceFileCache, className, fileName, lines);
      sourceFileCache := sourceFileCache[cacheKey := lines];
      origins := origins[cacheKey := (className, fileName)];
    }

    // -------------------------------------------------------------------
    // extractCompleteFunction

    /** The function of a frame as read in a given cache state. */
    function FunctionFor(cache: map<string, seq<string>>, element: Frame): FunctionResult {
      if element.fileName.None? || element.lineNumber <= 0 then NoFunction
      else
        var lines := ReadResult(cache, element.className, element.fileName.value);
        if lines == [] then NoFunction
        else FunctionIn(lines, element.lineNumber, cl.declares(element.methodName), cl.stops(element.methodName))
    }

    /** The cache after extracting the function of a frame. */
    function CacheAfterFunction(cache: map<string, seq<string>>, element: Frame): map<string, seq<string>> {
      if element.fileName.None? || element.lineNumber <= 0 then cache
      else CacheAfterRead(cache, element.className, element.fileName.value)
    }

    /** `extractCompleteFunction`. */
    method ExtractCompleteFunction(element: Frame) returns (r: FunctionResult)
      requires Valid()
      modifies this`sourceFileCache, this`origins
      ensures Valid()
      ensures r == FunctionFor(old(sourceFileCache), element)
      ensures sourceFileCache == CacheAfterFunction(old(sourceFileCache), element)
      ensures old(HashFree()) && '#' !in element.className ==> HashFree()
      ensures Keeps(old(sourceFileCache), sourceFileCache)
    {
      if element.fileName.None? || element.lineNumber <= 0 {
        return NoFunction;
      }
      var sourceLines := ReadSourceFile(element.className, element.fileName.value);
      if sourceLines == [] {
        return NoFunction;
      }
      var boundaries := FindMethodBoundaries(sourceLines, element.lineNumber,
        cl.declares(element.methodName), cl.stops(element.methodName));
      if boundaries.Found? {
        var body := AppendLines(sourceLines, boundaries.startLine, boundaries.endLine);
        r := FunctionResult(true, boundaries.startLine, boundaries.endLine, Trim(body));
      } else {
        r := ExtractContextLines(sourceLines, element.lineNumber);
      }
    }

    /** `extractContextLines` of the exporter. */
    method ExtractContextLines(sourceLines: seq<string>, errorLine: int) returns (r: FunctionResult)
      ensures r == ContextFallback(sourceLines, errorLine)
    {
      var contextSize := 5;
      var startLine := Max(1, errorLine - contextSize);
      var endLine := Min(|sourceLines|, errorLine + contextSize);
      var body := AppendLines(sourceLines, startLine, endLine);
      r := FunctionResult(true, startLine, endLine, Trim(body));
    }

    // -------------------------------------------------------------------
    // createStackDetailEntry and extractStackDetails

    /** `createStackDetailEntry`: the record of the frame, with the
        function extracted in the cache state the call starts from unless
        the frame is external and external extraction is off. */
    method CreateStackDetailEntry(element: Frame) returns (d: StackDetail)
      requires Valid() && Classifying()
      modifies this`sourceFileCache, this`origins, classification
      ensures Valid()
      ensures var external := isExternal(element.className);
        d == Entry(element, external,
          if !external || extractExternal then Some(FunctionFor(old(sourceFileCache), element)) else None)
      ensures Describes(element, d, isExternal, extractExternal)
      ensures old(HashFree()) && '#' !in element.className ==> HashFree()
      ensures Keeps(old(sourceFileCache), sourceFileCache)
    {
      FunctionOrdered(sourceFileCache, element);
      var external := classification.IsExternalCode(Some(element.className));
      var extracted := ExtractUnlessExternal(element, external);
      d := Entry(element, external, extracted);
      EntryDescribes(element, isExternal, extractExternal, extracted);
    }

    /** The function of the frame, extracted unless the frame is external
        and external extraction is off. */
    method ExtractUnlessExternal(element: Frame, external: bool) returns (extracted: Option<FunctionResult>)
      requires Valid()
      modifies this`sourceFileCache, this`origins
      ensures Valid()
      ensures extracted == if !external || extractExternal then Some(FunctionFor(old(sourceFileCache), element)) else None
      ensures old(HashFree()) && '#' !in element.className ==> HashFree()
      ensures Keeps(old(sourceFileCache), sourceFileCache)
    {
      var shouldExtractFunctionCode := !external || extractExternal;
      extracted := None;
      if shouldExtractFunctionCode {
        var functionResult := ExtractCompleteFunction(element);
        extracted := Some(functionResult);
      }
    }

    /** With no `#` in the class names that filled the cache nor in the
        frame's, the function extracted is the one an empty cache gives:
        the cache changes no record. */
    lemma CacheInvisible(element: Frame)
      requires Valid() && HashFree() && '#' !in element.className
      ensures FunctionFor(sourceFileCache, element) == FunctionFor(map[], element)
    {
      if element.fileName.Some? {
        CacheTransparent(element.className, element.fileName.value);
      }
    }

    /** An extraction that succeeds with a body that is not blank starts at
        or before its end. */
    lemma FunctionOrdered(cache: map<string, seq<string>>, element: Frame)
      ensures var fr := FunctionFor(cache, element);
        fr.success && Trim(fr.functionBody) != "" ==> fr.startLine <= fr.endLine
    {
      if element.fileName.Some? && element.lineNumber > 0 {
        var lines := ReadResult(cache, element.className, element.fileName.value);
        if lines != [] {
          NonBlankBodyIsOrdered(lines, element.lineNumber, cl.declares(element.methodName), cl.stops(element.methodName));
        }
      }
    }

    /** `extractStackDetails`: one record per parsed frame, in order. */
    method ExtractStackDetails(stacktrace: string) returns (details: seq<StackDetail>)
      requires Valid() && Classifying()
      modifies this`sourceFileCache, this`origins, classification
      ensures Valid()
      ensures AllDescribe(ParseTrace(stacktrace), details, isExternal, extractExternal)
      ensures Keeps(old(sourceFileCache), sourceFileCache)
    {
      var allElements := ParseStacktrace(stacktrace);
      details := [];
      var i := 0;
      while i < |allElements|
        invariant 0 <= i <= |allElements|
        invariant Valid()
        invariant Pairwise(Describer(isExternal, extractExternal), allElements[..i], details)
        invariant Keeps(old(sourceFileCache), sourceFileCache)
      {
        details := AppendStackDetail(allElements, i, details);
        i := i + 1;
      }
      assert allElements[..i] == allElements;
      PairwiseEach(Describer(isExternal, extractExternal), allElements, details);
    }

    /** One pass of the loop of `extractStackDetails`. */
    method AppendStackDetail(allElements: seq<Frame>, i: nat, details: seq<StackDetail>) returns (next: seq<StackDetail>)
      requires Valid() && Classifying()
      requires i < |allElements| && Pairwise(Describer(isExternal, extractExternal), allElements[..i], details)
      modifies this`sourceFileCache, this`origins, classification
      ensures Valid()
      ensures Pairwise(Describer(isExternal, extractExternal), allElements[..i + 1], next)
      ensures Keeps(old(sourceFileCache), sourceFileCache)
    {
      var stackDetail := CreateStackDetailEntry(allElements[i]);
      PairwiseSnoc(Describer(isExternal, extractExternal), allElements, i, details, stackDetail);
      next := details + [stackDetail];
    }

    // -------------------------------------------------------------------
    // createEnrichedExceptionEvent and enrichSpanWithStackDetails

    /** `createEnrichedExceptionEvent`: `None` (null) exactly when the
        event is not enrichable. */
    method CreateEnrichedExceptionEvent(event: Event) returns (r: Option<Event>)
      requires Valid() && Classifying()
      modifies this`sourceFileCache, this`origins, classification
      ensures Valid()
      ensures r.Some? <==> Enrichable(event)
      ensures r.Some? ==> EnrichedFrom(event, r.value, isExternal, extractExternal, serialize)
      ensures Keeps(old(sourceFileCache), sourceFileCache)
    {
      var exceptionStacktrace := GetString(event.attributes, "exception.stacktrace");
      if exceptionStacktrace.None? || exceptionStacktrace.value == "" {
        return None;
      }
      var trace := exceptionStacktrace.value;
      var stackDetails := ExtractStackDetails(trace);
      if stackDetails == [] {
        return None;
      }
      var stackDetailsJson := DetailsJson(serialize, stackDetails);
      var attributes := EnrichedAttributes(event.attributes, trace, stackDetailsJson);
      r := Some(EnrichedEventData(event.name, event.epochNanos, attributes));
    }

    /** `enrichSpanWithStackDetails`: a wrapper exactly when some exception
        event is enrichable, whose events are those of the span with every
        enrichable exception event replaced in its place; the span itself
        otherwise. */
    method EnrichSpan(span: Span) returns (r: Span)
      requires Valid() && Classifying()
      modifies this`sourceFileCache, this`origins, classification
      ensures Valid()
      ensures AnyOf(Replaced, span.Events()) <==> r != span
      ensures r != span ==>
        && r.EventsOverride? && r.original == span && |r.enrichedEvents| == |span.Events()|
        && forall i :: 0 <= i < |span.Events()| ==>
             EventOutcome(span.Events()[i], r.enrichedEvents[i], isExternal, extractExternal, serialize)
      ensures Keeps(old(sourceFileCache), sourceFileCache)
    {
      var originalEvents := span.Events();
      var enrichedEvents: seq<Event> := [];
      var eventEnhanced := false;
      var i := 0;
      while i < |originalEvents|
        invariant 0 <= i <= |originalEvents|
        invariant Valid()
        invariant Pairwise(Outcome(isExternal, extractExternal, serialize), originalEvents[..i], enrichedEvents)
        invariant eventEnhanced == AnyOf(Replaced, originalEvents[..i])
        invariant Keeps(old(sourceFileCache), sourceFileCache)
      {
        enrichedEvents, eventEnhanced := EnrichNext(originalEvents, i, enrichedEvents, eventEnhanced);
        i := i + 1;
      }
      assert originalEvents[..i] == originalEvents;
      PairwiseEach(Outcome(isExternal, extractExternal, serialize), originalEvents, enrichedEvents);
      if eventEnhanced {
        r := EventsOverride(span, enrichedEvents);
      } else {
        r := span;
      }
    }

    /** One pass of the loop of `enrichSpanWithStackDetails`, with what the
        loop keeps. */
    method EnrichNext(events: seq<Event>, i: nat, done: seq<Event>, enhanced: bool)
      returns (out: seq<Event>, enhanced': bool)
      requires Valid() && Classifying()
      requires i < |events| && Pairwise(Outcome(isExternal, extractExternal, serialize), events[..i], done)
      requires enhanced == AnyOf(Replaced, events[..i])
      modifies this`sourceFileCache, this`origins, classification
      ensures Valid()
      ensures Pairwise(Outcome(isExternal, extractExternal, serialize), events[..i + 1], out)
      ensures enhanced' == AnyOf(Replaced, events[..i + 1])
      ensures Keeps(old(sourceFileCache), sourceFileCache)
    {
      var next, replaced := EnrichEvent(events[i]);
      AnyOfSnoc(Replaced, events, i);
      PairwiseSnoc(Outcome(isExternal, extractExternal, serialize), events, i, done, next);
      enhanced' := enhanced || replaced;
      out := done + [next];
    }

    /** One pass of the loop of `enrichSpanWithStackDetails`: an exception
        event is replaced by its enriched copy when there is one. */
    method EnrichEvent(event: Event) returns (next: Event, replaced: bool)
      requires Valid() && Classifying()
      modifies this`sourceFileCache, this`origins, classification
      ensures Valid()
      ensures replaced == Replaced(event)
      ensures EventOutcome(event, next, isExternal, extractExternal, serialize)
      ensures Keeps(old(sourceFileCache), sourceFileCache)
    {
      next, replaced := event, false;
      if IsExceptionEvent(event) {
        var enrichedEvent := CreateEnrichedExceptionEvent(event);
        if enrichedEvent.Some? {
          next, replaced := enrichedEvent.value, true;
        }
      }
    }

    // -------------------------------------------------------------------
    // export, flush, shutdown

    /** `export`: every span of the batch is passed on in its place, the
        spans without exceptions as they are; the delegate's result is
        returned. */
    method Export(spans: seq<Span>) returns (result: ResultCode, exported: seq<Span>)
      requires Valid() && Classifying() && CountsInRange()
      modifies this, classification, delegate
      ensures Valid() && CountsInRange()
      ensures delegate.exported == old(delegate.exported) + [exported]
      ensures result == delegate.exportOutcome(exported)
      ensures |exported| == |spans|
      ensures forall i :: 0 <= i < |spans| ==> PassedOn(spans[i], exported[i])
      ensures processedSpans == Bumped(old(processedSpans), |spans|)
      ensures enhancedSpans == Bumped(old(enhancedSpans), CountChanged(spans, exported))
      ensures Keeps(old(sourceFileCache), sourceFileCache)
    {
      exported := EnrichBatch(spans);
      PairwiseEach(PassedOn, spans, exported);
      result := delegate.Export(exported);
    }

    /** The loop of `export`. */
    method EnrichBatch(spans: seq<Span>) returns (enrichedSpans: seq<Span>)
      requires Valid() && Classifying() && CountsInRange()
      modifies this, classification
      ensures Valid() && CountsInRange()
      ensures Pairwise(PassedOn, spans, enrichedSpans)
      ensures processedSpans == Bumped(old(processedSpans), |spans|)
      ensures enhancedSpans == Bumped(old(enhancedSpans), CountChanged(spans, enrichedSpans))
      ensures Keeps(old(sourceFileCache), sourceFileCache)
    {
      enrichedSpans := [];
      var i := 0;
      while i < |spans|
        invariant 0 <= i <= |spans|
        invariant Valid() && CountsInRange()
        invariant Pairwise(PassedOn, spans[..i], enrichedSpans)
        invariant processedSpans == Bumped(old(processedSpans), i)
        invariant enhancedSpans == Bumped(old(enhancedSpans), CountChanged(spans[..i], enrichedSpans))
        invariant Keeps(old(sourceFileCache), sourceFileCache)
      {
        enrichedSpans := ExportNext(spans, i, enrichedSpans, old(processedSpans), old(enhancedSpans));
        i := i + 1;
      }
      assert spans[..i] == spans;
    }

    /** One pass of the loop of `export`, with the counters as the loop
        keeps them. */
    method ExportNext(spans: seq<Span>, i: nat, done: seq<Span>, ghost processed0: int, ghost enhanced0: int)
      returns (out: seq<Span>)
      requires Valid() && Classifying() && CountsInRange() && IsInt32(processed0) && IsInt32(enhanced0)
      requires i < |spans| && Pairwise(PassedOn, spans[..i], done)
      requires processedSpans == Bumped(processed0, i)
      requires enhancedSpans == Bumped(enhanced0, CountChanged(spans[..i], done))
      modifies this, classification
      ensures Valid() && CountsInRange()
      ensures Pairwise(PassedOn, spans[..i + 1], out)
      ensures processedSpans == Bumped(processed0, i + 1)
      ensures enhancedSpans == Bumped(enhanced0, CountChanged(spans[..i + 1], out))
      ensures Keeps(old(sourceFileCache), sourceFileCache)
    {
      var next := ExportSpan(spans[i]);
      CountChangedSnoc(spans, i, done, next);
      PairwiseSnoc(PassedOn, spans, i, done, next);
      out := done + [next];
    }

    /** One pass of the loop of `export`: the span is counted, and a span
        with exceptions is enriched, counted again when that changed it. */
    method ExportSpan(span: Span) returns (next: Span)
      requires Valid() && Classifying() && CountsInRange()
      modifies this, classification
      ensures Valid()
      ensures PassedOn(span, next)
      ensures processedSpans == IncInt(old(processedSpans))
      ensures enhancedSpans == if next != span then IncInt(old(enhancedSpans)) else old(enhancedSpans)
      ensures Keeps(old(sourceFileCache), sourceFileCache)
    {
      processedSpans := IncInt(processedSpans);
      next := span;
      if HasExceptions(span) {
        next := EnrichSpan(span);
        if next != span {
          enhancedSpans := IncInt(enhancedSpans);
        }
      }
    }

    /** `flush`: the delegate's result. */
    method Flush() returns (r: ResultCode)
      modifies delegate
      ensures r == delegate.flushOutcome
      ensures delegate.flushes == old(delegate.flushes) + 1 && delegate.exported == old(delegate.exported)
    {
      r := delegate.Flush();
    }

    /** `shutdown`: clears the source cache, keeps the classification
        cache, and returns the delegate's result. */
    method Shutdown() returns (r: ResultCode)
      requires Valid()
      modifies this`sourceFileCache, this`origins, delegate
      ensures Valid()
      ensures sourceFileCache == map[] && HashFree()
      ensures classification.cache == old(classification.cache)
      ensures r == delegate.shutdownOutcome
      ensures delegate.shutdowns == old(delegate.shutdowns) + 1 && delegate.exported == old(delegate.exported)
    {
      sourceFileCache := map[];
      origins := map[];
      r := delegate.Shutdown();
    }
  }

  /** How many places of the batch hold a different span after export. */
  function CountChanged(spans: seq<Span>, out: seq<Span>): (n: nat)
    requires |out| == |spans|
    ensures n <= |spans|
    ensures n == 0 <==> spans == out
  {
    if |spans| == 0 then 0
    else
      var init := CountChanged(spans[..|spans| - 1], out[..|out| - 1]);
      assert spans == spans[..|spans| - 1] + [spans[|spans| - 1]];
      assert out == out[..|out| - 1] + [out[|out| - 1]];
      init + (if out[|out| - 1] != spans[|spans| - 1] then 1 else 0)
  }

  lemma CountChangedSnoc(spans: seq<Span>, i: nat, out: seq<Span>, o: Span)
    requires i < |spans| && |out| == i
    ensures CountChanged(spans[..i + 1], out + [o]) == CountChanged(spans[..i], out) + (if o != spans[i] then 1 else 0)
  {
    assert spans[..i + 1][..i] == spans[..i];
    assert (out + [o])[..|out|] == out;
  }
}
