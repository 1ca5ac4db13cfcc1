# Exception enrichment extension — a Dafny model

This project models the core of a Java agent extension for OpenTelemetry.
The extension adds source-code context to exception telemetry: when a span
carries an exception event, it parses the event's stack trace, finds each
frame's source file, cuts out the enclosing method, and attaches the code
to the span, either as a JSON array of per-frame "stack details" or as a
`code.context.extracted` event with `code.*` attributes.

Each Java class of the core becomes one Dafny module:

- `EnhancedExporter` (class `EnhancedExceptionSpanExporter`): the exporter that replaces exception events with enriched ones carrying `exception.stack_details`
- `Classifier` (class `ClassificationCache`): its application/external classification of class names (`isExternalCode`, `performClassification`) with the memo table
- `Extraction`: `isMethodDeclaration`, `isAnotherMethodOrClassDeclaration`, `findMethodEndLine`, `findMethodBoundaries`, `findMethodInEntireFile`, `findMethodDeclarationLine`
- `StackTrace`: `parseStacktraceForAllCode` and `parseStackTraceLine`; the four textual copies of the line parser are modelled once
- `CodeContextExporter` (class `CodeContextSpanExporter`): the exporter that adds a code context event and `code.*` attributes
- `CodeContextProcessor` (classes `CodeContextSpanProcessor`, `RecordingSpan`): the span processor that tries to enhance a span in place when it ends, and the SDK span it writes to
- `CodeExtraction`: `CodeExtractionUtils`
- `SpanEnhancer`: `SpanCodeEnhancer`
- `StackDetailsInstrumentation`: `ExceptionStackDetailsInstrumentation` and its two advices
- `AutoConfig`: `DemoAutoConfigurationCustomizerProvider`
- `Config`: `ConfigManager`
- `VcsUtils`: `VcsUtils`
- `Benchmarking` (class `PerformanceBenchmark`): `PerformanceBenchmark`
- `Telemetry`: the SDK data the core reads and builds: spans, events, attributes, `EnrichedEventData`, `EnrichedSpanData`, and the delegate exporter
- `JsonText`: the hand-written JSON builders and `escapeJsonString` / `escapeJson`
- `Text`: the Java `String` and integer operations the core relies on: `trim`, `indexOf`, `lastIndexOf`, `split`, `Integer.parseInt`, `toLowerCase`, `int` and `long` wrap-around
- `Sequences`, `Wrappers`: generic helpers

State that the Java code updates in place is modelled as classes with
`modifies` clauses: the two exporters and their counters and caches, the
classification memo table, the span processor's maps and counters, the
benchmark counters, and the span the processor writes to, which stops
recording once it has ended. The loops of the source are
`while` loops with invariants, each proved against a function that states
what the loop computes. Counters that are Java `int`s wrap modulo 2^32
(`Text.IncInt`, `Text.Bumped`), and `long` totals wrap modulo 2^64
(`Text.AddLong`).

What the model takes as inputs instead of computing:

- the file system, as lookup functions (`SourceSearch`, `SourceLookup`, `ClassPath`, the processor's `projectFiles`);
- class loading, as `Resolution` values per class name;
- the Git repository, as a `GitRepository` value;
- the Jackson serializer, as a function that may fail;
- clock readings, as `Clock` values;
- environment variables, as `Environment` / `ResourceEnv` records.

Source files are cited below by their path in the repository.

## Model

| member | source | states |
|---|---|---|
| Text.TrimSpec | examples/extension/src/main/java/com/example/javaagent/codeextraction/CodeContextSpanExporter.java:273 | `trim` removes exactly the leading and trailing characters at or below U+0020 and keeps the middle; the result is empty exactly when every character is such a character |
| Text.TrimIdempotent | examples/extension/src/main/java/com/example/javaagent/codeextraction/CodeContextSpanExporter.java:273 | trimming a trimmed line changes nothing |
| Text.TrimAfterIndent | examples/extension/src/main/java/com/example/javaagent/codeextraction/EnhancedExceptionSpanExporter.java:1021 | indentation before a stack-trace line does not change the trimmed line |
| Text.IndexOf | examples/extension/src/main/java/com/example/javaagent/codeextraction/EnhancedExceptionSpanExporter.java:832 | `indexOf` gives the first occurrence of the text, and -1 exactly when it does not occur |
| Text.LastIndexOf | examples/extension/src/main/java/com/example/javaagent/codeextraction/EnhancedExceptionSpanExporter.java:1038 | `lastIndexOf` gives the last occurrence of the character, and -1 exactly when it does not occur |
| Text.DropTrailingEmpty | examples/extension/src/main/java/com/example/javaagent/codeextraction/CodeContextSpanExporter.java:270 | what `split` keeps is a prefix of the fields that does not end in an empty field, and every field it drops is empty |
| Text.SplitFieldsHaveNo | examples/extension/src/main/java/com/example/javaagent/codeextraction/CodeContextSpanExporter.java:270 | no field of a split contains the separator |
| Text.JoinSplitFields | examples/extension/src/main/java/com/example/javaagent/codeextraction/CodeContextSpanExporter.java:270 | joining the fields with the separator gives back the text they were split from |
| Text.SplitOfJoin | examples/extension/src/main/java/com/example/javaagent/codeextraction/EnhancedExceptionSpanExporter.java:1019 | `split` on the line break gives back the lines a text was joined from, when none holds a line break and the last of two or more is not empty |
| Text.SplitIgnoresTrailingSeparator | examples/extension/src/main/java/com/example/javaagent/DemoAutoConfigurationCustomizerProvider.java:140 | because `split` drops trailing empty fields, a separator at the end of a text that already holds one adds no field |
| Text.IncIntIsWrap | examples/extension/src/main/java/com/example/javaagent/codeextraction/CodeContextSpanExporter.java:50 | `++` on a Java `int` is the mathematical successor wrapped modulo 2^32 |
| Text.BumpedIsWrap | examples/extension/src/main/java/com/example/javaagent/codeextraction/CodeContextSpanExporter.java:50 | n increments of an `int` counter give the start plus n, wrapped modulo 2^32 |
| Text.WrapIntCongruent | examples/extension/src/main/java/com/example/javaagent/codeextraction/CodeContextSpanExporter.java:50 | wrapping to `int` changes a value by a multiple of 2^32 |
| Text.AddLongIsWrap | examples/extension/src/main/java/com/example/javaagent/benchmarking/PerformanceBenchmark.java:27 | `addAndGet` on a `long` is the sum wrapped modulo 2^64 |
| Text.ParseInt | examples/extension/src/main/java/com/example/javaagent/codeextraction/CodeContextSpanExporter.java:312 | `Integer.parseInt` succeeds exactly when the text is an optional `+` or `-` followed by one or more decimal digits whose signed value fits in an `int`, and the result is that signed value |
| Text.ParseIntPadded | examples/extension/src/main/java/com/example/javaagent/codeextraction/CodeContextSpanExporter.java:312 | a sign, any number of leading zeros and the decimal digits of a number parse to the signed number when it fits in an `int` and fail otherwise |
| Text.ParseIntOfIntToString | examples/extension/src/main/java/com/example/javaagent/codeextraction/CodeContextSpanExporter.java:312 | parsing the decimal text of any `int` gives the number back |
| JsonText.EscapeJson | examples/extension/src/main/java/com/example/javaagent/codeextraction/SpanCodeEnhancer.java:275-285 | null becomes the empty text; otherwise the result is the text with each backslash, quote, line feed, carriage return and tab escaped |
| JsonText.ReplaceChainIsEscape | examples/extension/src/main/java/com/example/javaagent/codeextraction/SpanCodeEnhancer.java:275-285 | the five chained `replace` calls, backslash first, equal escaping character by character, so no escape is escaped twice |
| JsonText.EscapeHasNoControl | examples/extension/src/main/java/com/example/javaagent/codeextraction/SpanCodeEnhancer.java:275-285 | an escaped text holds no raw line feed, carriage return or tab |
| JsonText.DecodeEscape | examples/extension/src/main/java/com/example/javaagent/codeextraction/SpanCodeEnhancer.java:275-285 | reading an escaped text back up to its closing quote gives the original text and what follows |
| JsonText.EscapeInjective | examples/extension/src/main/java/com/example/javaagent/codeextraction/SpanCodeEnhancer.java:275-285 | two different texts never escape to the same text |
| JsonText.RenderedStringDecodes | examples/extension/src/main/java/com/example/javaagent/codeextraction/SpanCodeEnhancer.java:229-272 | a string value written into the JSON reads back as the same string |
| JsonText.AppendField | examples/extension/src/main/java/com/example/javaagent/codeextraction/SpanCodeEnhancer.java:229-272 | appends a comma unless the field is the first, then `"key":value` |
| JsonText.AppendObject | examples/extension/src/main/java/com/example/javaagent/codeextraction/SpanCodeEnhancer.java:229-272 | appends the object text of one record, fields in order |
| JsonText.BuildArray | examples/extension/src/main/java/com/example/instrumentation/ExceptionStackDetailsInstrumentation.java:252-284 | the builder loop produces `[` then the records' object texts separated by commas then `]` |
| Telemetry.GetStringSpec | examples/extension/src/main/java/com/example/javaagent/codeextraction/EnhancedExceptionSpanExporter.java:1012 | a string lookup finds a text exactly when a put of that string under the (non-empty) key is not followed by another kept put under the same key; a later put of another type hides it |
| Telemetry.EnrichedEventData | examples/extension/src/main/java/com/example/javaagent/codeextraction/EnhancedExceptionSpanExporter.java:1361-1385 | the event reports the name, time and attributes it was built with, and its total attribute count is the number of distinct keys the attributes hold |
| Telemetry.KeySetSpec | examples/extension/src/main/java/com/example/javaagent/codeextraction/EnhancedExceptionSpanExporter.java:1383-1384 | a key is held exactly when some put under it has a non-empty key and a non-null value, which is exactly when a lookup of the key finds a value |
| Telemetry.KeySetAppend | examples/extension/src/main/java/com/example/javaagent/codeextraction/EnhancedExceptionSpanExporter.java:1383-1384 | the keys held after two blocks of puts are the keys of the first together with those of the second |
| Telemetry.AttrCountBound | examples/extension/src/main/java/com/example/javaagent/codeextraction/EnhancedExceptionSpanExporter.java:1383-1384 | `size()` is at most the number of puts, and equal to it when every put is kept and the keys are distinct |
| Telemetry.AttrCountAppend | examples/extension/src/main/java/com/example/javaagent/codeextraction/EnhancedExceptionSpanExporter.java:1383-1384 | more puts never lower `size()` and raise it by at most their number; by exactly their number when they are kept, distinct and under keys not yet held |
| Telemetry.EventsOverrideDelegates | examples/extension/src/main/java/com/example/javaagent/codeextraction/EnhancedExceptionSpanExporter.java:1393-1482 | the wrapper answers its own events and event count and answers every other accessor from the wrapped span |
| Telemetry.DelegateExporter.Export | examples/extension/src/main/java/com/example/javaagent/codeextraction/EnhancedExceptionSpanExporter.java:182 | the wrapped exporter receives the batch, in one call, and its outcome is returned |
| Telemetry.DelegateExporter.Flush | examples/extension/src/main/java/com/example/javaagent/codeextraction/EnhancedExceptionSpanExporter.java:1326 | a flush is forwarded once and nothing is exported |
| Telemetry.DelegateExporter.Shutdown | examples/extension/src/main/java/com/example/javaagent/codeextraction/EnhancedExceptionSpanExporter.java:1352 | a shutdown is forwarded once and nothing is exported |
| StackTrace.ParseFrame | examples/extension/src/main/java/com/example/javaagent/codeextraction/EnhancedExceptionSpanExporter.java:1034-1070 | a parsed frame always has a file name, and its line is -1 or an `int` |
| StackTrace.ParseCall | examples/extension/src/main/java/com/example/javaagent/codeextraction/EnhancedExceptionSpanExporter.java:1038-1066 | the same, for the text after `at ` |
| StackTrace.SplitLocation | examples/extension/src/main/java/com/example/javaagent/codeextraction/EnhancedExceptionSpanExporter.java:1050-1063 | the line number is -1 or an `int` |
| StackTrace.ParseStacktrace | examples/extension/src/main/java/com/example/javaagent/codeextraction/EnhancedExceptionSpanExporter.java:1016-1032 | the frames are those of the `at ` lines that parse, in line order |
| StackTrace.FramesComeFromLines | examples/extension/src/main/java/com/example/javaagent/codeextraction/EnhancedExceptionSpanExporter.java:1016-1032 | there are at most as many frames as lines, and each frame is the parse of one of the lines |
| StackTrace.FramesOfAppend | examples/extension/src/main/java/com/example/javaagent/codeextraction/EnhancedExceptionSpanExporter.java:1016-1032 | the frames of two runs of lines are the frames of the first followed by those of the second |
| StackTrace.SplitMemberOf | examples/extension/src/main/java/com/example/javaagent/codeextraction/EnhancedExceptionSpanExporter.java:1044-1048 | `class.method` with a method name without dots splits back into the class and the method |
| StackTrace.SplitLocationOf | examples/extension/src/main/java/com/example/javaagent/codeextraction/EnhancedExceptionSpanExporter.java:1053-1060 | `file:n` for an `int` n gives back the file and n |
| StackTrace.SplitLocationWithoutColon | examples/extension/src/main/java/com/example/javaagent/codeextraction/EnhancedExceptionSpanExporter.java:1061-1063 | without a colon the whole text is the file name and the line is -1 |
| StackTrace.ParseCallOf | examples/extension/src/main/java/com/example/javaagent/codeextraction/EnhancedExceptionSpanExporter.java:1038-1042 | the text is cut at its last `(` and the closing `)` is dropped |
| StackTrace.LineFrameOf | examples/extension/src/main/java/com/example/javaagent/codeextraction/EnhancedExceptionSpanExporter.java:1021-1023 | a line `at X` parses as X does |
| StackTrace.ParseFrameText | examples/extension/src/main/java/com/example/javaagent/codeextraction/EnhancedExceptionSpanExporter.java:1034-1070 | a frame printed in the JVM's `at class.method(file:line)` form parses back to the same frame |
| StackTrace.FrameLineFrames | examples/extension/src/main/java/com/example/javaagent/codeextraction/EnhancedExceptionSpanExporter.java:1016-1070 | a tab-indented printed frame line yields exactly that frame |
| StackTrace.TraceLines | examples/extension/src/main/java/com/example/javaagent/codeextraction/EnhancedExceptionSpanExporter.java:1016-1032 | one printed line per frame, in order, each a tab followed by the frame text |
| StackTrace.TraceLineAt | examples/extension/src/main/java/com/example/javaagent/codeextraction/EnhancedExceptionSpanExporter.java:1016-1032 | line `k` of the printed frames is a tab followed by the text of frame `k` |
| StackTrace.FramesOfTraceLines | examples/extension/src/main/java/com/example/javaagent/codeextraction/EnhancedExceptionSpanExporter.java:1016-1070 | the frame lines of any sequence of printable frames parse back to that sequence |
| StackTrace.ParseTraceOfText | examples/extension/src/main/java/com/example/javaagent/codeextraction/EnhancedExceptionSpanExporter.java:1016-1070 | parsing a whole printed trace (a header line that is not a frame, then one line per printable one-line frame) gives back every frame in order |
| StackTrace.ParseFrameWithoutLine | examples/extension/src/main/java/com/example/javaagent/codeextraction/EnhancedExceptionSpanExporter.java:1061-1063 | a location without a colon gives a frame whose file is the whole location and whose line is -1 |
| StackTrace.NoParenNoFrame | examples/extension/src/main/java/com/example/javaagent/codeextraction/EnhancedExceptionSpanExporter.java:1038-1039 | a line without `(` gives no frame |
| StackTrace.LineFrameAfterIndent | examples/extension/src/main/java/com/example/javaagent/codeextraction/EnhancedExceptionSpanExporter.java:1021 | indentation before a line does not change its frame |
| Extraction.StripComment | examples/extension/src/main/java/com/example/javaagent/codeextraction/EnhancedExceptionSpanExporter.java:832-835 | a line without `//` is kept as it is |
| Extraction.StripCommentChars | examples/extension/src/main/java/com/example/javaagent/codeextraction/EnhancedExceptionSpanExporter.java:832-835 | stripping a comment only removes characters |
| Extraction.DeclarationForms | examples/extension/src/main/java/com/example/javaagent/codeextraction/EnhancedExceptionSpanExporter.java:830-852 | a line is a declaration exactly when, with its comment removed, it is not empty and the call of the name follows a modifier or a type word |
| Extraction.TypedDeclarationRecognised | examples/extension/src/main/java/com/example/javaagent/codeextraction/EnhancedExceptionSpanExporter.java:848 | `Type name(...)` is recognised as a declaration of `name` |
| Extraction.NeedsParenthesis | examples/extension/src/main/java/com/example/javaagent/codeextraction/EnhancedExceptionSpanExporter.java:840-842 | a line without `(` is never a declaration |
| Extraction.TypeHeaderRecognised | examples/extension/src/main/java/com/example/javaagent/codeextraction/EnhancedExceptionSpanExporter.java:862-865 | a `class`, `interface` or `enum` header always stops the backward search |
| Extraction.EndLine | examples/extension/src/main/java/com/example/javaagent/codeextraction/EnhancedExceptionSpanExporter.java:876-925 | the end line is -1 or lies between the start line and the last line |
| Extraction.EndLineCloses | examples/extension/src/main/java/com/example/javaagent/codeextraction/EnhancedExceptionSpanExporter.java:876-925 | the end line is the first line, from the start line on, where the brace count returns to zero after an opening brace; -1 means no line does |
| Extraction.ScanLine | examples/extension/src/main/java/com/example/javaagent/codeextraction/EnhancedExceptionSpanExporter.java:898-913 | the character loop stops exactly when the line closes the method, and otherwise carries the running brace count and whether a brace was seen |
| Extraction.FindMethodEndLine | examples/extension/src/main/java/com/example/javaagent/codeextraction/EnhancedExceptionSpanExporter.java:876-925 | the loop computes the end line |
| Extraction.BackwardScan | examples/extension/src/main/java/com/example/javaagent/codeextraction/EnhancedExceptionSpanExporter.java:740-761 | going up from the error line, the first line that declares the method is found, unless another method or class declaration comes first; -1 otherwise |
| Extraction.ScanBackward | examples/extension/src/main/java/com/example/javaagent/codeextraction/EnhancedExceptionSpanExporter.java:740-761 | the loop computes the backward search |
| Extraction.WholeFileFrom | examples/extension/src/main/java/com/example/javaagent/codeextraction/EnhancedExceptionSpanExporter.java:794-828 | a method found by the whole-file search starts at a declaration and ends where its braces close |
| Extraction.WholeFileFromIsFirst | examples/extension/src/main/java/com/example/javaagent/codeextraction/EnhancedExceptionSpanExporter.java:794-828 | the whole-file search finds a method exactly when some declaration's braces close, and then the first such declaration |
| Extraction.Boundaries | examples/extension/src/main/java/com/example/javaagent/codeextraction/EnhancedExceptionSpanExporter.java:697-792 | found boundaries lie in the file, start at a declaration, and end where its braces close |
| Extraction.BackwardDeclarationIsFinal | examples/extension/src/main/java/com/example/javaagent/codeextraction/EnhancedExceptionSpanExporter.java:763-785 | a declaration found going up is kept: when its braces do not close there are no boundaries, with no whole-file search; when they close the method starts at or above the error line |
| Extraction.FindMethodInEntireFile | examples/extension/src/main/java/com/example/javaagent/codeextraction/EnhancedExceptionSpanExporter.java:794-828 | the loop computes the whole-file search |
| Extraction.FindMethodBoundaries | examples/extension/src/main/java/com/example/javaagent/codeextraction/EnhancedExceptionSpanExporter.java:697-792 | the method computes the boundaries, including the whole-file search for a line out of range or no declaration above |
| Extraction.DeclarationLineOf | examples/extension/src/main/java/com/example/javaagent/codeextraction/CodeExtractionUtils.java:333-351 | the search fails with an exception exactly when the error line is past the end of the file, and otherwise gives -1 or a line at or above the error line |
| Extraction.FindMethodDeclarationLine | examples/extension/src/main/java/com/example/javaagent/codeextraction/CodeExtractionUtils.java:333-351 | the loop computes that search |
| Extraction.Window | examples/extension/src/main/java/com/example/javaagent/codeextraction/EnhancedExceptionSpanExporter.java:927-964 | the context window is clamped to the file, and it holds the error line and at most 2 × size + 1 lines when the error line is in the file |
| Extraction.LinesBetweenSlice | examples/extension/src/main/java/com/example/javaagent/codeextraction/EnhancedExceptionSpanExporter.java:939-943 | the lines between two in-range line numbers are exactly that slice of the file |
| CodeExtraction.NumberedRangeContents | examples/extension/src/main/java/com/example/javaagent/codeextraction/CodeExtractionUtils.java:270-284 | the map holds one entry per line number between the clamped bounds, in order, each with the text of that line |
| CodeExtraction.PutLines | examples/extension/src/main/java/com/example/javaagent/codeextraction/CodeExtractionUtils.java:277-282 | the loop puts exactly those entries |
| CodeExtraction.ExtractContextLines | examples/extension/src/main/java/com/example/javaagent/codeextraction/CodeExtractionUtils.java:270-284 | the context map is the range of lines from error line − size to error line + size, clamped to the file |
| CodeExtraction.CompleteMethodFound | examples/extension/src/main/java/com/example/javaagent/codeextraction/CodeExtractionUtils.java:287-330 | when a declaration is found above the error line and its braces close, the result is exactly its lines; otherwise it is the context window |
| CodeExtraction.PastTheEndFallsBack | examples/extension/src/main/java/com/example/javaagent/codeextraction/CodeExtractionUtils.java:323-327 | an error line past the end of the file gives the context window |
| CodeExtraction.ExtractCompleteMethod | examples/extension/src/main/java/com/example/javaagent/codeextraction/CodeExtractionUtils.java:287-330 | the method computes the complete method or the fallback window |
| CodeExtraction.IsApplicationCode | examples/extension/src/main/java/com/example/javaagent/codeextraction/CodeExtractionUtils.java:438-465 | a class is application code exactly when it is not null and starts with none of the system package prefixes |
| CodeExtraction.LineAt | examples/extension/src/main/java/com/example/javaagent/codeextraction/CodeExtractionUtils.java:60 | the map lookup finds a line exactly when some entry has that line number, and gives that entry's text |
| CodeExtraction.ExtractCodeContext | examples/extension/src/main/java/com/example/javaagent/codeextraction/CodeExtractionUtils.java:26-76 | the context is empty exactly for a missing element, file name, positive line number or source; otherwise it is `complete_method` with the element's line number and the text of that line in the method lines |
| CodeExtraction.LineAtRange | examples/extension/src/main/java/com/example/javaagent/codeextraction/CodeExtractionUtils.java:59-60 | the error line is found in a range exactly when its number lies within the clamped bounds, and it is that line of the file |
| CodeExtraction.Contexts | examples/extension/src/main/java/com/example/javaagent/codeextraction/CodeExtractionUtils.java:82-106 | there are at most as many contexts as frames |
| CodeExtraction.ExtractCodeContextFromStackTrace | examples/extension/src/main/java/com/example/javaagent/codeextraction/CodeExtractionUtils.java:82-115 | a null stack gives nothing; otherwise the contexts of the application frames among the first ten frames, in order, skipping empty ones |
| CodeExtraction.ContextsFromApplicationFrames | examples/extension/src/main/java/com/example/javaagent/codeextraction/CodeExtractionUtils.java:82-106 | every context comes from an application-code frame of the stack |
| Classifier.EnclosingClass | examples/extension/src/main/java/com/example/javaagent/codeextraction/EnhancedExceptionSpanExporter.java:590-592 | the enclosing class is the name before the last `$`, strictly shorter |
| Classifier.PrefixDecides | examples/extension/src/main/java/com/example/javaagent/codeextraction/EnhancedExceptionSpanExporter.java:452-463 | a name with an external package prefix is external whatever the class loader says |
| Classifier.PrefixExtends | examples/extension/src/main/java/com/example/javaagent/codeextraction/EnhancedExceptionSpanExporter.java:452-463 | any name extending an external-prefixed name is external-prefixed |
| Classifier.LoaderDecides | examples/extension/src/main/java/com/example/javaagent/codeextraction/EnhancedExceptionSpanExporter.java:466-560 | without an external prefix, a decisive class-loader or code-source verdict is the classification |
| Classifier.DependencyBeforeBuildOutput | examples/extension/src/main/java/com/example/javaagent/codeextraction/EnhancedExceptionSpanExporter.java:506-516 | a dependency-cache path is external even when it also looks like build output |
| Classifier.ApplicationPathsAreBuildOutput | examples/extension/src/main/java/com/example/javaagent/codeextraction/EnhancedExceptionSpanExporter.java:520-533 | a code source is application code exactly when it is build output and not a dependency path |
| Classifier.PlainDirectoryInconclusive | examples/extension/src/main/java/com/example/javaagent/codeextraction/EnhancedExceptionSpanExporter.java:537-566 | a directory that is neither dependency nor build output decides nothing |
| Classifier.SyntheticIsExternal | examples/extension/src/main/java/com/example/javaagent/codeextraction/EnhancedExceptionSpanExporter.java:577-586 | with no decisive loader verdict, a synthetic or proxy class name is external |
| Classifier.NestedFollowsEnclosing | examples/extension/src/main/java/com/example/javaagent/codeextraction/EnhancedExceptionSpanExporter.java:590-592 | otherwise a nested class is classified like its enclosing class |
| Classifier.DefaultIsApplication | examples/extension/src/main/java/com/example/javaagent/codeextraction/EnhancedExceptionSpanExporter.java:598-604 | otherwise a plain class name is application code |
| Classifier.ExternalHasWitness | examples/extension/src/main/java/com/example/javaagent/codeextraction/EnhancedExceptionSpanExporter.java:448-605 | a class is external only when it or one of its enclosing classes has an external prefix, an external loader verdict or a synthetic name |
| Classifier.MatchesExternalPrefix | examples/extension/src/main/java/com/example/javaagent/codeextraction/EnhancedExceptionSpanExporter.java:452-463 | the prefix loop answers true exactly when the name has an external prefix |
| Classifier.StoreAgrees | examples/extension/src/main/java/com/example/javaagent/codeextraction/EnhancedExceptionSpanExporter.java:440-443 | storing the classification of a new name keeps every cached answer equal to the classification |
| Classifier.ClassificationCache.IsExternalCode | examples/extension/src/main/java/com/example/javaagent/codeextraction/EnhancedExceptionSpanExporter.java:432-445 | a null name is external; otherwise the answer is the classification, a cached answer is returned unchanged, and the name is cached afterwards with earlier entries kept |
| Classifier.ClassificationCache.ClassifyAndStore | examples/extension/src/main/java/com/example/javaagent/codeextraction/EnhancedExceptionSpanExporter.java:440-443 | a miss is classified and cached, and only the name and its enclosing classes are added |
| Classifier.ClassificationCache.PerformClassification | examples/extension/src/main/java/com/example/javaagent/codeextraction/EnhancedExceptionSpanExporter.java:448-605 | the result is the classification; only enclosing classes are cached on the way |
| Classifier.ClassificationCache.ClassifyAsEnclosing | examples/extension/src/main/java/com/example/javaagent/codeextraction/EnhancedExceptionSpanExporter.java:590-592 | a nested name gets the answer of its enclosing class, which is cached |
| Classifier.ClassificationCache.IsApplicationCode | examples/extension/src/main/java/com/example/javaagent/codeextraction/EnhancedExceptionSpanExporter.java:607-609 | application code is a non-null name that is not external |
| EnhancedExporter.DiskSource | examples/extension/src/main/java/com/example/javaagent/codeextraction/EnhancedExceptionSpanExporter.java:1072-1191 | the read fails only when the local file cannot be read; a non-empty local file is used; with external extraction off only the local search counts |
| EnhancedExporter.DependencySearchedLast | examples/extension/src/main/java/com/example/javaagent/codeextraction/EnhancedExceptionSpanExporter.java:1111-1129 | a class outside the JDK and Spring with no local file is read from the dependency sources |
| EnhancedExporter.CacheKeyInjective | examples/extension/src/main/java/com/example/javaagent/codeextraction/EnhancedExceptionSpanExporter.java:1077 | for class names without `#`, equal cache keys mean the same class and file |
| EnhancedExporter.CacheKeyCollision | examples/extension/src/main/java/com/example/javaagent/codeextraction/EnhancedExceptionSpanExporter.java:1077 | with `#` in a class name, two different class and file pairs share a key |
| EnhancedExporter.CacheStoreAgrees | examples/extension/src/main/java/com/example/javaagent/codeextraction/EnhancedExceptionSpanExporter.java:1131-1134 | storing a successful read while fewer than 100 entries are held keeps every cached entry equal to a fresh read |
| EnhancedExporter.ContextFallback | examples/extension/src/main/java/com/example/javaagent/codeextraction/EnhancedExceptionSpanExporter.java:927-964 | the fallback succeeds with the window error line − 5 to error line + 5 clamped to the file, and an empty body for an empty window |
| EnhancedExporter.FunctionIn | examples/extension/src/main/java/com/example/javaagent/codeextraction/EnhancedExceptionSpanExporter.java:612-695 | with boundaries the result is the trimmed text of exactly those lines; without, it is the context window |
| EnhancedExporter.NonBlankBodyIsOrdered | examples/extension/src/main/java/com/example/javaagent/codeextraction/EnhancedExceptionSpanExporter.java:612-695 | a non-blank body comes with a start line at or before the end line |
| EnhancedExporter.AppendLines | examples/extension/src/main/java/com/example/javaagent/codeextraction/EnhancedExceptionSpanExporter.java:662-667 | the loop appends each line between the bounds followed by a line feed |
| EnhancedExporter.Entry | examples/extension/src/main/java/com/example/javaagent/codeextraction/EnhancedExceptionSpanExporter.java:346-426 | the record names the frame's method, file and line, language `java` and the classification, and has an ordered line range |
| EnhancedExporter.EntryPlaceholders | examples/extension/src/main/java/com/example/javaagent/codeextraction/EnhancedExceptionSpanExporter.java:346-426 | an external frame gets a blank body and its own line as range; a failed extraction gets the failure text; otherwise the extracted body and range are used |
| EnhancedExporter.EntryDescribes | examples/extension/src/main/java/com/example/javaagent/codeextraction/EnhancedExceptionSpanExporter.java:346-426 | the body is blank exactly for external frames when external extraction is off |
| EnhancedExporter.CopiedAttributes | examples/extension/src/main/java/com/example/javaagent/codeextraction/EnhancedExceptionSpanExporter.java:280-294 | exactly the non-`exception.` attributes of string, long, double or boolean type are copied |
| EnhancedExporter.EnrichedAttributes | examples/extension/src/main/java/com/example/javaagent/codeextraction/EnhancedExceptionSpanExporter.java:231-303 | the event carries the stack details JSON, the original stack trace and type, `exception.escaped` true, and then the copied attributes |
| EnhancedExporter.EnrichedAttributeCount | examples/extension/src/main/java/com/example/javaagent/codeextraction/EnhancedExceptionSpanExporter.java:272-297 | the enriched event holds three `exception.` keys, one more for each of type and message the original holds as a string, plus the distinct keys of the copied attributes |
| EnhancedExporter.HeadKeys | examples/extension/src/main/java/com/example/javaagent/codeextraction/EnhancedExceptionSpanExporter.java:272-278 | the keys the head puts hold all start with `exception.`, and there are three plus one for each of type and message found |
| EnhancedExporter.CountChanged | examples/extension/src/main/java/com/example/javaagent/codeextraction/EnhancedExceptionSpanExporter.java:117-126 | the count is at most the batch size and zero exactly when no span was replaced |
| EnhancedExporter.EnhancedExceptionSpanExporter.constructor | examples/extension/src/main/java/com/example/javaagent/codeextraction/EnhancedExceptionSpanExporter.java:94-105 | the exporter starts with empty caches and zero counters, wrapping the given delegate |
| EnhancedExporter.EnhancedExceptionSpanExporter.CacheTransparent | examples/extension/src/main/java/com/example/javaagent/codeextraction/EnhancedExceptionSpanExporter.java:1072-1191 | reading through the cache gives what a fresh read would give |
| EnhancedExporter.EnhancedExceptionSpanExporter.ReadSourceFile | examples/extension/src/main/java/com/example/javaagent/codeextraction/EnhancedExceptionSpanExporter.java:1072-1191 | the lines are the cached ones on a hit and a fresh read on a miss; a successful miss is cached while there is room; cached entries are kept |
| EnhancedExporter.EnhancedExceptionSpanExporter.ExtractCompleteFunction | examples/extension/src/main/java/com/example/javaagent/codeextraction/EnhancedExceptionSpanExporter.java:612-695 | no file or no positive line gives the failure result; an empty file likewise; otherwise the function between the boundaries or the window |
| EnhancedExporter.EnhancedExceptionSpanExporter.ExtractContextLines | examples/extension/src/main/java/com/example/javaagent/codeextraction/EnhancedExceptionSpanExporter.java:927-964 | the method computes the fallback window |
| EnhancedExporter.EnhancedExceptionSpanExporter.CreateStackDetailEntry | examples/extension/src/main/java/com/example/javaagent/codeextraction/EnhancedExceptionSpanExporter.java:346-426 | the record describes the frame; code is extracted unless the frame is external and external extraction is off |
| EnhancedExporter.EnhancedExceptionSpanExporter.CacheInvisible | examples/extension/src/main/java/com/example/javaagent/codeextraction/EnhancedExceptionSpanExporter.java:1072-1191 | the cache never changes which function is extracted |
| EnhancedExporter.EnhancedExceptionSpanExporter.FunctionOrdered | examples/extension/src/main/java/com/example/javaagent/codeextraction/EnhancedExceptionSpanExporter.java:612-695 | every extracted non-blank function has an ordered line range |
| EnhancedExporter.EnhancedExceptionSpanExporter.ExtractStackDetails | examples/extension/src/main/java/com/example/javaagent/codeextraction/EnhancedExceptionSpanExporter.java:306-343 | there is one record per frame of the stack trace, in order, each describing its frame |
| EnhancedExporter.EnhancedExceptionSpanExporter.CreateEnrichedExceptionEvent | examples/extension/src/main/java/com/example/javaagent/codeextraction/EnhancedExceptionSpanExporter.java:231-303 | an event is made exactly when the stack trace is non-empty and has a frame that parses, and then it keeps name and time and carries the enriched attributes |
| EnhancedExporter.EnhancedExceptionSpanExporter.EnrichSpan | examples/extension/src/main/java/com/example/javaagent/codeextraction/EnhancedExceptionSpanExporter.java:186-228 | the span is replaced exactly when some exception event is enriched; the replacement wraps the span and has one event per original event, enriched or kept |
| EnhancedExporter.EnhancedExceptionSpanExporter.Export | examples/extension/src/main/java/com/example/javaagent/codeextraction/EnhancedExceptionSpanExporter.java:108-183 | the delegate receives one span per input span, each the span itself or, for a span with exceptions, a wrapper around it; the counters grow by the batch size and the number replaced, as `int`s |
| EnhancedExporter.EnhancedExceptionSpanExporter.Flush | examples/extension/src/main/java/com/example/javaagent/codeextraction/EnhancedExceptionSpanExporter.java:1325-1327 | the flush is forwarded |
| EnhancedExporter.EnhancedExceptionSpanExporter.Shutdown | examples/extension/src/main/java/com/example/javaagent/codeextraction/EnhancedExceptionSpanExporter.java:1330-1353 | the source cache is cleared, the classification cache kept, and the shutdown forwarded |
| CodeContextExporter.IsApplicationCodeLine | examples/extension/src/main/java/com/example/javaagent/codeextraction/CodeContextSpanExporter.java:327-350 | a line is application code exactly when it contains none of the system package names |
| CodeContextExporter.ParseStacktraceForAppCode | examples/extension/src/main/java/com/example/javaagent/codeextraction/CodeContextSpanExporter.java:267-283 | the frames of the trimmed `at ` lines that are application code and parse, in order |
| CodeContextExporter.AppLineFrameIsApplicationCode | examples/extension/src/main/java/com/example/javaagent/codeextraction/CodeContextSpanExporter.java:274-277 | a frame kept from such a line has a class name that is application code |
| CodeContextExporter.AppFramesAreApplicationCode | examples/extension/src/main/java/com/example/javaagent/codeextraction/CodeContextSpanExporter.java:267-283 | every frame kept is application code |
| CodeContextExporter.MethodWindow | examples/extension/src/main/java/com/example/javaagent/codeextraction/CodeContextSpanExporter.java:352-375 | a non-empty window needs a file name and a positive line |
| CodeContextExporter.ExtractMethodCode | examples/extension/src/main/java/com/example/javaagent/codeextraction/CodeContextSpanExporter.java:352-375 | the method computes the window |
| CodeContextExporter.MethodWindowContents | examples/extension/src/main/java/com/example/javaagent/codeextraction/CodeContextSpanExporter.java:352-375 | the window is non-empty exactly when the line is positive, the file has lines and reaches the window; it holds at most 2 × 5 + 1 numbered lines, each the file's line |
| CodeContextExporter.FormatSourceCode | examples/extension/src/main/java/com/example/javaagent/codeextraction/CodeContextSpanExporter.java:405-411 | the method computes the formatted code |
| CodeContextExporter.FormattedWindowLines | examples/extension/src/main/java/com/example/javaagent/codeextraction/CodeContextSpanExporter.java:405-411 | each formatted line is the line number, `: ` and the file's line |
| CodeContextExporter.CodeContextOf | examples/extension/src/main/java/com/example/javaagent/codeextraction/CodeContextSpanExporter.java:120-172 | the context is empty or holds the seven attributes in order, ending with the timestamp and `span_exporter` |
| CodeContextExporter.ExtractCodeContextFromExceptionEvent | examples/extension/src/main/java/com/example/javaagent/codeextraction/CodeContextSpanExporter.java:120-172 | the method computes that context |
| CodeContextExporter.ContextDescribesPrimaryFrame | examples/extension/src/main/java/com/example/javaagent/codeextraction/CodeContextSpanExporter.java:120-172 | a non-empty context describes the first application frame of the stack trace: its method, file, line, class and formatted source window |
| CodeContextExporter.CodeAttributes | examples/extension/src/main/java/com/example/javaagent/codeextraction/CodeContextSpanExporter.java:199-220 | each context attribute is copied with `code.` before its key |
| CodeContextExporter.PutCodeAttributes | examples/extension/src/main/java/com/example/javaagent/codeextraction/CodeContextSpanExporter.java:199-220 | the loop appends those attributes |
| CodeContextExporter.CreateCodeContextEvent | examples/extension/src/main/java/com/example/javaagent/codeextraction/CodeContextSpanExporter.java:175-196 | the event is `code.context.extracted` at the given time with the prefixed attributes, and its attribute count is the number of distinct keys they hold |
| CodeContextExporter.CodeAttributesCount | examples/extension/src/main/java/com/example/javaagent/codeextraction/CodeContextSpanExporter.java:175-196 | the prefixed code attributes are kept, have distinct keys that all start with `code.`, so their count is the number of context entries |
| CodeContextExporter.AddCodeContextAttributes | examples/extension/src/main/java/com/example/javaagent/codeextraction/CodeContextSpanExporter.java:199-220 | the span gets its attributes followed by the prefixed ones |
| CodeContextExporter.FirstYielding | examples/extension/src/main/java/com/example/javaagent/codeextraction/CodeContextSpanExporter.java:78-117 | the first exception event that yields a context, none before it does |
| CodeContextExporter.EnrichSpanWithCodeContext | examples/extension/src/main/java/com/example/javaagent/codeextraction/CodeContextSpanExporter.java:78-117 | the span is enriched by the first exception event that yields a context, or returned unchanged |
| CodeContextExporter.EnrichedSpanAccessors | examples/extension/src/main/java/com/example/javaagent/codeextraction/CodeContextSpanExporter.java:466-562 | an enriched span has one more event, the code context event, last; its attributes gain the seven prefixed ones; name, status and everything else are the original's; its total attribute count is the number of distinct keys in the original attributes followed by the added ones |
| CodeContextExporter.EnrichedSpanAttributeCount | examples/extension/src/main/java/com/example/javaagent/codeextraction/CodeContextSpanExporter.java:559-561 | the enriched span reports between the original count and seven more, and exactly seven more when no original key starts with `code.` |
| CodeContextExporter.FirstContextIsUsed | examples/extension/src/main/java/com/example/javaagent/codeextraction/CodeContextSpanExporter.java:78-117 | the context used is that of an exception event before which every exception event gave no context |
| CodeContextExporter.EnrichedSpanIsNew | examples/extension/src/main/java/com/example/javaagent/codeextraction/CodeContextSpanExporter.java:55-57 | an enriched span differs from the original, so it is counted |
| CodeContextExporter.CodeContextSpanExporter.constructor | examples/extension/src/main/java/com/example/javaagent/codeextraction/CodeContextSpanExporter.java:35-40 | the exporter starts with zero counters |
| CodeContextExporter.CodeContextSpanExporter.ExportedChangesOnlyWithContext | examples/extension/src/main/java/com/example/javaagent/codeextraction/CodeContextSpanExporter.java:43-75 | a span changes exactly when some exception event yields a context; an error status alone changes nothing |
| CodeContextExporter.CodeContextSpanExporter.Export | examples/extension/src/main/java/com/example/javaagent/codeextraction/CodeContextSpanExporter.java:43-75 | every span is exported as enriched or unchanged; the counters grow by the batch size and the number changed, as `int`s; the delegate receives the batch |
| CodeContextExporter.CodeContextSpanExporter.Flush | examples/extension/src/main/java/com/example/javaagent/codeextraction/CodeContextSpanExporter.java:414-416 | the flush is forwarded |
| CodeContextExporter.CodeContextSpanExporter.Shutdown | examples/extension/src/main/java/com/example/javaagent/codeextraction/CodeContextSpanExporter.java:419-424 | the shutdown is forwarded |
| CodeContextProcessor.RecordingSpan.AddEvent | examples/extension/src/main/java/com/example/javaagent/codeextraction/CodeContextSpanProcessor.java:202 | while the span records, the event is appended with the span's clock time; on an ended span nothing changes, as the SDK ignores `addEvent` there; the attributes are never touched |
| CodeContextProcessor.RecordingSpan.SetAttribute | examples/extension/src/main/java/com/example/javaagent/codeextraction/CodeContextSpanProcessor.java:225-228 | while the span records, the attribute is appended; on an ended span nothing changes, as the SDK ignores `setAttribute` there; the events are never touched |
| CodeContextProcessor.ProjectSource | examples/extension/src/main/java/com/example/javaagent/codeextraction/CodeContextSpanProcessor.java:450-475 | the source lookup depends on the file name only |
| CodeContextProcessor.GetPrimaryStackElement | examples/extension/src/main/java/com/example/javaagent/codeextraction/CodeContextSpanProcessor.java:272-283 | the primary element is the first application frame of the event's stack trace |
| CodeContextProcessor.SourceWindow | examples/extension/src/main/java/com/example/javaagent/codeextraction/CodeContextSpanProcessor.java:253-269 | a non-empty window implies a primary frame with a file name |
| CodeContextProcessor.ExtractCodeContextFromEvent | examples/extension/src/main/java/com/example/javaagent/codeextraction/CodeContextSpanProcessor.java:253-269 | the method computes that window |
| CodeContextProcessor.SourceWindowMatchesExporter | examples/extension/src/main/java/com/example/javaagent/codeextraction/CodeContextSpanProcessor.java:253-269 | the processor finds source lines for an event exactly when the exporter finds a code context for it |
| CodeContextProcessor.FirstExceptionFrom | examples/extension/src/main/java/com/example/javaagent/codeextraction/CodeContextSpanProcessor.java:132-148 | the first exception event from a place on, with none before it |
| CodeContextProcessor.Target | examples/extension/src/main/java/com/example/javaagent/codeextraction/CodeContextSpanProcessor.java:112-159 | the event chosen is the first exception event among those added since the last count, and none is chosen exactly when the span was already enhanced or no new event is an exception event |
| CodeContextProcessor.CodeContextSpanProcessor.constructor | examples/extension/src/main/java/com/example/javaagent/codeextraction/CodeContextSpanProcessor.java:29-34 | the processor starts with empty maps and zero counters |
| CodeContextProcessor.CodeContextSpanProcessor.OnStart | examples/extension/src/main/java/com/example/javaagent/codeextraction/CodeContextSpanProcessor.java:37-49 | the start counter is incremented as an `int` and the span's event count is set to zero |
| CodeContextProcessor.CodeContextSpanProcessor.TestMultipleEnhancementStrategies | examples/extension/src/main/java/com/example/javaagent/codeextraction/CodeContextSpanProcessor.java:162-250 | the intercept counter is incremented; success is reported exactly when there are source lines and the span is writable; the code context event and then the four attributes are added only when, in addition, the span has not ended; otherwise the span is unchanged |
| CodeContextProcessor.AddCodeContextEvent | examples/extension/src/main/java/com/example/javaagent/codeextraction/CodeContextSpanProcessor.java:188-202 | strategy 1 appends one `code.context.extracted` event, stamped by the span clock, with the five code attributes, unless the span has ended; the attributes are never touched |
| CodeContextProcessor.SetCodeAttributes | examples/extension/src/main/java/com/example/javaagent/codeextraction/CodeContextSpanProcessor.java:222-228 | strategy 2 appends the four code attributes in order, unless the span has ended; the events are never touched |
| CodeContextProcessor.CodeContextSpanProcessor.CheckForNewExceptionEvents | examples/extension/src/main/java/com/example/javaagent/codeextraction/CodeContextSpanProcessor.java:112-159 | the count is moved to the event count when it grew; the chosen event, if any, is tried, and the span is marked enhanced exactly when that succeeds; the span gains the code context only when the attempt succeeds on a span that has not ended |
| CodeContextProcessor.CodeContextSpanProcessor.EnhanceAndRecord | examples/extension/src/main/java/com/example/javaagent/codeextraction/CodeContextSpanProcessor.java:139-146 | enhancement is attempted once (the intercept counter moves on), the span id joins the enhanced set exactly when it succeeds, the count for the span becomes the current one, and the span gains the code context event and attributes only when it succeeds on a span that has not ended |
| CodeContextProcessor.CodeContextSpanProcessor.OnEnd | examples/extension/src/main/java/com/example/javaagent/codeextraction/CodeContextSpanProcessor.java:57-104 | on the ended span the SDK hands it, the span comes out unchanged; the intercept counter moves on exactly when there is a target event; the span's entries are removed from both maps and the end counter is incremented |
| CodeContextProcessor.CodeContextSpanProcessor.OnEnding | examples/extension/src/main/java/com/example/javaagent/codeextraction/CodeContextSpanProcessor.java:57-69 | the same check run before the span ends: a successful attempt leaves the span marked enhanced with a code context event after all its earlier events; without a target the span is unchanged |
| CodeContextProcessor.CodeContextSpanProcessor.Shutdown | examples/extension/src/main/java/com/example/javaagent/codeextraction/CodeContextSpanProcessor.java:489-495 | shutdown succeeds |
| CodeContextProcessor.CodeContextSpanProcessor.ForceFlush | examples/extension/src/main/java/com/example/javaagent/codeextraction/CodeContextSpanProcessor.java:498-500 | force flush succeeds |
| CodeContextProcessor.EnhancedSpanHasCodeContextEvent | examples/extension/src/main/java/com/example/javaagent/codeextraction/CodeContextSpanProcessor.java:329-336 | after a successful first strategy the span has a code context event and keeps its earlier events |
| SpanEnhancer.MinKey | examples/extension/src/main/java/com/example/javaagent/codeextraction/SpanCodeEnhancer.java:188-192 | the smallest line number of the method lines |
| SpanEnhancer.MaxKey | examples/extension/src/main/java/com/example/javaagent/codeextraction/SpanCodeEnhancer.java:193-197 | the largest line number of the method lines |
| SpanEnhancer.RangeEnds | examples/extension/src/main/java/com/example/javaagent/codeextraction/SpanCodeEnhancer.java:188-197 | for a range of lines the smallest and largest numbers are its clamped bounds |
| SpanEnhancer.FormatMethodBody | examples/extension/src/main/java/com/example/javaagent/codeextraction/SpanCodeEnhancer.java:212-226 | the body is the method lines joined by line feeds, without a trailing one |
| SpanEnhancer.Entry | examples/extension/src/main/java/com/example/javaagent/codeextraction/SpanCodeEnhancer.java:170-209 | the record has five fields, or eight when there are method lines; the language is `java` and the external flag is the negated application test |
| SpanEnhancer.CreateStackDetailEntry | examples/extension/src/main/java/com/example/javaagent/codeextraction/SpanCodeEnhancer.java:170-209 | the method computes that record |
| SpanEnhancer.Details | examples/extension/src/main/java/com/example/javaagent/codeextraction/SpanCodeEnhancer.java:150-167 | at most one record per frame |
| SpanEnhancer.CreateStackDetails | examples/extension/src/main/java/com/example/javaagent/codeextraction/SpanCodeEnhancer.java:150-167 | one record per application frame with a non-empty context, in order |
| SpanEnhancer.DetailsNotExternal | examples/extension/src/main/java/com/example/javaagent/codeextraction/SpanCodeEnhancer.java:150-167 | every record has five or eight fields and is marked not external |
| SpanEnhancer.DetailsMatchContexts | examples/extension/src/main/java/com/example/javaagent/codeextraction/SpanCodeEnhancer.java:150-167 | there are as many records as code contexts the extraction utilities give for the stack |
| SpanEnhancer.AddStackDetailsToAttributes | examples/extension/src/main/java/com/example/javaagent/codeextraction/SpanCodeEnhancer.java:229-272 | the attributes gain `exception.stack_details` holding the JSON array of the records |
| SpanEnhancer.ProcessStacktraceString | examples/extension/src/main/java/com/example/javaagent/codeextraction/SpanCodeEnhancer.java:123-147 | the details are added exactly when the parsed trace gives at least one record |
| SpanEnhancer.ProcessExceptionEvent | examples/extension/src/main/java/com/example/javaagent/codeextraction/SpanCodeEnhancer.java:67-92 | the same for an exception event's stack trace |
| SpanEnhancer.FirstUsable | examples/extension/src/main/java/com/example/javaagent/codeextraction/SpanCodeEnhancer.java:95-120 | the first frame that is application code, not the enhancer itself, and has a context; none exactly when no frame qualifies |
| SpanEnhancer.ProcessSpanError | examples/extension/src/main/java/com/example/javaagent/codeextraction/SpanCodeEnhancer.java:95-120 | the details of the first usable frame of the current stack are added, when there is one |
| SpanEnhancer.SingleFrameDetails | examples/extension/src/main/java/com/example/javaagent/codeextraction/SpanCodeEnhancer.java:106-108 | a single frame gives its record exactly when it is application code with a context |
| SpanEnhancer.EnhanceSpanWithCodeContext | examples/extension/src/main/java/com/example/javaagent/codeextraction/SpanCodeEnhancer.java:33-56 | one details attribute per exception event that yields records, in order, then one for an error status; enhanced exactly when something was added |
| SpanEnhancer.EventPutsKey | examples/extension/src/main/java/com/example/javaagent/codeextraction/SpanCodeEnhancer.java:33-56 | every attribute added from the events is `exception.stack_details` |
| StackDetailsInstrumentation.IsExternalFile | examples/extension/src/main/java/com/example/instrumentation/ExceptionStackDetailsInstrumentation.java:174-183 | a class is external exactly when it starts with one of the external prefixes |
| StackDetailsInstrumentation.CountBraces | examples/extension/src/main/java/com/example/instrumentation/ExceptionStackDetailsInstrumentation.java:238-244 | the loop counts the occurrences of the brace |
| StackDetailsInstrumentation.OccurrencesBalance | examples/extension/src/main/java/com/example/instrumentation/ExceptionStackDetailsInstrumentation.java:238-244 | opening minus closing braces is the running brace balance the method-end search uses |
| StackDetailsInstrumentation.MethodSpan | examples/extension/src/main/java/com/example/instrumentation/ExceptionStackDetailsInstrumentation.java:210-236 | the method starts at the first line containing `name(`, and ends at the first later line where the brace count drops to zero or at the last line |
| StackDetailsInstrumentation.ReadMethodFromFile | examples/extension/src/main/java/com/example/instrumentation/ExceptionStackDetailsInstrumentation.java:210-236 | an unreadable file gives null; otherwise the trimmed text of those lines |
| StackDetailsInstrumentation.NoMarkerEmptyBody | examples/extension/src/main/java/com/example/instrumentation/ExceptionStackDetailsInstrumentation.java:210-236 | without a line containing `name(` the body is empty |
| StackDetailsInstrumentation.ReplaceDots | examples/extension/src/main/java/com/example/instrumentation/ExceptionStackDetailsInstrumentation.java:197 | every dot of the class name becomes the separator character and nothing else changes |
| StackDetailsInstrumentation.ExtractFunctionBody | examples/extension/src/main/java/com/example/instrumentation/ExceptionStackDetailsInstrumentation.java:185-208 | the body comes from the first non-jar class path entry that holds the file |
| StackDetailsInstrumentation.JarsOnlyGiveNoBody | examples/extension/src/main/java/com/example/instrumentation/ExceptionStackDetailsInstrumentation.java:185-208 | a class path of jars only gives no body |
| StackDetailsInstrumentation.FrameRecord | examples/extension/src/main/java/com/example/instrumentation/ExceptionStackDetailsInstrumentation.java:130-172 | three fields without a file name; five for external or missing code; eight with the function body |
| StackDetailsInstrumentation.FrameDetails | examples/extension/src/main/java/com/example/instrumentation/ExceptionStackDetailsInstrumentation.java:130-172 | the record of one frame, with the body looked up only for a non-external frame with a file |
| StackDetailsInstrumentation.GenerateStackDetails | examples/extension/src/main/java/com/example/instrumentation/ExceptionStackDetailsInstrumentation.java:130-172 | the JSON array of the records of every frame, in order |
| StackDetailsInstrumentation.EveryFrameRecorded | examples/extension/src/main/java/com/example/instrumentation/ExceptionStackDetailsInstrumentation.java:130-172 | every frame, external or not, has its record in its place |
| StackDetailsInstrumentation.DetailsNeverEmpty | examples/extension/src/main/java/com/example/instrumentation/ExceptionStackDetailsInstrumentation.java:252-284 | the JSON text always starts with `[`, so the non-empty checks of both advices always pass |
| StackDetailsInstrumentation.OnEnterWithAttributes | examples/extension/src/main/java/com/example/instrumentation/ExceptionStackDetailsInstrumentation.java:64-87 | a null throwable leaves the attributes unchanged; otherwise the stack details attribute is added |
| StackDetailsInstrumentation.OnEnterSingle | examples/extension/src/main/java/com/example/instrumentation/ExceptionStackDetailsInstrumentation.java:94-127 | the call is skipped and forwarded with the stack details exactly when there is a throwable and the span is an application span |
| StackDetailsInstrumentation.ForwardedDetails | examples/extension/src/main/java/com/example/instrumentation/ExceptionStackDetailsInstrumentation.java:94-127 | the forwarded call records the details of this stack |
| Benchmarking.TruncatedDiv | examples/extension/src/main/java/com/example/javaagent/benchmarking/PerformanceBenchmark.java:50-87 | Java's `/` on `long`: the quotient rounded toward zero |
| Benchmarking.TruncatedDivInRange | examples/extension/src/main/java/com/example/javaagent/benchmarking/PerformanceBenchmark.java:50-87 | an average lies between zero and the total |
| Benchmarking.FigureOf | examples/extension/src/main/java/com/example/javaagent/benchmarking/PerformanceBenchmark.java:50-87 | an average is shown exactly when the count is positive, and it is the truncated quotient |
| Benchmarking.PerformanceBenchmark.constructor | examples/extension/src/main/java/com/example/javaagent/benchmarking/PerformanceBenchmark.java:16-24 | all totals and counts start at zero |
| Benchmarking.PerformanceBenchmark.RecordExportTime | examples/extension/src/main/java/com/example/javaagent/benchmarking/PerformanceBenchmark.java:26-29 | the export time total grows by the time as a `long` and the export count by one as an `int`; nothing else changes |
| Benchmarking.PerformanceBenchmark.RecordClassificationTime | examples/extension/src/main/java/com/example/javaagent/benchmarking/PerformanceBenchmark.java:31-34 | the same for classifications |
| Benchmarking.PerformanceBenchmark.RecordSourceReadTime | examples/extension/src/main/java/com/example/javaagent/benchmarking/PerformanceBenchmark.java:36-39 | the same for source reads |
| Benchmarking.PerformanceBenchmark.RecordMethodExtractionTime | examples/extension/src/main/java/com/example/javaagent/benchmarking/PerformanceBenchmark.java:41-44 | the same for method extractions |
| Benchmarking.PerformanceBenchmark.RecordJsonSerializationTime | examples/extension/src/main/java/com/example/javaagent/benchmarking/PerformanceBenchmark.java:46-48 | only the serialization total grows; there is no count |
| Benchmarking.PerformanceBenchmark.Reset | examples/extension/src/main/java/com/example/javaagent/benchmarking/PerformanceBenchmark.java:89-99 | every total and count is zero again |
| Benchmarking.PerformanceBenchmark.Stats | examples/extension/src/main/java/com/example/javaagent/benchmarking/PerformanceBenchmark.java:50-87 | each average is reported exactly when its count is positive; the serialization total is reported as it is |
| Benchmarking.ZeroReportsNoAverage | examples/extension/src/main/java/com/example/javaagent/benchmarking/PerformanceBenchmark.java:50-87 | after a reset no average is reported |
| Benchmarking.SingleExportAverage | examples/extension/src/main/java/com/example/javaagent/benchmarking/PerformanceBenchmark.java:26-29 | one recorded export shows its own time as the average |
| VcsUtils.CleanRepositoryUrl | examples/extension/src/main/java/com/example/javaagent/vcsintegration/VcsUtils.java:105-116 | null stays null; one trailing `.git` is removed; other URLs are unchanged |
| VcsUtils.CleanUndoesSuffix | examples/extension/src/main/java/com/example/javaagent/vcsintegration/VcsUtils.java:105-116 | cleaning undoes appending `.git` |
| VcsUtils.CleanStripsOnce | examples/extension/src/main/java/com/example/javaagent/vcsintegration/VcsUtils.java:105-116 | only one `.git` is removed |
| VcsUtils.ChooseRemote | examples/extension/src/main/java/com/example/javaagent/vcsintegration/VcsUtils.java:50-85 | no remote exactly when there are none; `origin` when present; else the first remote |
| VcsUtils.CurrentCommitSha | examples/extension/src/main/java/com/example/javaagent/vcsintegration/VcsUtils.java:24-47 | a commit is reported exactly when a repository with a resolvable HEAD is found |
| VcsUtils.RepositoryUrl | examples/extension/src/main/java/com/example/javaagent/vcsintegration/VcsUtils.java:50-85 | a URL is reported exactly when a repository has a chosen remote with a URL, and it is that URL cleaned |
| Config.FirstGiven | examples/extension/src/main/java/com/example/javaagent/config/ConfigManager.java:52-61 | the first lookup when it is non-empty, else the second |
| Config.ConfigureEndpoint | examples/extension/src/main/java/com/example/javaagent/config/ConfigManager.java:28-50 | the endpoint property is set by the endpoint rule |
| Config.ConfigurePropagators | examples/extension/src/main/java/com/example/javaagent/config/ConfigManager.java:52-61 | the propagators property is set to the first non-empty lookup |
| Config.ConfigureExporters | examples/extension/src/main/java/com/example/javaagent/config/ConfigManager.java:63-67 | the three exporter properties are set to `otlp`, `otlp`, `grpc` |
| Config.ConfigureCompression | examples/extension/src/main/java/com/example/javaagent/config/ConfigManager.java:69-75 | `gzip` compression is set only when enabled |
| Config.ConfigureLogLevel | examples/extension/src/main/java/com/example/javaagent/config/ConfigManager.java:77-85 | the log level is set only when the resolved level is non-empty |
| Config.ConfigureAdditionalProperties | examples/extension/src/main/java/com/example/javaagent/config/ConfigManager.java:87-90 | runtime telemetry is enabled |
| Config.GetProperties | examples/extension/src/main/java/com/example/javaagent/config/ConfigManager.java:15-26 | the six steps applied in order to an empty map |
| Config.DefaultPropertyKeys | examples/extension/src/main/java/com/example/javaagent/config/ConfigManager.java:15-26 | the keys are the six always put, plus compression and log level exactly when those are set |
| Config.DefaultPropertyValues | examples/extension/src/main/java/com/example/javaagent/config/ConfigManager.java:15-26 | the value of every key |
| Config.EndpointCases | examples/extension/src/main/java/com/example/javaagent/config/ConfigManager.java:28-50 | the endpoint is never null, is empty when neither target nor a remote agent service is given, and is non-empty for a remote agent service |
| AutoConfig.ParseResourceAttributes | examples/extension/src/main/java/com/example/javaagent/DemoAutoConfigurationCustomizerProvider.java:135-147 | the kept `key=value` pairs in order, trimmed; none of the keys or values contains `=` or `,` |
| AutoConfig.SplitHasNo | examples/extension/src/main/java/com/example/javaagent/DemoAutoConfigurationCustomizerProvider.java:138 | no piece of a split contains the separator |
| AutoConfig.PairHasNo | examples/extension/src/main/java/com/example/javaagent/DemoAutoConfigurationCustomizerProvider.java:140-142 | a kept pair's key and value contain neither `=` nor `,` |
| AutoConfig.PairParses | examples/extension/src/main/java/com/example/javaagent/DemoAutoConfigurationCustomizerProvider.java:140-142 | `key=value` gives the trimmed key and value |
| AutoConfig.BlankKeyNotHeld | examples/extension/src/main/java/com/example/javaagent/DemoAutoConfigurationCustomizerProvider.java:136-146 | a pair whose key is blank parses, but its put is dropped by the attribute builder because the trimmed key is empty |
| AutoConfig.EmptyValueDropped | examples/extension/src/main/java/com/example/javaagent/DemoAutoConfigurationCustomizerProvider.java:140-142 | `key=` gives one field only, so the pair is dropped |
| AutoConfig.TrailingSeparatorIgnored | examples/extension/src/main/java/com/example/javaagent/DemoAutoConfigurationCustomizerProvider.java:140-142 | `key=value=` is kept as `key=value`, because split drops the trailing empty field |
| AutoConfig.SplitTwo | examples/extension/src/main/java/com/example/javaagent/DemoAutoConfigurationCustomizerProvider.java:140 | a text with one separator splits into the two sides |
| AutoConfig.VcsValue | examples/extension/src/main/java/com/example/javaagent/DemoAutoConfigurationCustomizerProvider.java:93-107 | a VCS value from the environment wins; Git detection is used only when it is null or empty |
| AutoConfig.CreateCommonResource | examples/extension/src/main/java/com/example/javaagent/DemoAutoConfigurationCustomizerProvider.java:75-116 | the base attributes, those of the two attribute variables, the VCS attributes and the SDK language, in that order |
| AutoConfig.LanguageIsJava | examples/extension/src/main/java/com/example/javaagent/DemoAutoConfigurationCustomizerProvider.java:113 | the resource's SDK language is `java` |
| AutoConfig.CommitShaAttribute | examples/extension/src/main/java/com/example/javaagent/DemoAutoConfigurationCustomizerProvider.java:93-101 | a commit attribute is present exactly when a commit is known, and the environment's value is used when given |
| AutoConfig.CustomizeSpanExporter | examples/extension/src/main/java/com/example/javaagent/DemoAutoConfigurationCustomizerProvider.java:64-73 | with trace collection off the exporter is kept; on, it is wrapped in a fresh enriching exporter with an empty cache |
| AutoConfig.GetDefaultProperties | examples/extension/src/main/java/com/example/javaagent/DemoAutoConfigurationCustomizerProvider.java:194-204 | the traces exporter is `otlp` and the configured properties are kept |

## Left out

- File and class-path I/O: the directory walks, the source-jar and zip reads and the JDK, Spring and dependency source searches (`findFileInDirectory`, `tryFindJdkSource`, `tryFindSpringSource`, `tryFindDependencySource`, `extractFromZip`, `readFromSourceJar`, `readFromClassPath`, `readFromProjectStructure`) are not modelled as code. Their outcomes are lookup functions given as inputs, because they depend on the machine's files.
- Class loading (`Class.forName`, class loaders, protection domains and code sources) is replaced by a `Resolution` input per class name, because it depends on the running JVM.
- JGit repository discovery and reads are replaced by a `GitRepository` input, because they read the disk.
- Jackson serialization of the stack details is a function input that may fail. The model does not fix its exact output text.
- ByteBuddy type matching and class transformation (`typeMatcher`, `transform`) are left out. They are agent wiring, and their effect is only that the advices run.
- `customize` of the auto-configuration provider only registers the customizers with the SDK builder. The customizers themselves are modelled; the registration is not.
- Console and logger output is left out because it has no effect on the data: `displayCodeContextEvent`, `logCodeContextToConsole`, `logStackDetailToConsole`, the printing in `printStats`, the report in `onEnd` and the debug previews in `export`. `Stats` models the figures that `printStats` prints.
- Clock readings (`System.currentTimeMillis`, `System.nanoTime`) are `Clock` inputs. The benchmark's timing calls inside the exporters are left out because they do not change what is exported.
- Concurrency is left out: the model is single-threaded. `ConcurrentHashMap`, the atomic counters and the static counters become plain fields.
- `HashMap` iteration order, for the per-frame detail records and the method-line maps, is modelled as insertion order. Java does not promise an order there.
- The SDK's attribute handling is modelled as the log of puts the builder receives. A put with an empty key or a null value is dropped, as `ArrayBackedAttributesBuilder.put` does; a read returns the value of the last kept put under the key name, whatever its type; and `size()` is the number of distinct key names held. Copying attributes (`forEach` into a new builder) goes over the put-log rather than the SDK's de-duplicated map; the two agree whenever each key is put once, as in every `Attributes` the SDK hands out.
- Text.ParseInt: accepts ASCII digits only. `Integer.parseInt` also accepts the other Unicode decimal digits, so a line number written in them parses in Java and gives -1 in the model.
- The SDK marks a span ended before it calls `onEnd`, and an ended span ignores `addEvent` and `setAttribute`. The model keeps that state (`RecordingSpan.ended`), so with SDK spans the processor's writes to the span do nothing; see "## Findings".
- Strategy 3 of `testMultipleEnhancementStrategies` only logs, so the model records nothing for it.
- Exceptions thrown by code outside the core (I/O errors other than a missing file, runtime failures inside the SDK) and the catch blocks that only log them are left out. The modelled error paths are missing source, unparsable numbers, failed serialization and unknown classes.
- `isStartRequired` and `isEndRequired` are modelled as predicates that hold; they have no row because there is nothing to prove about a constant.
- `ConfigManager.getLogLevel` is private and never called, so it is not modelled.
- The regular expressions of `isMethodDeclaration` and `isAnotherMethodOrClassDeclaration` are written out as the sets of lines they accept. The method name is taken literally, which agrees with the source for every Java identifier, since identifiers hold no pattern metacharacters other than `$`. A name containing `$` is read as an end anchor by the source and literally by the model.
- Extraction.Boundary: `\b` counts only ASCII letters, digits and `_` as word characters, as `java.util.regex` does from Java 19 on. Up to Java 18, `\b` also counted every other Unicode letter or digit, so a method name next to a non-ASCII letter matches differently on those versions.
- `String.toLowerCase` is modelled for ASCII letters, the Kelvin sign and the dotted capital I. Other non-ASCII case mappings are left out; the lower-cased strings are only searched for ASCII words such as `exception`.
- The `SpanData` accessors that the enriched wrappers only delegate (span context, resource, instrumentation scope, links, status) are carried as one opaque `extras` value.
- EnhancedExporter.EnhancedExceptionSpanExporter.Export: states per span only that it is passed on unchanged or as a wrapper around the same span. The wrapper's events are stated by the per-span enrichment members.
- AutoConfig.GetDefaultProperties: states the key set, the traces exporter and the endpoint. The other values are stated by `GetProperties`.

## Findings

| source | as written | input that shows it | evidently intended | confidence | as-written member | corrected member |
|---|---|---|---|---|---|---|
| examples/extension/src/main/java/com/example/javaagent/codeextraction/CodeContextSpanProcessor.java:57-69 | the enhancement runs in `onEnd`, which the SDK calls on an already ended span, so strategy 1's `addEvent` and strategy 2's `setAttribute` are ignored while the attempt is still reported as a success | a writable span whose new exception event has a primary application frame with source lines, ended and then passed to `onEnd` | the span carries the `code.context.extracted` event and the `code.*` attributes afterwards | not executed | CodeContextProcessor.CodeContextSpanProcessor.OnEnd | CodeContextProcessor.CodeContextSpanProcessor.OnEnding |
