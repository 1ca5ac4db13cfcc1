/** The OpenTelemetry SDK data the extension reads and builds: attribute
    lists, span events, exported spans and their two decorators, and the
    downstream exporter the extension's exporters delegate to.

    Attributes are kept as the sequence of `put` calls that built them, in
    order. What the SDK's `Attributes` holds is read off that log as its
    builder does it: a put with a null value or an empty key is dropped,
    and a later put under a key name replaces an earlier one, whatever the
    types of the two values. */
module Telemetry {
  import opened Wrappers
  import opened Text

  datatype AttrValue =
    | Str(text: string)
    | Long(number: int)
    | Double(fraction: real)
    | Bool(flag: bool)
    /** `put(key, (String) null)`. */
    | NullStr
    /** Array-valued attributes, which the exporters never copy. */
    | Other(description: string)

  datatype Attr = Attr(key: string, value: AttrValue)

  type AttrList = seq<Attr>

  /** A put the builder keeps: a non-empty key and a value that is not null. */
  predicate Kept(a: Attr) {
    a.key != "" && !a.value.NullStr?
  }

  /** The value the built `Attributes` holds under the key name `key`: that
      of the last kept put under it, or none. */
  function Lookup(attrs: AttrList, key: string): Option<AttrValue> {
    if |attrs| == 0 then None
    else
      var last := attrs[|attrs| - 1];
      if last.key == key && Kept(last) then Some(last.value)
      else Lookup(attrs[..|attrs| - 1], key)
  }

  /** `attributes.get(AttributeKey.stringKey(key))`: the value held under
      `key` when it is a string, otherwise null. */
  function GetString(attrs: AttrList, key: string): Option<string> {
    if |attrs| == 0 then None
    else
      var last := attrs[|attrs| - 1];
      if last.key == key && Kept(last) then (if last.value.Str? then Some(last.value.text) else None)
      else GetString(attrs[..|attrs| - 1], key)
  }

  /** One more put: it decides the read when it is kept under `key`. */
  lemma GetStringSnoc(attrs: AttrList, a: Attr, key: string)
    ensures GetString(attrs + [a], key)
         == if a.key == key && Kept(a) then (if a.value.Str? then Some(a.value.text) else None)
            else GetString(attrs, key)
  {
    assert (attrs + [a])[..|attrs|] == attrs;
  }

  /** A string is read under `key` exactly when some put of that string
      under `key` is kept and no kept put under `key` comes after it. */
  lemma {:induction false} GetStringSpec(attrs: AttrList, key: string, text: string)
    ensures GetString(attrs, key) == Some(text) <==>
      exists k :: 0 <= k < |attrs| && attrs[k] == Attr(key, Str(text)) && key != ""
        && forall j :: k < j < |attrs| ==> !(attrs[j].key == key && Kept(attrs[j]))
  {
    if |attrs| > 0 {
      var n := |attrs| - 1;
      var init := attrs[..n];
      GetStringSpec(init, key, text);
      assert forall k :: 0 <= k < n ==> init[k] == attrs[k];
      if GetString(attrs, key) == Some(text) && !(attrs[n].key == key && Kept(attrs[n])) {
        var k :| 0 <= k < n && init[k] == Attr(key, Str(text)) && key != ""
          && forall j :: k < j < n ==> !(init[j].key == key && Kept(init[j]));
        assert forall j :: k < j < |attrs| ==> !(attrs[j].key == key && Kept(attrs[j]));
      }
    }
  }

  /** The key names the built `Attributes` holds. */
  function KeySet(attrs: AttrList): set<string> {
    if |attrs| == 0 then {}
    else
      var last := attrs[|attrs| - 1];
      KeySet(attrs[..|attrs| - 1]) + (if Kept(last) then {last.key} else {})
  }

  /** `Attributes.size()`: the number of key names held. */
  function AttrCount(attrs: AttrList): nat {
    |KeySet(attrs)|
  }

  /** A key name is held exactly when some put under it is kept, and then
      the lookup finds a value. */
  lemma {:induction false} KeySetSpec(attrs: AttrList, key: string)
    ensures key in KeySet(attrs) <==> exists k :: 0 <= k < |attrs| && attrs[k].key == key && Kept(attrs[k])
    ensures key in KeySet(attrs) <==> Lookup(attrs, key).Some?
  {
    if |attrs| > 0 {
      var init := attrs[..|attrs| - 1];
      KeySetSpec(init, key);
      assert forall k :: 0 <= k < |init| ==> init[k] == attrs[k];
    }
  }

  lemma KeySetSnoc(attrs: AttrList, a: Attr)
    ensures KeySet(attrs + [a]) == KeySet(attrs) + (if Kept(a) then {a.key} else {})
  {
    assert (attrs + [a])[..|attrs|] == attrs;
  }

  lemma {:induction false} KeySetAppend(a: AttrList, b: AttrList)
    ensures KeySet(a + b) == KeySet(a) + KeySet(b)
    decreases |b|
  {
    if |b| == 0 {
      assert a + b == a;
    } else {
      var init := b[..|b| - 1];
      assert (a + b)[..|a + b| - 1] == a + init;
      assert (a + b)[|a + b| - 1] == b[|b| - 1];
      KeySetAppend(a, init);
    }
  }

  /** No two puts under the same key name. */
  predicate DistinctKeys(attrs: AttrList) {
    forall i, j :: 0 <= i < j < |attrs| ==> attrs[i].key != attrs[j].key
  }

  /** The size is at most the number of puts, and equal to it when every
      put is kept under a key name of its own. */
  lemma {:induction false} AttrCountBound(attrs: AttrList)
    ensures AttrCount(attrs) <= |attrs|
    ensures (DistinctKeys(attrs) && forall k :: 0 <= k < |attrs| ==> Kept(attrs[k])) ==> AttrCount(attrs) == |attrs|
  {
    if |attrs| > 0 {
      var n := |attrs| - 1;
      var init := attrs[..n];
      AttrCountBound(init);
      if DistinctKeys(attrs) && forall k :: 0 <= k < |attrs| ==> Kept(attrs[k]) {
        assert DistinctKeys(init);
        KeySetSpec(init, attrs[n].key);
        assert attrs[n].key !in KeySet(init);
      }
    }
  }

  /** Appending puts never removes a key name, and adds at most one per
      put; exactly one per put when they are kept, under new key names of
      their own. */
  lemma AttrCountAppend(a: AttrList, b: AttrList)
    ensures AttrCount(a) <= AttrCount(a + b) <= AttrCount(a) + |b|
    ensures (DistinctKeys(b) && (forall k :: 0 <= k < |b| ==> Kept(b[k]))
             && (forall k :: 0 <= k < |b| ==> Lookup(a, b[k].key).None?))
            ==> AttrCount(a + b) == AttrCount(a) + |b|
  {
    KeySetAppend(a, b);
    AttrCountBound(b);
    var sa, sb := KeySet(a), KeySet(b);
    assert sa <= sa + sb;
    SubsetCard(sa, sa + sb);
    assert |sa + sb| + |sa * sb| == |sa| + |sb|;
    if DistinctKeys(b) && (forall k :: 0 <= k < |b| ==> Kept(b[k]))
       && (forall k :: 0 <= k < |b| ==> Lookup(a, b[k].key).None?) {
      forall x | x in sb ensures x !in sa {
        KeySetSpec(b, x);
        var k :| 0 <= k < |b| && b[k].key == x && Kept(b[k]);
        KeySetSpec(a, x);
      }
      assert sa * sb == {};
    }
  }

  lemma SubsetCard<T>(a: set<T>, b: set<T>)
    requires a <= b
    ensures |a| <= |b|
  {
    assert b == a + (b - a);
  }

  /** `EventData`: name, timestamp, attributes and the attribute count it
      reports. */
  datatype Event = Event(name: string, epochNanos: int, attributes: AttrList, totalAttributeCount: int)

  /** `EnrichedEventData`: the attribute count is `attributes.size()`, the
      number of key names held, never more than the number of puts. */
  function EnrichedEventData(name: string, epochNanos: int, attributes: AttrList): (e: Event)
    ensures e.name == name && e.epochNanos == epochNanos && e.attributes == attributes
    ensures e.totalAttributeCount == AttrCount(attributes)
  {
    Event(name, epochNanos, attributes, AttrCount(attributes))
  }

  /** The event test used by every exporter and by the span processor: the
      lower-cased name contains "exception" or "error", or the event carries
      a string `exception.type`. */
  predicate IsExceptionEvent(e: Event) {
    Contains(ToLower(e.name), "exception")
      || Contains(ToLower(e.name), "error")
      || GetString(e.attributes, "exception.type").Some?
  }

  datatype StatusCode = Unset | Ok | Error

  /** The `SpanData` accessors the extension never inspects: kind, span and
      parent contexts, resource, scope and library info, links, start and
      end times, and whether the span has ended. */
  datatype SpanExtras = SpanExtras(
    kind: string, spanContext: string, parentSpanContext: string, resource: string,
    scope: string, links: seq<string>, startEpochNanos: int, endEpochNanos: int,
    hasEnded: bool, totalRecordedLinks: int)

  /** An exported span. `Recorded` is a span as the SDK hands it over;
      `handle` tells two such objects apart. The other two variants are the
      decorators the exporters create around another span. */
  datatype Span =
    | Recorded(handle: nat, spanName: string, spanStatus: StatusCode, spanAttributes: AttrList,
               spanEvents: seq<Event>, totalEvents: int, totalAttributes: int, extras: SpanExtras)
      /** `EnrichedSpanData` of EnhancedExceptionSpanExporter: replaces the
          events, delegates everything else. */
    | EventsOverride(original: Span, enrichedEvents: seq<Event>)
      /** `EnrichedSpanData` of CodeContextSpanExporter: replaces both the
          events and the attributes. */
    | ContextOverride(base: Span, overrideEvents: seq<Event>, overrideAttributes: AttrList)
  {
    function Name(): string {
      match this
      case Recorded(_, n, _, _, _, _, _, _) => n
      case EventsOverride(o, _) => o.Name()
      case ContextOverride(o, _, _) => o.Name()
    }

    function Status(): StatusCode {
      match this
      case Recorded(_, _, s, _, _, _, _, _) => s
      case EventsOverride(o, _) => o.Status()
      case ContextOverride(o, _, _) => o.Status()
    }

    function Attributes(): AttrList {
      match this
      case Recorded(_, _, _, a, _, _, _, _) => a
      case EventsOverride(o, _) => o.Attributes()
      case ContextOverride(_, _, a) => a
    }

    function Events(): seq<Event> {
      match this
      case Recorded(_, _, _, _, es, _, _, _) => es
      case EventsOverride(_, es) => es
      case ContextOverride(_, es, _) => es
    }

    function TotalRecordedEvents(): int {
      match this
      case Recorded(_, _, _, _, _, n, _, _) => n
      case EventsOverride(_, es) => |es|
      case ContextOverride(_, es, _) => |es|
    }

    function TotalAttributeCount(): int {
      match this
      case Recorded(_, _, _, _, _, _, n, _) => n
      case EventsOverride(o, _) => o.TotalAttributeCount()
      case ContextOverride(_, _, a) => AttrCount(a)
    }

    function Extras(): SpanExtras {
      match this
      case Recorded(_, _, _, _, _, _, _, x) => x
      case EventsOverride(o, _) => o.Extras()
      case ContextOverride(o, _, _) => o.Extras()
    }
  }

  /** The events wrapper of EnhancedExceptionSpanExporter answers every
      accessor but the events and the event count from the wrapped span. */
  lemma EventsOverrideDelegates(original: Span, events: seq<Event>)
    ensures EventsOverride(original, events).Events() == events
    ensures EventsOverride(original, events).TotalRecordedEvents() == |events|
    ensures var w := EventsOverride(original, events);
      w.Name() == original.Name() && w.Status() == original.Status()
      && w.Attributes() == original.Attributes()
      && w.TotalAttributeCount() == original.TotalAttributeCount()
      && w.Extras() == original.Extras()
  {
  }

  datatype ResultCode = Success | Failure

  /** The exporter further down the pipeline. It records every batch it is
      given; the outcome of each call is an input of the model. */
  class DelegateExporter {
    var exported: seq<seq<Span>>
    var flushes: nat
    var shutdowns: nat
    const exportOutcome: seq<Span> -> ResultCode
    const flushOutcome: ResultCode
    const shutdownOutcome: ResultCode

    constructor (exportOutcome: seq<Span> -> ResultCode, flushOutcome: ResultCode, shutdownOutcome: ResultCode)
      ensures this.exportOutcome == exportOutcome && this.flushOutcome == flushOutcome
      ensures this.shutdownOutcome == shutdownOutcome
      ensures exported == [] && flushes == 0 && shutdowns == 0
    {
      this.exportOutcome := exportOutcome;
      this.flushOutcome := flushOutcome;
      this.shutdownOutcome := shutdownOutcome;
      exported := [];
      flushes := 0;
      shutdowns := 0;
    }

    method Export(batch: seq<Span>) returns (r: ResultCode)
      modifies this
      ensures exported == old(exported) + [batch]
      ensures flushes == old(flushes) && shutdowns == old(shutdowns)
      ensures r == exportOutcome(batch)
    {
      exported := exported + [batch];
      r := exportOutcome(batch);
    }

    method Flush() returns (r: ResultCode)
      modifies this
      ensures flushes == old(flushes) + 1
      ensures exported == old(exported) && shutdowns == old(shutdowns)
      ensures r == flushOutcome
    {
      flushes := flushes + 1;
      r := flushOutcome;
    }

    method Shutdown() returns (r: ResultCode)
      modifies this
      ensures shutdowns == old(shutdowns) + 1
      ensures exported == old(exported) && flushes == old(flushes)
      ensures r == shutdownOutcome
    {
      shutdowns := shutdowns + 1;
      r := shutdownOutcome;
    }
  }
}
