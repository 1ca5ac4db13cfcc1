/** DemoAutoConfigurationCustomizerProvider: how the agent extension sets
    up the SDK — the resource attributes every signal carries, the parser
    of `key=value` attribute lists, the span-exporter wrapping, and the
    default properties. Environment lookups and Git detection are inputs. */
module AutoConfig {
  import opened Wrappers
  import opened Text
  import opened Telemetry
  import opened Config
  import opened VcsUtils
  import opened Classifier
  import opened EnhancedExporter
  import Sequences

  // ---------------------------------------------------------------------
  // parseResourceAttributes

  /** One `key=value` pair: kept only when splitting at `=` (trailing empty
      fields dropped) gives exactly two fields, which are then trimmed. */
  function ParsePair(pair: string): Option<Attr> {
    var keyValue := Split(pair, '=');
    if |keyValue| == 2 then Some(Attr(Trim(keyValue[0]), Str(Trim(keyValue[1])))) else None
  }

  function ParsedPairs(pairs: seq<string>): AttrList {
    if |pairs| == 0 then []
    else
      var a := ParsePair(pairs[|pairs| - 1]);
      ParsedPairs(pairs[..|pairs| - 1]) + (if a.Some? then [a.value] else [])
  }

  /** What `parseResourceAttributes` puts: nothing for a null or empty
      text, otherwise the kept pairs in the order they are written. */
  function ResourceAttributes(attributesString: Option<string>): AttrList {
    if attributesString.None? || attributesString.value == "" then []
    else ParsedPairs(Split(attributesString.value, ','))
  }

  method ParseResourceAttributes(attributesString: Option<string>) returns (attrs: AttrList)
    ensures attrs == ResourceAttributes(attributesString)
    ensures forall k :: 0 <= k < |attrs| ==>
      attrs[k].value.Str? && '=' !in attrs[k].key && ',' !in attrs[k].key
      && '=' !in attrs[k].value.text && ',' !in attrs[k].value.text
  {
    attrs := [];
    if attributesString.None? || attributesString.value == "" {
      return;
    }
    var pairs := Split(attributesString.value, ',');
    SplitHasNo(attributesString.value, ',');
    var i := 0;
    while i < |pairs|
      invariant 0 <= i <= |pairs|
      invariant attrs == ParsedPairs(pairs[..i])
      invariant forall k :: 0 <= k < |attrs| ==>
        attrs[k].value.Str? && '=' !in attrs[k].key && ',' !in attrs[k].key
        && '=' !in attrs[k].value.text && ',' !in attrs[k].value.text
    {
      assert pairs[..i + 1][..i] == pairs[..i];
      var a := ParsePair(pairs[i]);
      if a.Some? {
        PairHasNo(pairs[i]);
        attrs := attrs + [a.value];
      }
      i := i + 1;
    }
    assert pairs[..|pairs|] == pairs;
  }

  /** No field of a split holds the separator. */
  lemma SplitHasNo(s: string, c: char)
    ensures forall k :: 0 <= k < |Split(s, c)| ==> c !in Split(s, c)[k]
  {
    if c in s {
      SplitFieldsHaveNo(s, c);
      var fields := SplitFields(s, c);
      var kept := DropTrailingEmpty(fields);
      assert forall k :: 0 <= k < |kept| ==> kept[k] == fields[k];
    }
  }

  /** A kept pair's key and value hold neither `=` nor whatever its text
      does not hold. */
  lemma PairHasNo(pair: string)
    requires ParsePair(pair).Some? && ',' !in pair
    ensures var a := ParsePair(pair).value;
      a.value.Str? && '=' !in a.key && ',' !in a.key && '=' !in a.value.text && ',' !in a.value.text
  {
    var keyValue := Split(pair, '=');
    SplitHasNo(pair, '=');
    SplitFieldsFrom(pair, '=');
    TrimChars(keyValue[0]);
    TrimChars(keyValue[1]);
  }

  /** Every character of a field comes from the text. */
  lemma SplitFieldsFrom(s: string, c: char)
    ensures forall k, j :: 0 <= k < |Split(s, c)| && 0 <= j < |Split(s, c)[k]| ==> Split(s, c)[k][j] in s
  {
    if c in s {
      SplitFieldsChars(s, c);
      var fields := SplitFields(s, c);
      var kept := DropTrailingEmpty(fields);
      assert forall k :: 0 <= k < |kept| ==> kept[k] == fields[k];
    }
  }

  lemma {:induction false} SplitFieldsChars(s: string, c: char)
    ensures forall k, j :: 0 <= k < |SplitFields(s, c)| && 0 <= j < |SplitFields(s, c)[k]| ==> SplitFields(s, c)[k][j] in s
    decreases |s|
  {
    var i := IndexOfChar(s, c);
    if i >= 0 {
      var tail := s[i + 1..];
      SplitFieldsChars(tail, c);
      var rest := SplitFields(tail, c);
      var fields := SplitFields(s, c);
      assert fields == [s[..i]] + rest;
      forall k, j | 0 <= k < |fields| && 0 <= j < |fields[k]|
        ensures fields[k][j] in s
      {
        if k == 0 {
          assert fields[k][j] == s[j];
        } else {
          assert fields[k] == rest[k - 1];
          SuffixCharIn(s, i + 1, rest[k - 1][j]);
        }
      }
    }
  }

  /** A character of a suffix is a character of the text. */
  lemma SuffixCharIn(s: string, from: nat, x: char)
    requires from <= |s| && x in s[from..]
    ensures x in s
  {
    var m :| 0 <= m < |s[from..]| && s[from..][m] == x;
    assert s[from + m] == x;
  }

  /** A pair `key=value` whose parts hold no `=` and whose value is not
      empty gives the trimmed key and value. */
  lemma PairParses(key: string, value: string)
    requires '=' !in key && '=' !in value && value != ""
    ensures ParsePair(key + "=" + value) == Some(Attr(Trim(key), Str(Trim(value))))
  {
    var pair := key + "=" + value;
    SplitTwo(key, value, '=');
    assert '=' in pair by { assert pair[|key|] == '='; }
  }

  /** A pair with a blank key is parsed, but the builder drops a put under
      an empty key, so the attributes hold nothing for it. */
  lemma BlankKeyNotHeld(key: string, value: string)
    requires '=' !in key && '=' !in value && value != ""
    requires forall k :: 0 <= k < |key| ==> IsTrimmable(key[k])
    ensures ParsePair(key + "=" + value).Some?
    ensures !Kept(ParsePair(key + "=" + value).value)
  {
    PairParses(key, value);
    TrimSpec(key);
  }

  /** With nothing after `=` the split has one field, and the pair is
      dropped. */
  lemma EmptyValueDropped(key: string)
    requires '=' !in key
    ensures ParsePair(key + "=") == None
  {
    var pair := key + "=";
    SplitTwo(key, "", '=');
    assert pair + "" == pair;
    assert '=' in pair by { assert pair[|key|] == '='; }
  }

  /** A trailing `=` after the value is dropped with the empty field after
      it, so `key=value=` still counts as a pair. */
  lemma TrailingSeparatorIgnored(key: string, value: string)
    requires '=' !in key && '=' !in value && value != ""
    ensures ParsePair(key + "=" + value + "=") == Some(Attr(Trim(key), Str(Trim(value))))
  {
    var pair := key + "=" + value;
    PairParses(key, value);
    assert '=' in pair by { assert pair[|key|] == '='; }
    SplitIgnoresTrailingSeparator(pair, '=');
    assert pair + ['='] == key + "=" + value + "=";
  }

  /** The first field of `a + [c] + rest` is `a` when `a` holds no `c`. */
  lemma SplitCons(a: string, rest: string, c: char)
    requires c !in a
    ensures SplitFields(a + [c] + rest, c) == [a] + SplitFields(rest, c)
  {
    var s := a + [c] + rest;
    assert s[|a|] == c;
    assert forall j :: 0 <= j < |a| ==> s[j] == a[j];
    assert IndexOfChar(s, c) == |a|;
    assert s[..|a|] == a;
    assert s[|a| + 1..] == rest;
  }

  /** The fields of `a + [c] + b` when neither part holds `c`. */
  lemma SplitTwo(a: string, b: string, c: char)
    requires c !in a && c !in b
    ensures SplitFields(a + [c] + b, c) == [a, b]
  {
    SplitCons(a, b, c);
  }

  // ---------------------------------------------------------------------
  // createCommonResource

  /** The lookups `createCommonResource` makes. */
  datatype ResourceEnv = ResourceEnv(
    apiKey: Option<string>,
    serviceName: Option<string>,
    otelResourceAttributes: Option<string>,
    mwCustomResourceAttribute: Option<string>,
    vcsCommitSha: Option<string>,
    vcsRepositoryUrl: Option<string>,
    repository: Option<GitRepository>)

  function StrOrNull(v: Option<string>): AttrValue {
    if v.Some? then Str(v.value) else NullStr
  }

  /** The four attributes the builder starts with. */
  function BaseAttributes(env: ResourceEnv): AttrList {
    [Attr("runtime.metrics.java", Str("true")), Attr("mw.app.lang", Str("java")),
     Attr("mw.account_key", StrOrNull(env.apiKey)), Attr("service.name", StrOrNull(env.serviceName))]
  }

  /** A VCS value from the environment wins; Git detection is used only
      when it is null or empty. */
  function VcsValue(fromEnvironment: Option<string>, detected: Option<string>): (r: Option<string>)
    ensures Given(fromEnvironment) ==> r == fromEnvironment
    ensures !Given(fromEnvironment) ==> r == detected
  {
    if fromEnvironment.None? || fromEnvironment.value == "" then detected else fromEnvironment
  }

  /** The attribute is put only for a non-empty final value. */
  function VcsAttribute(key: string, value: Option<string>): AttrList {
    if Given(value) then [Attr(key, Str(value.value))] else []
  }

  function VcsAttributes(env: ResourceEnv): AttrList {
    VcsAttribute("vcs.commit_sha", VcsValue(env.vcsCommitSha, CurrentCommitSha(env.repository)))
      + VcsAttribute("vcs.repository_url", VcsValue(env.vcsRepositoryUrl, RepositoryUrl(env.repository)))
  }

  /** `createCommonResource`: the base attributes, then those of
      `OTEL_RESOURCE_ATTRIBUTES`, then those of the custom attribute
      variable, then the VCS attributes, and the SDK language last. */
  method CreateCommonResource(env: ResourceEnv) returns (attrs: AttrList)
    ensures attrs == BaseAttributes(env) + ResourceAttributes(env.otelResourceAttributes)
      + ResourceAttributes(env.mwCustomResourceAttribute) + VcsAttributes(env)
      + [Attr("telemetry.sdk.language", Str("java"))]
  {
    attrs := BaseAttributes(env);
    var otelAttributes := ParseResourceAttributes(env.otelResourceAttributes);
    attrs := attrs + otelAttributes;
    var mwAttributes := ParseResourceAttributes(env.mwCustomResourceAttribute);
    attrs := attrs + mwAttributes;
    ghost var before := attrs;
    var commitShaValue := env.vcsCommitSha;
    if commitShaValue.None? || commitShaValue.value == "" {
      commitShaValue := CurrentCommitSha(env.repository);
    }
    attrs := PutVcsAttribute(attrs, "vcs.commit_sha", commitShaValue);
    var repoUrl := env.vcsRepositoryUrl;
    if repoUrl.None? || repoUrl.value == "" {
      repoUrl := RepositoryUrl(env.repository);
    }
    attrs := PutVcsAttribute(attrs, "vcs.repository_url", repoUrl);
    Sequences.Regroup(before, VcsAttribute("vcs.commit_sha", commitShaValue),
                      VcsAttribute("vcs.repository_url", repoUrl));
    attrs := attrs + [Attr("telemetry.sdk.language", Str("java"))];
  }

  /** The VCS attribute is put only when the value is given. */
  method PutVcsAttribute(attrs: AttrList, key: string, value: Option<string>) returns (out: AttrList)
    ensures out == attrs + VcsAttribute(key, value)
  {
    out := attrs;
    if value.Some? && value.value != "" {
      out := out + [Attr(key, Str(value.value))];
    }
  }

  /** Whatever the environment says, the SDK language reads `java`: it is
      put last. */
  lemma LanguageIsJava(attrs: AttrList)
    ensures GetString(attrs + [Attr("telemetry.sdk.language", Str("java"))], "telemetry.sdk.language") == Some("java")
  {
    GetStringSnoc(attrs, Attr("telemetry.sdk.language", Str("java")), "telemetry.sdk.language");
  }

  /** The commit attribute is present exactly when the environment or Git
      gives a non-empty commit, with the environment's value preferred. */
  lemma CommitShaAttribute(env: ResourceEnv)
    ensures var v := VcsValue(env.vcsCommitSha, CurrentCommitSha(env.repository));
      var vcs := VcsAttributes(env);
      (Given(v) <==> |vcs| > 0 && vcs[0].key == "vcs.commit_sha")
      && (Given(env.vcsCommitSha) ==> vcs[0] == Attr("vcs.commit_sha", Str(env.vcsCommitSha.value)))
  {
  }

  // ---------------------------------------------------------------------
  // customizeSpanExporter and getDefaultProperties

  /** The span exporter the SDK ends up using. */
  datatype SpanExporterChoice =
    | Plain(exporter: DelegateExporter)
    | Enhanced(wrapper: EnhancedExceptionSpanExporter)

  /** `customizeSpanExporter`: the exporter as it is when trace collection
      is off, otherwise a new enhanced exporter around it. */
  method CustomizeSpanExporter(spanExporter: DelegateExporter, collectTraces: bool,
                               resolve: string -> Resolution, search: SourceSearch,
                               extractExternal: bool, serialize: seq<StackDetail> -> Option<string>)
    returns (r: SpanExporterChoice)
    ensures !collectTraces ==> r == Plain(spanExporter)
    ensures collectTraces ==>
      (r.Enhanced? && fresh(r.wrapper) && r.wrapper.delegate == spanExporter
       && r.wrapper.sourceFileCache == map[] && r.wrapper.Valid())
  {
    if !collectTraces {
      return Plain(spanExporter);
    }
    var wrapper := new EnhancedExceptionSpanExporter(spanExporter, resolve, search, extractExternal, serialize);
    return Enhanced(wrapper);
  }

  /** `getDefaultProperties`: the configuration properties with the trace
      exporter set to `otlp`. */
  method GetDefaultProperties(env: Environment) returns (properties: Properties)
    ensures "otel.traces.exporter" in properties && properties["otel.traces.exporter"] == Some("otlp")
    ensures properties.Keys == AlwaysPut + {"otel.traces.exporter"}
      + (if env.gzipEnabled then {"otel.exporter.otlp.compression"} else {})
      + (if Given(FirstGiven(env.envConfigLogLevel, env.mwLogLevel)) then {"otel.log.level"} else {})
    ensures properties["otel.exporter.otlp.endpoint"] == EndpointFor(env)
  {
    properties := GetProperties(env);
    properties := properties["otel.traces.exporter" := Some("otlp")];
  }
}
