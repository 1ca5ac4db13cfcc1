/** ConfigManager: the OpenTelemetry properties the agent starts with,
    filled into one map by a fixed sequence of steps. The environment
    lookups, whose definitions are not part of this model, are inputs:
    each is a text or null. */
module Config {
  import opened Wrappers

  /** The lookups the steps make. `envConfig*` stand for
      `getEnvConfigValue(otelName, mwName)`, `mw*` for
      `EnvironmentConfig.get(EnvVar...)`. */
  datatype Environment = Environment(
    envConfigTarget: Option<string>,
    mwAgentService: Option<string>,
    mwTarget: Option<string>,
    envConfigPropagators: Option<string>,
    mwPropagators: Option<string>,
    gzipEnabled: bool,
    envConfigLogLevel: Option<string>,
    mwLogLevel: Option<string>)

  /** A `HashMap<String, String>`; a value may be null. */
  type Properties = map<string, Option<string>>

  predicate Given(v: Option<string>) {
    v.Some? && v.value != ""
  }

  /** The endpoint rule: an explicit target wins; otherwise an agent
      service other than `localhost` selects the `MW_TARGET` value, or the
      local default when that is unset; otherwise the empty text. */
  function EndpointFor(env: Environment): Option<string> {
    if Given(env.envConfigTarget) then env.envConfigTarget
    else if Given(env.mwAgentService) && env.mwAgentService.value != "localhost" then
      (if Given(env.mwTarget) then env.mwTarget else Some("http://localhost:9319"))
    else Some("")
  }

  /** The first of two lookups that gives a non-empty text, else the second. */
  function FirstGiven(first: Option<string>, second: Option<string>): (r: Option<string>)
    ensures Given(first) ==> r == first
    ensures !Given(first) ==> r == second
  {
    if Given(first) then first else second
  }

  /** `configureEndpoint`. The `"http://" + service + ":9319"` value it
      computes first is always overwritten by the `MW_TARGET` lookup. */
  method ConfigureEndpoint(properties: Properties, env: Environment) returns (r: Properties)
    ensures r == properties["otel.exporter.otlp.endpoint" := EndpointFor(env)]
  {
    var endpoint: Option<string> := Some("");
    if Given(env.envConfigTarget) {
      endpoint := env.envConfigTarget;
    } else if env.mwAgentService.Some? && env.mwAgentService.value != ""
      && env.mwAgentService.value != "localhost"
    {
      endpoint := Some("http://" + env.mwAgentService.value + ":9319");
      endpoint := env.mwTarget;
      if endpoint.None? || endpoint.value == "" {
        endpoint := Some("http://localhost:9319");
      }
    }
    r := properties["otel.exporter.otlp.endpoint" := endpoint];
  }

  /** `configurePropagators`: the key is always put, possibly with null. */
  method ConfigurePropagators(properties: Properties, env: Environment) returns (r: Properties)
    ensures r == properties["otel.propagators" := FirstGiven(env.envConfigPropagators, env.mwPropagators)]
  {
    var propagators := env.envConfigPropagators;
    if propagators.None? || propagators.value == "" {
      propagators := env.mwPropagators;
    }
    r := properties["otel.propagators" := propagators];
  }

  /** `configureExporters`: three fixed values. */
  method ConfigureExporters(properties: Properties) returns (r: Properties)
    ensures r == properties["otel.metrics.exporter" := Some("otlp")]["otel.logs.exporter" := Some("otlp")]
                           ["otel.exporter.otlp.protocol" := Some("grpc")]
  {
    r := properties["otel.metrics.exporter" := Some("otlp")];
    r := r["otel.logs.exporter" := Some("otlp")];
    r := r["otel.exporter.otlp.protocol" := Some("grpc")];
  }

  /** `configureCompression`: gzip only when it is enabled. */
  method ConfigureCompression(properties: Properties, env: Environment) returns (r: Properties)
    ensures r == if env.gzipEnabled then properties["otel.exporter.otlp.compression" := Some("gzip")] else properties
  {
    r := properties;
    if env.gzipEnabled {
      r := r["otel.exporter.otlp.compression" := Some("gzip")];
    }
  }

  /** `configureLogLevel`: put only when the resolved level is non-empty. */
  method ConfigureLogLevel(properties: Properties, env: Environment) returns (r: Properties)
    ensures var level := FirstGiven(env.envConfigLogLevel, env.mwLogLevel);
      r == if Given(level) then properties["otel.log.level" := level] else properties
  {
    var logLevel := env.envConfigLogLevel;
    if logLevel.None? || logLevel.value == "" {
      logLevel := env.mwLogLevel;
    }
    r := properties;
    if logLevel.Some? && logLevel.value != "" {
      r := r["otel.log.level" := logLevel];
    }
  }

  method ConfigureAdditionalProperties(properties: Properties) returns (r: Properties)
    ensures r == properties["otel.instrumentation.runtime-telemetry-java17.enable-all" := Some("true")]
  {
    r := properties["otel.instrumentation.runtime-telemetry-java17.enable-all" := Some("true")];
  }

  /** The keys `getProperties` always puts. */
  const AlwaysPut: set<string> := {
    "otel.exporter.otlp.endpoint", "otel.propagators", "otel.metrics.exporter",
    "otel.logs.exporter", "otel.exporter.otlp.protocol",
    "otel.instrumentation.runtime-telemetry-java17.enable-all"}

  /** The map the six steps of `getProperties` build, in order, from an
      empty one. */
  function DefaultProperties(env: Environment): Properties {
    var level := FirstGiven(env.envConfigLogLevel, env.mwLogLevel);
    var exporters := map[]["otel.exporter.otlp.endpoint" := EndpointFor(env)]
      ["otel.propagators" := FirstGiven(env.envConfigPropagators, env.mwPropagators)]
      ["otel.metrics.exporter" := Some("otlp")]["otel.logs.exporter" := Some("otlp")]
      ["otel.exporter.otlp.protocol" := Some("grpc")];
    var compressed := if env.gzipEnabled then exporters["otel.exporter.otlp.compression" := Some("gzip")] else exporters;
    var levelled := if Given(level) then compressed["otel.log.level" := level] else compressed;
    levelled["otel.instrumentation.runtime-telemetry-java17.enable-all" := Some("true")]
  }

  /** `getProperties`: the six steps in order on one empty map. */
  method GetProperties(env: Environment) returns (properties: Properties)
    ensures properties == DefaultProperties(env)
  {
    properties := map[];
    properties := ConfigureEndpoint(properties, env);
    properties := ConfigurePropagators(properties, env);
    properties := ConfigureExporters(properties);
    properties := ConfigureCompression(properties, env);
    properties := ConfigureLogLevel(properties, env);
    properties := ConfigureAdditionalProperties(properties);
  }

  /** The map holds exactly the always-put keys, the compression key when
      gzip is enabled and the log level when one resolves. */
  lemma DefaultPropertyKeys(env: Environment)
    ensures DefaultProperties(env).Keys == AlwaysPut
      + (if env.gzipEnabled then {"otel.exporter.otlp.compression"} else {})
      + (if Given(FirstGiven(env.envConfigLogLevel, env.mwLogLevel)) then {"otel.log.level"} else {})
  {
  }

  /** The values the rules give: no later step overwrites an earlier one. */
  lemma DefaultPropertyValues(env: Environment)
    ensures var properties := DefaultProperties(env);
      && properties["otel.exporter.otlp.endpoint"] == EndpointFor(env)
      && properties["otel.propagators"] == FirstGiven(env.envConfigPropagators, env.mwPropagators)
      && properties["otel.metrics.exporter"] == Some("otlp") && properties["otel.logs.exporter"] == Some("otlp")
      && properties["otel.exporter.otlp.protocol"] == Some("grpc")
      && (env.gzipEnabled ==> properties["otel.exporter.otlp.compression"] == Some("gzip"))
      && (Given(FirstGiven(env.envConfigLogLevel, env.mwLogLevel)) ==>
            properties["otel.log.level"] == FirstGiven(env.envConfigLogLevel, env.mwLogLevel))
      && properties["otel.instrumentation.runtime-telemetry-java17.enable-all"] == Some("true")
  {
  }

  /** The endpoint is never null, and an agent service that is `localhost`,
      unset or empty gives no endpoint unless a target is configured. */
  lemma EndpointCases(env: Environment)
    ensures EndpointFor(env).Some?
    ensures !Given(env.envConfigTarget) && !(Given(env.mwAgentService) && env.mwAgentService.value != "localhost")
      ==> EndpointFor(env) == Some("")
    ensures !Given(env.envConfigTarget) && Given(env.mwAgentService) && env.mwAgentService.value != "localhost"
      ==> Given(EndpointFor(env))
  {
  }
}
