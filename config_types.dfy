/**
 * The configuration records of the engine package, as a JSON decoder leaves them
 * (ComponentConfig and RetryConfig from engine/component.go, LayerConfig and the
 * execution modes from engine/layer.go, Config from engine/config.go).
 * Durations are Go time.Duration values, i.e. whole nanoseconds.
 */
module ConfigTypes {
  import opened Wrappers

  /** A value of a free-form map (Go interface{}); Null is the nil interface. */
  datatype Value = Null | Str(s: string) | Num(n: int) | Flag(b: bool) | Other(repr: string)

  const SerialMode: string := "serial"
  const ParallelMode: string := "parallel"
  const AsyncMode: string := "async"

  /** The three modes a layer may run in. */
  predicate IsValidMode(mode: string) {
    mode == SerialMode || mode == ParallelMode || mode == AsyncMode
  }

  /** One second, in nanoseconds. */
  const Second: int := 1_000_000_000

  /** Retry policy; Backoff is a float64 in the source and a real here. */
  datatype RetryConfig = RetryConfig(maxRetries: int, delay: int, backoff: real)

  datatype ComponentConfig = ComponentConfig(
    name: string,
    typeName: string,
    config: map<string, Value>,
    dependencies: seq<string>,
    timeout: int,
    retry: Option<RetryConfig>,
    critical: bool,
    enabled: bool)

  datatype LayerConfig = LayerConfig(
    name: string,
    mode: string,
    components: seq<ComponentConfig>,
    timeout: int,
    dependencies: seq<string>,
    enabled: bool,
    parallel: int,
    remove: bool)

  datatype Config = Config(
    name: string,
    version: string,
    description: string,
    layers: seq<LayerConfig>,
    global: map<string, Value>,
    timeout: int,
    metadata: map<string, string>)
}
