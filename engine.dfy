/**
 * engine/engine.go: the engine that owns the built layers, its construction, and the run
 * loop that executes the layers in order and keeps the statistics.
 *
 * What the run loop cannot see is an input: each layer's Execute result, whether the
 * context is done when a layer has finished, ctx.Err(), and the results of the middleware
 * hooks. Clocks, durations and logging are left out.
 */
module Engines {
  import opened Wrappers
  import opened ConfigTypes
  import opened Errors
  import opened Components
  import opened Layers
  import ConfigParser

  /** The hooks of one middleware that can stop a run: BeforeExecution, and BeforeLayer for layer i. */
  datatype Middleware = Middleware(beforeExecution: Option<Error>, beforeLayer: nat -> Option<Error>)

  /** The engine's ErrorHandler: the default one, or a custom HandleError(err, component, layer). */
  datatype ErrorHandler =
    | DefaultErrorHandler
    | CustomErrorHandler(handle: (Error, string, string) -> Option<Error>)

  /** HandleError; defaultErrorHandler returns nil. */
  function Handle(h: ErrorHandler, err: Error, component: string, layer: string): (r: Option<Error>)
    ensures h.DefaultErrorHandler? ==> r.None?
    ensures h.CustomErrorHandler? ==> r == h.handle(err, component, layer)
  {
    match h
    case DefaultErrorHandler => None
    case CustomErrorHandler(handle) => handle(err, component, layer)
  }

  /** EngineOption; the logger itself is not modelled. */
  datatype EngineOption =
    | WithLogger
    | WithErrorHandler(handler: ErrorHandler)
    | WithMiddleware(middleware: seq<Middleware>)

  /** The handler the options leave: the last WithErrorHandler, else the default. */
  function HandlerAfter(options: seq<EngineOption>, h: ErrorHandler): ErrorHandler {
    if |options| == 0 then h
    else if options[0].WithErrorHandler? then HandlerAfter(options[1..], options[0].handler)
    else HandlerAfter(options[1..], h)
  }

  /** The middleware the options leave: every WithMiddleware list, in option order. */
  function MiddlewareAfter(options: seq<EngineOption>, ms: seq<Middleware>): seq<Middleware> {
    if |options| == 0 then ms
    else if options[0].WithMiddleware? then MiddlewareAfter(options[1..], ms + options[0].middleware)
    else MiddlewareAfter(options[1..], ms)
  }

  datatype LayerStats = LayerStats(
    name: string,
    componentsTotal: int,
    componentsSuccess: int,
    componentsFailed: int,
    success: bool,
    error: Option<Error>)

  datatype ExecutionStats = ExecutionStats(
    layersTotal: int,
    layersSuccess: int,
    layersFailed: int,
    layerStats: map<string, LayerStats>,
    success: bool,
    error: Option<Error>)

  /** The outside world of one run: layer i's Execute result, whether the context is done
      when layer i has finished, and ctx.Err(). */
  datatype World = World(layerResult: nat -> Option<Error>, doneAfter: nat -> bool, ctxErr: Error)

  /** Everything one run depends on. */
  datatype Setup = Setup(layers: seq<Layer>, middleware: seq<Middleware>, handler: ErrorHandler, world: World)

  // ---------------------------------------------------------------------------
  // Building the layers

  /** The loop of NewEngine over the layer configurations: build, then validate, each layer. */
  function LayersBuilt(cs: seq<LayerConfig>, registry: ComponentRegistry): (r: Result<seq<Layer>, Error>)
    reads registry
    ensures r.Success? ==> |r.value| == |cs|
    ensures r.Failure? ==> r.error.Wrapped?
  {
    if |cs| == 0 then Success([])
    else
      match Built(cs[0].name, cs[0].components, registry)
      case Failure(err) => Failure(Wrapped("failed to create layer " + cs[0].name, err))
      case Success(components) =>
        var layer := Layer(cs[0], components);
        match Layers.Validate(layer)
        case Some(err) => Failure(Wrapped("layer validation failed for " + cs[0].name, err))
        case None =>
          match LayersBuilt(cs[1..], registry)
          case Failure(err) => Failure(err)
          case Success(rest) => Success([layer] + rest)
  }

  /** When every layer builds and validates, layer k is configuration k with its built components. */
  lemma {:induction false} LayersBuiltContents(cs: seq<LayerConfig>, registry: ComponentRegistry)
    requires LayersBuilt(cs, registry).Success?
    ensures var built := LayersBuilt(cs, registry).value;
            forall k :: 0 <= k < |cs| ==>
              && Built(cs[k].name, cs[k].components, registry).Success?
              && built[k] == Layer(cs[k], Built(cs[k].name, cs[k].components, registry).value)
              && Layers.Validate(built[k]).None?
  {
    if |cs| > 0 {
      LayersBuiltContents(cs[1..], registry);
      var built := LayersBuilt(cs, registry).value;
      assert forall k :: 0 < k < |cs| ==> built[k] == LayersBuilt(cs[1..], registry).value[k - 1] && cs[k] == cs[1..][k - 1];
    }
  }

  /** What stops NewEngine at layer configuration c: the build error or the validation error,
      wrapped with the layer's name; None when the layer builds and validates. */
  ghost function LayerFailure(c: LayerConfig, registry: ComponentRegistry): Option<Error>
    reads registry
  {
    match Built(c.name, c.components, registry)
    case Failure(err) => Some(Wrapped("failed to create layer " + c.name, err))
    case Success(components) =>
      match Layers.Validate(Layer(c, components))
      case Some(err) => Some(Wrapped("layer validation failed for " + c.name, err))
      case None => None
  }

  /** One turn of NewEngine's loop: it stops at the first layer's failure, or goes on with the rest. */
  lemma LayersBuiltHead(cs: seq<LayerConfig>, registry: ComponentRegistry)
    requires |cs| > 0
    ensures LayerFailure(cs[0], registry).Some? ==>
              LayersBuilt(cs, registry).Failure? && LayersBuilt(cs, registry).error == LayerFailure(cs[0], registry).value
    ensures LayerFailure(cs[0], registry).None? && LayersBuilt(cs[1..], registry).Failure? ==>
              LayersBuilt(cs, registry).Failure? && LayersBuilt(cs, registry).error == LayersBuilt(cs[1..], registry).error
  {
  }

  /** NewEngine fails with the error of the first layer that does not build or validate. */
  lemma {:induction false} LayersBuiltFailsAtFirst(cs: seq<LayerConfig>, registry: ComponentRegistry, k: nat)
    requires k < |cs| && LayerFailure(cs[k], registry).Some?
    requires forall j :: 0 <= j < k ==> LayerFailure(cs[j], registry).None?
    ensures LayersBuilt(cs, registry).Failure? && LayersBuilt(cs, registry).error == LayerFailure(cs[k], registry).value
    decreases |cs|, 1
  {
    LayersBuiltHead(cs, registry);
    if k > 0 {
      LayersBuiltFailsLater(cs, registry, k);
    }
  }

  /** The inductive step of LayersBuiltFailsAtFirst: the first layer builds, so the rest decides. */
  lemma {:induction false} LayersBuiltFailsLater(cs: seq<LayerConfig>, registry: ComponentRegistry, k: nat)
    requires 0 < k < |cs| && LayerFailure(cs[k], registry).Some?
    requires forall j :: 0 <= j < k ==> LayerFailure(cs[j], registry).None?
    ensures LayersBuilt(cs, registry).Failure? && LayersBuilt(cs, registry).error == LayerFailure(cs[k], registry).value
    decreases |cs|, 0
  {
    LayersBuiltFailsAtFirst(cs[1..], registry, k - 1);
    LayersBuiltHead(cs, registry);
  }

  /** `built` in front of what the rest of the loop produces. */
  function PrependLayers(built: seq<Layer>, r: Result<seq<Layer>, Error>): Result<seq<Layer>, Error> {
    match r
    case Failure(err) => Failure(err)
    case Success(rest) => Success(built + rest)
  }

  // ---------------------------------------------------------------------------
  // The run loop as a function of its inputs

  /** The BeforeExecution hooks in order: the first error. */
  function BeforeExecutionError(ms: seq<Middleware>): (r: Option<Error>)
    ensures r.None? <==> forall k :: 0 <= k < |ms| ==> ms[k].beforeExecution.None?
    ensures r.Some? ==> exists k :: 0 <= k < |ms| && r == ms[k].beforeExecution
                                    && forall j :: 0 <= j < k ==> ms[j].beforeExecution.None?
  {
    if |ms| == 0 then None
    else if ms[0].beforeExecution.Some? then ms[0].beforeExecution
    else
      var r := BeforeExecutionError(ms[1..]);
      assert r.Some? ==> exists k :: 0 < k < |ms| && r == ms[k].beforeExecution
                                     && forall j :: 0 <= j < k ==> ms[j].beforeExecution.None? by {
        if r.Some? {
          var k :| 0 <= k < |ms[1..]| && r == ms[1..][k].beforeExecution
                   && forall j :: 0 <= j < k ==> ms[1..][j].beforeExecution.None?;
          assert ms[k + 1] == ms[1..][k];
        }
      }
      r
  }

  /** The BeforeLayer hooks for layer i in order: the first error. */
  function BeforeLayerError(ms: seq<Middleware>, i: nat): (r: Option<Error>)
    ensures r.None? <==> forall k :: 0 <= k < |ms| ==> ms[k].beforeLayer(i).None?
    ensures r.Some? ==> exists k :: 0 <= k < |ms| && r == ms[k].beforeLayer(i)
                                    && forall j :: 0 <= j < k ==> ms[j].beforeLayer(i).None?
  {
    if |ms| == 0 then None
    else if ms[0].beforeLayer(i).Some? then ms[0].beforeLayer(i)
    else
      var r := BeforeLayerError(ms[1..], i);
      assert r.Some? ==> exists k :: 0 < k < |ms| && r == ms[k].beforeLayer(i)
                                     && forall j :: 0 <= j < k ==> ms[j].beforeLayer(i).None? by {
        if r.Some? {
          var k :| 0 <= k < |ms[1..]| && r == ms[1..][k].beforeLayer(i)
                   && forall j :: 0 <= j < k ==> ms[1..][j].beforeLayer(i).None?;
          assert ms[k + 1] == ms[1..][k];
        }
      }
      r
  }

  /** The loop variables: executionError, the two counters, the stats map, and the layers executed so far. */
  datatype Progress = Progress(
    err: Option<Error>,
    layersSuccess: nat,
    layersFailed: nat,
    layerStats: map<string, LayerStats>,
    executed: seq<nat>)

  const Initial := Progress(None, 0, 0, map[], [])

  /** One pass of the loop body, and whether it left the loop (a critical component error). */
  datatype StepResult = StepResult(progress: Progress, stop: bool)

  /** The tail of the loop body: ComponentsSuccess, the map entry, and the cancellation check. */
  function EndOfLayer(s: Setup, i: nat, p: Progress, ls: LayerStats): StepResult {
    var finished := ls.(componentsSuccess := ls.componentsTotal - ls.componentsFailed);
    StepResult(p.(layerStats := p.layerStats[ls.name := finished],
                  err := if s.world.doneAfter(i) then Some(s.world.ctxErr) else p.err),
               false)
  }

  /** The loop body for layer i. */
  function Step(s: Setup, i: nat, p: Progress): StepResult
    requires i < |s.layers|
  {
    var layer := s.layers[i];
    var name := layer.config.name;
    var initial := LayerStats(name, |layer.components|, 0, 0, false, None);
    var hook := BeforeLayerError(s.middleware, i);
    var ls := if hook.Some? then initial.(error := hook) else initial;
    var err := if hook.Some? then hook else p.err;
    if err.Some? then EndOfLayer(s, i, p.(err := err), ls)
    else
      var executed := p.executed + [i];
      match s.world.layerResult(i)
      case None =>
        EndOfLayer(s, i, p.(layersSuccess := p.layersSuccess + 1, executed := executed), ls.(success := true))
      case Some(e) =>
        var handled := Handle(s.handler, e, "", name);
        var failed := ls.(error := Some(e), success := false);
        var q := p.(err := if handled.Some? then handled else Some(e),
                    layersFailed := p.layersFailed + 1, executed := executed);
        if e.CriticalComponentError? then StepResult(q.(layerStats := p.layerStats[name := failed]), true)
        else EndOfLayer(s, i, q, failed)
  }

  /** The loop from layer i on. */
  function RunFrom(s: Setup, i: nat, p: Progress): Progress
    requires i <= |s.layers|
    decreases |s.layers| - i
  {
    if i == |s.layers| then p
    else
      var r := Step(s, i, p);
      if r.stop then r.progress else RunFrom(s, i + 1, r.progress)
  }

  /** The number of layers whose loop body ran: all of them, or up to the critical one. */
  function Reached(s: Setup, i: nat, p: Progress): (r: nat)
    requires i <= |s.layers|
    ensures i <= r <= |s.layers|
    decreases |s.layers| - i
  {
    if i == |s.layers| then i
    else
      var r := Step(s, i, p);
      if r.stop then i + 1 else Reached(s, i + 1, r.progress)
  }

  /** The statistics Execute returns when the loop has produced `p`. */
  function Finish(s: Setup, p: Progress): ExecutionStats {
    ExecutionStats(|s.layers|, p.layersSuccess, p.layersFailed, p.layerStats, p.err.None?, p.err)
  }

  // ---------------------------------------------------------------------------
  // The engine

  class Engine {
    var config: Config
    var layers: seq<Layer>
    var registry: ComponentRegistry
    var errorHandler: ErrorHandler
    var middleware: seq<Middleware>

    constructor(config: Config, registry: ComponentRegistry)
      ensures this.config == config && this.registry == registry
      ensures layers == [] && errorHandler == DefaultErrorHandler && middleware == []
    {
      this.config := config;
      this.registry := registry;
      layers := [];
      errorHandler := DefaultErrorHandler;
      middleware := [];
    }

    /** option(engine) */
    method Apply(option: EngineOption)
      modifies this
      ensures config == old(config) && registry == old(registry) && layers == old(layers)
      ensures errorHandler == (if option.WithErrorHandler? then option.handler else old(errorHandler))
      ensures middleware == (if option.WithMiddleware? then old(middleware) + option.middleware else old(middleware))
    {
      match option
      case WithLogger =>
      case WithErrorHandler(h) => errorHandler := h;
      case WithMiddleware(ms) => middleware := middleware + ms;
    }

    /** The loop of NewEngine over its options. */
    method ApplyAll(options: seq<EngineOption>)
      modifies this
      ensures config == old(config) && registry == old(registry) && layers == old(layers)
      ensures errorHandler == HandlerAfter(options, old(errorHandler))
      ensures middleware == MiddlewareAfter(options, old(middleware))
    {
      var k := 0;
      while k < |options|
        invariant 0 <= k <= |options|
        invariant config == old(config) && registry == old(registry) && layers == old(layers)
        invariant HandlerAfter(options, old(errorHandler)) == HandlerAfter(options[k..], errorHandler)
        invariant MiddlewareAfter(options, old(middleware)) == MiddlewareAfter(options[k..], middleware)
      {
        assert options[k..][1..] == options[k + 1..];
        Apply(options[k]);
        k := k + 1;
      }
    }

    /** NewEngine: the nil guards, then the options, then one built and validated layer per entry. */
    static method NewEngine(config: Option<Config>, registry: ComponentRegistry?, options: seq<EngineOption>)
      returns (engine: Engine?, err: Option<Error>)
      ensures config.None? ==> engine == null && err == Some(ConfigError("nil_config", "config cannot be nil", "", None))
      ensures config.Some? && registry == null ==>
                engine == null && err == Some(ConfigError("nil_registry", "component registry cannot be nil", "", None))
      ensures config.Some? && registry != null && LayersBuilt(config.value.layers, registry).Failure? ==>
                engine == null && err == Some(LayersBuilt(config.value.layers, registry).error)
      ensures config.Some? && registry != null && LayersBuilt(config.value.layers, registry).Success? ==>
                && err.None? && engine != null && fresh(engine)
                && engine.config == config.value && engine.registry == registry
                && engine.layers == LayersBuilt(config.value.layers, registry).value
                && engine.errorHandler == HandlerAfter(options, DefaultErrorHandler)
                && engine.middleware == MiddlewareAfter(options, [])
    {
      if config.None? {
        return null, Some(ConfigError("nil_config", "config cannot be nil", "", None));
      }
      if registry == null {
        return null, Some(ConfigError("nil_registry", "component registry cannot be nil", "", None));
      }
      var c := config.value;
      var e := new Engine(c, registry);
      e.ApplyAll(options);
      var built := BuildLayers(c.layers, registry);
      if built.Failure? {
        return null, Some(built.error);
      }
      e.layers := built.value;
      return e, None;
    }

    /** Execute: the BeforeExecution hooks, then the layer loop, then the totals. `executed`
        lists the layers whose Execute was called. */
    method Execute(world: World) returns (stats: ExecutionStats, err: Option<Error>, executed: seq<nat>)
      ensures stats.layersTotal == |layers|
      ensures BeforeExecutionError(middleware).None? ==> (stats.success <==> err.None?) && stats.error == err
      ensures var s := Setup(layers, middleware, errorHandler, world);
              && (BeforeExecutionError(middleware).Some? ==>
                    && err == Some(Wrapped("middleware before execution failed", BeforeExecutionError(middleware).value))
                    && stats == ExecutionStats(|layers|, 0, 0, map[], false, None)
                    && executed == [])
              && (BeforeExecutionError(middleware).None? ==>
                    && stats == Finish(s, RunFrom(s, 0, Initial))
                    && err == RunFrom(s, 0, Initial).err
                    && executed == RunFrom(s, 0, Initial).executed)
    {
      ghost var s := Setup(layers, middleware, errorHandler, world);
      stats := ExecutionStats(|layers|, 0, 0, map[], false, None);
      var m := 0;
      while m < |middleware|
        invariant 0 <= m <= |middleware|
        invariant forall k :: 0 <= k < m ==> middleware[k].beforeExecution.None?
      {
        if middleware[m].beforeExecution.Some? {
          return stats, Some(Wrapped("middleware before execution failed", middleware[m].beforeExecution.value)), [];
        }
        m := m + 1;
      }
      var executionError: Option<Error> := None;
      executed := [];
      var stopped := false;
      var i := 0;
      while i < |layers| && !stopped
        invariant 0 <= i <= |layers|
        invariant stats.layersTotal == |layers| && stats.layersSuccess >= 0 && stats.layersFailed >= 0
        invariant !stopped ==> (RunFrom(s, 0, Initial) ==
                    RunFrom(s, i, Progress(executionError, stats.layersSuccess, stats.layersFailed, stats.layerStats, executed)))
        invariant stopped ==> (RunFrom(s, 0, Initial) ==
                    Progress(executionError, stats.layersSuccess, stats.layersFailed, stats.layerStats, executed))
        decreases |layers| - i, if stopped then 0 else 1
      {
        var p := Progress(executionError, stats.layersSuccess, stats.layersFailed, stats.layerStats, executed);
        var step := ExecuteLayer(world, i, p);
        executionError, executed := step.progress.err, step.progress.executed;
        stats := stats.(layersSuccess := step.progress.layersSuccess, layersFailed := step.progress.layersFailed,
                        layerStats := step.progress.layerStats);
        stopped := step.stop;
        if !stopped {
          i := i + 1;
        }
      }
      stats := stats.(success := executionError.None?, error := executionError);
      return stats, executionError, executed;
    }

    /** The loop body of Execute for layer i, from the loop variables in `p`. */
    method ExecuteLayer(world: World, i: nat, p: Progress) returns (step: StepResult)
      requires i < |layers|
      ensures step == Step(Setup(layers, middleware, errorHandler, world), i, p)
    {
      var executionError := p.err;
      var layersSuccess, layersFailed, layerStatsMap, executed := p.layersSuccess, p.layersFailed, p.layerStats, p.executed;
      var layer := layers[i];
      var layerStats := LayerStats(layer.config.name, |layer.components|, 0, 0, false, None);
      var hookErr := RunBeforeLayer(i);
      if hookErr.Some? {
        layerStats := layerStats.(error := hookErr);
        executionError := hookErr;
      }
      if executionError.None? {
        executed := executed + [i];
        var result := world.layerResult(i);
        if result.Some? {
          layerStats := layerStats.(error := result, success := false);
          layersFailed := layersFailed + 1;
          executionError := result;
          var handled := Handle(errorHandler, result.value, "", layer.config.name);
          if handled.Some? {
            executionError := handled;
          }
          if result.value.CriticalComponentError? {
            layerStatsMap := layerStatsMap[layer.config.name := layerStats];
            return StepResult(Progress(executionError, layersSuccess, layersFailed, layerStatsMap, executed), true);
          }
        } else {
          layerStats := layerStats.(success := true);
          layersSuccess := layersSuccess + 1;
        }
      }
      layerStats := layerStats.(componentsSuccess := layerStats.componentsTotal - layerStats.componentsFailed);
      layerStatsMap := layerStatsMap[layer.config.name := layerStats];
      if world.doneAfter(i) {
        executionError := Some(world.ctxErr);
      }
      return StepResult(Progress(executionError, layersSuccess, layersFailed, layerStatsMap, executed), false);
    }

    /** The BeforeLayer hooks for layer i, stopping at the first error. */
    method RunBeforeLayer(i: nat) returns (hookErr: Option<Error>)
      ensures hookErr == BeforeLayerError(middleware, i)
    {
      var j := 0;
      while j < |middleware|
        invariant 0 <= j <= |middleware|
        invariant forall k :: 0 <= k < j ==> middleware[k].beforeLayer(i).None?
      {
        if middleware[j].beforeLayer(i).Some? {
          return middleware[j].beforeLayer(i);
        }
        j := j + 1;
      }
      return None;
    }

    /** GetLayer: the first layer with the name. */
    method GetLayer(name: string) returns (index: Option<nat>)
      ensures index.Some? ==> && index.value < |layers| && layers[index.value].config.name == name
                              && forall k :: 0 <= k < index.value ==> layers[k].config.name != name
      ensures index.None? ==> forall k :: 0 <= k < |layers| ==> layers[k].config.name != name
    {
      var i := 0;
      while i < |layers|
        invariant 0 <= i <= |layers|
        invariant forall k :: 0 <= k < i ==> layers[k].config.name != name
      {
        if layers[i].config.name == name {
          return Some(i);
        }
        i := i + 1;
      }
      return None;
    }

    /** Validate: the configuration rules first, then each layer's Validate in order. */
    method Validate() returns (err: Option<Error>)
      ensures ConfigParser.ValidateConfig(config).Some? ==> err == ConfigParser.ValidateConfig(config)
      ensures ConfigParser.ValidateConfig(config).None? ==>
                (err.None? <==> forall k :: 0 <= k < |layers| ==> Layers.Validate(layers[k]).None?)
      ensures ConfigParser.ValidateConfig(config).None? && err.Some? ==>
                exists k :: 0 <= k < |layers| && err == Layers.Validate(layers[k])
                            && forall j :: 0 <= j < k ==> Layers.Validate(layers[j]).None?
    {
      err := ConfigParser.ValidateConfig(config);
      if err.Some? {
        return;
      }
      var i := 0;
      while i < |layers|
        invariant 0 <= i <= |layers|
        invariant forall k :: 0 <= k < i ==> Layers.Validate(layers[k]).None?
      {
        var layerErr := Layers.Validate(layers[i]);
        if layerErr.Some? {
          return layerErr;
        }
        i := i + 1;
      }
      return None;
    }
  }

  // ---------------------------------------------------------------------------
  // What a run promises

  /** Layer i runs into nothing: no BeforeLayer error, Execute succeeds, and the context is not done after it. */
  ghost predicate Clean(s: Setup, i: nat) {
    BeforeLayerError(s.middleware, i).None? && s.world.layerResult(i).None? && !s.world.doneAfter(i)
  }

  /** What the loop variables satisfy once the body has run for the layers before i. */
  ghost predicate Consistent(s: Setup, i: nat, p: Progress) {
    && p.layersSuccess + p.layersFailed == |p.executed| <= i
    && p.layersFailed <= 1
    && (forall k :: 0 <= k < |p.executed| ==> p.executed[k] == k)
    && (p.err.None? <==> forall k :: 0 <= k < i ==> Clean(s, k))
    && (p.err.None? ==> |p.executed| == i && p.layersFailed == 0)
  }

  lemma StepConsistent(s: Setup, i: nat, p: Progress)
    requires i < |s.layers| && Consistent(s, i, p)
    ensures Consistent(s, i + 1, Step(s, i, p).progress)
  {
    var q := Step(s, i, p).progress;
    if p.err.Some? {
      assert !Clean(s, UncleanWitness(s, i, p));
    } else if BeforeLayerError(s.middleware, i).Some? {
      assert !Clean(s, i);
    } else {
      assert q.executed == p.executed + [i];
      if Clean(s, i) {
        assert q.err.None?;
      } else {
        assert q.err.Some?;
      }
    }
  }

  /** An index of a layer that was not clean, before i, when the error is set. */
  ghost function UncleanWitness(s: Setup, i: nat, p: Progress): (k: nat)
    requires Consistent(s, i, p) && p.err.Some?
    ensures k < i && !Clean(s, k)
  {
    var k :| 0 <= k < i && !Clean(s, k); k
  }

  lemma {:induction false} RunFromConsistent(s: Setup, i: nat, p: Progress)
    requires i <= |s.layers| && Consistent(s, i, p)
    ensures Consistent(s, |s.layers|, RunFrom(s, i, p))
    decreases |s.layers| - i
  {
    if i < |s.layers| {
      var r := Step(s, i, p);
      StepConsistent(s, i, p);
      if r.stop {
        var k := UncleanWitness(s, i + 1, r.progress);
      } else {
        RunFromConsistent(s, i + 1, r.progress);
      }
    }
  }

  /** Layer k's Execute is called: every earlier layer was clean and its own BeforeLayer hooks pass. */
  ghost predicate Runs(s: Setup, k: nat) {
    (forall j :: 0 <= j < k ==> Clean(s, j)) && BeforeLayerError(s.middleware, k).None?
  }

  /** Among the layers before i, exactly those that Runs picks out were executed. */
  ghost predicate RanExactly(s: Setup, i: nat, p: Progress) {
    |p.executed| <= i && forall k :: 0 <= k < i ==> (k < |p.executed| <==> Runs(s, k))
  }

  lemma StepRanExactly(s: Setup, i: nat, p: Progress)
    requires i < |s.layers| && Consistent(s, i, p) && RanExactly(s, i, p)
    ensures RanExactly(s, i + 1, Step(s, i, p).progress)
  {
    var q := Step(s, i, p).progress;
    if p.err.None? && BeforeLayerError(s.middleware, i).None? {
      assert q.executed == p.executed + [i];
      assert Runs(s, i);
    } else {
      assert q.executed == p.executed;
      if p.err.Some? {
        var k := UncleanWitness(s, i, p);
        assert !Runs(s, i);
      }
    }
  }

  lemma {:induction false} RunFromRanExactly(s: Setup, i: nat, p: Progress)
    requires i <= |s.layers| && Consistent(s, i, p) && RanExactly(s, i, p)
    ensures RanExactly(s, |s.layers|, RunFrom(s, i, p))
    decreases |s.layers| - i
  {
    if i < |s.layers| {
      var r := Step(s, i, p);
      StepRanExactly(s, i, p);
      StepConsistent(s, i, p);
      if r.stop {
        assert !Clean(s, i);
        forall k | i < k < |s.layers|
          ensures !Runs(s, k)
        {
          assert !Clean(s, i);
        }
      } else {
        RunFromRanExactly(s, i + 1, r.progress);
      }
    }
  }

  /** The run as a whole: layers 0, 1, ... are executed in order with no gaps, and layer k is
      executed exactly when every layer before it was clean and its own BeforeLayer hooks pass;
      at most one of them fails, every executed layer is counted once, and the run succeeds
      exactly when no layer hits a BeforeLayer error, a failed Execute or a done context. */
  lemma RunOutcome(s: Setup)
    ensures var r := RunFrom(s, 0, Initial);
            && (r.err.None? <==> forall k :: 0 <= k < |s.layers| ==> Clean(s, k))
            && (r.err.None? ==> r.layersSuccess == |s.layers| && r.layersFailed == 0)
            && r.layersSuccess + r.layersFailed == |r.executed| <= |s.layers|
            && r.layersFailed <= 1
            && (forall k :: 0 <= k < |r.executed| ==> r.executed[k] == k)
            && (forall k :: 0 <= k < |s.layers| ==> (k < |r.executed| <==> Runs(s, k)))
  {
    RunFromConsistent(s, 0, Initial);
    RunFromRanExactly(s, 0, Initial);
  }

  /** Every layer has its own name. */
  ghost predicate DistinctNames(layers: seq<Layer>) {
    forall j, k :: 0 <= j < k < |layers| ==> layers[j].config.name != layers[k].config.name
  }

  /** The statistics a layer ends with, by what happened to it: `ran` says whether its Execute was called. */
  function ExpectedStats(s: Setup, k: nat, ran: bool): (ls: LayerStats)
    requires k < |s.layers|
    ensures ls.componentsFailed == 0
    ensures ls.success <==> ran && s.world.layerResult(k).None?
  {
    var total := |s.layers[k].components|;
    var result := s.world.layerResult(k);
    var critical := ran && result.Some? && result.value.CriticalComponentError?;
    LayerStats(s.layers[k].config.name, total, if critical then 0 else total, 0,
               ran && result.None?, if ran then result else BeforeLayerError(s.middleware, k))
  }

  /** The stats map holds, for each layer before i, the entry its fate calls for, and nothing else. */
  ghost predicate Recorded(s: Setup, i: nat, p: Progress)
    requires i <= |s.layers|
  {
    && (forall k :: 0 <= k < i ==> s.layers[k].config.name in p.layerStats
                                   && p.layerStats[s.layers[k].config.name] == ExpectedStats(s, k, k < |p.executed|))
    && p.layerStats.Keys == LayerNamesBefore(s.layers, i)
  }

  /** The names of the first i layers. */
  function LayerNamesBefore(layers: seq<Layer>, i: nat): set<string>
    requires i <= |layers|
  {
    if i == 0 then {} else LayerNamesBefore(layers, i - 1) + {layers[i - 1].config.name}
  }

  lemma {:induction false} LayerNamesBeforeMembers(layers: seq<Layer>, i: nat)
    requires i <= |layers|
    ensures forall name :: name in LayerNamesBefore(layers, i) <==> exists k :: 0 <= k < i && layers[k].config.name == name
  {
    if i > 0 {
      LayerNamesBeforeMembers(layers, i - 1);
    }
  }

  lemma StepRecorded(s: Setup, i: nat, p: Progress)
    requires i < |s.layers| && DistinctNames(s.layers) && Aligned(i, p) && Recorded(s, i, p)
    ensures Recorded(s, i + 1, Step(s, i, p).progress)
  {
    var q := Step(s, i, p).progress;
    var name := s.layers[i].config.name;
    assert q.layerStats == p.layerStats[name := q.layerStats[name]];
    assert q.layerStats.Keys == p.layerStats.Keys + {name};
    assert |q.executed| == |p.executed| || (|p.executed| == i && q.executed == p.executed + [i]);
    assert q.layerStats[name] == ExpectedStats(s, i, i < |q.executed|);
    forall k | 0 <= k < i
      ensures s.layers[k].config.name in q.layerStats
      ensures q.layerStats[s.layers[k].config.name] == ExpectedStats(s, k, k < |q.executed|)
    {
      assert s.layers[k].config.name != name;
    }
  }

  lemma {:induction false} RunFromRecorded(s: Setup, i: nat, p: Progress)
    requires i <= |s.layers| && DistinctNames(s.layers) && Aligned(i, p) && Recorded(s, i, p)
    ensures Recorded(s, Reached(s, i, p), RunFrom(s, i, p))
    decreases |s.layers| - i
  {
    if i < |s.layers| {
      var r := Step(s, i, p);
      StepStops(s, i, p);
      StepRecorded(s, i, p);
      if !r.stop {
        RunFromRecorded(s, i + 1, r.progress);
      }
    }
  }

  /** The layers before i were executed up to the first one that met an error, and all of them while there is none. */
  ghost predicate Aligned(i: nat, p: Progress) {
    |p.executed| <= i && (p.err.None? ==> |p.executed| == i)
  }

  /** A layer whose Execute fails with a critical component error ends the loop; nothing else does. */
  lemma StepStops(s: Setup, i: nat, p: Progress)
    requires i < |s.layers| && Aligned(i, p)
    ensures var r := Step(s, i, p);
            && Aligned(i + 1, r.progress)
            && (r.stop ==> |r.progress.executed| == i + 1)
            && (r.stop <==> p.err.None? && BeforeLayerError(s.middleware, i).None? && s.world.layerResult(i).Some?
                            && s.world.layerResult(i).value.CriticalComponentError?)
  {
  }

  /** From a clean start at i, a layer k that runs and fails with a critical component error is the
      last one the loop reaches, and the last one executed. */
  lemma {:induction false} ReachedCritical(s: Setup, i: nat, p: Progress, k: nat)
    requires i <= k < |s.layers| && p.err.None? && |p.executed| == i
    requires (forall j :: i <= j < k ==> Clean(s, j)) && BeforeLayerError(s.middleware, k).None?
    requires s.world.layerResult(k).Some? && s.world.layerResult(k).value.CriticalComponentError?
    ensures Reached(s, i, p) == k + 1 == |RunFrom(s, i, p).executed|
    decreases k - i
  {
    var r := Step(s, i, p);
    StepStops(s, i, p);
    if i < k {
      assert Clean(s, i);
      assert !r.stop && r.progress.err.None? && |r.progress.executed| == i + 1;
      ReachedCritical(s, i + 1, r.progress, k);
    }
  }

  /** A critical component error ends the run: when layer k executes and fails with one, the loop
      reaches no layer after k, and (with distinct names) no later layer has a stats entry. */
  lemma CriticalEndsRun(s: Setup, k: nat)
    requires DistinctNames(s.layers)
    requires k < |RunFrom(s, 0, Initial).executed| && k < |s.layers|
    requires s.world.layerResult(k).Some? && s.world.layerResult(k).value.CriticalComponentError?
    ensures var r := RunFrom(s, 0, Initial);
            && Reached(s, 0, Initial) == k + 1 == |r.executed|
            && forall j :: k < j < |s.layers| ==> s.layers[j].config.name !in r.layerStats
  {
    RunOutcome(s);
    assert Runs(s, k);
    ReachedCritical(s, 0, Initial, k);
    RunLayerStats(s);
    var r := RunFrom(s, 0, Initial);
    forall j | k < j < |s.layers|
      ensures s.layers[j].config.name !in r.layerStats
    {
      assert forall i :: 0 <= i < k + 1 ==> s.layers[i].config.name != s.layers[j].config.name;
    }
  }

  /** The loop leaves early only right after a layer whose Execute failed with a critical component error. */
  lemma {:induction false} ReachedEnd(s: Setup, i: nat, p: Progress)
    requires i <= |s.layers| && Aligned(i, p)
    ensures var m := Reached(s, i, p);
            m == |s.layers| || (0 < m == |RunFrom(s, i, p).executed| && s.world.layerResult(m - 1).Some?
                                && s.world.layerResult(m - 1).value.CriticalComponentError?)
    decreases |s.layers| - i
  {
    if i < |s.layers| {
      var r := Step(s, i, p);
      StepStops(s, i, p);
      if !r.stop {
        ReachedEnd(s, i + 1, r.progress);
      }
    }
  }

  /** The statistics of a run when the layers have distinct names: one entry for each layer the loop
      reached (all of them, or up to the critical one), and that entry's success, error and component
      counts follow from what happened to the layer. */
  lemma RunLayerStats(s: Setup)
    requires DistinctNames(s.layers)
    ensures var r, m := RunFrom(s, 0, Initial), Reached(s, 0, Initial);
            && (m == |s.layers| || (m == |r.executed| && s.world.layerResult(m - 1).Some?
                                    && s.world.layerResult(m - 1).value.CriticalComponentError?))
            && (forall name :: name in r.layerStats <==> exists k :: 0 <= k < m && s.layers[k].config.name == name)
            && (forall k :: 0 <= k < m ==> r.layerStats[s.layers[k].config.name] == ExpectedStats(s, k, k < |r.executed|))
  {
    RunFromRecorded(s, 0, Initial);
    ReachedEnd(s, 0, Initial);
    LayerNamesBeforeMembers(s.layers, Reached(s, 0, Initial));
  }

  /** Under the default error handler, with no BeforeLayer error and no cancellation, a failed
      run reports the error of the last layer it executed, unchanged. */
  ghost predicate ErrorOfLastExecuted(s: Setup, p: Progress) {
    p.err.Some? ==> |p.executed| > 0 && p.executed[|p.executed| - 1] < |s.layers|
                    && p.err == s.world.layerResult(p.executed[|p.executed| - 1])
  }

  /** Nothing but the layers' own Execute results can fail the run. */
  ghost predicate Undisturbed(s: Setup) {
    && s.handler.DefaultErrorHandler?
    && forall k :: 0 <= k < |s.layers| ==> BeforeLayerError(s.middleware, k).None? && !s.world.doneAfter(k)
  }

  lemma {:induction false} RunFromKeepsLayerError(s: Setup, i: nat, p: Progress)
    requires i <= |s.layers| && Undisturbed(s) && ErrorOfLastExecuted(s, p)
    requires forall k :: 0 <= k < |p.executed| ==> p.executed[k] < i
    ensures ErrorOfLastExecuted(s, RunFrom(s, i, p))
    decreases |s.layers| - i
  {
    if i < |s.layers| {
      var r := Step(s, i, p);
      assert BeforeLayerError(s.middleware, i).None? && !s.world.doneAfter(i);
      assert r.progress.executed == p.executed || r.progress.executed == p.executed + [i];
      assert ErrorOfLastExecuted(s, r.progress);
      if !r.stop {
        RunFromKeepsLayerError(s, i + 1, r.progress);
      }
    }
  }

  /** The default handler leaves the failing layer's error as the run's error. */
  lemma DefaultHandlerKeepsLayerError(s: Setup)
    requires Undisturbed(s)
    ensures var r := RunFrom(s, 0, Initial);
            r.err.Some? ==> && |r.executed| > 0
                            && r.err == s.world.layerResult(|r.executed| - 1)
  {
    RunFromKeepsLayerError(s, 0, Initial);
    RunFromConsistent(s, 0, Initial);
  }

  /** Layers built from a configuration with distinct layer names have distinct names. */
  lemma BuiltLayersDistinct(cs: seq<LayerConfig>, registry: ComponentRegistry)
    requires ConfigParser.LayerNamesValid(cs) && LayersBuilt(cs, registry).Success?
    ensures DistinctNames(LayersBuilt(cs, registry).value)
  {
    var built := LayersBuilt(cs, registry).value;
    LayersBuiltContents(cs, registry);
    forall j, k | 0 <= j < k < |built|
      ensures built[j].config.name != built[k].config.name
    {
      assert built[j].config == cs[j] && built[k].config == cs[k];
    }
  }

  /** An engine NewEngine builds from a valid configuration passes its own Validate. */
  lemma BuiltEngineValidates(c: Config, registry: ComponentRegistry)
    requires ConfigParser.ValidConfig(c) && LayersBuilt(c.layers, registry).Success?
    ensures ConfigParser.ValidateConfig(c).None?
    ensures forall k :: 0 <= k < |c.layers| ==> Layers.Validate(LayersBuilt(c.layers, registry).value[k]).None?
  {
    ConfigParser.ValidateConfigExact(c);
    LayersBuiltContents(c.layers, registry);
  }

  /** The loop of NewEngine over the layer configurations: build each layer, validate it, append it. */
  method BuildLayers(cs: seq<LayerConfig>, registry: ComponentRegistry) returns (r: Result<seq<Layer>, Error>)
    ensures r == LayersBuilt(cs, registry)
  {
    var layers: seq<Layer> := [];
    var i := 0;
    assert cs[0..] == cs;
    PrependNoLayers(LayersBuilt(cs, registry));
    while i < |cs|
      invariant 0 <= i <= |cs|
      invariant LayersBuilt(cs, registry) == PrependLayers(layers, LayersBuilt(cs[i..], registry))
    {
      var layerConfig := cs[i];
      assert cs[i..][1..] == cs[i + 1..];
      assert cs[i..][0] == layerConfig;
      var built := NewLayer(layerConfig, registry);
      if built.Failure? {
        return Failure(Wrapped("failed to create layer " + layerConfig.name, built.error));
      }
      var layer := built.value;
      var invalid := Layers.Validate(layer);
      if invalid.Some? {
        return Failure(Wrapped("layer validation failed for " + layerConfig.name, invalid.value));
      }
      ghost var rest := LayersBuilt(cs[i + 1..], registry);
      if rest.Success? {
        assert layers + ([layer] + rest.value) == (layers + [layer]) + rest.value;
      }
      layers := layers + [layer];
      i := i + 1;
    }
    assert cs[i..] == [];
    assert layers + [] == layers;
    return Success(layers);
  }

  lemma PrependNoLayers(r: Result<seq<Layer>, Error>)
    ensures PrependLayers([], r) == r
  {
    if r.Success? {
      assert [] + r.value == r.value;
    }
  }
}
