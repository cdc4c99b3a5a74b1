/**
 * engine/layer.go: building a layer's components, running one component (initialize,
 * retry, classify the failure), the serial and parallel dispatch, and Layer.Validate.
 *
 * Components are oracles (see module Components). The context a component runs under is
 * reduced to what the retry loop observes: whether it is done while waiting before a
 * retry, and the error ctx.Err() then reports. Goroutines, the semaphore and the channel
 * of the parallel mode are replaced by an arrival order of the components' results.
 */
module Layers {
  import opened Wrappers
  import opened ConfigTypes
  import opened Errors
  import opened Components

  /** A built layer: its configuration and the components made from its enabled entries. */
  datatype Layer = Layer(config: LayerConfig, components: seq<Component>)

  /** The context as one component's retry loop sees it: done while waiting before attempt k, and ctx.Err(). */
  datatype Ctx = Ctx(doneBefore: nat -> bool, err: Error)

  // ---------------------------------------------------------------------------
  // NewLayer

  /** The component configurations NewLayer builds, in declared order. */
  function EnabledConfigs(cs: seq<ComponentConfig>): (r: seq<ComponentConfig>)
    ensures |r| <= |cs|
    ensures forall k :: 0 <= k < |r| ==> r[k].enabled
  {
    if |cs| == 0 then []
    else if cs[0].enabled then [cs[0]] + EnabledConfigs(cs[1..])
    else EnabledConfigs(cs[1..])
  }

  /** Exactly the enabled entries are kept. */
  lemma {:induction false} EnabledConfigsMembers(cs: seq<ComponentConfig>)
    ensures forall c :: c in EnabledConfigs(cs) <==> c in cs && c.enabled
  {
    if |cs| > 0 {
      EnabledConfigsMembers(cs[1..]);
      assert forall c :: c in cs <==> c == cs[0] || c in cs[1..];
    }
  }

  /** Filtering distributes over concatenation, so the kept entries stay in declared order. */
  lemma {:induction false} EnabledConfigsAppend(a: seq<ComponentConfig>, b: seq<ComponentConfig>)
    ensures EnabledConfigs(a + b) == EnabledConfigs(a) + EnabledConfigs(b)
    decreases |a|
  {
    if |a| > 0 {
      assert (a + b)[0] == a[0];
      assert (a + b)[1..] == a[1..] + b;
      EnabledConfigsAppend(a[1..], b);
      if a[0].enabled {
        assert EnabledConfigs(a + b) == [a[0]] + EnabledConfigs(a[1..] + b);
        assert EnabledConfigs(a) == [a[0]] + EnabledConfigs(a[1..]);
      } else {
        assert EnabledConfigs(a + b) == EnabledConfigs(a[1..] + b);
        assert EnabledConfigs(a) == EnabledConfigs(a[1..]);
      }
    } else {
      assert a + b == b;
    }
  }

  /** Every enabled entry is kept, right after the enabled entries declared before it. */
  lemma EnabledConfigsKeepOrder(cs: seq<ComponentConfig>, k: nat)
    requires k < |cs| && cs[k].enabled
    ensures |EnabledConfigs(cs[..k])| < |EnabledConfigs(cs)|
    ensures EnabledConfigs(cs)[|EnabledConfigs(cs[..k])|] == cs[k]
  {
    assert cs == cs[..k] + ([cs[k]] + cs[k + 1..]);
    EnabledConfigsAppend(cs[..k], [cs[k]] + cs[k + 1..]);
    assert ([cs[k]] + cs[k + 1..])[1..] == cs[k + 1..];
  }

  /** The error NewLayer returns when the registry cannot create a component. */
  function CreationFailed(layerName: string, componentName: string, err: Error): (e: Error)
    ensures e.ComponentError? && e.kind == "component_creation_failed" && e.layer == layerName
    ensures e.component == "" && e.cause.None?
  {
    ComponentError("component_creation_failed", "failed to create component " + componentName + ": " + Text(err),
                   "", layerName, None)
  }

  /** What NewLayer's loop produces from `cs`: every component, or the first creation failure. */
  function Built(layerName: string, cs: seq<ComponentConfig>, registry: ComponentRegistry): (r: Result<seq<Component>, Error>)
    reads registry
    ensures r.Success? <==> forall k :: 0 <= k < |EnabledConfigs(cs)| ==> registry.Create(EnabledConfigs(cs)[k]).Success?
    ensures r.Success? ==> |r.value| == |EnabledConfigs(cs)|
                           && forall k :: 0 <= k < |r.value| ==> r.value[k] == registry.Create(EnabledConfigs(cs)[k]).value
    ensures r.Failure? ==> exists k :: 0 <= k < |EnabledConfigs(cs)|
                                        && registry.Create(EnabledConfigs(cs)[k]).Failure?
                                        && r.error == CreationFailed(layerName, EnabledConfigs(cs)[k].name,
                                                                     registry.Create(EnabledConfigs(cs)[k]).error)
  {
    if |cs| == 0 then Success([])
    else if !cs[0].enabled then
      assert EnabledConfigs(cs) == EnabledConfigs(cs[1..]);
      Built(layerName, cs[1..], registry)
    else
      var enabled := EnabledConfigs(cs);
      assert enabled == [cs[0]] + EnabledConfigs(cs[1..]);
      assert forall k :: 0 < k < |enabled| ==> enabled[k] == EnabledConfigs(cs[1..])[k - 1];
      match registry.Create(cs[0])
      case Failure(err) =>
        assert registry.Create(enabled[0]).Failure?;
        Failure(CreationFailed(layerName, cs[0].name, err))
      case Success(c) =>
        match Built(layerName, cs[1..], registry)
        case Failure(err) =>
          assert exists k :: 0 <= k < |enabled| && registry.Create(enabled[k]).Failure?
                             && err == CreationFailed(layerName, enabled[k].name, registry.Create(enabled[k]).error) by {
            var k :| 0 <= k < |EnabledConfigs(cs[1..])| && registry.Create(EnabledConfigs(cs[1..])[k]).Failure?
                     && err == CreationFailed(layerName, EnabledConfigs(cs[1..])[k].name,
                                              registry.Create(EnabledConfigs(cs[1..])[k]).error);
            assert enabled[k + 1] == EnabledConfigs(cs[1..])[k];
          }
          Failure(err)
        case Success(rest) => Success([c] + rest)
  }

  /** The first enabled configuration the registry cannot create is the one NewLayer reports. */
  lemma {:induction false} BuiltFailsAtFirst(layerName: string, cs: seq<ComponentConfig>, registry: ComponentRegistry, k: nat)
    requires k < |EnabledConfigs(cs)| && registry.Create(EnabledConfigs(cs)[k]).Failure?
    requires forall j :: 0 <= j < k ==> registry.Create(EnabledConfigs(cs)[j]).Success?
    ensures Built(layerName, cs, registry)
            == Failure(CreationFailed(layerName, EnabledConfigs(cs)[k].name, registry.Create(EnabledConfigs(cs)[k]).error))
    decreases |cs|
  {
    var enabled := EnabledConfigs(cs);
    var rest := EnabledConfigs(cs[1..]);
    if !cs[0].enabled {
      assert enabled == rest;
      BuiltFailsAtFirst(layerName, cs[1..], registry, k);
    } else {
      assert enabled == [cs[0]] + rest;
      if k > 0 {
        assert registry.Create(cs[0]).Success? by {
          assert enabled[0] == cs[0];
        }
        assert forall j :: 0 <= j < k - 1 ==> rest[j] == enabled[j + 1];
        BuiltFailsAtFirst(layerName, cs[1..], registry, k - 1);
      }
    }
  }

  /** `built` in front of what the rest of the loop produces. */
  function Prepend(built: seq<Component>, r: Result<seq<Component>, Error>): Result<seq<Component>, Error> {
    match r
    case Failure(err) => Failure(err)
    case Success(rest) => Success(built + rest)
  }

  lemma PrependNothing(r: Result<seq<Component>, Error>)
    ensures Prepend([], r) == r
  {
    if r.Success? {
      assert [] + r.value == r.value;
    }
  }

  /** NewLayer: create the enabled components in order and stop at the first failure. */
  method NewLayer(config: LayerConfig, registry: ComponentRegistry) returns (r: Result<Layer, Error>)
    ensures Built(config.name, config.components, registry).Success? ==>
              r == Success(Layer(config, Built(config.name, config.components, registry).value))
    ensures Built(config.name, config.components, registry).Failure? ==>
              r == Failure(Built(config.name, config.components, registry).error)
  {
    var components: seq<Component> := [];
    var j := 0;
    assert config.components[0..] == config.components;
    PrependNothing(Built(config.name, config.components, registry));
    while j < |config.components|
      invariant 0 <= j <= |config.components|
      invariant Built(config.name, config.components, registry) ==
                  Prepend(components, Built(config.name, config.components[j..], registry))
    {
      var componentConfig := config.components[j];
      assert config.components[j..][1..] == config.components[j + 1..];
      assert config.components[j..][0] == componentConfig;
      if !componentConfig.enabled {
        j := j + 1;
        continue;
      }
      var created := registry.Create(componentConfig);
      if created.Failure? {
        return Failure(CreationFailed(config.name, componentConfig.name, created.error));
      }
      ghost var rest := Built(config.name, config.components[j + 1..], registry);
      if rest.Success? {
        assert components + ([created.value] + rest.value) == (components + [created.value]) + rest.value;
      }
      components := components + [created.value];
      j := j + 1;
    }
    assert config.components[j..] == [];
    assert components + [] == components;
    return Success(Layer(config, components));
  }

  // ---------------------------------------------------------------------------
  // executeWithRetry

  /** Why the retry loop ended. */
  datatype Stop = Succeeded | Cancelled | GaveUp | Exhausted

  /** The loop's result, the number of Execute calls it made, and why it stopped. */
  datatype RetryRun = RetryRun(result: Option<Error>, calls: nat, stop: Stop)

  /** The RetryExhaustedError built from the errors of the failed calls. */
  function ExhaustedError(name: string, maxRetries: int, errors: seq<Error>): (e: Error)
    ensures e.RetryExhaustedError? && e.retryErrors == errors && e.maxRetries == maxRetries
    ensures e.lastError == (if |errors| == 0 then None else Some(errors[|errors| - 1]))
  {
    RetryExhaustedError(name, maxRetries, if |errors| == 0 then None else Some(errors[|errors| - 1]), errors)
  }

  /** executeWithRetry from attempt `attempt`, the failed calls before it having given `errors`. */
  function RetryFrom(name: string, rt: Retryable, execute: nat -> Option<Error>, ctx: Ctx, attempt: nat, errors: seq<Error>): RetryRun
    decreases if attempt <= rt.config.maxRetries then rt.config.maxRetries - attempt + 1 else 0
  {
    if attempt > rt.config.maxRetries then
      RetryRun(Some(ExhaustedError(name, rt.config.maxRetries, errors)), |errors|, Exhausted)
    else if attempt > 0 && ctx.doneBefore(attempt) then
      RetryRun(Some(ctx.err), |errors|, Cancelled)
    else
      match execute(attempt)
      case None => RetryRun(None, |errors| + 1, Succeeded)
      case Some(e) =>
        if !rt.shouldRetry(e) then RetryRun(Some(ExhaustedError(name, rt.config.maxRetries, errors + [e])), |errors| + 1, GaveUp)
        else RetryFrom(name, rt, execute, ctx, attempt + 1, errors + [e])
  }

  /** executeWithRetry */
  method ExecuteWithRetry(name: string, rt: Retryable, execute: nat -> Option<Error>, ctx: Ctx) returns (run: RetryRun)
    ensures run == RetryFrom(name, rt, execute, ctx, 0, [])
  {
    var maxRetries := rt.config.maxRetries;
    var lastErr: Option<Error> := None;
    var retryErrors: seq<Error> := [];
    var attempt := 0;
    var stop := Exhausted;
    while attempt <= maxRetries
      invariant 0 <= attempt && |retryErrors| == attempt
      invariant lastErr == (if attempt == 0 then None else Some(retryErrors[attempt - 1]))
      invariant RetryFrom(name, rt, execute, ctx, 0, []) == RetryFrom(name, rt, execute, ctx, attempt, retryErrors)
      decreases maxRetries - attempt
    {
      if attempt > 0 && ctx.doneBefore(attempt) {
        return RetryRun(Some(ctx.err), attempt, Cancelled);
      }
      var err := execute(attempt);
      if err.None? {
        return RetryRun(None, attempt + 1, Succeeded);
      }
      lastErr := err;
      retryErrors := retryErrors + [err.value];
      if !rt.shouldRetry(err.value) {
        stop := GaveUp;
        break;
      }
      attempt := attempt + 1;
    }
    return RetryRun(Some(RetryExhaustedError(name, maxRetries, lastErr, retryErrors)), |retryErrors|, stop);
  }

  /** The failed calls of attempts [0, n), in order. */
  predicate FailedCalls(execute: nat -> Option<Error>, errors: seq<Error>) {
    forall k :: 0 <= k < |errors| ==> execute(k) == Some(errors[k])
  }

  /** Call k failed with an error ShouldRetry accepts. */
  predicate RetriedCall(rt: Retryable, execute: nat -> Option<Error>, k: nat) {
    execute(k).Some? && rt.shouldRetry(execute(k).value)
  }

  /** The loop never calls Execute more than MaxRetries + 1 times, and not at all when MaxRetries < 0;
      every call before the last failed and was retried; each failed call is recorded once, in order,
      and LastError is the last of them; it is cancelled only when the context is done before a retry.
      (`attempt` and `errors` describe the loop midway: the calls before `attempt` failed and were retried.) */
  lemma {:induction false} RetryHistory(name: string, rt: Retryable, execute: nat -> Option<Error>, ctx: Ctx, attempt: nat, errors: seq<Error>)
    requires |errors| == attempt && FailedCalls(execute, errors)
    requires forall k :: 0 <= k < attempt ==> rt.shouldRetry(errors[k])
    requires attempt == 0 || attempt <= rt.config.maxRetries + 1
    ensures var run := RetryFrom(name, rt, execute, ctx, attempt, errors);
            && attempt <= run.calls <= (if rt.config.maxRetries < attempt then attempt else rt.config.maxRetries + 1)
            && (run.stop == Succeeded <==> run.result.None?)
            && (run.stop == Succeeded ==> run.calls >= 1 && execute(run.calls - 1).None?)
            && (run.stop == GaveUp || run.stop == Exhausted ==>
                  exists history: seq<Error> :: |history| == run.calls && FailedCalls(execute, history)
                                                && run.result == Some(ExhaustedError(name, rt.config.maxRetries, history)))
            && (run.stop == GaveUp ==> run.calls >= 1 && !rt.shouldRetry(execute(run.calls - 1).value))
            && (run.stop == Exhausted ==> run.calls == (if rt.config.maxRetries < 0 then 0 else rt.config.maxRetries + 1))
            && (run.stop == Cancelled ==> run.result == Some(ctx.err) && 1 <= run.calls <= rt.config.maxRetries && ctx.doneBefore(run.calls))
            && (forall j :: 0 <= j < run.calls - 1 ==> RetriedCall(rt, execute, j))
            && (run.stop == Exhausted || run.stop == Cancelled ==> forall j :: 0 <= j < run.calls ==> RetriedCall(rt, execute, j))
    decreases if attempt <= rt.config.maxRetries then rt.config.maxRetries - attempt + 1 else 0
  {
    var max := rt.config.maxRetries;
    assert forall j :: 0 <= j < attempt ==> RetriedCall(rt, execute, j);
    if attempt > max {
    } else if attempt > 0 && ctx.doneBefore(attempt) {
    } else {
      match execute(attempt)
      case None =>
      case Some(e) =>
        var next := errors + [e];
        assert FailedCalls(execute, next);
        if rt.shouldRetry(e) {
          assert forall k :: 0 <= k < attempt + 1 ==> rt.shouldRetry(next[k]);
          RetryHistory(name, rt, execute, ctx, attempt + 1, next);
        }
    }
  }

  /** If every call fails with an error worth retrying and the context is never done, the loop
      makes MaxRetries + 1 calls and reports all their errors in a RetryExhaustedError. */
  lemma RetryExhaustsWhenAllFail(name: string, rt: Retryable, execute: nat -> Option<Error>, ctx: Ctx)
    requires rt.config.maxRetries >= 0
    requires forall j :: 0 <= j <= rt.config.maxRetries ==> RetriedCall(rt, execute, j)
    requires forall j :: 0 < j <= rt.config.maxRetries ==> !ctx.doneBefore(j)
    ensures var run := RetryFrom(name, rt, execute, ctx, 0, []);
            && run.stop == Exhausted && run.calls == rt.config.maxRetries + 1
            && run.result.Some? && run.result.value.RetryExhaustedError?
            && |run.result.value.retryErrors| == run.calls
            && (forall j :: 0 <= j < run.calls ==> execute(j) == Some(run.result.value.retryErrors[j]))
            && run.result.value.lastError == execute(rt.config.maxRetries)
  {
    RetryHistory(name, rt, execute, ctx, 0, []);
    var run := RetryFrom(name, rt, execute, ctx, 0, []);
    assert 1 <= run.calls <= rt.config.maxRetries + 1;
    assert RetriedCall(rt, execute, run.calls - 1);
    assert run.calls <= rt.config.maxRetries ==> !ctx.doneBefore(run.calls);
  }

  /** With MaxRetries < 0 Execute is never called: the result is a RetryExhaustedError with no errors. */
  lemma NegativeMaxRetriesMakesNoCall(name: string, rt: Retryable, execute: nat -> Option<Error>, ctx: Ctx)
    requires rt.config.maxRetries < 0
    ensures RetryFrom(name, rt, execute, ctx, 0, []) ==
              RetryRun(Some(RetryExhaustedError(name, rt.config.maxRetries, None, [])), 0, Exhausted)
  {
  }

  /** If the first k calls fail with errors worth retrying, call k succeeds, k <= MaxRetries and
      the context stays live, the loop returns nil after k + 1 calls. */
  lemma {:induction false} RetrySucceedsAfterFailures(name: string, rt: Retryable, execute: nat -> Option<Error>, ctx: Ctx,
                                                       attempt: nat, errors: seq<Error>, k: nat)
    requires |errors| == attempt <= k <= rt.config.maxRetries
    requires forall j :: attempt <= j < k ==> execute(j).Some? && rt.shouldRetry(execute(j).value)
    requires execute(k).None?
    requires forall j :: attempt < j <= k ==> !ctx.doneBefore(j)
    requires attempt == 0 || !ctx.doneBefore(attempt)
    ensures RetryFrom(name, rt, execute, ctx, attempt, errors) == RetryRun(None, k + 1, Succeeded)
    decreases k - attempt
  {
    if attempt < k {
      RetrySucceedsAfterFailures(name, rt, execute, ctx, attempt + 1, errors + [execute(attempt).value], k);
    }
  }

  /** The n-th retry waits Delay × Backoff × (n − 1) nanoseconds before its call: the first retry does not wait. */
  function RetryDelay(rc: RetryConfig, attempt: nat): (d: real)
    requires attempt > 0
    ensures attempt == 1 ==> d == 0.0
    ensures rc.delay >= 0 && rc.backoff >= 0.0 ==> d >= 0.0
  {
    (rc.delay as real) * (rc.backoff * ((attempt - 1) as real))
  }

  // ---------------------------------------------------------------------------
  // executeComponent

  /** isCriticalComponent: the Critical flag of the first entry with that name, disabled ones included. */
  function IsCriticalComponent(cs: seq<ComponentConfig>, name: string): (r: bool)
    ensures r <==> exists i :: 0 <= i < |cs| && cs[i].name == name && cs[i].critical
                              && forall k :: 0 <= k < i ==> cs[k].name != name
  {
    if |cs| == 0 then false
    else if cs[0].name == name then cs[0].critical
    else
      var r := IsCriticalComponent(cs[1..], name);
      assert r ==> exists i :: 0 < i < |cs| && cs[i].name == name && cs[i].critical && forall k :: 0 <= k < i ==> cs[k].name != name by {
        if r {
          var i :| 0 <= i < |cs[1..]| && cs[1..][i].name == name && cs[1..][i].critical && forall k :: 0 <= k < i ==> cs[1..][k].name != name;
          assert cs[i + 1] == cs[1..][i];
        }
      }
      r
  }

  /** The result of one executeComponent call and the number of Execute calls it made. */
  datatype ComponentRun = ComponentRun(err: Option<Error>, calls: nat)

  function InitializationFailed(componentName: string, layerName: string, err: Error): Error {
    ComponentError("initialization_failed", "component initialization failed: " + Text(err), componentName, layerName, Some(err))
  }

  /** How executeComponent reports a failed Execute: critical or not, by the layer's configuration. */
  function ClassifyFailure(layer: LayerConfig, componentName: string, err: Error): (r: Error)
    ensures IsCriticalComponent(layer.components, componentName) ==> r == CriticalComponentError(componentName, layer.name, Some(err))
    ensures !IsCriticalComponent(layer.components, componentName) ==>
              r.ExecutionError? && r.kind == "component_execution_failed" && r.cause == Some(err)
              && r.component == componentName && r.layer == layer.name
  {
    if IsCriticalComponent(layer.components, componentName) then CriticalComponentError(componentName, layer.name, Some(err))
    else ExecutionError("component_execution_failed", "component execution failed: " + Text(err), componentName, layer.name, Some(err))
  }

  /** executeComponent: initialize, then execute (through the retry loop when the component retries). */
  function ComponentResult(layer: LayerConfig, c: Component, ctx: Ctx): ComponentRun {
    if c.initialize.Implemented? && c.initialize.result.Some? then
      ComponentRun(Some(InitializationFailed(c.name, layer.name, c.initialize.result.value)), 0)
    else
      var raw := if c.retry.Some? then RetryFrom(c.name, c.retry.value, c.execute, ctx, 0, []).result else c.execute(0);
      var calls := if c.retry.Some? then RetryFrom(c.name, c.retry.value, c.execute, ctx, 0, []).calls else 1;
      match raw
      case None => ComponentRun(None, calls)
      case Some(e) => ComponentRun(Some(ClassifyFailure(layer, c.name, e)), calls)
  }

  /** executeComponent */
  method ExecuteComponent(layer: LayerConfig, c: Component, ctx: Ctx) returns (run: ComponentRun)
    ensures run == ComponentResult(layer, c, ctx)
  {
    if c.initialize.Implemented? && c.initialize.result.Some? {
      var err := c.initialize.result.value;
      return ComponentRun(Some(InitializationFailed(c.name, layer.name, err)), 0);
    }
    var raw: Option<Error>;
    var calls: nat;
    if c.retry.Some? {
      var r := ExecuteWithRetry(c.name, c.retry.value, c.execute, ctx);
      raw, calls := r.result, r.calls;
    } else {
      raw, calls := c.execute(0), 1;
    }
    if raw.Some? {
      return ComponentRun(Some(ClassifyFailure(layer, c.name, raw.value)), calls);
    }
    return ComponentRun(None, calls);
  }

  /** A failed Initialize is reported as initialization_failed, wrapping its error, and Execute is never called. */
  lemma InitializeFailureSkipsExecute(layer: LayerConfig, c: Component, ctx: Ctx)
    requires c.initialize.Implemented? && c.initialize.result.Some?
    ensures var run := ComponentResult(layer, c, ctx);
            && run.calls == 0 && run.err.Some? && run.err.value.ComponentError?
            && run.err.value.kind == "initialization_failed"
            && run.err.value.component == c.name && run.err.value.layer == layer.name
            && Unwrap(run.err.value) == c.initialize.result
  {
  }

  /** Every failure of an initialized component names the component and the layer, and it is a
      CriticalComponentError exactly when the layer configuration marks the component critical. */
  lemma ExecuteFailureClassified(layer: LayerConfig, c: Component, ctx: Ctx)
    requires !(c.initialize.Implemented? && c.initialize.result.Some?)
    requires ComponentResult(layer, c, ctx).err.Some?
    ensures var e := ComponentResult(layer, c, ctx).err.value;
            && (e.CriticalComponentError? <==> IsCriticalComponent(layer.components, c.name))
            && (e.CriticalComponentError? || e.ExecutionError?)
            && e.component == c.name && e.layer == layer.name && e.cause.Some?
  {
  }

  /** A component that does not retry is called exactly once, and fails exactly when that call fails. */
  lemma PlainComponentCalledOnce(layer: LayerConfig, c: Component, ctx: Ctx)
    requires c.retry.None? && !(c.initialize.Implemented? && c.initialize.result.Some?)
    ensures ComponentResult(layer, c, ctx).calls == 1
    ensures ComponentResult(layer, c, ctx).err.None? <==> c.execute(0).None?
  {
  }

  // ---------------------------------------------------------------------------
  // executeSerial, executeParallel, Execute

  /** The run of the component at position k of the layer. */
  function RunAt(l: Layer, ctxOf: nat -> Ctx, k: nat): ComponentRun
    requires k < |l.components|
  {
    ComponentResult(l.config, l.components[k], ctxOf(k))
  }

  /** executeSerial: components in order; the first error is returned and nothing after it runs.
      `ran` is the number of components executeComponent was called for. */
  method ExecuteSerial(l: Layer, ctxOf: nat -> Ctx) returns (err: Option<Error>, ran: nat)
    ensures ran <= |l.components|
    ensures forall k :: 0 <= k < ran && (err.None? || k < ran - 1) ==> RunAt(l, ctxOf, k).err.None?
    ensures err.None? ==> ran == |l.components|
    ensures err.Some? ==> ran >= 1 && err == RunAt(l, ctxOf, ran - 1).err
  {
    ran := 0;
    while ran < |l.components|
      invariant 0 <= ran <= |l.components|
      invariant forall k :: 0 <= k < ran ==> RunAt(l, ctxOf, k).err.None?
    {
      var run := ExecuteComponent(l.config, l.components[ran], ctxOf(ran));
      ran := ran + 1;
      if run.err.Some? {
        return run.err, ran;
      }
    }
    return None, ran;
  }

  /** executeParallel's semaphore size: Parallel, or the number of components when Parallel <= 0. */
  function ParallelBound(l: Layer): (bound: int)
    ensures l.config.parallel > 0 ==> bound == l.config.parallel
    ensures l.config.parallel <= 0 ==> bound == |l.components|
    ensures bound >= 1 || |l.components| == 0
  {
    if l.config.parallel <= 0 then |l.components| else l.config.parallel
  }

  /** The error collection of executeParallel over the errors in the order they arrive. */
  function ParallelVerdict(layerName: string, received: seq<Error>): (r: Option<Error>)
    ensures r.None? <==> |received| == 0
    ensures FirstCritical(received).Some? ==> r == Some(received[FirstCritical(received).value])
    ensures |received| > 0 && FirstCritical(received).None? ==>
              r.Some? && r.value.ExecutionError? && r.value.kind == "parallel_execution_failed"
              && r.value.message == "parallel execution failed with " + NatToString(|received|) + " errors"
              && r.value.component == "" && r.value.layer == layerName && r.value.cause == Some(received[0])
  {
    if |received| == 0 then None
    else match FirstCritical(received)
      case Some(i) => Some(received[i])
      case None =>
        Some(ExecutionError("parallel_execution_failed",
                            "parallel execution failed with " + NatToString(|received|) + " errors",
                            "", layerName, Some(received[0])))
  }

  /** The position of the first CriticalComponentError. */
  function FirstCritical(errs: seq<Error>): (r: Option<nat>)
    ensures r.Some? ==> r.value < |errs| && errs[r.value].CriticalComponentError?
                        && forall k :: 0 <= k < r.value ==> !errs[k].CriticalComponentError?
    ensures r.None? ==> forall k :: 0 <= k < |errs| ==> !errs[k].CriticalComponentError?
  {
    if |errs| == 0 then None
    else if errs[0].CriticalComponentError? then Some(0)
    else match FirstCritical(errs[1..])
      case Some(i) => Some(i + 1)
      case None => None
  }

  /** The collecting loop of executeParallel: return the first critical error at once, else
      report how many errors arrived, with the first as the cause. */
  method CollectParallelErrors(layerName: string, received: seq<Error>) returns (err: Option<Error>)
    ensures err == ParallelVerdict(layerName, received)
  {
    var errors: seq<Error> := [];
    var i := 0;
    while i < |received|
      invariant 0 <= i <= |received| && errors == received[..i]
      invariant forall k :: 0 <= k < i ==> !received[k].CriticalComponentError?
    {
      errors := errors + [received[i]];
      if received[i].CriticalComponentError? {
        assert FirstCritical(received) == Some(i);
        return Some(received[i]);
      }
      i := i + 1;
    }
    assert errors == received;
    if |errors| > 0 {
      return Some(ExecutionError("parallel_execution_failed",
                                 "parallel execution failed with " + NatToString(|errors|) + " errors",
                                 "", layerName, Some(errors[0])));
    }
    return None;
  }

  /** Which errors arrive does not depend on the order: the verdict is nil, critical, or the count
      of failures, the same under any rearrangement of the arrivals. */
  lemma ParallelVerdictOrderIndependent(layerName: string, a: seq<Error>, b: seq<Error>)
    requires multiset(a) == multiset(b)
    ensures ParallelVerdict(layerName, a).None? <==> ParallelVerdict(layerName, b).None?
    ensures (ParallelVerdict(layerName, a).Some? && ParallelVerdict(layerName, a).value.CriticalComponentError?)
              <==> (ParallelVerdict(layerName, b).Some? && ParallelVerdict(layerName, b).value.CriticalComponentError?)
  {
    assert |a| == |multiset(a)| == |multiset(b)| == |b|;
    CriticalPresence(a);
    CriticalPresence(b);
    if FirstCritical(a).Some? {
      var i := FirstCritical(a).value;
      assert a[i] in multiset(b);
    }
    if FirstCritical(b).Some? {
      var i := FirstCritical(b).value;
      assert b[i] in multiset(a);
    }
  }

  /** The verdict is critical exactly when some arrival is critical. */
  lemma CriticalPresence(received: seq<Error>)
    ensures FirstCritical(received).Some? <==> exists e :: e in multiset(received) && e.CriticalComponentError?
  {
    if FirstCritical(received).None? {
      forall e | e in multiset(received) ensures !e.CriticalComponentError? {
        assert e in received;
      }
    }
  }

  /** A permutation of the positions [0, n): the order the parallel results arrive in. */
  predicate IsArrivalOrder(arrival: seq<nat>, n: nat) {
    && |arrival| == n
    && (forall k :: 0 <= k < n ==> arrival[k] < n)
    && (forall p :: 0 <= p < n ==> p in arrival)
  }

  /** What executeComponent reports for each component of the layer, by position. */
  function Outcomes(l: Layer, ctxOf: nat -> Ctx): (r: seq<Option<Error>>)
    ensures |r| == |l.components|
  {
    seq(|l.components|, k requires 0 <= k < |l.components| => RunAt(l, ctxOf, k).err)
  }

  lemma OutcomeAt(l: Layer, ctxOf: nat -> Ctx, k: nat)
    requires k < |l.components|
    ensures Outcomes(l, ctxOf)[k] == RunAt(l, ctxOf, k).err
  {
  }

  /** The errors among the first `count` arrivals, in arrival order, where outcomes[p] is what
      the component at position p sends. */
  function Received(outcomes: seq<Option<Error>>, arrival: seq<nat>, count: nat): (r: seq<Error>)
    requires count <= |arrival| && forall k :: 0 <= k < |arrival| ==> arrival[k] < |outcomes|
    ensures |r| <= count
  {
    if count == 0 then []
    else
      var prior := Received(outcomes, arrival, count - 1);
      match outcomes[arrival[count - 1]]
      case Some(e) => prior + [e]
      case None => prior
  }

  /** No error is received among the first `count` arrivals exactly when each of them succeeded. */
  lemma {:induction false} ReceivedNothing(outcomes: seq<Option<Error>>, arrival: seq<nat>, count: nat)
    requires count <= |arrival| && forall k :: 0 <= k < |arrival| ==> arrival[k] < |outcomes|
    ensures |Received(outcomes, arrival, count)| == 0 <==> forall k :: 0 <= k < count ==> outcomes[arrival[k]].None?
  {
    if count > 0 {
      ReceivedNothing(outcomes, arrival, count - 1);
    }
  }

  /** The running half of executeParallel: every component runs once and the errors are
      gathered in arrival order. */
  method RunAll(l: Layer, ctxOf: nat -> Ctx, arrival: seq<nat>) returns (received: seq<Error>)
    requires IsArrivalOrder(arrival, |l.components|)
    ensures received == Received(Outcomes(l, ctxOf), arrival, |arrival|)
  {
    ghost var outcomes := Outcomes(l, ctxOf);
    received := [];
    var i := 0;
    while i < |arrival|
      invariant 0 <= i <= |arrival| && received == Received(outcomes, arrival, i)
    {
      var err := RunComponent(l, ctxOf, arrival[i]);
      assert Received(outcomes, arrival, i + 1) == if err.Some? then received + [err.value] else received;
      if err.Some? {
        received := received + [err.value];
      }
      i := i + 1;
    }
  }

  /** One goroutine of executeParallel: executeComponent for component k, reporting its error. */
  method RunComponent(l: Layer, ctxOf: nat -> Ctx, k: nat) returns (err: Option<Error>)
    requires k < |l.components|
    ensures err == Outcomes(l, ctxOf)[k]
  {
    var run := ExecuteComponent(l.config, l.components[k], ctxOf(k));
    err := run.err;
    OutcomeAt(l, ctxOf, k);
  }

  /** executeParallel: the errors of all components, collected in arrival order. */
  method ExecuteParallel(l: Layer, ctxOf: nat -> Ctx, arrival: seq<nat>) returns (err: Option<Error>)
    requires IsArrivalOrder(arrival, |l.components|)
    ensures err == ParallelVerdict(l.config.name, Received(Outcomes(l, ctxOf), arrival, |arrival|))
    ensures err.None? <==> forall k :: 0 <= k < |l.components| ==> RunAt(l, ctxOf, k).err.None?
  {
    var received := RunAll(l, ctxOf, arrival);
    err := CollectParallelErrors(l.config.name, received);
    NothingReceivedIffAllSucceed(Outcomes(l, ctxOf), arrival);
    forall k | 0 <= k < |l.components|
      ensures Outcomes(l, ctxOf)[k] == RunAt(l, ctxOf, k).err
    {
      OutcomeAt(l, ctxOf, k);
    }
  }

  /** Since every position arrives, no error arrives exactly when every component succeeds. */
  lemma NothingReceivedIffAllSucceed(outcomes: seq<Option<Error>>, arrival: seq<nat>)
    requires IsArrivalOrder(arrival, |outcomes|)
    ensures |Received(outcomes, arrival, |arrival|)| == 0 <==> forall p :: 0 <= p < |outcomes| ==> outcomes[p].None?
  {
    ReceivedNothing(outcomes, arrival, |arrival|);
    if |Received(outcomes, arrival, |arrival|)| == 0 {
      forall p | 0 <= p < |outcomes|
        ensures outcomes[p].None?
      {
        assert p in arrival;
        var k :| 0 <= k < |arrival| && arrival[k] == p;
      }
    }
  }

  /** Layer.Execute: nothing runs when the layer is disabled; async starts its components and
      reports nil at once; an unknown mode is a ConfigError on field "mode". */
  method Execute(l: Layer, ctxOf: nat -> Ctx, arrival: seq<nat>) returns (err: Option<Error>)
    requires IsArrivalOrder(arrival, |l.components|)
    ensures !l.config.enabled ==> err.None?
    ensures l.config.enabled && l.config.mode == ParallelMode ==>
              err == ParallelVerdict(l.config.name, Received(Outcomes(l, ctxOf), arrival, |arrival|))
    ensures l.config.enabled && l.config.mode == SerialMode ==>
              (err.None? <==> forall k :: 0 <= k < |l.components| ==> RunAt(l, ctxOf, k).err.None?)
    ensures l.config.enabled && l.config.mode == SerialMode && err.Some? ==>
              exists k :: 0 <= k < |l.components| && err == RunAt(l, ctxOf, k).err
                          && forall j :: 0 <= j < k ==> RunAt(l, ctxOf, j).err.None?
    ensures l.config.enabled && l.config.mode == AsyncMode ==> err.None?
    ensures l.config.enabled && !IsValidMode(l.config.mode) ==>
              err == Some(ConfigError("invalid_execution_mode", "unsupported execution mode: " + l.config.mode, "mode", None))
  {
    if !l.config.enabled {
      return None;
    }
    if l.config.mode == SerialMode {
      var ran;
      err, ran := ExecuteSerial(l, ctxOf);
    } else if l.config.mode == ParallelMode {
      err := ExecuteParallel(l, ctxOf, arrival);
    } else if l.config.mode == AsyncMode {
      err := None;
    } else {
      err := Some(ConfigError("invalid_execution_mode", "unsupported execution mode: " + l.config.mode, "mode", None));
    }
  }

  // ---------------------------------------------------------------------------
  // Layer.Validate

  /** A component passes when it has no Validate or its Validate returns nil. */
  predicate PassesValidation(c: Component) {
    !(c.validate.Implemented? && c.validate.result.Some?)
  }

  /** The first component Validate error. */
  function ComponentValidationError(cs: seq<Component>): (r: Option<Error>)
    ensures r.None? <==> forall k :: 0 <= k < |cs| ==> PassesValidation(cs[k])
    ensures r.Some? ==> exists k :: 0 <= k < |cs| && !PassesValidation(cs[k]) && r == cs[k].validate.result
                                    && forall j :: 0 <= j < k ==> PassesValidation(cs[j])
  {
    if |cs| == 0 then None
    else if !PassesValidation(cs[0]) then cs[0].validate.result
    else
      var r := ComponentValidationError(cs[1..]);
      assert r.Some? ==> exists k :: 0 < k < |cs| && !PassesValidation(cs[k]) && r == cs[k].validate.result
                                     && forall j :: 0 <= j < k ==> PassesValidation(cs[j]) by {
        if r.Some? {
          var k :| 0 <= k < |cs[1..]| && !PassesValidation(cs[1..][k]) && r == cs[1..][k].validate.result
                   && forall j :: 0 <= j < k ==> PassesValidation(cs[1..][j]);
          assert cs[k + 1] == cs[1..][k];
        }
      }
      r
  }

  /** Layer.Validate: the name, then a non-empty mode, then a valid mode, then the components. */
  function Validate(l: Layer): (r: Option<Error>)
    ensures l.config.name == "" ==> r == Some(ValidationError("name", TextValue(""), "layer name cannot be empty"))
    ensures l.config.name != "" && l.config.mode == "" ==>
              r == Some(ValidationError("mode", TextValue(""), "execution mode cannot be empty"))
    ensures l.config.name != "" && l.config.mode != "" && !IsValidMode(l.config.mode) ==>
              r == Some(ValidationError("mode", TextValue(l.config.mode), "invalid execution mode: " + l.config.mode))
    ensures l.config.name != "" && IsValidMode(l.config.mode) ==> r == ComponentValidationError(l.components)
    ensures r.None? <==> l.config.name != "" && IsValidMode(l.config.mode)
                         && forall k :: 0 <= k < |l.components| ==> PassesValidation(l.components[k])
  {
    if l.config.name == "" then Some(ValidationError("name", TextValue(l.config.name), "layer name cannot be empty"))
    else if l.config.mode == "" then Some(ValidationError("mode", TextValue(l.config.mode), "execution mode cannot be empty"))
    else if !IsValidMode(l.config.mode) then
      Some(ValidationError("mode", TextValue(l.config.mode), "invalid execution mode: " + l.config.mode))
    else ComponentValidationError(l.components)
  }
}
