# kflow engine in Dafny

A model of the `engine` package of kflow. kflow runs a configured DAG of
components grouped into layers. Layers run one after another; the
components of a layer run in serial, parallel or async mode. The model
covers the following, each with its contracts proved:

- configuration validation, defaulting and `${VAR}` substitution
  (`config.dfy`, module `ConfigParser`, over the records of `config_types.dfy`);
- the error types and their `Error()`/`Unwrap()` methods (`errors.dfy`);
- the component registry (`components.dfy`) and the shared data context
  (`datacontext.dfy`), both as classes whose map field the methods update;
- layer construction, per-component execution with retries, serial
  dispatch, the error-collection rule of parallel mode and `Layer.Validate`
  (`layer.dfy`);
- the engine: `NewEngine`, the `Execute` loop with its statistics,
  `GetLayer` and `Validate` (`engine.dfy`).

Go's `error` is `Option<Error>`: `None` is nil. `fmt.Errorf("...: %w", err)`
becomes `Wrapped(context, err)`. An error produced by code outside the core
(a factory, a component, `ctx.Err()`) is any `Error` value supplied as input.

What the core cannot see is an input to the model:

- a component's behaviour is a `Component` value holding:
  - its `Initialize` and `Validate` results (or `NotImplemented`);
  - its retry configuration and `ShouldRetry` predicate;
  - the result of its n-th `Execute` call, as a function of n.
- cancellation as seen by the retry loop is a `Ctx`: whether the context is done
  before attempt n, and `ctx.Err()`.
- the order in which parallel results reach the collector is an `arrival` permutation.
- in `Engine.Execute`, a `World` gives each layer's `Execute` result, whether the
  context is done after each layer, and `ctx.Err()`. Middleware hooks and the
  custom error handler are values inside the engine.

Most imperative routines of the source are a `method` with a loop, proved
equal to a specification function. The properties the source promises are
lemmas about those functions:

- `SetDefaults` is proved equal to `Defaulted`;
- `NewLayer` to `Built`;
- `executeWithRetry` to `RetryFrom`;
- the `NewEngine` layer loop to `LayersBuilt`;
- `Engine.Execute` to `RunFrom`/`Finish`.

Some loops of the source are modelled as recursive functions instead, one call per
iteration, because they only compute a verdict:

- `validateConfig` and its helpers: `ValidateConfig`, `ValidateLayersFrom`,
  `ValidateLayerConfig`, `ValidateComponentsFrom`, `ValidateDependenciesFrom`,
  `ValidateDependencyList` and `LayerIndex`;
- `isCriticalComponent`: `IsCriticalComponent`;
- the component loop of `Layer.Validate`: `ComponentValidationError`;
- `replaceEnvVars`: `ReplaceEnvVars`.

Where the code and its written description differ, the model follows the code:

- `setDefaults` sets `Enabled = true` for every layer, because after mode
  defaulting the mode is never empty (`engine/config.go:270-276`). It also enables
  every component with a non-empty type, even one explicitly disabled.
- In `Engine.Execute`, the `break` inside `select` (`engine/engine.go:232`) only
  leaves the `select`. A cancelled context therefore sets the recorded error but
  does not end the loop. Later layers are skipped, but they still get statistics.
- `validateConfig` defaults an empty mode only on a loop copy
  (`engine/config.go:134,176`), so the model's validators are pure functions.
- After a `BeforeLayer` hook error, the other hooks of that layer do not run.
  The hook loop is still entered for every later layer, and a later hook error
  replaces the recorded error.
- When a layer fails with a critical component error, the loop is left before
  `ComponentsSuccess` is computed. That layer's statistics keep
  `ComponentsSuccess = 0`. `ComponentsFailed` is never set, so every other layer
  reports `ComponentsSuccess = ComponentsTotal`.

## Model

| member | source | states |
|---|---|---|
| Errors.Text | engine/errors.go:17-124 | Error() for every kind: dispatches to the per-kind text below, a `%w` wrap as "context: inner", a foreign error as its own text; its properties are the *TextShape, TextLead and *Example lemmas |
| Errors.ComponentErrorText | engine/errors.go:17-22 | "component error in C: M", or "component error: M" without a component; stated by ComponentTextShape and the two component examples |
| Errors.ConfigErrorText | engine/errors.go:36-41 | "config error in field F: M", or "config error: M" without a field; stated by ConfigTextShape and the two config examples |
| Errors.ExecutionErrorText | engine/errors.go:57-64 | three forms, the layer shown only with a component; stated by ExecutionTextShape and ExecutionTextNeedsComponentForLayer |
| Errors.RetryExhaustedText | engine/errors.go:92-94 | "retry exhausted for component C after N attempts: E" with N = MaxRetries; stated by RetryTextShape and RetryTextExample |
| Errors.CriticalComponentText | engine/errors.go:107-109 | "critical component C failed in layer L: E"; stated by CriticalTextShape and CriticalTextExample |
| Errors.ValidationErrorText | engine/errors.go:122-124 | "validation error for field F: M", Value left out; stated by ValidationTextShape and ValidationTextIgnoresValue |
| Errors.Unwrap | engine/errors.go:24-113 | ComponentError, ConfigError, ExecutionError and CriticalComponentError unwrap to their cause (possibly nil), RetryExhaustedError to LastError, a `%w` wrap to its inner error, ValidationError and foreign errors to nil |
| Errors.ComponentTextShape | engine/errors.go:17-22 | a ComponentError's message begins "component error" and ends with its Message, with or without a component |
| Errors.ConfigTextShape | engine/errors.go:36-41 | a ConfigError's message begins "config error" and ends with its Message, with or without a field |
| Errors.ExecutionTextShape | engine/errors.go:57-64 | an ExecutionError's message begins "execution error" and ends with its Message in all three cases |
| Errors.ExecutionTextNeedsComponentForLayer | engine/errors.go:57-64 | with no component the message is "execution error: M" even when a layer is set |
| Errors.RetryTextShape | engine/errors.go:92-94 | a RetryExhaustedError's message begins "retry exhausted for component " and ends with the text of its last error ("<nil>" when there is none) |
| Errors.CriticalTextShape | engine/errors.go:107-109 | a CriticalComponentError's message begins "critical component " and ends with the text of its cause ("<nil>" when there is none) |
| Errors.ValidationTextShape | engine/errors.go:122-124 | a ValidationError's message begins "validation error for field " and ends with its Message |
| Errors.ValidationTextIgnoresValue | engine/errors.go:122-124 | the ValidationError message is "validation error for field F: M" and does not depend on Value |
| Errors.TextLead | engine/errors.go:17-124 | the message of every typed error opens with three letters that differ from kind to kind ("com", "con", "exe", "ret", "cri", "val") |
| Errors.ComponentTextExample | engine/errors_test.go:10-22 | the expected text "component error in test_component: test message" |
| Errors.ComponentTextWithoutComponentExample | engine/errors_test.go:24-34 | the expected text "component error: test message" |
| Errors.ConfigTextExample | engine/errors_test.go:62-73 | the expected text "config error in field test_field: invalid value" |
| Errors.ConfigTextWithoutFieldExample | engine/errors_test.go:75-85 | the expected text "config error: invalid value" |
| Errors.ExecutionTextExample | engine/errors_test.go:102-116 | the expected text "execution error in layer test_layer, component test_component: execution failed" |
| Errors.ExecutionTextWithoutComponentExample | engine/errors_test.go:118-130 | the expected text "execution error: execution failed" |
| Errors.RetryTextExample | engine/errors_test.go:163-175 | the expected text "retry exhausted for component test_component after 3 attempts: last error" |
| Errors.CriticalTextExample | engine/errors_test.go:192-204 | the expected text "critical component test_component failed in layer test_layer: test cause" |
| Errors.ValidationTextExample | engine/errors_test.go:221-232 | the expected text "validation error for field test_field: must be a valid format" |
| Errors.NatToStringRoundTrip | engine/errors.go:93 | the decimal rendering of `%d` reads back as the same number |
| ConfigParser.ValidateConfig | engine/config.go:115-130 | an empty name and zero layers are reported first, as ValidationErrors on "name" and "layers"; every failure is a ValidationError |
| ConfigParser.ValidateComponentsFrom | engine/config.go:196-224 | the component loop from position j: empty name, repeated name, then empty type, each a ValidationError on components[j]; its exact pass condition is ComponentsFromExact |
| ConfigParser.ValidateLayerConfig | engine/config.go:167-227 | the mode (empty read as serial), then at least one component, then the component loop; every failure a ValidationError; exact pass condition in LayerConfigExact |
| ConfigParser.ValidateLayersFrom | engine/config.go:133-156 | the layer loop from position i: empty name, repeated name, then validateLayerConfig; every failure a ValidationError; LayersFromExact and FirstDuplicateLayerNameReported state when and what it reports |
| ConfigParser.LayerIndex | engine/config.go:231-234 | the name-to-index map: the last layer with the name, and none when no layer has it |
| ConfigParser.ValidateDependencyList | engine/config.go:237-255 | each dependency in order: an unknown name gives "dependency layer not found", an index not before i gives "circular or forward dependency detected", both ValidationErrors on layers[i].dependencies |
| ConfigParser.ValidateDependenciesFrom | engine/config.go:230-259 | the dependencies of every layer from i on, the first error winning; a failure is a ValidationError |
| ConfigParser.ValidateLayerDependencies | engine/config.go:230-259 | validateLayerDependencies over all layers; a failure is a ValidationError; DependenciesFromExact gives its exact pass condition |
| ConfigParser.ValidateConfigExact | engine/config.go:115-164 | validateConfig returns nil exactly when the name is set and at least one layer exists. Layer names must be non-empty and distinct, every layer valid, and every dependency positional |
| ConfigParser.LayersFromExact | engine/config.go:133-156 | the layer loop passes exactly when names are non-empty, unseen, and each layer configuration is valid |
| ConfigParser.FirstDuplicateLayerNameReported | engine/config.go:143-149 | the first repeated layer name is reported on field layers[i].name with "duplicate layer name: N" |
| ConfigParser.LayersFromSkipsCleanPrefix | engine/config.go:134-156 | layers before the first offending one do not affect which error is reported |
| ConfigParser.LayerConfigExact | engine/config.go:167-227 | a layer passes exactly when its mode (empty counting as serial) is valid and it has components, all with non-empty distinct names and non-empty types |
| ConfigParser.ComponentsFromExact | engine/config.go:196-224 | the component loop passes exactly when names are non-empty and distinct and types non-empty |
| ConfigParser.LayerIndexBackward | engine/config.go:231-254 | the name-to-index map (last index wins) is strictly before i exactly when the dependency names an existing layer and every layer of that name sits before i |
| ConfigParser.DependencyListExact | engine/config.go:237-255 | a layer's dependencies pass exactly when each depends backward |
| ConfigParser.DependenciesFromExact | engine/config.go:230-259 | validateLayerDependencies passes exactly when every layer's dependencies depend backward |
| ConfigParser.SelfDependencyRejected | engine/config.go:248-254 | a layer that depends on itself makes validation fail |
| ConfigParser.FirstLayerIsLastInValidConfig | engine/config.go:231-234 | in a valid configuration the name-to-index map gives the layer's own index |
| ConfigParser.Defaulted | engine/config.go:262-290 | the configuration setDefaults leaves, with as many layers as before; DefaultsEstablished, DefaultsKeepIdentity, DefaultsIdempotent and DefaultsPreserveValidity state what it does |
| ConfigParser.SetDefaults | engine/config.go:262-290 | the in-place loops over layers and components produce Defaulted(config) |
| ConfigParser.DefaultsEstablished | engine/config.go:262-290 | an empty version becomes "1.0.0" and a set one is kept; every layer has its mode with empty read as serial and is enabled; a component is enabled exactly when it was already or has a type; a zero component timeout becomes 30 seconds and a set one is kept |
| ConfigParser.DefaultsKeepIdentity | engine/config.go:262-290 | defaulting keeps the config name, description, timeout, global settings and metadata; each layer's name, dependencies, parallelism, timeout and remove flag; each component's name, type, config, dependencies, criticality and retry settings |
| ConfigParser.DefaultsIdempotent | engine/config.go:262-290 | applying setDefaults a second time changes nothing |
| ConfigParser.DefaultsPreserveValidity | engine/config.go:79-85 | a configuration is valid after defaulting exactly when it was valid before |
| ConfigParser.ParseBytes | engine/config.go:66-88 | env substitution, then decoding (a failure is a json_unmarshal_failed ConfigError wrapping it), then validation (its error returned, no config), then defaults; a returned config is valid and already defaulted |
| ConfigParser.CloseBraceFirst | engine/config.go:32 | the scan finds the first '}' after the opening "${" |
| ConfigParser.MatchAtShape | engine/config.go:32 | a match of `\$\{([^}]+)\}` is "${", one or more non-'}' characters, then '}'; a string that starts that way always matches |
| ConfigParser.MatchPlaceholder | engine/config.go:32 | "${body}" with no '}' in body matches with length \|body\|+3 |
| ConfigParser.SplitFirst | engine/config.go:97-103 | SplitN(s, ":", 2): the name part has no ':' and name, ':' and rest put back together give the input |
| ConfigParser.SplitFirstUnique | engine/config.go:97 | the split at the first ':' is unique, so the default part may itself contain ':' |
| ConfigParser.SubstituteSetVariable | engine/config.go:105-108 | a variable set to a non-empty value is replaced by that value, with or without a default |
| ConfigParser.SubstituteUnsetVariable | engine/config.go:101-110 | an unset or empty variable is replaced by its default part, or by "" without one |
| ConfigParser.Substitute | engine/config.go:97-110 | the replacement of one `${body}`: the variable's value when set and non-empty, else the default after the first ':', else ""; stated by SubstituteSetVariable and SubstituteUnsetVariable |
| ConfigParser.ReplaceEnvVars | engine/config.go:91-112 | replaceEnvVars scanning left to right; stated by NoMatchUnchanged, ReplaceWithoutDollar, ReplaceAfterPlainText and ReplacePlaceholderAtStart |
| ConfigParser.NoMatchUnchanged | engine/config.go:91-112 | text in which no position starts a match of `\$\{([^}]+)\}` is unchanged, including a '$' that starts none ("$5", "${}", "${abc") |
| ConfigParser.ReplaceWithoutDollar | engine/config.go:91-112 | text with no '$' is unchanged |
| ConfigParser.ReplaceAfterPlainText | engine/config.go:91-112 | text before the first '$' is copied unchanged, and substitution continues after it |
| ConfigParser.ReplacePlaceholderAtStart | engine/config.go:91-112 | a placeholder is replaced by its substitute and the scan resumes right after its '}' |
| ConfigParser.GetLayer | engine/config.go:306-313 | the first layer with the name, or none when no layer has it |
| ConfigParser.GetComponent | engine/config.go:316-328 | the first component with the name inside the first layer with the layer name; none if either is missing |
| Components.ComponentRegistry.constructor | engine/component.go:86-90 | a new registry has no factories |
| Components.ComponentRegistry.Register | engine/component.go:93-95 | the factory is stored under its own type, replacing an earlier one; Create for that type now gives the factory's result, every other type is unaffected |
| Components.ComponentRegistry.Create | engine/component.go:98-108 | an unregistered type gives a factory_not_found ComponentError; a registered one gives the factory's own result unchanged |
| Components.FactoryNotFound | engine/component.go:100-104 | the error is a ComponentError of kind factory_not_found with no component, layer or cause |
| Components.ComponentRegistry.GetRegisteredTypes | engine/component.go:111-117 | every registered type exactly once, and nothing else |
| DataContexts.DataContext.constructor | engine/datacontext.go:29-31 | a new context is empty |
| DataContexts.DataContext.With | engine/datacontext.go:34-40 | the context starts with exactly the given entries, copied one by one |
| DataContexts.CopyEntries | engine/datacontext.go:36-38 | the entry-by-entry copy loop yields the same map |
| DataContexts.DataContext.Set | engine/datacontext.go:42-46 | the key now maps to the value and every other key is unchanged |
| DataContexts.DataContext.Get | engine/datacontext.go:48-53 | presence exactly when the key is stored, with its value; nil when absent |
| DataContexts.DataContext.GetString | engine/datacontext.go:55-64 | (s, true) exactly when the stored value is a string s; otherwise ("", false) |
| DataContexts.DataContext.Delete | engine/datacontext.go:66-70 | the key is gone and the other keys are unchanged; deleting an absent key changes nothing |
| DataContexts.DataContext.Has | engine/datacontext.go:72-77 | true exactly when the key is stored, the same presence Get reports |
| DataContexts.DataContext.Snapshot | engine/datacontext.go:79-87 | the snapshot equals the current contents |
| DataContexts.SnapshotIsolated | engine/datacontext.go:79-87 | a snapshot taken before a Set and a Delete still holds the old contents |
| Layers.EnabledConfigs | engine/layer.go:50-53 | the configurations NewLayer builds are enabled ones, never more than were declared |
| Layers.EnabledConfigsMembers | engine/layer.go:50-53 | a configuration is built exactly when it is declared and enabled |
| Layers.EnabledConfigsAppend | engine/layer.go:50-53 | the enabled-filter distributes over concatenation, so it keeps declaration order |
| Layers.EnabledConfigsKeepOrder | engine/layer.go:50-53 | an enabled entry at position k is built at the position given by the number of enabled entries before it |
| Layers.Built | engine/layer.go:50-65 | layer construction succeeds exactly when the registry creates every enabled configuration; then it holds one component per enabled configuration, in order; otherwise the error is the first creation failure |
| Layers.BuiltFailsAtFirst | engine/layer.go:56-61 | when enabled configurations 0..k-1 are created and k fails, construction fails with component_creation_failed for configuration k carrying the factory's error |
| Layers.CreationFailed | engine/layer.go:56-61 | a creation failure is a component_creation_failed ComponentError carrying the layer name and no component or cause |
| Layers.NewLayer | engine/layer.go:42-68 | the append loop returns the layer with Built's components, or Built's error and no layer |
| Layers.ExecuteWithRetry | engine/layer.go:251-287 | the attempt loop (with cancellation checked before each retry) produces RetryFrom's result, call count and stopping reason |
| Layers.RetryFrom | engine/layer.go:251-287 | the attempt loop from a given attempt: result, number of Execute calls and stopping reason; RetryHistory and the lemmas below state what it does |
| Layers.RetryHistory | engine/layer.go:256-286 | at most MaxRetries+1 calls; every call before the last failed with an error ShouldRetry accepted; nil exactly on success; a non-retryable error or exhaustion gives a RetryExhaustedError whose RetryErrors are the failed calls' errors in order, LastError the final one; exhaustion means MaxRetries+1 calls, all retryable failures; cancellation returns ctx.Err() and happens only when the context was done before a retry |
| Layers.RetryExhaustsWhenAllFail | engine/layer.go:256-286 | when every call fails with a retryable error and the context is never done, exactly MaxRetries+1 calls are made and the RetryExhaustedError holds all their errors, in order, the last one as LastError |
| Layers.NegativeMaxRetriesMakesNoCall | engine/layer.go:256 | with MaxRetries < 0 Execute is never called, and the result is a RetryExhaustedError with no errors |
| Layers.RetrySucceedsAfterFailures | engine/layer.go:256-270 | k retryable failures followed by a success (k ≤ MaxRetries, no cancellation) succeed after exactly k+1 calls |
| Layers.ExhaustedError | engine/layer.go:281-286 | the exhausted error records the component, MaxRetries, every error, and the last error (nil when there is none) |
| Layers.RetryDelay | engine/layer.go:259 | the delay before retry n is zero for the first retry and never negative when Delay and Backoff are not |
| Layers.IsCriticalComponent | engine/layer.go:290-297 | true exactly when the first configuration with that name is critical; disabled entries count |
| Layers.ClassifyFailure | engine/layer.go:228-246 | a failure of a critical component is a CriticalComponentError, otherwise a component_execution_failed ExecutionError; both carry the component and layer names and wrap the cause |
| Layers.ComponentResult | engine/layer.go:194-249 | what executeComponent returns and how many Execute calls it makes; stated by InitializeFailureSkipsExecute, ExecuteFailureClassified and PlainComponentCalledOnce |
| Layers.ExecuteComponent | engine/layer.go:194-249 | executeComponent produces ComponentResult: initialize, then execute directly or through the retry loop, then classify |
| Layers.InitializeFailureSkipsExecute | engine/layer.go:198-207 | a failed Initialize yields initialization_failed wrapping its error, and Execute is never called |
| Layers.ExecuteFailureClassified | engine/layer.go:228-246 | any failure after initialization is classified as critical or execution error for the component and layer |
| Layers.PlainComponentCalledOnce | engine/layer.go:221-226 | a component without retry support is executed exactly once, and fails exactly when that call fails |
| Layers.ExecuteSerial | engine/layer.go:115-122 | components run in order; the first error is returned; nothing after it runs; nil when all succeed |
| Layers.ParallelBound | engine/layer.go:130-133 | the bound is Parallel when Parallel > 0, and the component count when Parallel ≤ 0; at least 1 unless there are no components |
| Layers.CollectParallelErrors | engine/layer.go:159-179 | the collector loop returns ParallelVerdict |
| Layers.ParallelVerdict | engine/layer.go:159-179 | nil exactly when no error arrived; otherwise the first critical error received, or, when none is critical, a parallel_execution_failed ExecutionError with message "parallel execution failed with N errors" for N received, no component, the layer's name and the first error as cause |
| Layers.ParallelVerdictOrderIndependent | engine/layer.go:159-179 | whether parallel execution fails, and whether with a critical error, does not depend on arrival order |
| Layers.CriticalPresence | engine/layer.go:160-166 | the collector finds a critical error exactly when one was received |
| Layers.ReceivedNothing | engine/layer.go:137-148 | the first n arrivals send no error exactly when each of those n components succeeded |
| Layers.NothingReceivedIffAllSucceed | engine/layer.go:137-179 | since every component reports once, nothing is received exactly when all succeed |
| Layers.RunComponent | engine/layer.go:139-149 | the goroutine for component k reports exactly that component's executeComponent outcome |
| Layers.RunAll | engine/layer.go:137-161 | every component runs once and the errors arrive in the given arrival order |
| Layers.ExecuteParallel | engine/layer.go:125-180 | the layer's result is the verdict over what arrived, and nil exactly when every component succeeded |
| Layers.Execute | engine/layer.go:86-112 | disabled: nil without running anything; serial: the first component error; parallel: the collected verdict; async: nil at once; another mode: an invalid_execution_mode ConfigError on field "mode" |
| Layers.ComponentValidationError | engine/layer.go:331-338 | the first component Validate error, in order; nil when all pass |
| Layers.Validate | engine/layer.go:300-341 | an empty name, then an empty mode, then an invalid mode ("invalid execution mode: M"), each as its exact ValidationError; otherwise the first failing component's own Validate error (ComponentValidationError); nil exactly when all hold |
| Engines.Handle | engine/engine.go:337-340 | the default error handler returns nil; a custom one returns its own result |
| Engines.Engine.constructor | engine/engine.go:108-114 | a new engine has the config and registry, no layers, the default handler and no middleware |
| Engines.Engine.Apply | engine/engine.go:72-90 | WithErrorHandler replaces the handler, WithMiddleware appends, WithLogger changes nothing modelled |
| Engines.HandlerAfter | engine/engine.go:79-83 | the handler the options leave: the last WithErrorHandler; Engine.ApplyAll states the engine ends with it |
| Engines.MiddlewareAfter | engine/engine.go:86-90 | the middleware the options leave: every WithMiddleware list, in option order; Engine.ApplyAll states the engine ends with it |
| Engines.Engine.ApplyAll | engine/engine.go:116-119 | the options are applied in order: the last handler wins and middleware accumulates |
| Engines.LayersBuilt | engine/engine.go:122-134 | on success one layer per configuration entry; a failure is always a wrapped error; LayersBuiltFailsAtFirst says which |
| Engines.LayersBuiltFailsAtFirst | engine/engine.go:122-134 | when layers 0..k-1 build and validate and layer k does not, NewEngine's error is layer k's, wrapped as "failed to create layer N" or "layer validation failed for N" |
| Engines.LayersBuiltContents | engine/engine.go:122-134 | on success, layer k is configuration k with its built components, and it passed Validate; disabled layers included |
| Engines.BuildLayers | engine/engine.go:122-134 | the layer loop of NewEngine produces LayersBuilt |
| Engines.Engine.NewEngine | engine/engine.go:93-137 | nil config and nil registry give nil_config / nil_registry ConfigErrors and no engine; a layer failure gives the wrapped error and no engine; otherwise a fresh engine with the built layers and the options applied |
| Engines.BuiltLayersDistinct | engine/engine.go:122-134 | layers built from a configuration with distinct layer names have distinct names |
| Engines.BuiltEngineValidates | engine/engine.go:295-313 | an engine built from a valid configuration passes both halves of Engine.Validate |
| Engines.BeforeExecutionError | engine/engine.go:153-157 | the first failing BeforeExecution hook, in order; nil when all pass |
| Engines.BeforeLayerError | engine/engine.go:179-186 | the first failing BeforeLayer hook for that layer; nil when all pass |
| Engines.Engine.Execute | engine/engine.go:140-265 | LayersTotal is the layer count; a BeforeExecution failure returns at once wrapped, with an empty stats map and zero counters; otherwise stats and error are those of the layer loop, and Success holds exactly when the returned error is nil, which stats.Error equals |
| Engines.Engine.ExecuteLayer | engine/engine.go:169-234 | one pass of the loop body computes Step: the BeforeLayer hooks, Execute unless an error is already recorded, the handler, the counters and the stats entry, then the cancellation check |
| Engines.Engine.RunBeforeLayer | engine/engine.go:179-186 | the BeforeLayer hooks for the layer, stopping at the first error |
| Engines.Step | engine/engine.go:168-234 | the loop body for layer i: BeforeLayer hooks, Execute unless an error is recorded, the handler, counters and stats entry, the stop on a critical error, then the cancellation check; StepConsistent and StepRecorded state what it keeps |
| Engines.RunFrom | engine/engine.go:166-235 | the loop from layer i to the end or the critical stop; RunOutcome, RunLayerStats, CriticalEndsRun and DefaultHandlerKeepsLayerError state its result |
| Engines.StepStops | engine/engine.go:179-207 | one pass of the body ends the loop exactly when no error is recorded, no BeforeLayer hook fails and the layer's Execute returns a critical component error |
| Engines.ReachedCritical | engine/engine.go:168-234 | from a clean start, a layer k reached through clean layers, with no hook error and a critical Execute error, is the last layer reached and the last executed |
| Engines.CriticalEndsRun | engine/engine.go:204-207 | a layer that executes and fails with a critical component error ends the run: no later layer is reached, executed, or (with distinct names) given a stats entry |
| Engines.Finish | engine/engine.go:237-241 | the statistics Execute returns: LayersTotal, the counters, the per-layer map, Success exactly when the error is nil, and that error |
| Engines.RunOutcome | engine/engine.go:166-241 | layer k's Execute is called exactly when every earlier layer met no BeforeLayer error, succeeded and left the context not done, and layer k meets no BeforeLayer error (so layers 0, 1, … execute in order with no gaps); at most one fails; success+failed equals the executed count and never exceeds LayersTotal; the run succeeds exactly when no layer meets a BeforeLayer error, a failed Execute or a done context |
| Engines.RunLayerStats | engine/engine.go:168-234 | with distinct layer names: the loop reaches every layer, or stops right after the one whose Execute failed with a critical error; exactly the reached layers have a stats entry, and each entry is ExpectedStats for that layer: its Execute error if it was called, else its BeforeLayer error, and ComponentsSuccess 0 after a critical failure, otherwise ComponentsTotal |
| Engines.ExpectedStats | engine/engine.go:169-218 | the entry a layer ends with never counts a failed component, and it records success exactly when the layer's Execute was called and returned nil |
| Engines.DefaultHandlerKeepsLayerError | engine/engine.go:190-201 | with the default handler, no hook errors and no cancellation, a failed run returns the failing layer's own error |
| Engines.Engine.GetLayer | engine/engine.go:282-292 | the first layer with the name, or none when no layer has it |
| Engines.Engine.Validate | engine/engine.go:295-313 | a configuration error comes first; otherwise the first layer Validate error; nil exactly when everything passes |

## Left out

- Goroutines, the semaphore, the wait group and the channels of parallel and async
  mode, and every mutex: concurrency. Parallel mode is modelled as each component
  running once. The results arrive in an `arrival` permutation, and the
  semaphore's bound is computed but not enforced.
- Async mode starts its components and returns nil at once. The model returns nil
  and does not run the components, because nothing waits for them.
- Context deadlines, `time.Now`, durations and timestamps in the statistics and errors:
  clocks. Cancellation is the boolean input described above.
- The retry sleep. `RetryDelay` gives its length as a real number, and nothing sleeps.
- Layers.RetryDelay: float64 rounding and the conversion to `time.Duration` are not modelled.
- JSON decoding and encoding (`ParseFile`, `Parse`, `ToJSON`, `Clone`) and file reading:
  foreign calls and I/O. `ParseBytes` takes the decoder as a parameter, and the
  environment is a map instead of `os.Getenv`.
- Configuration inheritance: the shown `Config` has no field for it and no code
  implements it.
- The `TimeoutError` message: it depends on Go's duration formatting.
- The logger. The cleanup call in `executeComponent`: it only prints a warning.
- Middleware side effects. The engine only logs the errors of `AfterLayer` and
  `AfterExecution`, and the model does not call them. All four hooks receive
  data by pointer and may change it:
  - `BeforeExecution` gets the `*Config`;
  - `BeforeLayer` gets the `*Layer`;
  - `AfterLayer` gets the `*LayerStats`;
  - `AfterExecution` gets the `*ExecutionStats`, after `Success` and `Error` are set
    (`engine/engine.go:62-66,238-245`).
  A hook in the model is only its error result. `Engine.Execute`'s statistics
  equal `Finish(RunFrom(...))` only for hooks that change none of this data.
- Engines.Engine.Execute: its statistics and error are stated for middleware that does not
  change the config, layers or statistics it receives.
- The loops listed above as recursive functions (`ValidateConfig`, `ValidateLayersFrom`,
  `ValidateComponentsFrom`, `ValidateDependenciesFrom`, `ValidateDependencyList`,
  `LayerIndex`, `IsCriticalComponent`, `ComponentValidationError`, `ReplaceEnvVars`)
  are not step-by-step loops in the model. Their `seen` sets, the name-to-index map and
  the output buffer are function arguments, not variables updated in place. Each
  function gives the loop's result and its early returns, in order.
- `Layer.Execute`'s own timeout and the engine's global timeout: clocks. Each
  layer's result inside `Engine.Execute` is an input, and `Layers.Execute`
  models what produces it.
- What components do to the data context is part of their `Execute` results. The
  data context is modelled on its own.
- The `registry` field that `Layer` keeps but never reads again. The getters
  `GetConfig` and `GetLayers` only return fields.
- `kflow.go` and the example programs: they only re-export names and demonstrate use.
- Engines.RunLayerStats: the per-layer entries are stated for layers with distinct names.
  With duplicate names, a later layer overwrites an earlier entry, as in the source.
