/**
 * engine/component.go: components as the engine sees them, factories, and the registry
 * that maps a component type to its factory.
 *
 * A component's behaviour is foreign code; it is modelled by the results it gives:
 * the optional Initialize and Validate methods, the optional retry interface, and the
 * result of each numbered Execute call (None stands for a nil error).
 */
module Components {
  import opened Wrappers
  import opened ConfigTypes
  import opened Errors

  /** An optional interface method: not implemented, or implemented and returning `result`. */
  datatype Hook = NotImplemented | Implemented(result: Option<Error>)

  /** RetryableComponent: GetRetryConfig and ShouldRetry. */
  datatype Retryable = Retryable(config: RetryConfig, shouldRetry: Error -> bool)

  /** A component instance; `execute(n)` is the result of its n-th Execute call (from 0). */
  datatype Component = Component(
    name: string,
    initialize: Hook,
    validate: Hook,
    retry: Option<Retryable>,
    execute: nat -> Option<Error>)

  /** ComponentFactory: GetType and Create. */
  datatype Factory = Factory(typeName: string, create: ComponentConfig -> Result<Component, Error>)

  /** The error Create returns for a type nobody registered. */
  function FactoryNotFound(typeName: string): (e: Error)
    ensures e.ComponentError? && e.kind == "factory_not_found" && e.component == "" && e.layer == "" && e.cause.None?
    ensures e.message == "component factory not found for type: " + typeName
  {
    ComponentError("factory_not_found", "component factory not found for type: " + typeName, "", "", None)
  }

  class ComponentRegistry {
    var factories: map<string, Factory>

    /** NewComponentRegistry */
    constructor()
      ensures factories == map[]
    {
      factories := map[];
    }

    /** Register stores the factory under its own type, replacing any earlier one. */
    method Register(factory: Factory)
      modifies this
      ensures factories == old(factories)[factory.typeName := factory]
      ensures forall c: ComponentConfig :: c.typeName == factory.typeName ==> Create(c) == factory.create(c)
      ensures forall c: ComponentConfig :: c.typeName != factory.typeName ==> Create(c) == old(Create(c))
    {
      factories := factories[factory.typeName := factory];
    }

    /** Create: the factory's own result for a registered type, factory_not_found otherwise. */
    function Create(config: ComponentConfig): (r: Result<Component, Error>)
      reads this
      ensures config.typeName !in factories ==> r == Failure(FactoryNotFound(config.typeName))
      ensures config.typeName in factories ==> r == factories[config.typeName].create(config)
    {
      if config.typeName in factories then factories[config.typeName].create(config)
      else Failure(FactoryNotFound(config.typeName))
    }

    /** GetRegisteredTypes: every registered type exactly once, in no particular order. */
    method GetRegisteredTypes() returns (types: seq<string>)
      ensures forall t :: t in types <==> t in factories
      ensures forall i, j :: 0 <= i < j < |types| ==> types[i] != types[j]
    {
      types := [];
      var remaining := factories.Keys;
      while remaining != {}
        invariant remaining <= factories.Keys
        invariant forall t :: t in types <==> t in factories && t !in remaining
        invariant forall i, j :: 0 <= i < j < |types| ==> types[i] != types[j]
        decreases |remaining|
      {
        var t :| t in remaining;
        types := types + [t];
        remaining := remaining - {t};
      }
    }
  }
}
