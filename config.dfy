/**
 * engine/config.go: validation of a decoded configuration (first failing rule wins),
 * defaulting, `${VAR}` / `${VAR:default}` substitution over the raw text, ParseBytes,
 * and the first-match lookups GetLayer and GetComponent.
 * JSON decoding is a parameter (`unmarshal`); the process environment is a map.
 */
module ConfigParser {
  import opened Wrappers
  import opened ConfigTypes
  import opened Errors

  // ---------------------------------------------------------------------------
  // Validation

  /** "layers[i]" as fmt.Sprintf("layers[%d]", i) prints it. */
  function LayerPath(i: nat): string {
    "layers[" + NatToString(i) + "]"
  }

  /** "layers[i].components[j]" */
  function ComponentPath(i: nat, j: nat): string {
    LayerPath(i) + ".components[" + NatToString(j) + "]"
  }

  /** validateLayerConfig treats an empty mode as serial (on its own copy of the layer). */
  function EffectiveMode(mode: string): string {
    if mode == "" then SerialMode else mode
  }

  /** The component loop of validateLayerConfig, from position j, with the names seen so far. */
  function ValidateComponentsFrom(cs: seq<ComponentConfig>, index: nat, j: nat, seen: set<string>): (r: Option<Error>)
    requires j <= |cs|
    ensures r.Some? ==> r.value.ValidationError?
    decreases |cs| - j
  {
    if j == |cs| then None
    else if cs[j].name == "" then
      Some(ValidationError(ComponentPath(index, j) + ".name", TextValue(cs[j].name), "component name cannot be empty"))
    else if cs[j].name in seen then
      Some(ValidationError(ComponentPath(index, j) + ".name", TextValue(cs[j].name),
                           "duplicate component name in layer: " + cs[j].name))
    else if cs[j].typeName == "" then
      Some(ValidationError(ComponentPath(index, j) + ".type", TextValue(cs[j].typeName), "component type cannot be empty"))
    else ValidateComponentsFrom(cs, index, j + 1, seen + {cs[j].name})
  }

  /** validateLayerConfig: mode, then at least one component, then the components in order. */
  function ValidateLayerConfig(layer: LayerConfig, index: nat): (r: Option<Error>)
    ensures r.Some? ==> r.value.ValidationError?
  {
    var mode := EffectiveMode(layer.mode);
    if !IsValidMode(mode) then
      Some(ValidationError(LayerPath(index) + ".mode", TextValue(mode), "invalid execution mode: " + mode))
    else if |layer.components| == 0 then
      Some(ValidationError(LayerPath(index) + ".components", ComponentsValue(layer.components),
                           "layer must have at least one component"))
    else ValidateComponentsFrom(layer.components, index, 0, {})
  }

  /** The layer loop of validateConfig, from position i, with the layer names seen so far. */
  function ValidateLayersFrom(layers: seq<LayerConfig>, i: nat, seen: set<string>): (r: Option<Error>)
    requires i <= |layers|
    ensures r.Some? ==> r.value.ValidationError?
    decreases |layers| - i
  {
    if i == |layers| then None
    else if layers[i].name == "" then
      Some(ValidationError(LayerPath(i) + ".name", TextValue(layers[i].name), "layer name cannot be empty"))
    else if layers[i].name in seen then
      Some(ValidationError(LayerPath(i) + ".name", TextValue(layers[i].name), "duplicate layer name: " + layers[i].name))
    else
      match ValidateLayerConfig(layers[i], i)
      case Some(e) => Some(e)
      case None => ValidateLayersFrom(layers, i + 1, seen + {layers[i].name})
  }

  /** layerMap[name] of validateLayerDependencies: the LAST index that holds the name. */
  function LayerIndex(layers: seq<LayerConfig>, name: string): (r: Option<nat>)
    ensures r.Some? ==> r.value < |layers| && layers[r.value].name == name
                        && forall k :: r.value < k < |layers| ==> layers[k].name != name
    ensures r.None? ==> forall k :: 0 <= k < |layers| ==> layers[k].name != name
  {
    if |layers| == 0 then None
    else if layers[|layers| - 1].name == name then Some(|layers| - 1)
    else LayerIndex(layers[..|layers| - 1], name)
  }

  /** The dependencies of layer i, in order. */
  function ValidateDependencyList(layers: seq<LayerConfig>, i: nat, deps: seq<string>): (r: Option<Error>)
    ensures r.Some? ==> r.value.ValidationError?
  {
    if |deps| == 0 then None
    else
      match LayerIndex(layers, deps[0])
      case None =>
        Some(ValidationError(LayerPath(i) + ".dependencies", TextValue(deps[0]), "dependency layer not found: " + deps[0]))
      case Some(k) =>
        if k >= i then
          Some(ValidationError(LayerPath(i) + ".dependencies", TextValue(deps[0]),
                               "circular or forward dependency detected: " + deps[0]))
        else ValidateDependencyList(layers, i, deps[1..])
  }

  function ValidateDependenciesFrom(layers: seq<LayerConfig>, i: nat): (r: Option<Error>)
    requires i <= |layers|
    ensures r.Some? ==> r.value.ValidationError?
    decreases |layers| - i
  {
    if i == |layers| then None
    else
      match ValidateDependencyList(layers, i, layers[i].dependencies)
      case Some(e) => Some(e)
      case None => ValidateDependenciesFrom(layers, i + 1)
  }

  /** validateLayerDependencies */
  function ValidateLayerDependencies(layers: seq<LayerConfig>): (r: Option<Error>)
    ensures r.Some? ==> r.value.ValidationError?
  {
    ValidateDependenciesFrom(layers, 0)
  }

  /** validateConfig: the name, then at least one layer, then each layer, then the dependencies. */
  function ValidateConfig(c: Config): (r: Option<Error>)
    ensures r.Some? ==> r.value.ValidationError?
    ensures c.name == "" ==> r == Some(ValidationError("name", TextValue(""), "config name cannot be empty"))
    ensures c.name != "" && |c.layers| == 0 ==>
              r == Some(ValidationError("layers", LayersValue([]), "at least one layer must be defined"))
  {
    if c.name == "" then Some(ValidationError("name", TextValue(c.name), "config name cannot be empty"))
    else if |c.layers| == 0 then
      Some(ValidationError("layers", LayersValue(c.layers), "at least one layer must be defined"))
    else
      match ValidateLayersFrom(c.layers, 0, {})
      case Some(e) => Some(e)
      case None => ValidateLayerDependencies(c.layers)
  }

  // The same rules, stated declaratively.

  predicate ComponentNamesDistinct(cs: seq<ComponentConfig>) {
    forall j, k :: 0 <= j < k < |cs| ==> cs[j].name != cs[k].name
  }

  predicate ComponentsWellFormed(cs: seq<ComponentConfig>) {
    && (forall j :: 0 <= j < |cs| ==> cs[j].name != "" && cs[j].typeName != "")
    && ComponentNamesDistinct(cs)
  }

  predicate LayerConfigValid(l: LayerConfig) {
    IsValidMode(EffectiveMode(l.mode)) && |l.components| > 0 && ComponentsWellFormed(l.components)
  }

  predicate LayerNamesValid(layers: seq<LayerConfig>) {
    && (forall i :: 0 <= i < |layers| ==> layers[i].name != "")
    && (forall i, k :: 0 <= i < k < |layers| ==> layers[i].name != layers[k].name)
  }

  /** Layer i may depend on `dep` only if every layer named `dep` sits strictly before i, and one does. */
  predicate DependsBackward(layers: seq<LayerConfig>, i: nat, dep: string) {
    && (exists k :: 0 <= k < i && k < |layers| && layers[k].name == dep)
    && (forall k :: i <= k < |layers| ==> layers[k].name != dep)
  }

  predicate DependenciesPositional(layers: seq<LayerConfig>) {
    forall i, dep :: 0 <= i < |layers| && dep in layers[i].dependencies ==> DependsBackward(layers, i, dep)
  }

  predicate ValidConfig(c: Config) {
    && c.name != ""
    && |c.layers| > 0
    && LayerNamesValid(c.layers)
    && (forall i :: 0 <= i < |c.layers| ==> LayerConfigValid(c.layers[i]))
    && DependenciesPositional(c.layers)
  }

  /** The names of layers[..j], the set validateConfig has seen when it reaches layer j. */
  function NamesBefore(layers: seq<LayerConfig>, j: nat): set<string>
    requires j <= |layers|
  {
    set k | 0 <= k < j :: layers[k].name
  }

  lemma {:induction false} ComponentsFromExact(cs: seq<ComponentConfig>, index: nat, j: nat, seen: set<string>)
    requires j <= |cs|
    ensures ValidateComponentsFrom(cs, index, j, seen).None? <==>
              && (forall k :: j <= k < |cs| ==> cs[k].name != "" && cs[k].typeName != "" && cs[k].name !in seen)
              && (forall k, m :: j <= k < m < |cs| ==> cs[k].name != cs[m].name)
    decreases |cs| - j
  {
    if j < |cs| && cs[j].name != "" && cs[j].name !in seen && cs[j].typeName != "" {
      ComponentsFromExact(cs, index, j + 1, seen + {cs[j].name});
    }
  }

  /** validateLayerConfig accepts a layer exactly when its mode is valid and its components are well formed. */
  lemma LayerConfigExact(layer: LayerConfig, index: nat)
    ensures ValidateLayerConfig(layer, index).None? <==> LayerConfigValid(layer)
  {
    ComponentsFromExact(layer.components, index, 0, {});
  }

  lemma {:induction false} LayersFromExact(layers: seq<LayerConfig>, i: nat, seen: set<string>)
    requires i <= |layers|
    ensures ValidateLayersFrom(layers, i, seen).None? <==>
              && (forall k :: i <= k < |layers| ==> layers[k].name != "" && layers[k].name !in seen && LayerConfigValid(layers[k]))
              && (forall k, m :: i <= k < m < |layers| ==> layers[k].name != layers[m].name)
    decreases |layers| - i
  {
    if i < |layers| {
      LayerConfigExact(layers[i], i);
      if layers[i].name != "" && layers[i].name !in seen && LayerConfigValid(layers[i]) {
        LayersFromExact(layers, i + 1, seen + {layers[i].name});
      }
    }
  }

  /** The last index holding `dep` lies before i exactly when layer i depends backward on it. */
  lemma LayerIndexBackward(layers: seq<LayerConfig>, i: nat, dep: string)
    ensures (LayerIndex(layers, dep).Some? && LayerIndex(layers, dep).value < i) <==> DependsBackward(layers, i, dep)
  {
    var r := LayerIndex(layers, dep);
    if r.Some? && r.value < i {
      assert 0 <= r.value < i && r.value < |layers| && layers[r.value].name == dep;
    }
  }

  lemma {:induction false} DependencyListExact(layers: seq<LayerConfig>, i: nat, deps: seq<string>)
    ensures ValidateDependencyList(layers, i, deps).None? <==> forall d :: d in deps ==> DependsBackward(layers, i, d)
  {
    if |deps| > 0 {
      LayerIndexBackward(layers, i, deps[0]);
      DependencyListExact(layers, i, deps[1..]);
      assert forall d :: d in deps <==> d == deps[0] || d in deps[1..];
    }
  }

  lemma {:induction false} DependenciesFromExact(layers: seq<LayerConfig>, i: nat)
    requires i <= |layers|
    ensures ValidateDependenciesFrom(layers, i).None? <==>
              forall k, d :: i <= k < |layers| && d in layers[k].dependencies ==> DependsBackward(layers, k, d)
    decreases |layers| - i
  {
    if i < |layers| {
      DependencyListExact(layers, i, layers[i].dependencies);
      DependenciesFromExact(layers, i + 1);
    }
  }

  /** validateConfig accepts exactly the configurations that satisfy every rule. */
  lemma ValidateConfigExact(c: Config)
    ensures ValidateConfig(c).None? <==> ValidConfig(c)
  {
    if c.name != "" && |c.layers| > 0 {
      LayersFromExact(c.layers, 0, {});
      DependenciesFromExact(c.layers, 0);
    }
  }

  /** A layer that lists itself as a dependency is always rejected. */
  lemma SelfDependencyRejected(c: Config, i: nat)
    requires i < |c.layers| && c.layers[i].name in c.layers[i].dependencies
    ensures ValidateConfig(c).Some?
  {
    ValidateConfigExact(c);
    assert !DependsBackward(c.layers, i, c.layers[i].name);
  }

  /** Over a clean prefix, the layer loop reaches layer i with exactly the names before i seen. */
  lemma {:induction false} LayersFromSkipsCleanPrefix(layers: seq<LayerConfig>, j: nat, i: nat)
    requires j <= i < |layers|
    requires forall k :: j <= k < i ==> layers[k].name != "" && LayerConfigValid(layers[k])
    requires forall k, m :: 0 <= k < m < i ==> layers[k].name != layers[m].name
    ensures ValidateLayersFrom(layers, j, NamesBefore(layers, j)) == ValidateLayersFrom(layers, i, NamesBefore(layers, i))
    decreases i - j
  {
    if j < i {
      LayerConfigExact(layers[j], j);
      assert layers[j].name !in NamesBefore(layers, j);
      assert NamesBefore(layers, j) + {layers[j].name} == NamesBefore(layers, j + 1);
      LayersFromSkipsCleanPrefix(layers, j + 1, i);
    }
  }

  /** The first layer whose name repeats an earlier one is the one reported, with that name. */
  lemma FirstDuplicateLayerNameReported(c: Config, i: nat)
    requires c.name != "" && i < |c.layers| && c.layers[i].name != ""
    requires exists k :: 0 <= k < i && c.layers[k].name == c.layers[i].name
    requires forall k :: 0 <= k < i ==> c.layers[k].name != "" && LayerConfigValid(c.layers[k])
    requires forall k, m :: 0 <= k < m < i ==> c.layers[k].name != c.layers[m].name
    ensures ValidateConfig(c) == Some(ValidationError(LayerPath(i) + ".name", TextValue(c.layers[i].name),
                                                      "duplicate layer name: " + c.layers[i].name))
  {
    assert NamesBefore(c.layers, 0) == {};
    LayersFromSkipsCleanPrefix(c.layers, 0, i);
    var k :| 0 <= k < i && c.layers[k].name == c.layers[i].name;
    assert c.layers[i].name in NamesBefore(c.layers, i);
  }

  // ---------------------------------------------------------------------------
  // Defaults

  const DefaultVersion: string := "1.0.0"

  /** 30 * time.Second, in nanoseconds. */
  const DefaultComponentTimeout: int := 30 * Second

  /** setDefaults on one component. */
  function DefaultedComponent(c: ComponentConfig): ComponentConfig {
    c.(enabled := if !c.enabled && c.typeName != "" then true else c.enabled,
       timeout := if c.timeout == 0 then DefaultComponentTimeout else c.timeout)
  }

  function DefaultedComponents(cs: seq<ComponentConfig>): (r: seq<ComponentConfig>)
    ensures |r| == |cs| && forall j :: 0 <= j < |cs| ==> r[j] == DefaultedComponent(cs[j])
  {
    seq(|cs|, j requires 0 <= j < |cs| => DefaultedComponent(cs[j]))
  }

  /** setDefaults on one layer: the mode first, then `enabled` tested against the new mode. */
  function DefaultedLayer(l: LayerConfig): LayerConfig {
    var mode := if l.mode == "" then SerialMode else l.mode;
    l.(mode := mode,
       enabled := if !l.enabled && mode != "" then true else l.enabled,
       components := DefaultedComponents(l.components))
  }

  /** The configuration setDefaults leaves behind. */
  function Defaulted(c: Config): (r: Config)
    ensures |r.layers| == |c.layers|
  {
    c.(version := if c.version == "" then DefaultVersion else c.version,
       layers := seq(|c.layers|, i requires 0 <= i < |c.layers| => DefaultedLayer(c.layers[i])))
  }

  /** setDefaults, updating the layers and components in place. */
  method SetDefaults(config: Config) returns (result: Config)
    ensures result == Defaulted(config)
  {
    result := config;
    if result.version == "" {
      result := result.(version := DefaultVersion);
    }
    var layers := result.layers;
    var i := 0;
    while i < |layers|
      invariant 0 <= i <= |layers| == |config.layers|
      invariant forall k :: 0 <= k < i ==> layers[k] == DefaultedLayer(config.layers[k])
      invariant forall k :: i <= k < |layers| ==> layers[k] == config.layers[k]
    {
      var layer := layers[i];
      if layer.mode == "" {
        layer := layer.(mode := SerialMode);
      }
      if !layer.enabled && layer.mode != "" {
        layer := layer.(enabled := true);
      }
      var components := layer.components;
      var j := 0;
      while j < |components|
        invariant 0 <= j <= |components| == |config.layers[i].components|
        invariant forall m :: 0 <= m < j ==> components[m] == DefaultedComponent(config.layers[i].components[m])
        invariant forall m :: j <= m < |components| ==> components[m] == config.layers[i].components[m]
      {
        var component := components[j];
        if !component.enabled && component.typeName != "" {
          component := component.(enabled := true);
        }
        if component.timeout == 0 {
          component := component.(timeout := DefaultComponentTimeout);
        }
        components := components[j := component];
        j := j + 1;
      }
      assert components == DefaultedComponents(config.layers[i].components);
      layer := layer.(components := components);
      layers := layers[i := layer];
      i := i + 1;
    }
    assert layers == Defaulted(config).layers;
    result := result.(layers := layers);
  }

  /** After defaulting every layer has a mode and is enabled, every component has a timeout,
      and every typed component is enabled; values already set are kept. */
  lemma DefaultsEstablished(c: Config)
    ensures Defaulted(c).version != "" && (c.version != "" ==> Defaulted(c).version == c.version)
    ensures c.version == "" ==> Defaulted(c).version == "1.0.0"
    ensures forall i :: 0 <= i < |c.layers| ==>
              && Defaulted(c).layers[i].mode == EffectiveMode(c.layers[i].mode)
              && Defaulted(c).layers[i].enabled
              && |Defaulted(c).layers[i].components| == |c.layers[i].components|
    ensures forall i, j :: 0 <= i < |c.layers| && 0 <= j < |c.layers[i].components| ==>
              && Defaulted(c).layers[i].components[j].timeout != 0
              && (c.layers[i].components[j].timeout != 0 ==>
                    Defaulted(c).layers[i].components[j].timeout == c.layers[i].components[j].timeout)
              && (c.layers[i].components[j].timeout == 0 ==>
                    Defaulted(c).layers[i].components[j].timeout == 30 * Second)
              && Defaulted(c).layers[i].components[j].enabled == (c.layers[i].components[j].enabled || c.layers[i].components[j].typeName != "")
  {
  }

  /** Defaulting changes nothing that validation or execution identifies things by. */
  lemma DefaultsKeepIdentity(c: Config)
    ensures Defaulted(c).name == c.name && Defaulted(c).timeout == c.timeout
    ensures Defaulted(c).description == c.description && Defaulted(c).global == c.global
    ensures Defaulted(c).metadata == c.metadata
    ensures forall i :: 0 <= i < |c.layers| ==>
              && Defaulted(c).layers[i].name == c.layers[i].name
              && Defaulted(c).layers[i].dependencies == c.layers[i].dependencies
              && Defaulted(c).layers[i].parallel == c.layers[i].parallel
              && Defaulted(c).layers[i].timeout == c.layers[i].timeout
              && Defaulted(c).layers[i].remove == c.layers[i].remove
    ensures forall i, j :: 0 <= i < |c.layers| && 0 <= j < |c.layers[i].components| ==>
              && Defaulted(c).layers[i].components[j].name == c.layers[i].components[j].name
              && Defaulted(c).layers[i].components[j].typeName == c.layers[i].components[j].typeName
              && Defaulted(c).layers[i].components[j].critical == c.layers[i].components[j].critical
              && Defaulted(c).layers[i].components[j].retry == c.layers[i].components[j].retry
              && Defaulted(c).layers[i].components[j].config == c.layers[i].components[j].config
              && Defaulted(c).layers[i].components[j].dependencies == c.layers[i].components[j].dependencies
  {
  }

  /** Running setDefaults twice is the same as running it once. */
  lemma DefaultsIdempotent(c: Config)
    ensures Defaulted(Defaulted(c)) == Defaulted(c)
  {
    var d := Defaulted(c);
    forall i | 0 <= i < |c.layers|
      ensures DefaultedLayer(d.layers[i]) == d.layers[i]
    {
      var l := d.layers[i];
      assert DefaultedComponents(l.components) == l.components;
    }
    assert Defaulted(d).layers == d.layers;
  }

  /** Defaulting neither makes a valid configuration invalid nor an invalid one valid. */
  lemma DefaultsPreserveValidity(c: Config)
    ensures ValidConfig(Defaulted(c)) <==> ValidConfig(c)
  {
    var d := Defaulted(c);
    DefaultsKeepIdentity(c);
    assert forall i :: 0 <= i < |c.layers| ==> (LayerConfigValid(d.layers[i]) <==> LayerConfigValid(c.layers[i]));
    assert LayerNamesValid(d.layers) <==> LayerNamesValid(c.layers);
    assert forall i, dep :: 0 <= i < |c.layers| ==> (DependsBackward(d.layers, i, dep) <==> DependsBackward(c.layers, i, dep));
  }

  // ---------------------------------------------------------------------------
  // Environment substitution: the pattern `\$\{([^}]+)\}`, replaced left to right

  /** The first '}' of s at or after `from`. */
  function CloseBrace(s: string, from: nat): (r: Option<nat>)
    requires from <= |s|
    ensures r.Some? ==> from <= r.value < |s|
    decreases |s| - from
  {
    if from == |s| then None
    else if s[from] == '}' then Some(from)
    else CloseBrace(s, from + 1)
  }

  /** CloseBrace finds the first '}', and there is none when it finds nothing. */
  lemma {:induction false} CloseBraceFirst(s: string, from: nat)
    requires from <= |s|
    ensures var r := CloseBrace(s, from);
            && (r.Some? ==> s[r.value] == '}' && forall k :: from <= k < r.value ==> s[k] != '}')
            && (r.None? ==> forall k :: from <= k < |s| ==> s[k] != '}')
    decreases |s| - from
  {
    if from < |s| && s[from] != '}' {
      CloseBraceFirst(s, from + 1);
    }
  }

  /** A match of the pattern at the start of s: its length. "${" needs at least one non-'}' before the '}'. */
  function MatchAt(s: string): (r: Option<nat>)
    ensures r.Some? ==> 4 <= r.value <= |s|
  {
    if |s| >= 2 && s[0] == '$' && s[1] == '{' then
      match CloseBrace(s, 2)
      case Some(j) => if j > 2 then Some(j + 1) else None
      case None => None
    else None
  }

  /** A match is "${", then one or more characters other than '}', then '}'; and there is a match
      whenever s starts that way. */
  lemma MatchAtShape(s: string)
    ensures var r := MatchAt(s);
            && (r.Some? ==> && s[0] == '$' && s[1] == '{' && s[r.value - 1] == '}'
                            && forall k :: 2 <= k < r.value - 1 ==> s[k] != '}')
            && (r.None? ==> !(|s| >= 3 && s[0] == '$' && s[1] == '{' && s[2] != '}'
                              && exists k :: 2 < k < |s| && s[k] == '}'))
  {
    if |s| >= 2 {
      CloseBraceFirst(s, 2);
    }
  }

  /** strings.SplitN(s, ":", 2): the text before the first separator, and the rest if there was one. */
  function SplitFirst(s: string, sep: char): (r: (string, Option<string>))
    ensures r.1.None? ==> r.0 == s && sep !in s
    ensures r.1.Some? ==> s == r.0 + [sep] + r.1.value && sep !in r.0
  {
    if |s| == 0 then (s, None)
    else if s[0] == sep then ([], Some(s[1..]))
    else
      var (head, tail) := SplitFirst(s[1..], sep);
      assert tail.Some? ==> s == [s[0]] + s[1..];
      ([s[0]] + head, tail)
  }

  /** os.Getenv: the empty string for an unset variable. */
  function Getenv(env: map<string, string>, name: string): string {
    if name in env then env[name] else ""
  }

  /** The replacement of one match whose text between "${" and "}" is `body`. */
  function Substitute(body: string, env: map<string, string>): string {
    var (name, fallback) := SplitFirst(body, ':');
    var value := Getenv(env, name);
    if value != "" then value
    else if fallback.Some? then fallback.value
    else ""
  }

  /** replaceEnvVars: scanning left to right, each match is replaced and the scan goes on after it;
      any other character is copied. A match can only start at a '$'. */
  function ReplaceEnvVars(s: string, env: map<string, string>): string
    decreases |s|
  {
    if |s| == 0 then ""
    else if s[0] != '$' then [s[0]] + ReplaceEnvVars(s[1..], env)
    else
      match MatchAt(s)
      case Some(n) => Substitute(s[2..n - 1], env) + ReplaceEnvVars(s[n..], env)
      case None => [s[0]] + ReplaceEnvVars(s[1..], env)
  }

  /** A variable set to a non-empty value is replaced by that value, whatever its default. */
  lemma SubstituteSetVariable(name: string, fallback: string, env: map<string, string>)
    requires ':' !in name && name in env && env[name] != ""
    ensures Substitute(name, env) == env[name]
    ensures Substitute(name + ":" + fallback, env) == env[name]
  {
    assert SplitFirst(name, ':').0 == name;
    assert (name + ":" + fallback)[|name|] == ':';
    var r := SplitFirst(name + ":" + fallback, ':');
    SplitFirstUnique(name, fallback, r.0, r.1.value);
  }

  /** An unset or empty variable falls back to its default, or to the empty string without one. */
  lemma SubstituteUnsetVariable(name: string, fallback: string, env: map<string, string>)
    requires ':' !in name && Getenv(env, name) == ""
    ensures Substitute(name, env) == ""
    ensures Substitute(name + ":" + fallback, env) == fallback
  {
    assert SplitFirst(name, ':').0 == name;
    assert (name + ":" + fallback)[|name|] == ':';
    var r := SplitFirst(name + ":" + fallback, ':');
    SplitFirstUnique(name, fallback, r.0, r.1.value);
  }

  /** Splitting at the first separator has one answer. */
  lemma SplitFirstUnique(a: string, b: string, a': string, b': string)
    requires ':' !in a && ':' !in a' && a + ":" + b == a' + ":" + b'
    ensures a == a' && b == b'
  {
    var s := a + ":" + b;
    assert s[|a|] == ':' && s[|a'|] == ':';
    assert forall k :: 0 <= k < |a| ==> s[k] == a[k];
    assert forall k :: 0 <= k < |a'| ==> s[k] == a'[k];
    assert |a| == |a'|;
    assert a == s[..|a|] == a';
    assert b == s[|a| + 1..] == b';
  }

  /** Text without a '$' passes through unchanged. */
  lemma ReplaceWithoutDollar(s: string, env: map<string, string>)
    requires '$' !in s
    ensures ReplaceEnvVars(s, env) == s
  {
    ReplaceAfterPlainText(s, "", env);
    assert s + "" == s;
  }

  /** Text in which no position starts a match is returned unchanged, whatever its '$' characters. */
  lemma {:induction false} NoMatchUnchanged(s: string, env: map<string, string>)
    requires forall k :: 0 <= k < |s| ==> MatchAt(s[k..]).None?
    ensures ReplaceEnvVars(s, env) == s
    decreases |s|
  {
    if |s| > 0 {
      assert MatchAt(s[0..]).None? && s[0..] == s;
      forall k | 0 <= k < |s[1..]|
        ensures MatchAt(s[1..][k..]).None?
      {
        assert s[1..][k..] == s[k + 1..];
      }
      NoMatchUnchanged(s[1..], env);
      assert s == [s[0]] + s[1..];
    }
  }

  /** A character other than '$' is copied unchanged. */
  lemma ReplaceAfterPlainChar(c: char, s: string, env: map<string, string>)
    requires c != '$'
    ensures ReplaceEnvVars([c] + s, env) == [c] + ReplaceEnvVars(s, env)
  {
    assert ([c] + s)[1..] == s;
  }

  /** Text without a '$' in front of anything is copied unchanged, and replacement goes on after it. */
  lemma {:induction false} ReplaceAfterPlainText(prefix: string, s: string, env: map<string, string>)
    requires '$' !in prefix
    ensures ReplaceEnvVars(prefix + s, env) == prefix + ReplaceEnvVars(s, env)
    decreases |prefix|
  {
    if |prefix| == 0 {
      assert prefix + s == s;
    } else {
      var c, more := prefix[0], prefix[1..];
      assert prefix == [c] + more;
      assert prefix + s == [c] + (more + s);
      ReplaceAfterPlainChar(c, more + s, env);
      ReplaceAfterPlainText(more, s, env);
      assert [c] + (more + ReplaceEnvVars(s, env)) == prefix + ReplaceEnvVars(s, env);
    }
  }

  /** "${body}" followed by anything is a match of length |body| + 3 when body holds no '}'. */
  lemma MatchPlaceholder(body: string, close: string)
    requires |body| > 0 && '}' !in body && |close| > 0 && close[0] == '}'
    ensures MatchAt("${" + (body + close)) == Some(|body| + 3)
  {
    var s := "${" + (body + close);
    assert s[0] == '$' && s[1] == '{';
    assert forall k :: 2 <= k < |body| + 2 ==> s[k] == body[k - 2];
    assert s[|body| + 2] == '}';
    CloseBraceFirst(s, 2);
  }

  /** A placeholder "${body}" at the very start is one match, replaced by Substitute(body), and
      replacement goes on after its '}'. */
  lemma ReplacePlaceholderAtStart(body: string, rest: string, env: map<string, string>)
    requires |body| > 0 && '}' !in body
    ensures ReplaceEnvVars("${" + body + "}" + rest, env) == Substitute(body, env) + ReplaceEnvVars(rest, env)
  {
    var close := "}" + rest;
    var s := "${" + (body + close);
    assert "${" + body + "}" + rest == s;
    var n := |body| + 3;
    MatchPlaceholder(body, close);
    assert s[2..n - 1] == body && s[n..] == rest by {
      assert s[2..] == body + close;
      assert (body + close)[|body|..] == close;
    }
  }

  // ---------------------------------------------------------------------------
  // Parsing and lookups

  /** ParseBytes: substitute, decode (decoding is the parameter `unmarshal`), validate, default. */
  method ParseBytes(data: string, env: map<string, string>, unmarshal: string -> Result<Config, Error>)
    returns (r: Result<Config, Error>)
    ensures var decoded := unmarshal(ReplaceEnvVars(data, env));
            && (decoded.Failure? ==>
                  r == Failure(ConfigError("json_unmarshal_failed",
                                           "failed to unmarshal JSON config: " + Text(decoded.error),
                                           "", Some(decoded.error))))
            && (decoded.Success? && ValidateConfig(decoded.value).Some? ==>
                  r == Failure(ValidateConfig(decoded.value).value))
            && (decoded.Success? && ValidateConfig(decoded.value).None? ==> r == Success(Defaulted(decoded.value)))
    ensures r.Success? ==> ValidConfig(r.value) && Defaulted(r.value) == r.value
  {
    var text := ReplaceEnvVars(data, env);
    var decoded := unmarshal(text);
    if decoded.Failure? {
      var err := decoded.error;
      return Failure(ConfigError("json_unmarshal_failed", "failed to unmarshal JSON config: " + Text(err), "", Some(err)));
    }
    var config := decoded.value;
    var invalid := ValidateConfig(config);
    if invalid.Some? {
      return Failure(invalid.value);
    }
    ValidateConfigExact(config);
    DefaultsPreserveValidity(config);
    DefaultsIdempotent(config);
    var defaulted := SetDefaults(config);
    return Success(defaulted);
  }

  /** Config.GetLayer: the first layer with the name (the returned pointer is its index). */
  method GetLayer(c: Config, name: string) returns (index: Option<nat>)
    ensures index.Some? ==> && index.value < |c.layers| && c.layers[index.value].name == name
                            && forall k :: 0 <= k < index.value ==> c.layers[k].name != name
    ensures index.None? ==> forall k :: 0 <= k < |c.layers| ==> c.layers[k].name != name
  {
    var i := 0;
    while i < |c.layers|
      invariant 0 <= i <= |c.layers|
      invariant forall k :: 0 <= k < i ==> c.layers[k].name != name
    {
      if c.layers[i].name == name {
        return Some(i);
      }
      i := i + 1;
    }
    return None;
  }

  /** Config.GetComponent: the first component with the name in the first layer with the layer name. */
  method GetComponent(c: Config, layerName: string, componentName: string) returns (found: Option<(nat, nat)>)
    ensures found.Some? ==> && found.value.0 < |c.layers| && c.layers[found.value.0].name == layerName
                            && (forall k :: 0 <= k < found.value.0 ==> c.layers[k].name != layerName)
                            && found.value.1 < |c.layers[found.value.0].components|
                            && c.layers[found.value.0].components[found.value.1].name == componentName
                            && forall k :: 0 <= k < found.value.1 ==> c.layers[found.value.0].components[k].name != componentName
    ensures found.None? ==> forall i :: 0 <= i < |c.layers| && c.layers[i].name == layerName ==>
                              (exists k :: 0 <= k < i && c.layers[k].name == layerName)
                              || forall j :: 0 <= j < |c.layers[i].components| ==> c.layers[i].components[j].name != componentName
  {
    var index := GetLayer(c, layerName);
    if index.None? {
      return None;
    }
    var i := index.value;
    var components := c.layers[i].components;
    var j := 0;
    while j < |components|
      invariant 0 <= j <= |components|
      invariant forall k :: 0 <= k < j ==> components[k].name != componentName
    {
      if components[j].name == componentName {
        return Some((i, j));
      }
      j := j + 1;
    }
    return None;
  }

  /** In a valid configuration layer names are unique, so the first match is the layer the
      dependency check resolves a name to. */
  lemma FirstLayerIsLastInValidConfig(c: Config, name: string, i: nat)
    requires ValidConfig(c) && i < |c.layers| && c.layers[i].name == name
    ensures LayerIndex(c.layers, name) == Some(i)
  {
  }
}
