/** The orchestrator of `src/ghga_validator/core/validator.py`: plugins are
    named, looked up in the registry of discovered plugin classes, built
    with the schema, and run in order on every document. The registry stands
    for what plugin discovery finds; how it is found is not modelled. */
module NamedPluginValidator {
  import opened Base
  import opened Document
  import opened Report
  import opened SchemaUtils

  /** Discovered plugin classes by name; each is built from the schema alone. */
  type Registry = map<string, Schema -> Plugin>

  /** The plugins loaded from a list of names and the exception that stopped
      loading, if any. */
  datatype Loading = Loading(plugins: seq<Plugin>, error: Option<Fault>)

  /** Loading names in order; the first unknown name stops it with
      `ModuleNotFoundError`, keeping what was loaded before. */
  function Load(registry: Registry, schema: Schema, names: seq<string>): Loading
    decreases |names|
  {
    if names == [] then Loading([], None)
    else
      var n := |names| - 1;
      var earlier := Load(registry, schema, names[..n]);
      if earlier.error.Some? then earlier
      else if names[n] in registry then Loading(earlier.plugins + [registry[names[n]](schema)], None)
      else Loading(earlier.plugins, Some(ModuleNotFoundError(names[n])))
  }

  /** Loading succeeds exactly when every name is registered, and then gives
      the registered class's instance for each name, in the order given.
      Otherwise it raises for the first unknown name. */
  lemma {:induction false} LoadShape(registry: Registry, schema: Schema, names: seq<string>)
    ensures |Load(registry, schema, names).plugins| <= |names|
    ensures Load(registry, schema, names).error.None? <==> forall k :: 0 <= k < |names| ==> names[k] in registry
    ensures Load(registry, schema, names).error.None? ==>
              |Load(registry, schema, names).plugins| == |names|
              && forall k :: 0 <= k < |names| ==> Load(registry, schema, names).plugins[k] == registry[names[k]](schema)
    ensures Load(registry, schema, names).error.Some? ==>
              exists k :: 0 <= k < |names| && names[k] !in registry
                          && Load(registry, schema, names).error == Some(ModuleNotFoundError(names[k]))
                          && forall j :: 0 <= j < k ==> names[j] in registry
    decreases |names|
  {
    if names != [] {
      var n := |names| - 1;
      LoadShape(registry, schema, names[..n]);
      assert forall k :: 0 <= k < n ==> names[..n][k] == names[k];
      if Load(registry, schema, names[..n]).error.None? && names[n] !in registry {
        assert forall j :: 0 <= j < n ==> names[j] in registry;
      }
    }
  }

  /** Once loading has stopped on a prefix of the names, it stops on the
      whole list with the same plugins and exception. */
  lemma {:induction false} LoadStops(registry: Registry, schema: Schema, names: seq<string>, i: nat)
    requires i <= |names|
    requires Load(registry, schema, names[..i]).error.Some?
    ensures Load(registry, schema, names) == Load(registry, schema, names[..i])
    decreases |names|
  {
    if i == |names| {
      assert names[..i] == names;
    } else {
      var n := |names| - 1;
      assert names[..n][..i] == names[..i];
      LoadStops(registry, schema, names[..n], i);
    }
  }

  class Validator {
    const schema: Schema
    var plugins: seq<Plugin>

    /** An orchestrator with no plugins loaded yet. */
    constructor Init(schema: Schema)
      ensures this.schema == schema && plugins == []
    {
      this.schema := schema;
      plugins := [];
    }

    /** `Validator(schema, plugins)`: starts with no plugins and loads the
        names when there are any, raising what loading raises. */
    static method New(registry: Registry, schema: Schema, names: Option<seq<string>>) returns (r: Result<Validator>)
      ensures names.None? ==> r.Ok? && r.value.plugins == []
      ensures names.Some? ==> (r.Err? <==> Load(registry, schema, names.value).error.Some?)
      ensures names.Some? && r.Err? ==> r.error == Load(registry, schema, names.value).error.value
      ensures r.Ok? ==> fresh(r.value) && r.value.schema == schema
      ensures r.Ok? && names.Some? ==> r.value.plugins == Load(registry, schema, names.value).plugins
    {
      var v := new Validator.Init(schema);
      if names.Some? && names.value != [] {
        var error := v.LoadPlugins(registry, names.value);
        if error.Some? {
          return Err(error.value);
        }
      }
      return Ok(v);
    }

    /** `load_plugins`: appends, in order, the instance of each named class;
        an unknown name raises, keeping the instances appended before it. */
    method LoadPlugins(registry: Registry, names: seq<string>) returns (error: Option<Fault>)
      modifies this
      ensures plugins == old(plugins) + Load(registry, schema, names).plugins
      ensures error == Load(registry, schema, names).error
    {
      var discoveredPlugins := registry;
      var i := 0;
      while i < |names|
        invariant 0 <= i <= |names|
        invariant Load(registry, schema, names[..i]).error.None?
        invariant plugins == old(plugins) + Load(registry, schema, names[..i]).plugins
      {
        var pluginName := names[i];
        assert names[..i + 1][..i] == names[..i];
        if pluginName in discoveredPlugins {
          var pluginClass := discoveredPlugins[pluginName];
          plugins := plugins + [pluginClass(schema)];
        } else {
          LoadStops(registry, schema, names, i + 1);
          return Some(ModuleNotFoundError(pluginName));
        }
        i := i + 1;
      }
      assert names[..i] == names;
      return None;
    }

    /** `validate`: every plugin runs in order on the data and the target
        class; the report is valid iff every result is, and always carries
        the data. */
    method Validate(data: Value, targetClass: string) returns (r: Result<ValidationReport>)
      ensures r == ReportOf(plugins, data, targetClass, Some(data))
    {
      var validationResults: seq<ValidationResult> := [];
      var valid := true;
      var i := 0;
      while i < |plugins|
        invariant 0 <= i <= |plugins|
        invariant RunAll(plugins[..i], data, targetClass) == Ok(validationResults)
        invariant valid <==> AllValid(validationResults)
      {
        assert plugins[..i + 1][..i] == plugins[..i];
        var validationResult := plugins[i].run(data, targetClass);
        if validationResult.Err? {
          RunAllStopsAt(plugins, data, targetClass, i);
          return Err(validationResult.error);
        }
        ghost var before := validationResults;
        validationResults := validationResults + [validationResult.value];
        assert forall k :: 0 <= k < |before| ==> validationResults[k] == before[k];
        assert validationResults[|before|] == validationResult.value;
        if !validationResult.value.valid {
          valid := false;
        }
        i := i + 1;
      }
      assert plugins[..i] == plugins;
      return Ok(ValidationReport(Some(data), targetClass, valid, validationResults));
    }
  }
}
