/** The orchestrator of `ghga_validator/core/validator.py`: plugins are given
    as classes with constructor arguments, checked to derive from the plugin
    base class, instantiated in order, and run in order on every document. */
module ClassPluginValidator {
  import opened Base
  import opened Document
  import opened Report
  import opened SchemaUtils
  import RefValidation
  import BackRefValidation
  import UniqueValidation

  /** A plugin class: whether it derives from the plugin base class, and what
      calling it with the schema and keyword arguments gives (an instance, or
      the exception its constructor raises). */
  datatype PluginClass = PluginClass(
    name: string,
    derivesFromBasePlugin: bool,
    make: (Schema, map<string, Value>) -> Result<Plugin>)

  /** One entry of the plugin list: the class, and the optional `args`. */
  datatype PluginSpec = PluginSpec(pluginClass: PluginClass, args: Option<map<string, Value>>)

  /** A plugin class whose constructor takes the schema only, as the base
      plugin's constructor does: any keyword argument is a `TypeError`.
      Whether it derives from this package's plugin base class is given. */
  function SchemaOnlyClass(name: string, derives: bool, instance: Schema -> Plugin): (c: PluginClass)
    ensures c.name == name && c.derivesFromBasePlugin == derives
    ensures forall s :: c.make(s, map[]) == Ok(instance(s))
    ensures forall s, args :: args != map[] ==> c.make(s, args) == Err(TypeError)
  {
    PluginClass(name, derives, (s: Schema, args: map<string, Value>) => if args == map[] then Ok(instance(s)) else Err(TypeError))
  }

  /** `RefValidationPlugin` derives from the plugin base class of
      `linkml_validator`, not from this package's. */
  function RefValidationClass(): PluginClass {
    SchemaOnlyClass(RefValidation.NAME, false, RefValidation.Instance)
  }

  /** `UniqueValidationPlugin` derives from the plugin base class of
      `linkml_validator`, not from this package's. */
  function UniqueValidationClass(walk: (Value, string) -> seq<Record>): PluginClass {
    SchemaOnlyClass(UniqueValidation.NAME, false, (s: Schema) => UniqueValidation.Instance(s, walk))
  }

  /** `BackRefValidationPlugin` derives from this package's plugin base class. */
  function BackRefValidationClass(walk: (Value, string) -> seq<Record>): PluginClass {
    SchemaOnlyClass(BackRefValidation.NAME, true, (s: Schema) => BackRefValidation.Instance(s, walk))
  }

  /** `args` when the entry has them, `{}` otherwise. */
  function ArgsOf(spec: PluginSpec): map<string, Value> {
    if spec.args.Some? then spec.args.value else map[]
  }

  /** The plugins loaded so far and the exception that stopped loading, if any. */
  datatype Loading = Loading(plugins: seq<Plugin>, error: Option<Fault>)

  /** Loading a list of entries in order; the first entry whose class does
      not derive from the base class, or whose constructor raises, stops it,
      keeping what was loaded before. */
  function Load(schema: Schema, specs: seq<PluginSpec>): Loading
    decreases |specs|
  {
    if specs == [] then Loading([], None)
    else
      var n := |specs| - 1;
      var earlier := Load(schema, specs[..n]);
      if earlier.error.Some? then earlier
      else if !specs[n].pluginClass.derivesFromBasePlugin then Loading(earlier.plugins, Some(TypeError))
      else
        match specs[n].pluginClass.make(schema, ArgsOf(specs[n]))
        case Err(e) => Loading(earlier.plugins, Some(e))
        case Ok(p) => Loading(earlier.plugins + [p], None)
  }

  /** The entry can be loaded: its class derives from the base class and its
      constructor accepts the arguments. */
  predicate Loadable(schema: Schema, spec: PluginSpec) {
    spec.pluginClass.derivesFromBasePlugin && spec.pluginClass.make(schema, ArgsOf(spec)).Ok?
  }

  /** Loading succeeds exactly when every entry is loadable, and then it gives
      one instance per entry, in list order, each built with the entry's
      `args` (or `{}`). Whatever happens, no more instances than entries. */
  lemma {:induction false} LoadShape(schema: Schema, specs: seq<PluginSpec>)
    ensures |Load(schema, specs).plugins| <= |specs|
    ensures Load(schema, specs).error.None? <==> forall k :: 0 <= k < |specs| ==> Loadable(schema, specs[k])
    ensures Load(schema, specs).error.None? ==>
              |Load(schema, specs).plugins| == |specs|
              && forall k :: 0 <= k < |specs| ==>
                   specs[k].pluginClass.make(schema, ArgsOf(specs[k])) == Ok(Load(schema, specs).plugins[k])
    decreases |specs|
  {
    if specs != [] {
      var n := |specs| - 1;
      LoadShape(schema, specs[..n]);
      assert forall k :: 0 <= k < n ==> specs[..n][k] == specs[k];
    }
  }

  /** An entry whose class does not derive from the base class makes loading
      raise `TypeError`, unless an earlier entry already raised. */
  lemma {:induction false} LoadRejectsForeignClass(schema: Schema, specs: seq<PluginSpec>, i: nat)
    requires i < |specs| && !specs[i].pluginClass.derivesFromBasePlugin
    requires forall k :: 0 <= k < i ==> Loadable(schema, specs[k])
    ensures Load(schema, specs).error == Some(TypeError)
    decreases |specs|
  {
    var n := |specs| - 1;
    if i == n {
      LoadShape(schema, specs[..n]);
    } else {
      assert forall k :: 0 <= k < i ==> specs[..n][k] == specs[k];
      LoadRejectsForeignClass(schema, specs[..n], i);
    }
  }

  /** Of the package's three plugins, only the unused-object check can be
      loaded here: an entry naming the dangling-reference or the uniqueness
      plugin makes loading raise `TypeError` once the entries before it have
      loaded, while the unused-object plugin loads without arguments and
      rejects any. */
  lemma PackagePluginsLoading(schema: Schema, walk: (Value, string) -> seq<Record>, specs: seq<PluginSpec>, i: nat)
    requires i < |specs| && forall k :: 0 <= k < i ==> Loadable(schema, specs[k])
    ensures specs[i].pluginClass == RefValidationClass() ==> Load(schema, specs).error == Some(TypeError)
    ensures specs[i].pluginClass == UniqueValidationClass(walk) ==> Load(schema, specs).error == Some(TypeError)
    ensures Load(schema, [PluginSpec(BackRefValidationClass(walk), None)])
         == Loading([BackRefValidation.Instance(schema, walk)], None)
    ensures forall args :: args != map[] ==>
              Load(schema, [PluginSpec(BackRefValidationClass(walk), Some(args))]) == Loading([], Some(TypeError))
  {
    if specs[i].pluginClass == RefValidationClass() || specs[i].pluginClass == UniqueValidationClass(walk) {
      LoadRejectsForeignClass(schema, specs, i);
    }
    var one := [PluginSpec(BackRefValidationClass(walk), None)];
    assert one[..0] == [];
  }

  /** The entries of an optional plugin list: none for `None` or `[]`. */
  function SpecsOf(specs: Option<seq<PluginSpec>>): seq<PluginSpec> {
    if specs.Some? then specs.value else []
  }

  /** The object the report carries: none when `exclude_object` is given and
      truthy, otherwise the validated object. */
  function ObjectForReport(obj: Value, excludeObject: Option<Value>): (r: Option<Value>)
    ensures r.None? <==> excludeObject.Some? && Truthy(excludeObject.value)
    ensures r.Some? ==> r.value == obj
  {
    if excludeObject.Some? && Truthy(excludeObject.value) then None else Some(obj)
  }

  class Validator {
    const schema: Schema
    var plugins: seq<Plugin>

    /** An orchestrator with no plugins loaded yet. */
    constructor Init(schema: Schema)
      ensures this.schema == schema && plugins == []
    {
      this.schema := schema;
      plugins := [];
    }

    /** `Validator(schema, plugins)`: construction loads the plugins and
        raises what loading raises. */
    static method New(schema: Schema, specs: Option<seq<PluginSpec>>) returns (r: Result<Validator>)
      ensures r.Err? <==> Load(schema, SpecsOf(specs)).error.Some?
      ensures r.Err? ==> r.error == Load(schema, SpecsOf(specs)).error.value
      ensures r.Ok? ==> fresh(r.value) && r.value.schema == schema
                        && r.value.plugins == Load(schema, SpecsOf(specs)).plugins
    {
      var v := new Validator.Init(schema);
      var error := v.LoadPlugins(specs);
      if error.Some? {
        return Err(error.value);
      }
      return Ok(v);
    }

    /** `load_plugins`: the list is reset, then each entry is checked and
        instantiated in order; on an exception the instances made before it
        stay loaded. */
    method LoadPlugins(specs: Option<seq<PluginSpec>>) returns (error: Option<Fault>)
      modifies this
      ensures Loading(plugins, error) == Load(schema, SpecsOf(specs))
    {
      plugins := [];
      if specs.None? || specs.value == [] {
        return None;
      }
      var list := specs.value;
      var i := 0;
      while i < |list|
        invariant 0 <= i <= |list|
        invariant Load(schema, list[..i]) == Loading(plugins, None)
      {
        var pluginClass := list[i].pluginClass;
        var pluginArgs: map<string, Value> := map[];
        if list[i].args.Some? {
          pluginArgs := list[i].args.value;
        }
        assert list[..i + 1][..i] == list[..i];
        if !pluginClass.derivesFromBasePlugin {
          LoadStops(schema, list, i + 1);
          return Some(TypeError);
        }
        var instance := pluginClass.make(schema, pluginArgs);
        if instance.Err? {
          LoadStops(schema, list, i + 1);
          return Some(instance.error);
        }
        plugins := plugins + [instance.value];
        i := i + 1;
      }
      assert list[..i] == list;
      return None;
    }

    /** `validate`: every plugin runs in order on the object and the target
        class; the report is valid iff every result is, and carries the
        object unless `exclude_object` is truthy. */
    method Validate(obj: Value, targetClass: string, excludeObject: Option<Value>)
      returns (r: Result<ValidationReport>)
      ensures r == ReportOf(plugins, obj, targetClass, ObjectForReport(obj, excludeObject))
    {
      var validationResults: seq<ValidationResult> := [];
      var valid := true;
      var i := 0;
      while i < |plugins|
        invariant 0 <= i <= |plugins|
        invariant RunAll(plugins[..i], obj, targetClass) == Ok(validationResults)
        invariant valid <==> AllValid(validationResults)
      {
        assert plugins[..i + 1][..i] == plugins[..i];
        var validationResult := plugins[i].run(obj, targetClass);
        if validationResult.Err? {
          RunAllStopsAt(plugins, obj, targetClass, i);
          return Err(validationResult.error);
        }
        ghost var before := validationResults;
        validationResults := validationResults + [validationResult.value];
        assert forall k :: 0 <= k < |before| ==> validationResults[k] == before[k];
        assert validationResults[|before|] == validationResult.value;
        if !validationResult.value.valid {
          valid := false;
        }
        i := i + 1;
      }
      assert plugins[..i] == plugins;
      var objectForReport := if excludeObject.Some? && Truthy(excludeObject.value) then None else Some(obj);
      return Ok(ValidationReport(objectForReport, targetClass, valid, validationResults));
    }
  }

  /** Once loading has stopped on a prefix of the list, it stops on the
      whole list with the same plugins and exception. */
  lemma {:induction false} LoadStops(schema: Schema, specs: seq<PluginSpec>, i: nat)
    requires i <= |specs|
    requires Load(schema, specs[..i]).error.Some?
    ensures Load(schema, specs) == Load(schema, specs[..i])
    decreases |specs|
  {
    if i == |specs| {
      assert specs[..i] == specs;
    } else {
      var n := |specs| - 1;
      assert specs[..n][..i] == specs[..i];
      LoadStops(schema, specs[..n], i);
    }
  }
}
