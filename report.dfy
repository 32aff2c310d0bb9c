/** The report model shared by the plugins and the orchestrators: messages,
    one result per plugin, the overall report, and a loaded plugin. */
module Report {
  import opened Base
  import opened Document

  /** `Unset` is a message built without a severity; its default is chosen by
      the report model's own definition, which is not part of this model. */
  datatype Severity = Error | Warning | Unset

  /** The `value` of a message: a rendered string, or the record's raw fields. */
  datatype Payload = Text(text: string) | Data(fields: seq<Member>)

  datatype Message = Message(severity: Severity, message: string, field: string, value: Payload)

  datatype ValidationResult = ValidationResult(pluginName: string, valid: bool, messages: seq<Message>)

  /** `obj` is the report's `object` (absent when excluded), `targetType` its `type`. */
  datatype ValidationReport = ValidationReport(
    obj: Option<Value>,
    targetType: string,
    valid: bool,
    results: seq<ValidationResult>)

  /** A loaded plugin: its name and what running it on a document and a
      target class gives (a result, or the exception it raises). */
  datatype Plugin = Plugin(name: string, run: (Value, string) -> Result<ValidationResult>)

  /** The result every plugin builds from its messages: valid iff there are none. */
  function ResultOf(pluginName: string, messages: seq<Message>): (r: ValidationResult)
    ensures r.pluginName == pluginName && r.messages == messages
    ensures r.valid <==> |messages| == 0
  {
    ValidationResult(pluginName, |messages| == 0, messages)
  }

  /** Running the plugins in order; the first exception stops the run. */
  function RunAll(plugins: seq<Plugin>, obj: Value, targetClass: string): Result<seq<ValidationResult>> {
    if plugins == [] then Ok([])
    else
      var earlier :- RunAll(plugins[..|plugins| - 1], obj, targetClass);
      var last :- plugins[|plugins| - 1].run(obj, targetClass);
      Ok(earlier + [last])
  }

  /** Every result says valid. */
  predicate AllValid(results: seq<ValidationResult>) {
    forall k :: 0 <= k < |results| ==> results[k].valid
  }

  /** A successful run gives exactly one result per plugin, in plugin order,
      and it succeeds exactly when no plugin raises. */
  lemma {:induction false} RunAllShape(plugins: seq<Plugin>, obj: Value, targetClass: string)
    ensures RunAll(plugins, obj, targetClass).Ok? <==>
              forall k :: 0 <= k < |plugins| ==> plugins[k].run(obj, targetClass).Ok?
    ensures RunAll(plugins, obj, targetClass).Ok? ==>
              |RunAll(plugins, obj, targetClass).value| == |plugins| &&
              forall k :: 0 <= k < |plugins| ==>
                plugins[k].run(obj, targetClass) == Ok(RunAll(plugins, obj, targetClass).value[k])
  {
    if plugins != [] {
      var n := |plugins| - 1;
      RunAllShape(plugins[..n], obj, targetClass);
      assert forall k :: 0 <= k < n ==> plugins[..n][k] == plugins[k];
    }
  }

  /** A plugin that raises after the earlier ones succeeded makes the whole
      run raise that same exception. */
  lemma {:induction false} RunAllStopsAt(plugins: seq<Plugin>, obj: Value, targetClass: string, i: nat)
    requires i < |plugins|
    requires RunAll(plugins[..i], obj, targetClass).Ok?
    requires plugins[i].run(obj, targetClass).Err?
    ensures RunAll(plugins, obj, targetClass) == Err(plugins[i].run(obj, targetClass).error)
    decreases |plugins|
  {
    var n := |plugins| - 1;
    if i == n {
      assert plugins[..n] == plugins[..i];
    } else {
      assert plugins[..n][..i] == plugins[..i];
      assert plugins[..n][i] == plugins[i];
      RunAllStopsAt(plugins[..n], obj, targetClass, i);
    }
  }

  /** The position of the first plugin that raises, or `|plugins|` when none does. */
  function FirstFailure(plugins: seq<Plugin>, obj: Value, targetClass: string): (k: nat)
    ensures k <= |plugins|
    ensures forall j :: 0 <= j < k ==> plugins[j].run(obj, targetClass).Ok?
    ensures k < |plugins| ==> plugins[k].run(obj, targetClass).Err?
  {
    if plugins == [] || plugins[0].run(obj, targetClass).Err? then 0
    else 1 + FirstFailure(plugins[1..], obj, targetClass)
  }

  /** A run raises exactly when some plugin does, and then it raises the
      exception of the first plugin that does. */
  lemma RunAllFirstError(plugins: seq<Plugin>, obj: Value, targetClass: string)
    ensures RunAll(plugins, obj, targetClass).Err? <==> FirstFailure(plugins, obj, targetClass) < |plugins|
    ensures RunAll(plugins, obj, targetClass).Err? ==>
              RunAll(plugins, obj, targetClass)
              == Err(plugins[FirstFailure(plugins, obj, targetClass)].run(obj, targetClass).error)
  {
    var k := FirstFailure(plugins, obj, targetClass);
    RunAllShape(plugins, obj, targetClass);
    if k < |plugins| {
      RunAllShape(plugins[..k], obj, targetClass);
      assert forall j :: 0 <= j < k ==> plugins[..k][j] == plugins[j];
      RunAllStopsAt(plugins, obj, targetClass, k);
    }
  }

  /** The report both orchestrators build from a run: one result per plugin
      in plugin order, valid iff every result is (so an empty run is valid),
      of the given type, carrying the given object. A plugin's exception
      propagates. */
  function ReportOf(plugins: seq<Plugin>, obj: Value, targetClass: string, objectForReport: Option<Value>)
    : (r: Result<ValidationReport>)
    ensures r.Ok? <==> forall k :: 0 <= k < |plugins| ==> plugins[k].run(obj, targetClass).Ok?
    ensures r.Ok? ==> r.value.obj == objectForReport && r.value.targetType == targetClass
    ensures r.Ok? ==> |r.value.results| == |plugins|
                      && (forall k :: 0 <= k < |plugins| ==> plugins[k].run(obj, targetClass) == Ok(r.value.results[k]))
    ensures r.Ok? ==> (r.value.valid <==> forall k :: 0 <= k < |plugins| ==> r.value.results[k].valid)
    ensures plugins == [] ==> r.Ok? && r.value.valid
    ensures r.Err? ==> FirstFailure(plugins, obj, targetClass) < |plugins|
                       && plugins[FirstFailure(plugins, obj, targetClass)].run(obj, targetClass) == Err(r.error)
  {
    RunAllShape(plugins, obj, targetClass);
    RunAllFirstError(plugins, obj, targetClass);
    var results :- RunAll(plugins, obj, targetClass);
    Ok(ValidationReport(objectForReport, targetClass, AllValid(results), results))
  }
}
