# ghga-validator semantic checks, modelled in Dafny

This project models the semantic checks of the GHGA metadata validator. Each
check validates a JSON submission against a LinkML schema. It also proves
what each check reports.

- **Dangling references** (`RefValidationPlugin`): a recursive walk through
  the inlined slots. It reports, for every non-inlined slot whose range is a
  class of the schema, the values that match no identifier collected for that
  class.
- **Unused objects** (`BackRefValidationPlugin`): two passes over the walked
  records. Pass 1 builds a per-class table of referenced values. Pass 2 reports
  every record whose identifier is never referenced. Classes that are never a
  reference target, or that are tagged `exclude_from_ref`, are skipped.
- **Uniqueness** (`UniqueValidationPlugin`): one pass with a per-class table
  of identifiers seen so far. Each repeat gives one error.
- **Orchestrators**: the `Validator` of `ghga_validator/core/validator.py`
  (plugins given as classes) and the one of `src/ghga_validator/core/validator.py`
  (plugins given by name). Both run the plugins in order and AND the validity
  flags.
- **Helpers**: slot lookup with the per-class `slot_usage` override,
  range-class resolution, `to_list`, the in-place merge of dictionaries of
  lists, and dotted path rendering.

How the model is built:

- **Documents** are the `Document.Value` datatype. A dict is an ordered list
  of members, so iteration order is kept.
- **The schema** is an immutable `SchemaUtils.Schema` value: classes (slots,
  `slot_usage`, identifier slot, subsets) and global slots (range, inlined).
- **Python exceptions** become `Err(...)` values of `Base.Result`. They
  propagate the way the exception would.
- **Loops** that update state are methods. Each method is proved equal to a
  specification function, and the properties are proved about that function.
- **The Validator classes** are Dafny classes with a `plugins` field.

The model follows the code in these respects:

- The identifiers a reference is checked against come only from the
  top-level fields of the document root. Each top-level field's slot is
  looked up under the class being walked, not the root class.
- A later matching top-level field replaces the list of an earlier one.
- The uniqueness check also tracks records without an identifier. A repeat
  in a class without an identifier slot raises `AttributeError`, because it
  reads `.name` of `None`.
- In the unused-object check, a list-valued reference with the same value
  twice appends both copies. Only values already in the table are skipped.

There are two exceptions, both listed under "## Findings". The
dangling-reference walk (`RefValidation.CheckObject` and everything built on
it: `CheckSlotReference`, `ValidateJson`, `ProcessResult`, `Process`,
`Instance` and the scenarios `ResolvedReference` and `DanglingReference`)
uses the corrected identifier scan `RefValidation.IdList` and the corrected
text `RefValidation.NonMatchAsString`. The code as written is modelled beside
them, by `RefValidation.IdListAsWritten` and
`RefValidation.NonMatchAsStringAsWritten`. The written identifier scan
differs from the corrected one only at a top-level field whose slot, looked
up under the class being walked, has the referenced range but is not inlined
(`RefValidation.IdListAgree`). At such a field:
- a value that cannot be subscripted raises (`RefValidation.IdsOf`,
  `RefValidation.IdListAsWrittenRaisesAtRef`): a string or another value
  that is neither a list nor a dict raises `TypeError`
  (`RefValidation.IdListAsWrittenRaisesOnStringRef`), and a dict without the
  identifier slot raises `KeyError`. The list is not normalised first, so a
  list raises as soon as one of its elements does: `TypeError` for an element
  that is not a dict (such as `["S1"]`), `KeyError` for a dict without the
  slot (`Document.Subscript`, `RefValidation.SubscriptAll`);
- an empty list, or a list or dict of records holding the identifier slot,
  raises nothing but replaces the identifiers collected so far, where the
  corrected scan keeps them (`RefValidation.IdListAsWrittenResetByEmptyRef`,
  `Scenarios.IdListAsWrittenDropsSamples`).

The written text differs from the corrected one on a single unresolved
non-string value.

`ghga_validator/plugins/ref_validation.py` has its own copies of
`get_slot_def`, `get_range_class` and `to_list`. They behave as the shared
helpers do, except for name formatting (see below). The same members model
both.

## Model

| member | source | states |
|---|---|---|
| `Document.Subscript` | ghga_validator/plugins/ref_validation.py:96-99 | `x[key]` succeeds iff `x` is a dict holding the key, and gives the first such member's value; otherwise `KeyError` on a dict, `TypeError` on any other value |
| `SchemaUtils.GetClassDef` | ghga_validator/schema_utils.py:25-37 | the class definition exactly when the name is a class of the schema, `None` otherwise |
| `SchemaUtils.GetSlotDef` | ghga_validator/schema_utils.py:40-57 | the class's `slot_usage` entry when it has one for the slot, else the global slot (or `None`); an unknown class raises `AttributeError` |
| `SchemaUtils.GetRangeClass` | ghga_validator/schema_utils.py:60-75 | non-`None` exactly when the slot definition exists and its range is a class of the schema, and then it is that range |
| `SchemaUtils.InducedSlot` | ghga_validator/plugins/backref_validation.py:81 | for a known class, the same definition `get_slot_def` resolves |
| `SchemaUtils.ReferenceTarget` | ghga_validator/plugins/backref_validation.py:81-83 | a class exactly when the slot's range is a known class and the slot is not inlined; the class is always one of the schema's |
| `Utils.ToList` | ghga_validator/utils.py:22-35 | a non-list is wrapped; the result is `[]` for an empty list or one whose first element is not a dict, else the list itself; a non-empty result starts with a dict |
| `Utils.ToListIdempotent` | ghga_validator/utils.py:22-35 | normalising a normalised list changes nothing |
| `Utils.MergeDictsOfList` | ghga_validator/utils.py:38-56 | `dict1` is updated in place and returned; its keys become the union; a shared key gets `dict1`'s list then `dict2`'s; a key only in `dict2` gets `dict2`'s list; other keys keep their lists |
| `Utils.PathAsString` | ghga_validator/utils.py:59-69 | the empty path renders as `""`, a one-element path as that element |
| `Utils.PathAsStringConcat` | ghga_validator/utils.py:68-69 | rendering is compositional: two non-empty paths render as their renderings joined by one `.` |
| `Utils.PathAsStringSnoc` | ghga_validator/utils.py:68-69 | extending a path by one element appends `.` and that element |
| `Report.ResultOf` | ghga_validator/plugins/unique_validation.py:61-66 | a plugin result is valid iff it has no messages, and carries the plugin's name and messages |
| `Report.RunAllShape` | ghga_validator/core/validator.py:54-62 | running the plugins succeeds iff no plugin raises, and then yields one result per plugin, each the plugin's own, in plugin order |
| `Report.RunAllStopsAt` | ghga_validator/core/validator.py:56-59 | a plugin raising after the earlier ones succeeded makes the whole run raise that exception |
| `Report.FirstFailure` | ghga_validator/core/validator.py:56-59 | the position of the first plugin that raises: every plugin before it succeeds, and it equals the number of plugins only when none raises |
| `Report.RunAllFirstError` | ghga_validator/core/validator.py:56-59 | a run raises iff some plugin raises, and then it raises the exception of the first plugin that does |
| `Report.ReportOf` | ghga_validator/core/validator.py:54-73 | the report has one result per plugin in order; it is valid iff every result is, so a run with no plugins is valid; it has the given type and object; when a plugin raises, the report is that exception of the first plugin that raises, all plugins before it having succeeded |
| `RefValidation.Unmatched` | ghga_validator/plugins/ref_validation.py:146-148 | the in-order filter of values not in the identifier list: a value is in it iff it was checked and is absent, and it is no longer than the input |
| `RefValidation.UnmatchedAppend` | ghga_validator/plugins/ref_validation.py:146-148 | the filter distributes over concatenation, so order is kept |
| `RefValidation.UnmatchedAllAbsent` | ghga_validator/plugins/ref_validation.py:146-148 | when no value is in the list, every value is kept |
| `RefValidation.UnmatchedAllPresent` | ghga_validator/plugins/ref_validation.py:146-148 | when every value is in the list, nothing is kept |
| `RefValidation.FindMissingRefs` | ghga_validator/plugins/ref_validation.py:133-149 | a scalar is checked as a one-element list; the result is exactly the checked values absent from the identifier list, in order; it is empty iff every value is present |
| `RefValidation.NonMatchAsStringAsWritten` | ghga_validator/plugins/ref_validation.py:151-164 | the code as written raises `TypeError` exactly for one unresolved value that is not a string |
| `RefValidation.NonMatchAsString` | ghga_validator/plugins/ref_validation.py:151-164 | one value gives `'x' was unexpected`; several give the quoted values joined by `', '` and ` were unexpected` |
| `RefValidation.NonMatchAsStringCorrected` | ghga_validator/plugins/ref_validation.py:158-164 | the corrected text equals the written one wherever that succeeds, and names every unresolved value |
| `RefValidation.NonMatchAsStringNumericCounterexample` | ghga_validator/plugins/ref_validation.py:163 | a single unresolved number makes the written code raise `TypeError`; the corrected text is `'7' was unexpected` |
| `RefValidation.JoinMentions` | ghga_validator/plugins/ref_validation.py:159-161 | the joined text contains every value's `str()` |
| `RefValidation.SubscriptAll` | ghga_validator/plugins/ref_validation.py:96-97 | `[x[key] for x in xs]` succeeds iff every subscript does, and then gives each element's value in order; a failure is `TypeError` or `KeyError` |
| `RefValidation.IdListOfErrSticks` | ghga_validator/plugins/ref_validation.py:88-99 | an exception on a prefix of the fields ends the whole scan with it |
| `RefValidation.IdListLastSource` | ghga_validator/plugins/ref_validation.py:88-99 | the identifier list is the one of the last field whose range is the referenced class; a later field overwrites an earlier one |
| `RefValidation.IdListNoSource` | ghga_validator/plugins/ref_validation.py:87-99 | without such a field the identifier list is empty |
| `RefValidation.IdListAgree` | ghga_validator/plugins/ref_validation.py:88-99 | when every field with the referenced range is inlined, the written scan and the corrected scan give the same result |
| `RefValidation.IdsOf` | ghga_validator/plugins/ref_validation.py:95-98 | a list succeeds iff every element can be subscripted by the identifier slot, any other value iff it is a dict holding the slot, giving that one identifier; a failure is `TypeError` or `KeyError` |
| `RefValidation.IdListAsWrittenRaisesAtRef` | ghga_validator/plugins/ref_validation.py:93-99 | a value that cannot be subscripted in a non-inlined field of the referenced range makes the written scan raise that subscript's exception, while the corrected scan skips that field |
| `RefValidation.IdListAsWrittenRaisesOnStringRef` | ghga_validator/plugins/ref_validation.py:93-99 | a string value in a non-inlined field of the referenced range makes the written scan raise `TypeError`, while the corrected scan skips that field |
| `RefValidation.IdListAsWrittenResetByEmptyRef` | ghga_validator/plugins/ref_validation.py:93-97 | an empty list in a non-inlined field of the referenced range silently resets the written scan's identifiers to `[]`, while the corrected scan skips that field |
| `RefValidation.GetIdList` | ghga_validator/plugins/ref_validation.py:72-99 | the loop computes the fold over the top-level fields, counting inlined fields only (see Findings) |
| `RefValidation.CheckSlotSkipsNonClassRange` | ghga_validator/plugins/ref_validation.py:218-221 | a slot without a range class gives no message |
| `RefValidation.CheckSlotInlinedObject` | ghga_validator/plugins/ref_validation.py:222-232 | an inlined dict value is walked as a record of the range class, with the path extended by `->field` |
| `RefValidation.CheckElementsEach` | ghga_validator/plugins/ref_validation.py:223-232 | walking the elements succeeds iff every element's walk does, and then gives no message iff no element's walk gives one |
| `RefValidation.CheckSlotInlinedList` | ghga_validator/plugins/ref_validation.py:222-232 | an inlined list of dicts walks every element as a record of the range class, all with the path extended by `->field`: success iff every element succeeds, no message iff no element gives one; an empty list, or one whose first element is not a dict, gives no message |
| `RefValidation.CheckSlotReference` | ghga_validator/plugins/ref_validation.py:233-248 | a non-inlined reference slot gives no message iff all its values resolve, otherwise exactly one `Error` whose field is the identifier slot, whose value is `str(value)` and whose text names every unresolved value; identifiers come from the corrected scan and the text from the corrected rendering (see Findings) |
| `RefValidation.CheckObjectMessages` | ghga_validator/plugins/ref_validation.py:197-249 | every message of a walk is an unknown-reference error |
| `RefValidation.CheckMembersMessages` | ghga_validator/plugins/ref_validation.py:217-248 | every message from the remaining fields of a record is an unknown-reference error |
| `RefValidation.CheckSlotMessages` | ghga_validator/plugins/ref_validation.py:218-248 | every message from one field is an unknown-reference error |
| `RefValidation.CheckElementsMessages` | ghga_validator/plugins/ref_validation.py:223-232 | every message from the elements of an inlined value is an unknown-reference error |
| `RefValidation.ValidateJson` | ghga_validator/plugins/ref_validation.py:197-249 | the recursive walk computes the specification's messages, in field order and depth first; it uses the corrected identifier scan and text (see Findings) |
| `RefValidation.ValidateInlined` | ghga_validator/plugins/ref_validation.py:223-232 | the inner loop over the elements `to_list` gives for an inlined value computes the specification's messages for them, stopping at the first exception |
| `RefValidation.ProcessResult` | ghga_validator/plugins/ref_validation.py:45-70 | `TypeError` without a target class; otherwise it succeeds iff the walk from the root with an empty path does, raises the walk's exception, or carries the walk's messages and is valid iff there are none; the walk uses the corrected identifier scan and text (see Findings) |
| `RefValidation.Process` | ghga_validator/plugins/ref_validation.py:45-70 | the method gives what the specification says, with the corrected walk (see Findings) |
| `RefValidation.Instance` | ghga_validator/plugins/ref_validation.py:39-45 | the loaded plugin is named `RefValidationPlugin`, and running it on a document and a target class gives `ProcessResult` for that target class |
| `BackRefValidation.FindMissingRefs` | ghga_validator/plugins/backref_validation.py:125-138 | a scalar gives `[v]` when absent and `[]` when present, a list its absent elements in order; this is the same function as the dangling-reference plugin's |
| `BackRefValidation.AddSlotRefs` | ghga_validator/plugins/backref_validation.py:80-85 | a field that is not a non-inlined reference to a known class leaves the table unchanged; otherwise only its target class's entry changes |
| `BackRefValidation.AddSlotRefsAt` | ghga_validator/plugins/backref_validation.py:82-85 | a class's list only grows; it gains exactly the field's values referencing that class; no gained value was already in it |
| `BackRefValidation.GetAllClassRefs` | ghga_validator/plugins/backref_validation.py:66-86 | the nested loops compute the left fold over records and fields |
| `BackRefValidation.CollectSlotsGrows` | ghga_validator/plugins/backref_validation.py:79-85 | one record's fields only extend each class's list |
| `BackRefValidation.CollectSlotsExact` | ghga_validator/plugins/backref_validation.py:79-85 | after one record, a list holds what it held before plus the record's values that reference the class, and nothing else |
| `BackRefValidation.CollectRecordsExact` | ghga_validator/plugins/backref_validation.py:66-86 | after pass 1 a class's list holds exactly the values some walked record holds in a non-inlined slot whose range is that class |
| `BackRefValidation.CollectRecordsGrows` | ghga_validator/plugins/backref_validation.py:78-86 | the table after a prefix of the walk is, class by class, a prefix of the final one |
| `BackRefValidation.ExcludedAmong` | ghga_validator/plugins/backref_validation.py:163-167 | a class is listed iff it is never the range of a non-inlined slot, or is tagged `exclude_from_ref` |
| `BackRefValidation.SelectExcludedAgrees` | ghga_validator/plugins/backref_validation.py:163-167 | the final comprehension over the two collected lists gives exactly those classes |
| `BackRefValidation.GetExcludedFromRef` | ghga_validator/plugins/backref_validation.py:140-167 | the nested loops list, in schema order, exactly the classes of the schema that pass 2 skips |
| `BackRefValidation.UnusedRecords` | ghga_validator/plugins/backref_validation.py:110-113 | a walked record is flagged iff its class is not in the excluded list and its identifier is absent from its class's list |
| `BackRefValidation.UnusedMessages` | ghga_validator/plugins/backref_validation.py:113-122 | one message per flagged record, in walk order, with the dotted path as field and the record's data as value |
| `BackRefValidation.ValidateRefs` | ghga_validator/plugins/backref_validation.py:88-123 | the loop computes those messages |
| `BackRefValidation.UnusedIffUnreferenced` | ghga_validator/plugins/backref_validation.py:66-123 | over a walk, a record is reported iff its class is not skipped and no walked record references its identifier as that class |
| `BackRefValidation.Process` | ghga_validator/plugins/backref_validation.py:42-64 | `KeyError` without a target class; otherwise pass 1 then pass 2 over the same walk, valid iff no message |
| `BackRefValidation.ProcessResult` | ghga_validator/plugins/backref_validation.py:42-64 | `KeyError` without a target class; otherwise it never raises, its messages are pass 2's messages over pass 1's table for the same walk, and it is valid iff no walked record is flagged as unused |
| `BackRefValidation.Instance` | ghga_validator/plugins/backref_validation.py:40-42 | the loaded plugin is named `BackRefValidationPlugin`, and running it on a document and a target class gives `ProcessResult` for that target class |
| `UniqueValidation.DuplicateMessage` | ghga_validator/plugins/unique_validation.py:93-100 | an `Error` naming the class, its identifier slot and the identifier, with the dotted path as field and the data as value; `AttributeError` when the class has no identifier slot |
| `UniqueValidation.ValidateUniqueFields` | ghga_validator/plugins/unique_validation.py:69-104 | the loop, with its per-class table of seen identifiers, computes the specification's messages |
| `UniqueValidation.UniqueMessagesErrSticks` | ghga_validator/plugins/unique_validation.py:92-93 | an exception on a prefix of the walk ends the check with it |
| `UniqueValidation.UniqueMessagesShape` | ghga_validator/plugins/unique_validation.py:89-104 | the check succeeds iff every repeated record's class has an identifier slot, and then gives one message per repeated record, in walk order |
| `UniqueValidation.SeenIsInPairs` | ghga_validator/plugins/unique_validation.py:92 | a class and identifier were seen iff the pair occurs among the records |
| `UniqueValidation.RepeatsCount` | ghga_validator/plugins/unique_validation.py:87-103 | a class and identifier occurring n > 0 times anywhere in the walk are reported n - 1 times; the first occurrence never is; the same identifier in different classes is not a repeat |
| `UniqueValidation.DistinctNoMessages` | ghga_validator/plugins/unique_validation.py:92-103 | with no class and identifier occurring twice, the check succeeds with no message |
| `UniqueValidation.ProcessResult` | ghga_validator/plugins/unique_validation.py:47-67 | `KeyError` without a target class; otherwise it succeeds iff the check over the walk does, raises the check's exception, or carries the check's messages and is valid iff no record repeats |
| `UniqueValidation.Process` | ghga_validator/plugins/unique_validation.py:47-67 | the method gives what the specification says |
| `UniqueValidation.Instance` | ghga_validator/plugins/unique_validation.py:41-47 | the loaded plugin is named `UniqueValidationPlugin`, and running it on a document and a target class gives `ProcessResult` for that target class |
| `ClassPluginValidator.SchemaOnlyClass` | ghga_validator/plugins/base.py:36-45 | a plugin class whose constructor takes only the schema builds its instance without arguments and raises `TypeError` for any keyword argument; whether it derives from this package's base class is given |
| `ClassPluginValidator.PackagePluginsLoading` | ghga_validator/core/validator.py:84-92 | the dangling-reference and uniqueness plugins, which derive from `linkml_validator`'s base class, make loading raise `TypeError`; the unused-object plugin, which derives from this package's base class, loads without arguments and raises `TypeError` with any |
| `ClassPluginValidator.ObjectForReport` | ghga_validator/core/validator.py:63-66 | the report carries no object iff `exclude_object` is given and truthy, otherwise the input object |
| `ClassPluginValidator.LoadShape` | ghga_validator/core/validator.py:82-92 | loading succeeds iff every entry's class derives from the base class and accepts its arguments; it then gives one instance per entry in order, built with `args` or `{}`; never more instances than entries |
| `ClassPluginValidator.LoadRejectsForeignClass` | ghga_validator/core/validator.py:89-90 | an entry whose class does not derive from the base class raises `TypeError` when the entries before it load |
| `ClassPluginValidator.LoadStops` | ghga_validator/core/validator.py:84-92 | once loading raised on a prefix, the instances made before stay and nothing more is loaded |
| `ClassPluginValidator.Validator.New` | ghga_validator/core/validator.py:37-39 | construction keeps the schema and loads the plugins, raising what loading raises |
| `ClassPluginValidator.Validator.LoadPlugins` | ghga_validator/core/validator.py:75-92 | the plugin list is reset, so `None` or `[]` leaves it empty; then it holds what loading gives, and the exception is returned |
| `ClassPluginValidator.Validator.Validate` | ghga_validator/core/validator.py:41-73 | the loop builds the report of the loaded plugins, with the object withheld when `exclude_object` is truthy |
| `NamedPluginValidator.LoadShape` | src/ghga_validator/core/validator.py:71-79 | loading succeeds iff every name is registered, giving the registered instances in the order named; otherwise `ModuleNotFoundError` names the first unknown name |
| `NamedPluginValidator.LoadStops` | src/ghga_validator/core/validator.py:74-79 | once loading raised on a prefix, nothing more is loaded |
| `NamedPluginValidator.Validator.New` | src/ghga_validator/core/validator.py:38-42 | starts with no plugins; no names leave it empty; otherwise it loads the names, raising what loading raises |
| `NamedPluginValidator.Validator.LoadPlugins` | src/ghga_validator/core/validator.py:71-79 | appends the named instances after the plugins already loaded, keeping those appended before an unknown name |
| `NamedPluginValidator.Validator.Validate` | src/ghga_validator/core/validator.py:44-69 | the loop builds the report of the loaded plugins, always carrying the data |
| `Scenarios.ResolvedReference` | ghga_validator/plugins/ref_validation.py:197-249 | with the corrected identifier scan, a submission whose `primary_sample_ref` names one of its inlined samples passes the reference check; the code as written raises `TypeError` on it (see Findings) |
| `Scenarios.DanglingReference` | ghga_validator/plugins/ref_validation.py:233-248 | with the corrected identifier scan, a reference to a missing sample gives the single message `Unknown references in ->primary_sample_ref ('S9' was unexpected)` with field `sample_id`; the code as written raises `TypeError` on that document instead (see Findings) |
| `Scenarios.IdListAsWrittenFailsOnSubmission` | ghga_validator/plugins/ref_validation.py:93-99 | the written identifier scan raises `TypeError` on that submission |
| `Scenarios.IdListAsWrittenDropsSamples` | ghga_validator/plugins/ref_validation.py:88-99 | with `"primary_sample_ref": []` the written scan yields no identifiers and raises nothing, while the corrected scan yields `S1` and `S2` |
| `Scenarios.DuplicateSample` | ghga_validator/plugins/unique_validation.py:89-103 | two samples `S1` and one `S2` give one duplicate message, at `samples.1` |
| `Scenarios.UnusedSample` | ghga_validator/plugins/backref_validation.py:42-64 | with `S1` referenced, the unreferenced sample `S2` is reported and the submission, a class nobody references, is not |

## Left out

- `ObjectIterator` (the record walker) is not part of this model. The
  unused-object and uniqueness checks take the walk as a parameter: a function
  from the document and target class to the sequence of
  `(class, identifier, data, path)` records. The walk is total and
  deterministic: an exception raised while walking is not modelled, and the
  unused-object check's two passes see the same records.
- The command-line layer (file I/O, JSON loading, report writing),
  `ghga_validator/core/utils.py` (a wrapper over an external validator) and
  `get_target_class` (file reading and root-class inference) are left out.
- A document dict is a sequence of members and may hold a key twice, which a
  Python dict cannot; a lookup then takes the first member with the key.
  No distinct-keys invariant is imposed.
- LinkML's `SchemaView` is left out; the schema is a plain value instead.
  - `induced_slot` is total here. It uses the same two-level lookup as `get_slot_def`.
  - `is_inlined` is the slot's `inlined` flag. The library's implicit inlining is not modelled.
  - `get_identifier_slot` is the class's `identifier` field.
  - `all_classes` is the `classNames` list.
- `BackRefValidation.GetExcludedFromRef` requires the schema's class list
  to name exactly its classes (`Schema.WellFormed`). That holds for
  `all_classes()` by construction. `ValidateRefs` and `Process` of the same
  module inherit the requirement.
- `camelcase_to_sentencecase` and `snakecase_to_sentencecase` are treated as the
  identity. They are external name-formatting helpers.
- Floating-point numbers, booleans compared with numbers, and other Python
  equality quirks are left out. Numbers are integers, and equality is
  structural.
- `repr()` of strings inside lists and dicts does not escape quotes.
- `Utils.MergeDictsOfList` states the resulting contents, not the key
  insertion order. Aliasing between the lists of `dict1` and `dict2` is not
  modelled.
- A message built without a severity has severity `Unset`. The report
  model's default is external.
- Keyword arguments the class-based `Validator` forwards to `process` beyond
  `target_class` are left out; the three plugins ignore them.
- A plugin entry lacking the `plugin_class` key, which raises `KeyError`,
  is left out: an entry always names its class.
- Plugin discovery (`discover_plugins`) is left out. A name-to-constructor
  registry is passed to `LoadPlugins`. The abstract plugin base classes have
  no behaviour; a loaded plugin is its name and its run function.

## Findings

| source | as written | input that shows it | evidently intended | confidence | as-written member | corrected member |
|---|---|---|---|---|---|---|
| ghga_validator/plugins/ref_validation.py:163 | the single-value branch concatenates the value itself to a string, without `str()` | one unresolved reference that is a number, e.g. `[7]` | render it with `str()` as the plural branch does: `'7' was unexpected` | not executed | `RefValidation.NonMatchAsStringAsWritten` (shown by `RefValidation.NonMatchAsStringNumericCounterexample`) | `RefValidation.NonMatchAsString` (proved by `RefValidation.NonMatchAsStringCorrected`) |
| ghga_validator/plugins/ref_validation.py:93-99 | every top-level field whose range is the referenced class supplies identifiers, including a non-inlined reference slot; its string value is then subscripted, and an empty list there silently replaces the identifiers collected so far | `{"samples": [{"sample_id": "S1"}, {"sample_id": "S2"}], "primary_sample_ref": "S1"}` with `samples` inlined and `primary_sample_ref` a reference, both of range `Sample`: `TypeError`; the same with `"primary_sample_ref": []`: no exception, but no identifiers either | only inlined fields supply identifiers, as the function's documentation says; the first submission passes and the second keeps `S1` and `S2` | not executed | `RefValidation.IdListAsWritten` (shown by `Scenarios.IdListAsWrittenFailsOnSubmission` and `Scenarios.IdListAsWrittenDropsSamples`) | `RefValidation.IdList` (computed by `RefValidation.GetIdList`, shown by `Scenarios.ResolvedReference`) |
