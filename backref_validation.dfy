/** The unused-object check of `BackRefValidationPlugin`
    (`ghga_validator/plugins/backref_validation.py`). Pass 1 collects, per
    class, every value held in a non-inlined reference slot of a walked
    record; pass 2 flags every walked record whose identifier is never
    referenced, skipping classes that are never a reference target or are
    tagged `exclude_from_ref`. The object walker is a parameter. */
module BackRefValidation {
  import opened Base
  import opened Document
  import opened Report
  import opened SchemaUtils
  import opened Utils
  import RefValidation

  const NAME := "BackRefValidationPlugin"
  const EXCLUDE_FROM_REF := "exclude_from_ref"

  /** `find_missing_refs`: a scalar not in the list gives `[v]`, a scalar in
      it gives `[]`, and a list gives its absent elements in order. It agrees
      with the dangling-reference plugin's formulation of the same function. */
  function FindMissingRefs(refValue: Value, idList: seq<Value>): (r: seq<Value>)
    ensures r == RefValidation.FindMissingRefs(refValue, idList)
    ensures forall x :: x in r <==> x in RefValidation.ValuesToCheck(refValue) && x !in idList
  {
    if !refValue.List? then (if refValue !in idList then [refValue] else [])
    else RefValidation.Unmatched(refValue.items, idList)
  }

  // ---------------------------------------------------------------------------
  // Pass 1: `get_all_class_refs`
  // ---------------------------------------------------------------------------

  /** One field's contribution to the table. Only a non-inlined slot whose
      range is a known class contributes; its values not yet recorded for
      that class are appended to that class's list. */
  function AddSlotRefs(s: Schema, className: string, m: Member, allRefs: ListTable): (r: ListTable)
    ensures ReferenceTarget(s, className, m.key).None? ==> r == allRefs
    ensures ReferenceTarget(s, className, m.key).Some? ==>
              r.Keys == allRefs.Keys + {ReferenceTarget(s, className, m.key).value}
  {
    var target := ReferenceTarget(s, className, m.key);
    if target.None? then allRefs
    else
      var known := ListAt(allRefs, target.value);
      allRefs[target.value := known + FindMissingRefs(m.val, known)]
  }

  /** Each class's list only grows; it gains exactly the field's values that
      reference that class, and none of the values it gains was already in it. */
  lemma AddSlotRefsAt(s: Schema, className: string, m: Member, allRefs: ListTable, c: string, x: Value)
    ensures ListAt(allRefs, c) <= ListAt(AddSlotRefs(s, className, m, allRefs), c)
    ensures x in ListAt(AddSlotRefs(s, className, m, allRefs), c) <==>
              x in ListAt(allRefs, c) || HoldsRef(s, className, m, c, x)
    ensures x in ListAt(AddSlotRefs(s, className, m, allRefs), c)[|ListAt(allRefs, c)|..] ==> x !in ListAt(allRefs, c)
  {
    var target := ReferenceTarget(s, className, m.key);
    if target == Some(c) {
      var known := ListAt(allRefs, c);
      assert ListAt(AddSlotRefs(s, className, m, allRefs), c)[|known|..] == FindMissingRefs(m.val, known);
    }
  }

  /** The inner loop over one record's fields, as a left fold. */
  function CollectSlots(s: Schema, className: string, data: seq<Member>, allRefs: ListTable): ListTable
    decreases |data|
  {
    if data == [] then allRefs
    else AddSlotRefs(s, className, data[|data| - 1], CollectSlots(s, className, data[..|data| - 1], allRefs))
  }

  /** The outer loop over the walked records, as a left fold. */
  function CollectRecords(s: Schema, records: seq<Record>): ListTable
    decreases |records|
  {
    if records == [] then map[]
    else
      var last := records[|records| - 1];
      CollectSlots(s, last.className, last.data, CollectRecords(s, records[..|records| - 1]))
  }

  /** `get_all_class_refs`. */
  method GetAllClassRefs(s: Schema, records: seq<Record>) returns (allRefs: ListTable)
    ensures allRefs == CollectRecords(s, records)
  {
    allRefs := map[];
    var i := 0;
    while i < |records|
      invariant 0 <= i <= |records|
      invariant allRefs == CollectRecords(s, records[..i])
    {
      var className, data := records[i].className, records[i].data;
      ghost var before := allRefs;
      var j := 0;
      while j < |data|
        invariant 0 <= j <= |data|
        invariant allRefs == CollectSlots(s, className, data[..j], before)
      {
        var field, value := data[j].key, data[j].val;
        var slotDef := InducedSlot(s, className, field);
        var rangeClass := GetRangeClass(s, slotDef);
        if rangeClass.Some? && !slotDef.value.inlined {
          var known := if rangeClass.value in allRefs then allRefs[rangeClass.value] else [];
          var newRefs := FindMissingRefs(value, known);
          allRefs := allRefs[rangeClass.value := known + newRefs];
        }
        assert data[..j + 1][..j] == data[..j];
        j := j + 1;
      }
      assert data[..j] == data;
      assert records[..i + 1][..i] == records[..i];
      i := i + 1;
    }
    assert records[..i] == records;
  }

  /** Field `m` of a record of `className` references `x` as a `c`. */
  predicate HoldsRef(s: Schema, className: string, m: Member, c: string, x: Value) {
    ReferenceTarget(s, className, m.key) == Some(c) && x in RefValidation.ValuesToCheck(m.val)
  }

  /** Some walked record holds `x` in a non-inlined slot whose range is `c`. */
  ghost predicate Referenced(s: Schema, records: seq<Record>, c: string, x: Value) {
    exists i, j :: 0 <= i < |records| && 0 <= j < |records[i].data|
                   && HoldsRef(s, records[i].className, records[i].data[j], c, x)
  }

  /** The inner fold only ever extends a class's list. */
  lemma {:induction false} CollectSlotsGrows(s: Schema, className: string, data: seq<Member>, allRefs: ListTable,
                                             c: string)
    ensures ListAt(allRefs, c) <= ListAt(CollectSlots(s, className, data, allRefs), c)
    decreases |data|
  {
    if data != [] {
      var n := |data| - 1;
      var acc := CollectSlots(s, className, data[..n], allRefs);
      CollectSlotsGrows(s, className, data[..n], allRefs, c);
      AddSlotRefsAt(s, className, data[n], acc, c, Null);
    }
  }

  /** Some field of `data` references `x` as a `c`. */
  ghost predicate SlotsHold(s: Schema, className: string, data: seq<Member>, c: string, x: Value) {
    exists j :: 0 <= j < |data| && HoldsRef(s, className, data[j], c, x)
  }

  lemma SlotsHoldSnoc(s: Schema, className: string, data: seq<Member>, c: string, x: Value)
    requires data != []
    ensures SlotsHold(s, className, data, c, x) <==>
              SlotsHold(s, className, data[..|data| - 1], c, x) || HoldsRef(s, className, data[|data| - 1], c, x)
  {
    var n := |data| - 1;
    if SlotsHold(s, className, data, c, x) {
      var j :| 0 <= j < |data| && HoldsRef(s, className, data[j], c, x);
      if j < n {
        assert data[..n][j] == data[j];
      }
    }
    if SlotsHold(s, className, data[..n], c, x) {
      var j :| 0 <= j < n && HoldsRef(s, className, data[..n][j], c, x);
      assert data[..n][j] == data[j];
    }
  }

  /** After the inner fold a class's list holds what it held before and the
      record's values that reference the class, and nothing else. */
  lemma {:induction false} CollectSlotsExact(s: Schema, className: string, data: seq<Member>, allRefs: ListTable,
                                             c: string, x: Value)
    ensures x in ListAt(CollectSlots(s, className, data, allRefs), c) <==>
              x in ListAt(allRefs, c) || SlotsHold(s, className, data, c, x)
    decreases |data|
  {
    if data != [] {
      var n := |data| - 1;
      var acc := CollectSlots(s, className, data[..n], allRefs);
      CollectSlotsExact(s, className, data[..n], allRefs, c, x);
      AddSlotRefsAt(s, className, data[n], acc, c, x);
      SlotsHoldSnoc(s, className, data, c, x);
    }
  }

  /** After pass 1 a class's list holds exactly the values that some walked
      record holds in a non-inlined slot whose range is that class. */
  lemma {:induction false} CollectRecordsExact(s: Schema, records: seq<Record>, c: string, x: Value)
    ensures x in ListAt(CollectRecords(s, records), c) <==> Referenced(s, records, c, x)
    decreases |records|
  {
    if records != [] {
      var n := |records| - 1;
      var last := records[n];
      CollectRecordsExact(s, records[..n], c, x);
      CollectSlotsExact(s, last.className, last.data, CollectRecords(s, records[..n]), c, x);
      assert forall i :: 0 <= i < n ==> records[..n][i] == records[i];
      if x in ListAt(CollectRecords(s, records), c) {
        if x in ListAt(CollectRecords(s, records[..n]), c) {
          var i, j :| 0 <= i < n && 0 <= j < |records[..n][i].data|
                      && HoldsRef(s, records[..n][i].className, records[..n][i].data[j], c, x);
          assert HoldsRef(s, records[i].className, records[i].data[j], c, x);
        } else {
          var j :| 0 <= j < |last.data| && HoldsRef(s, last.className, last.data[j], c, x);
          assert HoldsRef(s, records[n].className, records[n].data[j], c, x);
        }
      }
      if Referenced(s, records, c, x) {
        var i, j :| 0 <= i < |records| && 0 <= j < |records[i].data|
                    && HoldsRef(s, records[i].className, records[i].data[j], c, x);
        if i < n {
          assert HoldsRef(s, records[..n][i].className, records[..n][i].data[j], c, x);
        }
      }
    }
  }

  /** Pass 1 only ever extends the list of a class: the table built from a
      prefix of the walk is a prefix, class by class, of the final one. */
  lemma {:induction false} CollectRecordsGrows(s: Schema, records: seq<Record>, i: nat, c: string)
    requires i <= |records|
    ensures ListAt(CollectRecords(s, records[..i]), c) <= ListAt(CollectRecords(s, records), c)
    decreases |records|
  {
    if i < |records| {
      var n := |records| - 1;
      assert records[..n][..i] == records[..i];
      CollectRecordsGrows(s, records[..n], i, c);
      var last := records[n];
      CollectSlotsGrows(s, last.className, last.data, CollectRecords(s, records[..n]), c);
    } else {
      assert records[..i] == records;
    }
  }

  // ---------------------------------------------------------------------------
  // Classes left out of the check: `get_excluded_from_ref`
  // ---------------------------------------------------------------------------

  /** Some slot of one of the classes `names` references `c` without inlining. */
  predicate RefTargetAmong(s: Schema, names: seq<string>, c: string) {
    exists cl | cl in names :: cl in s.classes && SlotsTarget(s, cl, s.classes[cl].slots, c)
  }

  /** One of the slots `slots` of class `cl` references `c` without inlining. */
  predicate SlotsTarget(s: Schema, cl: string, slots: seq<string>, c: string) {
    exists sl | sl in slots :: ReferenceTarget(s, cl, sl) == Some(c)
  }

  /** The class is tagged `exclude_from_ref`. */
  predicate Tagged(s: Schema, c: string) {
    c in s.classes && EXCLUDE_FROM_REF in s.classes[c].inSubset
  }

  /** The class is skipped by pass 2: no slot of any class references it,
      or it is tagged `exclude_from_ref`. */
  predicate IsExcluded(s: Schema, c: string) {
    !RefTargetAmong(s, s.classNames, c) || Tagged(s, c)
  }

  /** The classes of `names` that pass 2 skips, in their order. */
  function ExcludedAmong(s: Schema, names: seq<string>): (r: seq<string>)
    ensures forall c :: c in r <==> c in names && IsExcluded(s, c)
  {
    if names == [] then []
    else (if IsExcluded(s, names[0]) then [names[0]] else []) + ExcludedAmong(s, names[1..])
  }

  /** `[x for x in names if x not in refClasses or x in excluded]`. */
  function SelectExcluded(names: seq<string>, refClasses: seq<string>, excluded: seq<string>): seq<string> {
    if names == [] then []
    else
      (if names[0] !in refClasses || names[0] in excluded then [names[0]] else [])
      + SelectExcluded(names[1..], refClasses, excluded)
  }

  lemma {:induction false} SelectExcludedAgrees(s: Schema, names: seq<string>, refClasses: seq<string>,
                                                excluded: seq<string>)
    requires forall c :: c in names ==> ((c !in refClasses || c in excluded) <==> IsExcluded(s, c))
    ensures SelectExcluded(names, refClasses, excluded) == ExcludedAmong(s, names)
  {
    if names != [] {
      SelectExcludedAgrees(s, names[1..], refClasses, excluded);
    }
  }

  /** `get_excluded_from_ref`: every class of the schema, in schema order,
      that is never the range of a non-inlined slot or is tagged
      `exclude_from_ref`. */
  method GetExcludedFromRef(s: Schema) returns (r: seq<string>)
    requires s.WellFormed()
    ensures r == ExcludedAmong(s, s.classNames)
    ensures forall c :: c in r <==> c in s.classes && IsExcluded(s, c)
  {
    var refClasses: seq<string> := [];
    var excludedFromRef: seq<string> := [];
    var k := 0;
    while k < |s.classNames|
      invariant 0 <= k <= |s.classNames|
      invariant forall c :: c in refClasses <==> RefTargetAmong(s, s.classNames[..k], c)
      invariant forall c :: c in excludedFromRef <==> c in s.classNames[..k] && Tagged(s, c)
    {
      var className := s.classNames[k];
      var slots := s.classes[className].slots;
      assert s.classNames[..k + 1] == s.classNames[..k] + [className];
      var j := 0;
      while j < |slots|
        invariant 0 <= j <= |slots|
        invariant forall c :: c in refClasses <==>
                    RefTargetAmong(s, s.classNames[..k], c) || SlotsTarget(s, className, slots[..j], c)
      {
        var slotDef := InducedSlot(s, className, slots[j]);
        var rangeClass := GetRangeClass(s, slotDef);
        if rangeClass.Some? && !slotDef.value.inlined {
          refClasses := refClasses + [rangeClass.value];
        }
        assert slots[..j + 1] == slots[..j] + [slots[j]];
        assert forall c :: SlotsTarget(s, className, slots[..j + 1], c) <==>
                 SlotsTarget(s, className, slots[..j], c) || ReferenceTarget(s, className, slots[j]) == Some(c);
        j := j + 1;
      }
      assert slots[..j] == slots;
      assert forall c :: RefTargetAmong(s, s.classNames[..k + 1], c) <==>
               RefTargetAmong(s, s.classNames[..k], c) || SlotsTarget(s, className, slots, c);
      if EXCLUDE_FROM_REF in s.classes[className].inSubset {
        excludedFromRef := excludedFromRef + [className];
      }
      k := k + 1;
    }
    assert s.classNames[..k] == s.classNames;
    SelectExcludedAgrees(s, s.classNames, refClasses, excludedFromRef);
    return SelectExcluded(s.classNames, refClasses, excludedFromRef);
  }

  // ---------------------------------------------------------------------------
  // Pass 2: `validate_refs`
  // ---------------------------------------------------------------------------

  /** A walked record pass 2 flags: its class is not in the excluded list
      and its identifier is absent from its class's reference list. */
  predicate IsUnused(s: Schema, r: Record, allRefs: ListTable) {
    !(r.className in s.classNames && IsExcluded(s, r.className))
    && r.identifier !in ListAt(allRefs, r.className)
  }

  /** The flagged records, in walk order. */
  function UnusedRecords(s: Schema, records: seq<Record>, allRefs: ListTable): (r: seq<Record>)
    ensures forall x :: x in r <==> x in records && IsUnused(s, x, allRefs)
    decreases |records|
  {
    if records == [] then []
    else
      var n := |records| - 1;
      var earlier := UnusedRecords(s, records[..n], allRefs);
      assert forall x :: x in records <==> x in records[..n] || x == records[n];
      if IsUnused(s, records[n], allRefs) then earlier + [records[n]] else earlier
  }

  /** The message for an unused record: its path as the field, its data as the value. */
  function UnusedMessage(r: Record): Message {
    Message(Unset, "Unused object identifier " + PyStr(r.identifier), PathAsString(r.path), Data(r.data))
  }

  /** One message per flagged record, in walk order. */
  function UnusedMessages(s: Schema, records: seq<Record>, allRefs: ListTable): (ms: seq<Message>)
    ensures |ms| == |UnusedRecords(s, records, allRefs)|
    ensures forall k :: 0 <= k < |ms| ==> ms[k] == UnusedMessage(UnusedRecords(s, records, allRefs)[k])
  {
    var unused := UnusedRecords(s, records, allRefs);
    seq(|unused|, k requires 0 <= k < |unused| => UnusedMessage(unused[k]))
  }

  /** Extending the walk by one record adds its message exactly when it is flagged. */
  lemma UnusedMessagesSnoc(s: Schema, records: seq<Record>, allRefs: ListTable, i: nat)
    requires i < |records|
    ensures UnusedMessages(s, records[..i + 1], allRefs) ==
              UnusedMessages(s, records[..i], allRefs)
              + (if IsUnused(s, records[i], allRefs) then [UnusedMessage(records[i])] else [])
  {
    assert records[..i + 1][..i] == records[..i];
    var before := UnusedRecords(s, records[..i], allRefs);
    var after := UnusedRecords(s, records[..i + 1], allRefs);
    assert after == before + (if IsUnused(s, records[i], allRefs) then [records[i]] else []);
  }

  /** `validate_refs`. */
  method ValidateRefs(s: Schema, objectToValidate: seq<Record>, allClassRefs: ListTable)
    returns (messages: seq<Message>)
    requires s.WellFormed()
    ensures messages == UnusedMessages(s, objectToValidate, allClassRefs)
  {
    var records := objectToValidate;
    var excludedFromRef := GetExcludedFromRef(s);
    messages := [];
    var i := 0;
    while i < |records|
      invariant 0 <= i <= |records|
      invariant messages == UnusedMessages(s, records[..i], allClassRefs)
    {
      var className, identifier := records[i].className, records[i].identifier;
      UnusedMessagesSnoc(s, records, allClassRefs, i);
      var known := if className in allClassRefs then allClassRefs[className] else [];
      assert className in excludedFromRef <==> className in s.classNames && IsExcluded(s, className);
      if className !in excludedFromRef && identifier !in known {
        messages := messages + [UnusedMessage(records[i])];
      }
      i := i + 1;
    }
    assert records[..i] == records;
  }

  /** The unused-object check over a walk: a walked record is reported
      exactly when its class is not skipped and no walked record holds its
      identifier in a non-inlined slot whose range is its class. */
  lemma UnusedIffUnreferenced(s: Schema, records: seq<Record>, r: Record)
    requires r in records
    ensures r in UnusedRecords(s, records, CollectRecords(s, records)) <==>
              !(r.className in s.classNames && IsExcluded(s, r.className))
              && !Referenced(s, records, r.className, r.identifier)
  {
    CollectRecordsExact(s, records, r.className, r.identifier);
  }

  /** What `process` gives for the walk `walk(obj, targetClass)`: a
      `KeyError` without a target class, otherwise one message per unused
      record, valid iff there is none. */
  function ProcessResult(s: Schema, walk: (Value, string) -> seq<Record>, obj: Value,
                         targetClass: Option<string>): (r: Result<ValidationResult>)
    ensures targetClass.None? ==> r == Err(KeyError)
    ensures targetClass.Some? ==> r.Ok? && r.value.pluginName == NAME
    ensures r.Ok? ==> (r.value.valid <==>
              UnusedRecords(s, walk(obj, targetClass.value), CollectRecords(s, walk(obj, targetClass.value))) == [])
    ensures r.Ok? ==> (r.value.messages ==
              UnusedMessages(s, walk(obj, targetClass.value), CollectRecords(s, walk(obj, targetClass.value))))
  {
    if targetClass.None? then Err(KeyError)
    else
      var records := walk(obj, targetClass.value);
      Ok(ResultOf(NAME, UnusedMessages(s, records, CollectRecords(s, records))))
  }

  /** `process`: pass 1, then pass 2 over the same walk. */
  method Process(s: Schema, walk: (Value, string) -> seq<Record>, obj: Value, targetClass: Option<string>)
    returns (r: Result<ValidationResult>)
    requires s.WellFormed()
    ensures r == ProcessResult(s, walk, obj, targetClass)
  {
    if targetClass.None? {
      return Err(KeyError);
    }
    var allClassRefs := GetAllClassRefs(s, walk(obj, targetClass.value));
    var messages := ValidateRefs(s, walk(obj, targetClass.value), allClassRefs);
    var valid := |messages| == 0;
    return Ok(ValidationResult(NAME, valid, messages));
  }

  /** The plugin as the orchestrators load it. */
  function Instance(s: Schema, walk: (Value, string) -> seq<Record>): (p: Plugin)
    ensures p.name == NAME
    ensures forall obj, targetClass :: p.run(obj, targetClass) == ProcessResult(s, walk, obj, Some(targetClass))
  {
    Plugin(NAME, (obj: Value, targetClass: string) => ProcessResult(s, walk, obj, Some(targetClass)))
  }
}
