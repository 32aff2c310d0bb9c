/** The schema as the validator consults it: an immutable value standing for
    the LinkML `SchemaView`, and the lookups of `ghga_validator/schema_utils.py`. */
module SchemaUtils {
  import opened Base

  /** A slot definition: its declared range (a class name or a primitive
      type name, possibly unset) and whether its values are inlined. */
  datatype SlotDef = SlotDef(range: Option<string>, inlined: bool)

  /** A class definition: its slots in declaration order, its per-class slot
      overrides (`slot_usage`), the name of its identifier slot, and the
      subsets it is tagged with (`in_subset`). */
  datatype ClassDef = ClassDef(
    slots: seq<string>,
    slotUsage: map<string, SlotDef>,
    identifier: Option<string>,
    inSubset: seq<string>)

  /** `classNames` is the order in which `all_classes()` lists the classes. */
  datatype Schema = Schema(
    classNames: seq<string>,
    classes: map<string, ClassDef>,
    slots: map<string, SlotDef>)
  {
    /** `classNames` enumerates exactly the classes of the schema. */
    ghost predicate WellFormed() {
      forall c :: c in classNames <==> c in classes
    }
  }

  /** `get_class_def`: the class of that name, `None` for an unknown name. */
  function GetClassDef(s: Schema, className: string): (r: Option<ClassDef>)
    ensures r.Some? <==> className in s.classes
    ensures r.Some? ==> r.value == s.classes[className]
  {
    if className in s.classes then Some(s.classes[className]) else None
  }

  /** `SchemaView.get_slot`: the global slot definition, `None` when unknown. */
  function GetSlot(s: Schema, slotName: string): (r: Option<SlotDef>)
    ensures r.Some? <==> slotName in s.slots
    ensures r.Some? ==> r.value == s.slots[slotName]
  {
    if slotName in s.slots then Some(s.slots[slotName]) else None
  }

  /** `get_slot_def`: the class's `slot_usage` override wins over the global
      slot. An unknown class makes `class_def.slot_usage` fail on `None`. */
  function GetSlotDef(s: Schema, className: string, slotName: string): (r: Result<Option<SlotDef>>)
    ensures className !in s.classes <==> r.Err?
    ensures r.Err? ==> r.error == AttributeError
    ensures className in s.classes && slotName in s.classes[className].slotUsage ==>
              r == Ok(Some(s.classes[className].slotUsage[slotName]))
    ensures className in s.classes && slotName !in s.classes[className].slotUsage ==>
              r == Ok(GetSlot(s, slotName))
  {
    match GetClassDef(s, className)
    case None => Err(AttributeError)
    case Some(classDef) =>
      if slotName in classDef.slotUsage then Ok(Some(classDef.slotUsage[slotName]))
      else Ok(GetSlot(s, slotName))
  }

  /** `get_range_class`: the slot's range, only when it names a class known to
      the schema; `None` for a missing slot definition or a primitive range. */
  function GetRangeClass(s: Schema, slotDef: Option<SlotDef>): (r: Option<string>)
    ensures r.Some? <==> slotDef.Some? && slotDef.value.range.Some? && slotDef.value.range.value in s.classes
    ensures r.Some? ==> slotDef.value.range == Some(r.value)
  {
    if slotDef.Some? && slotDef.value.range.Some? && slotDef.value.range.value in s.classes
    then slotDef.value.range
    else None
  }

  /** `SchemaView.induced_slot`, with the same two-level resolution as
      `GetSlotDef` but total: an unknown class has no overrides. */
  function InducedSlot(s: Schema, className: string, slotName: string): (r: Option<SlotDef>)
    ensures className in s.classes ==> GetSlotDef(s, className, slotName) == Ok(r)
  {
    if className in s.classes && slotName in s.classes[className].slotUsage
    then Some(s.classes[className].slotUsage[slotName])
    else GetSlot(s, slotName)
  }

  /** `SchemaView.get_identifier_slot`: the name of the class's identifier slot. */
  function IdentifierSlot(s: Schema, className: string): Option<string> {
    if className in s.classes then s.classes[className].identifier else None
  }

  /** The class a slot of `className` references without inlining, if any:
      the condition under which both reference plugins look at a slot. */
  function ReferenceTarget(s: Schema, className: string, slotName: string): (r: Option<string>)
    ensures r.Some? ==> r.value in s.classes
    ensures r.Some? <==> GetRangeClass(s, InducedSlot(s, className, slotName)).Some?
                         && !InducedSlot(s, className, slotName).value.inlined
  {
    var slotDef := InducedSlot(s, className, slotName);
    var rangeClass := GetRangeClass(s, slotDef);
    if rangeClass.Some? && !slotDef.value.inlined then rangeClass else None
  }
}
