/** The dangling-reference check of `RefValidationPlugin`
    (`ghga_validator/plugins/ref_validation.py`): it walks the document through
    inlined slots and, for every non-inlined slot whose range is a class of the
    schema, reports the values that match no identifier listed for that class
    among the top-level fields of the whole document. */
module RefValidation {
  import opened Base
  import opened Document
  import opened Report
  import opened SchemaUtils
  import opened Utils

  const NAME := "RefValidationPlugin"

  // ---------------------------------------------------------------------------
  // Matching reference values against an identifier list
  // ---------------------------------------------------------------------------

  /** The values a reference slot holds: the elements of a list, or the
      scalar itself as a one-element list. */
  function ValuesToCheck(refValue: Value): (r: seq<Value>)
    ensures refValue.List? ==> r == refValue.items
    ensures !refValue.List? ==> r == [refValue]
  {
    if refValue.List? then refValue.items else [refValue]
  }

  /** The elements of `xs` that are not in `ids`, in their original order
      (`[x for x in xs if x not in ids]`). */
  function Unmatched(xs: seq<Value>, ids: seq<Value>): (r: seq<Value>)
    ensures forall x :: x in r <==> x in xs && x !in ids
    ensures |r| <= |xs|
  {
    if xs == [] then []
    else (if xs[0] in ids then [] else [xs[0]]) + Unmatched(xs[1..], ids)
  }

  /** Filtering distributes over concatenation: the order of `xs` is kept. */
  lemma {:induction false} UnmatchedAppend(xs: seq<Value>, ys: seq<Value>, ids: seq<Value>)
    ensures Unmatched(xs + ys, ids) == Unmatched(xs, ids) + Unmatched(ys, ids)
  {
    if xs == [] {
      assert xs + ys == ys;
    } else {
      assert (xs + ys)[0] == xs[0];
      assert (xs + ys)[1..] == xs[1..] + ys;
      UnmatchedAppend(xs[1..], ys, ids);
    }
  }

  /** When no element is in `ids`, every element is reported, in order. */
  lemma {:induction false} UnmatchedAllAbsent(xs: seq<Value>, ids: seq<Value>)
    requires forall x :: x in xs ==> x !in ids
    ensures Unmatched(xs, ids) == xs
  {
    if xs != [] {
      UnmatchedAllAbsent(xs[1..], ids);
    }
  }

  /** When every element is in `ids`, nothing is reported. */
  lemma {:induction false} UnmatchedAllPresent(xs: seq<Value>, ids: seq<Value>)
    requires forall x :: x in xs ==> x in ids
    ensures Unmatched(xs, ids) == []
  {
    if xs != [] {
      UnmatchedAllPresent(xs[1..], ids);
    }
  }

  /** `find_missing_refs`: the checked values (a scalar normalised to a
      one-element list) that are not in `idList`, in their original order;
      empty exactly when every value is present. */
  function FindMissingRefs(refValue: Value, idList: seq<Value>): (r: seq<Value>)
    ensures r == Unmatched(ValuesToCheck(refValue), idList)
    ensures r == [] <==> forall x :: x in ValuesToCheck(refValue) ==> x in idList
  {
    var valueToCheck := if !refValue.List? then [refValue] else refValue.items;
    if !(forall x | x in valueToCheck :: x in idList) then Unmatched(valueToCheck, idList)
    else
      UnmatchedAllPresent(valueToCheck, idList);
      []
  }

  // ---------------------------------------------------------------------------
  // The text naming the unresolved values
  // ---------------------------------------------------------------------------

  /** `sep.join(str(x) for x in xs)`. */
  function Join(xs: seq<Value>, sep: string): string {
    if xs == [] then ""
    else if |xs| == 1 then PyStr(xs[0])
    else PyStr(xs[0]) + sep + Join(xs[1..], sep)
  }

  /** `needle` occurs in `hay` as a contiguous piece. */
  ghost predicate Contains(hay: string, needle: string) {
    exists a :: OccursAt(hay, needle, a)
  }

  /** `needle` occurs in `hay` starting at position `a`. */
  ghost predicate OccursAt(hay: string, needle: string, a: int) {
    0 <= a && a + |needle| <= |hay| && hay[a..a + |needle|] == needle
  }

  lemma ContainsExtended(pre: string, hay: string, post: string, needle: string)
    requires Contains(hay, needle)
    ensures Contains(pre + hay + post, needle)
  {
    var a :| OccursAt(hay, needle, a);
    assert (pre + hay + post)[|pre| + a..|pre| + a + |needle|] == needle;
    assert OccursAt(pre + hay + post, needle, |pre| + a);
  }

  /** Every joined value appears, rendered by `str()`, in the joined text. */
  lemma {:induction false} JoinMentions(xs: seq<Value>, sep: string, k: nat)
    requires k < |xs|
    ensures Contains(Join(xs, sep), PyStr(xs[k]))
  {
    var needle := PyStr(xs[k]);
    if k == 0 {
      var j := Join(xs, sep);
      assert j[0..|needle|] == needle;
      assert OccursAt(j, needle, 0);
    } else {
      JoinMentions(xs[1..], sep, k - 1);
      ContainsExtended(PyStr(xs[0]) + sep, Join(xs[1..], sep), "", needle);
      assert PyStr(xs[0]) + sep + Join(xs[1..], sep) + "" == Join(xs, sep);
    }
  }

  /** `non_match_as_string` as written: the single-value branch concatenates
      the value itself to a string, which raises `TypeError` for a value that
      is not a string; the plural branch applies `str()` to every value. */
  function NonMatchAsStringAsWritten(nonMatch: seq<Value>): (r: Result<string>)
    requires |nonMatch| >= 1
    ensures r.Err? <==> |nonMatch| == 1 && !nonMatch[0].Str?
    ensures r.Err? ==> r.error == TypeError
  {
    if |nonMatch| > 1 then Ok("'" + Join(nonMatch, "', '") + "'" + " were unexpected")
    else if nonMatch[0].Str? then Ok("'" + nonMatch[0].s + "'" + " was unexpected")
    else Err(TypeError)
  }

  /** `non_match_as_string` with the single-value branch rendering its value
      by `str()` like the plural branch does. One value gives
      `'x' was unexpected`; several give the quoted values joined by `', '`
      followed by ` were unexpected`. */
  function NonMatchAsString(nonMatch: seq<Value>): (r: string)
    requires |nonMatch| >= 1
    ensures |nonMatch| == 1 ==> r == "'" + PyStr(nonMatch[0]) + "' was unexpected"
    ensures |nonMatch| > 1 ==> r == "'" + Join(nonMatch, "', '") + "' were unexpected"
  {
    if |nonMatch| > 1 then "'" + Join(nonMatch, "', '") + "'" + " were unexpected"
    else "'" + PyStr(nonMatch[0]) + "'" + " was unexpected"
  }

  /** The correction changes nothing where the written code succeeds, and
      the corrected text names every unresolved value. */
  lemma NonMatchAsStringCorrected(nonMatch: seq<Value>, k: nat)
    requires |nonMatch| >= 1 && k < |nonMatch|
    ensures NonMatchAsStringAsWritten(nonMatch).Ok? ==>
              NonMatchAsStringAsWritten(nonMatch).value == NonMatchAsString(nonMatch)
    ensures Contains(NonMatchAsString(nonMatch), PyStr(nonMatch[k]))
  {
    if |nonMatch| > 1 {
      JoinMentions(nonMatch, "', '", k);
      ContainsExtended("'", Join(nonMatch, "', '"), "' were unexpected", PyStr(nonMatch[k]));
    } else {
      var x := PyStr(nonMatch[0]);
      assert x[0..|x|] == x;
      assert OccursAt(x, x, 0);
      ContainsExtended("'", x, "' was unexpected", x);
    }
  }

  /** A single numeric unresolved value: the written code raises where the
      corrected one names the value. */
  lemma NonMatchAsStringNumericCounterexample()
    ensures NonMatchAsStringAsWritten([Num(7)]) == Err(TypeError)
    ensures NonMatchAsString([Num(7)]) == "'7' was unexpected"
  {
    SevenString();
    assert NonMatchAsString([Num(7)]) == "'" + "7" + "' was unexpected";
  }

  lemma SevenString()
    ensures PyStr(Num(7)) == "7"
  {
    assert "0123456789"[7] == '7';
  }

  // ---------------------------------------------------------------------------
  // The identifier list of a referenced class
  // ---------------------------------------------------------------------------

  /** `[x[key] for x in xs]`: the first failing subscript raises. */
  function SubscriptAll(xs: seq<Value>, key: string): (r: Result<seq<Value>>)
    ensures r.Ok? <==> forall k :: 0 <= k < |xs| ==> Subscript(xs[k], key).Ok?
    ensures r.Ok? ==> (|r.value| == |xs| &&
                       forall k :: 0 <= k < |xs| ==> Subscript(xs[k], key) == Ok(r.value[k]))
    ensures r.Err? ==> r.error == TypeError || r.error == KeyError
  {
    if xs == [] then Ok([])
    else
      var x :- Subscript(xs[0], key);
      var rest :- SubscriptAll(xs[1..], key);
      assert forall k :: 1 <= k < |xs| ==> xs[k] == xs[1..][k - 1];
      Ok([x] + rest)
  }

  /** The identifiers one field contributes: the identifier slot of each
      element of a list, or of the single value. */
  function IdsOf(value: Value, idSlotName: string): (r: Result<seq<Value>>)
    ensures value.List? ==>
              (r.Ok? <==> forall k :: 0 <= k < |value.items| ==> Subscript(value.items[k], idSlotName).Ok?)
    ensures !value.List? ==> (r.Ok? <==> value.Obj? && Lookup(value.members, idSlotName).Some?)
    ensures r.Ok? && !value.List? ==> r.value == [Lookup(value.members, idSlotName).value]
    ensures r.Err? ==> r.error == TypeError || r.error == KeyError
  {
    if value.List? then SubscriptAll(value.items, idSlotName)
    else
      var x :- Subscript(value, idSlotName);
      Ok([x])
  }

  /** A top-level field is a source of identifiers for `className` when its
      slot (looked up under `root`) has that range; with `inlinedOnly` it
      must also be inlined. */
  predicate IsIdSource(s: Schema, root: string, className: string, m: Member, inlinedOnly: bool) {
    var slotDef := GetSlotDef(s, root, m.key);
    slotDef.Ok? && slotDef.value.Some? && slotDef.value.value.range == Some(className)
    && (inlinedOnly ==> slotDef.value.value.inlined)
  }

  /** The loop of `get_id_list` over the first fields, as a left fold: each
      field that is an identifier source replaces the list built so far. */
  function IdListOf(s: Schema, fields: seq<Member>, root: string, className: string, idSlotName: string,
                    inlinedOnly: bool): Result<seq<Value>>
    decreases |fields|
  {
    if fields == [] then Ok([])
    else
      var n := |fields| - 1;
      var earlier :- IdListOf(s, fields[..n], root, className, idSlotName, inlinedOnly);
      var slotDef :- GetSlotDef(s, root, fields[n].key);
      if slotDef.Some? && slotDef.value.range == Some(className) && (inlinedOnly ==> slotDef.value.inlined)
      then IdsOf(fields[n].val, idSlotName)
      else Ok(earlier)
  }

  /** `get_id_list` as written: every top-level field whose range is the
      class counts, including a non-inlined reference slot, whose string
      value is then subscripted. */
  function IdListAsWritten(s: Schema, fields: seq<Member>, root: string, className: string,
                           idSlotName: string): Result<seq<Value>> {
    IdListOf(s, fields, root, className, idSlotName, false)
  }

  /** `get_id_list` restricted to inlined fields, as its documentation says
      ("identifiers for the inlined objects"). */
  function IdList(s: Schema, fields: seq<Member>, root: string, className: string,
                  idSlotName: string): Result<seq<Value>> {
    IdListOf(s, fields, root, className, idSlotName, true)
  }

  /** An exception raised on a prefix of the fields ends the whole loop. */
  lemma {:induction false} IdListOfErrSticks(s: Schema, fields: seq<Member>, i: nat, root: string,
                                             className: string, idSlotName: string, inlinedOnly: bool)
    requires i <= |fields|
    requires IdListOf(s, fields[..i], root, className, idSlotName, inlinedOnly).Err?
    ensures IdListOf(s, fields, root, className, idSlotName, inlinedOnly)
         == IdListOf(s, fields[..i], root, className, idSlotName, inlinedOnly)
  {
    if i < |fields| {
      var n := |fields| - 1;
      assert fields[..n][..i] == fields[..i];
      IdListOfErrSticks(s, fields[..n], i, root, className, idSlotName, inlinedOnly);
    } else {
      assert fields[..i] == fields;
    }
  }

  /** The identifier list is the one of the LAST identifier source among the
      top-level fields: a later source overwrites an earlier one. */
  lemma {:induction false} IdListLastSource(s: Schema, fields: seq<Member>, root: string, className: string,
                                            idSlotName: string, inlinedOnly: bool, k: nat)
    requires IdListOf(s, fields, root, className, idSlotName, inlinedOnly).Ok?
    requires k < |fields| && IsIdSource(s, root, className, fields[k], inlinedOnly)
    requires forall j :: k < j < |fields| ==> !IsIdSource(s, root, className, fields[j], inlinedOnly)
    ensures IdListOf(s, fields, root, className, idSlotName, inlinedOnly) == IdsOf(fields[k].val, idSlotName)
  {
    var n := |fields| - 1;
    if k < n {
      assert forall j :: k < j < n ==> fields[..n][j] == fields[j];
      IdListLastSource(s, fields[..n], root, className, idSlotName, inlinedOnly, k);
    }
  }

  /** Without any identifier source among the top-level fields the list is empty. */
  lemma {:induction false} IdListNoSource(s: Schema, fields: seq<Member>, root: string, className: string,
                                          idSlotName: string, inlinedOnly: bool)
    requires IdListOf(s, fields, root, className, idSlotName, inlinedOnly).Ok?
    requires forall j :: 0 <= j < |fields| ==> !IsIdSource(s, root, className, fields[j], inlinedOnly)
    ensures IdListOf(s, fields, root, className, idSlotName, inlinedOnly) == Ok([])
  {
    if fields != [] {
      var n := |fields| - 1;
      assert forall j :: 0 <= j < n ==> fields[..n][j] == fields[j];
      IdListNoSource(s, fields[..n], root, className, idSlotName, inlinedOnly);
    }
  }

  /** The written and the corrected scan agree on every document none of
      whose top-level fields is a non-inlined slot (under `root`) of range
      `className`. */
  lemma {:induction false} IdListAgree(s: Schema, fields: seq<Member>, root: string, className: string,
                                       idSlotName: string)
    requires forall j :: 0 <= j < |fields| && IsIdSource(s, root, className, fields[j], false) ==>
               IsIdSource(s, root, className, fields[j], true)
    ensures IdListAsWritten(s, fields, root, className, idSlotName) == IdList(s, fields, root, className, idSlotName)
  {
    if fields != [] {
      var n := |fields| - 1;
      assert forall j :: 0 <= j < n ==> fields[..n][j] == fields[j];
      IdListAgree(s, fields[..n], root, className, idSlotName);
    }
  }

  /** The written scan raises at a non-inlined top-level field of range
      `className` whose value cannot be subscripted (a non-dict, a dict
      without the identifier slot, or a list holding either), once the
      fields before it scanned cleanly; the corrected scan skips that field. */
  lemma IdListAsWrittenRaisesAtRef(s: Schema, fields: seq<Member>, root: string, className: string,
                                   idSlotName: string, k: nat)
    requires k < |fields| && IdsOf(fields[k].val, idSlotName).Err?
    requires IsIdSource(s, root, className, fields[k], false) && !IsIdSource(s, root, className, fields[k], true)
    requires IdListAsWritten(s, fields[..k], root, className, idSlotName).Ok?
    ensures IdListAsWritten(s, fields, root, className, idSlotName) == Err(IdsOf(fields[k].val, idSlotName).error)
    ensures IdList(s, fields[..k + 1], root, className, idSlotName) == IdList(s, fields[..k], root, className, idSlotName)
  {
    assert fields[..k + 1][..k] == fields[..k];
    assert fields[..k + 1][k] == fields[k];
    IdListOfErrSticks(s, fields, k + 1, root, className, idSlotName, false);
  }

  /** The written scan raises `TypeError` at a non-inlined top-level field
      of range `className` holding a string, once the fields before it
      scanned cleanly; the corrected scan skips that field. */
  lemma IdListAsWrittenRaisesOnStringRef(s: Schema, fields: seq<Member>, root: string, className: string,
                                         idSlotName: string, k: nat)
    requires k < |fields| && fields[k].val.Str?
    requires IsIdSource(s, root, className, fields[k], false) && !IsIdSource(s, root, className, fields[k], true)
    requires IdListAsWritten(s, fields[..k], root, className, idSlotName).Ok?
    ensures IdListAsWritten(s, fields, root, className, idSlotName) == Err(TypeError)
    ensures IdList(s, fields[..k + 1], root, className, idSlotName) == IdList(s, fields[..k], root, className, idSlotName)
  {
    IdListAsWrittenRaisesAtRef(s, fields, root, className, idSlotName, k);
  }

  /** Without raising, the written scan can still lose identifiers: a
      non-inlined top-level field of range `className` holding an empty list
      replaces whatever the earlier fields supplied by `[]`, where the
      corrected scan keeps it. */
  lemma IdListAsWrittenResetByEmptyRef(s: Schema, fields: seq<Member>, root: string, className: string,
                                       idSlotName: string, k: nat)
    requires k < |fields| && fields[k].val == List([])
    requires IsIdSource(s, root, className, fields[k], false) && !IsIdSource(s, root, className, fields[k], true)
    requires IdListAsWritten(s, fields[..k], root, className, idSlotName).Ok?
    ensures IdListAsWritten(s, fields[..k + 1], root, className, idSlotName) == Ok([])
    ensures IdList(s, fields[..k + 1], root, className, idSlotName) == IdList(s, fields[..k], root, className, idSlotName)
  {
    assert fields[..k + 1][..k] == fields[..k];
    assert fields[..k + 1][k] == fields[k];
  }

  /** `get_id_list`: scans the top-level fields of the document, looking
      their slots up under `root`, and keeps the identifiers of the last
      inlined field whose range is `className`. */
  method GetIdList(s: Schema, obj: seq<Member>, root: string, className: string, idSlotName: string)
    returns (r: Result<seq<Value>>)
    ensures r == IdList(s, obj, root, className, idSlotName)
  {
    var idList: seq<Value> := [];
    var i := 0;
    while i < |obj|
      invariant 0 <= i <= |obj|
      invariant IdList(s, obj[..i], root, className, idSlotName) == Ok(idList)
    {
      assert obj[..i + 1][..i] == obj[..i];
      var slotDef := GetSlotDef(s, root, obj[i].key);
      if slotDef.Err? {
        IdListOfErrSticks(s, obj, i + 1, root, className, idSlotName, true);
        return Err(slotDef.error);
      }
      if slotDef.value.Some? {
        var rangeClass := slotDef.value.value.range;
        if rangeClass == Some(className) && slotDef.value.value.inlined {
          var ids := IdsOf(obj[i].val, idSlotName);
          if ids.Err? {
            IdListOfErrSticks(s, obj, i + 1, root, className, idSlotName, true);
            return Err(ids.error);
          }
          idList := ids.value;
        }
      }
      i := i + 1;
    }
    assert obj[..i] == obj;
    return Ok(idList);
  }

  // ---------------------------------------------------------------------------
  // The recursive walk of `validate_json`, as functions
  // ---------------------------------------------------------------------------

  /** The messages of the rest of a walk, after `ms` were already collected. */
  function Prepend(ms: seq<Message>, r: Result<seq<Message>>): Result<seq<Message>> {
    if r.Ok? then Ok(ms + r.value) else r
  }

  lemma PrependNil(r: Result<seq<Message>>)
    ensures Prepend([], r) == r
  {
    if r.Ok? {
      assert [] + r.value == r.value;
    }
  }

  lemma PrependPrepend(a: seq<Message>, b: seq<Message>, r: Result<seq<Message>>)
    ensures Prepend(a, Prepend(b, r)) == Prepend(a + b, r)
  {
    if r.Ok? {
      assert a + (b + r.value) == (a + b) + r.value;
    }
  }

  /** The message for one reference slot with unresolved values. */
  function UnknownRefsMessage(path: string, field: string, nonMatch: seq<Value>, idSlotName: string,
                              value: Value): Message
    requires |nonMatch| >= 1
  {
    Message(Error,
            "Unknown references in " + path + "->" + field + " (" + NonMatchAsString(nonMatch) + ")",
            idSlotName,
            Text(PyStr(value)))
  }

  /** The check of one record: every field in order. A value that is not a
      dict has no `.items()`. */
  function CheckObject(s: Schema, v: Value, className: string, doc: seq<Member>, path: string)
    : Result<seq<Message>>
    decreases v, 2, 0
  {
    if !v.Obj? then Err(AttributeError) else CheckMembers(s, v, 0, className, doc, path)
  }

  function CheckMembers(s: Schema, v: Value, i: nat, className: string, doc: seq<Member>, path: string)
    : Result<seq<Message>>
    requires v.Obj? && i <= |v.members|
    decreases v, 1, |v.members| - i
  {
    if i == |v.members| then Ok([])
    else
      var m := v.members[i];
      assert m.val < v by { assert m in v.members; }
      var here :- CheckSlot(s, m.key, m.val, className, doc, path);
      Prepend(here, CheckMembers(s, v, i + 1, className, doc, path))
  }

  /** The check of one field of a record of `className`: skipped without a
      range class; recursion into each element for an inlined slot, with the
      path extended by `->field`; otherwise at most one message naming the
      unresolved values, with the identifier slot as its field and the
      rendered value as its value. */
  function CheckSlot(s: Schema, field: string, value: Value, className: string, doc: seq<Member>,
                     path: string): Result<seq<Message>>
    decreases value, 4, 0
  {
    var slotDef :- GetSlotDef(s, className, field);
    var rangeClass := GetRangeClass(s, slotDef);
    if rangeClass.None? then Ok([])
    else if slotDef.value.inlined then
      CheckElements(s, value, 0, rangeClass.value, doc, path + "->" + field)
    else
      var idSlot := IdentifierSlot(s, rangeClass.value);
      if idSlot.None? then Err(AttributeError)
      else
        var idList :- IdList(s, doc, className, rangeClass.value, idSlot.value);
        var nonMatch := FindMissingRefs(value, idList);
        if |nonMatch| == 0 then Ok([])
        else Ok([UnknownRefsMessage(path, field, nonMatch, idSlot.value, value)])
  }

  /** The recursion into the elements `to_list` gives for an inlined value. */
  function CheckElements(s: Schema, value: Value, j: nat, className: string, doc: seq<Member>, path: string)
    : Result<seq<Message>>
    requires j <= |ToList(value)|
    decreases value, 3, |ToList(value)| - j
  {
    var elems := ToList(value);
    if j == |elems| then Ok([])
    else
      assert elems[j] == value || (value.List? && elems[j] == value.items[j]);
      var here :- CheckObject(s, elems[j], className, doc, path);
      Prepend(here, CheckElements(s, value, j + 1, className, doc, path))
  }

  // ---------------------------------------------------------------------------
  // Properties of the walk
  // ---------------------------------------------------------------------------

  /** A field without a range class (a primitive or an unknown range, or no
      slot definition at all) never yields a message, whatever its value. */
  lemma CheckSlotSkipsNonClassRange(s: Schema, field: string, value: Value, className: string,
                                    doc: seq<Member>, path: string)
    requires className in s.classes
    requires GetRangeClass(s, GetSlotDef(s, className, field).value).None?
    ensures CheckSlot(s, field, value, className, doc, path) == Ok([])
  {
  }

  /** An inlined slot holding one dict is checked as a record of the range
      class, with the path extended by `->field`. */
  lemma CheckSlotInlinedObject(s: Schema, field: string, value: Value, className: string,
                               doc: seq<Member>, path: string)
    requires value.Obj?
    requires GetSlotDef(s, className, field).Ok?
    requires GetRangeClass(s, GetSlotDef(s, className, field).value).Some?
    requires GetSlotDef(s, className, field).value.value.inlined
    ensures CheckSlot(s, field, value, className, doc, path)
         == CheckObject(s, value, GetRangeClass(s, GetSlotDef(s, className, field).value).value, doc,
                        path + "->" + field)
  {
    var rangeClass := GetRangeClass(s, GetSlotDef(s, className, field).value).value;
    var r := CheckObject(s, value, rangeClass, doc, path + "->" + field);
    assert ToList(value) == [value];
    assert CheckElements(s, value, 1, rangeClass, doc, path + "->" + field) == Ok([]);
    if r.Ok? {
      assert r.value + [] == r.value;
    }
  }

  /** The recursion over the elements from `j` on succeeds exactly when
      every element's walk does, and then yields no message exactly when no
      element's walk yields one. */
  lemma {:induction false} CheckElementsEach(s: Schema, value: Value, j: nat, className: string,
                                             doc: seq<Member>, path: string)
    requires j <= |ToList(value)|
    ensures CheckElements(s, value, j, className, doc, path).Ok? <==>
              forall k :: j <= k < |ToList(value)| ==> CheckObject(s, ToList(value)[k], className, doc, path).Ok?
    ensures CheckElements(s, value, j, className, doc, path).Ok? ==>
              (CheckElements(s, value, j, className, doc, path).value == [] <==>
                 forall k :: j <= k < |ToList(value)| ==>
                   CheckObject(s, ToList(value)[k], className, doc, path).value == [])
    decreases |ToList(value)| - j
  {
    var elems := ToList(value);
    if j < |elems| {
      var here := CheckObject(s, elems[j], className, doc, path);
      var rest := CheckElements(s, value, j + 1, className, doc, path);
      CheckElementsEach(s, value, j + 1, className, doc, path);
      assert CheckElements(s, value, j, className, doc, path)
          == if here.Err? then Err(here.error) else Prepend(here.value, rest);
    }
  }

  /** An inlined slot holding a list of dicts walks every element as a record
      of the range class, each with the same path extended by `->field`: it
      succeeds exactly when every element's walk does, and yields no message
      exactly when none of them does. A list that is empty, or whose first
      element is not a dict, is not walked at all. */
  lemma CheckSlotInlinedList(s: Schema, field: string, value: Value, className: string,
                             doc: seq<Member>, path: string)
    requires value.List?
    requires GetSlotDef(s, className, field).Ok?
    requires GetRangeClass(s, GetSlotDef(s, className, field).value).Some?
    requires GetSlotDef(s, className, field).value.value.inlined
    ensures value.items == [] || !value.items[0].Obj? ==> CheckSlot(s, field, value, className, doc, path) == Ok([])
    ensures value.items != [] && value.items[0].Obj? ==>
              var rangeClass := GetRangeClass(s, GetSlotDef(s, className, field).value).value;
              && (CheckSlot(s, field, value, className, doc, path).Ok? <==>
                    forall k :: 0 <= k < |value.items| ==>
                      CheckObject(s, value.items[k], rangeClass, doc, path + "->" + field).Ok?)
              && (CheckSlot(s, field, value, className, doc, path).Ok? ==>
                    (CheckSlot(s, field, value, className, doc, path).value == [] <==>
                       forall k :: 0 <= k < |value.items| ==>
                         CheckObject(s, value.items[k], rangeClass, doc, path + "->" + field).value == []))
  {
    var rangeClass := GetRangeClass(s, GetSlotDef(s, className, field).value).value;
    CheckElementsEach(s, value, 0, rangeClass, doc, path + "->" + field);
  }

  /** A non-inlined reference slot yields no message exactly when every value
      it holds is in the identifier list of its range class; otherwise it
      yields exactly one error whose field is the identifier slot, whose value
      is the rendered slot value and whose text names every unresolved value. */
  lemma CheckSlotReference(s: Schema, field: string, value: Value, className: string,
                           doc: seq<Member>, path: string, idList: seq<Value>)
    requires GetSlotDef(s, className, field).Ok?
    requires GetRangeClass(s, GetSlotDef(s, className, field).value).Some?
    requires !GetSlotDef(s, className, field).value.value.inlined
    requires IdentifierSlot(s, GetRangeClass(s, GetSlotDef(s, className, field).value).value).Some?
    requires IdList(s, doc, className, GetRangeClass(s, GetSlotDef(s, className, field).value).value,
                    IdentifierSlot(s, GetRangeClass(s, GetSlotDef(s, className, field).value).value).value)
             == Ok(idList)
    ensures CheckSlot(s, field, value, className, doc, path).Ok?
    ensures var ms := CheckSlot(s, field, value, className, doc, path).value;
            && (ms == [] <==> forall x :: x in ValuesToCheck(value) ==> x in idList)
            && |ms| <= 1
            && (ms != [] ==>
                  && ms[0].severity == Error
                  && Some(ms[0].field)
                     == IdentifierSlot(s, GetRangeClass(s, GetSlotDef(s, className, field).value).value)
                  && ms[0].value == Text(PyStr(value))
                  && forall x :: x in ValuesToCheck(value) && x !in idList ==>
                       Contains(ms[0].message, PyStr(x)))
  {
    var rangeClass := GetRangeClass(s, GetSlotDef(s, className, field).value).value;
    var idSlotName := IdentifierSlot(s, rangeClass).value;
    var nonMatch := FindMissingRefs(value, idList);
    if nonMatch != [] {
      var m := UnknownRefsMessage(path, field, nonMatch, idSlotName, value);
      forall x | x in ValuesToCheck(value) && x !in idList
        ensures Contains(m.message, PyStr(x))
      {
        var k :| 0 <= k < |nonMatch| && nonMatch[k] == x;
        NonMatchAsStringCorrected(nonMatch, k);
        ContainsExtended("Unknown references in " + path + "->" + field + " (", NonMatchAsString(nonMatch), ")",
                         PyStr(x));
      }
    }
  }

  /** A message of the dangling-reference check: an error whose text opens
      with `Unknown references in `, whose field is the identifier slot of a
      class of the schema and whose value is a rendered slot value. */
  ghost predicate IsUnknownRefError(s: Schema, m: Message) {
    && m.severity == Error
    && m.value.Text?
    && |m.message| >= 22 && m.message[..22] == "Unknown references in "
    && exists c :: c in s.classes && s.classes[c].identifier == Some(m.field)
  }

  ghost predicate AllUnknownRefErrors(s: Schema, r: Result<seq<Message>>) {
    r.Ok? ==> forall m :: m in r.value ==> IsUnknownRefError(s, m)
  }

  lemma AllUnknownRefErrorsPrepend(s: Schema, ms: seq<Message>, r: Result<seq<Message>>)
    requires forall m :: m in ms ==> IsUnknownRefError(s, m)
    requires AllUnknownRefErrors(s, r)
    ensures AllUnknownRefErrors(s, Prepend(ms, r))
  {
  }

  /** Whatever the depth of the walk, every message it collects is a
      dangling-reference error. */
  lemma {:induction false} CheckObjectMessages(s: Schema, v: Value, className: string, doc: seq<Member>,
                                               path: string)
    ensures AllUnknownRefErrors(s, CheckObject(s, v, className, doc, path))
    decreases v, 2, 0
  {
    if v.Obj? {
      CheckMembersMessages(s, v, 0, className, doc, path);
    }
  }

  lemma {:induction false} CheckMembersMessages(s: Schema, v: Value, i: nat, className: string,
                                                doc: seq<Member>, path: string)
    requires v.Obj? && i <= |v.members|
    ensures AllUnknownRefErrors(s, CheckMembers(s, v, i, className, doc, path))
    decreases v, 1, |v.members| - i
  {
    if i < |v.members| {
      var m := v.members[i];
      assert m.val < v by { assert m in v.members; }
      CheckSlotMessages(s, m.key, m.val, className, doc, path);
      CheckMembersMessages(s, v, i + 1, className, doc, path);
      var here := CheckSlot(s, m.key, m.val, className, doc, path);
      if here.Ok? {
        AllUnknownRefErrorsPrepend(s, here.value, CheckMembers(s, v, i + 1, className, doc, path));
      }
    }
  }

  lemma {:induction false} CheckSlotMessages(s: Schema, field: string, value: Value, className: string,
                                             doc: seq<Member>, path: string)
    ensures AllUnknownRefErrors(s, CheckSlot(s, field, value, className, doc, path))
    decreases value, 4, 0
  {
    var slotDef := GetSlotDef(s, className, field);
    if slotDef.Ok? {
      var rangeClass := GetRangeClass(s, slotDef.value);
      if rangeClass.Some? {
        if slotDef.value.value.inlined {
          CheckElementsMessages(s, value, 0, rangeClass.value, doc, path + "->" + field);
        } else {
          var idSlot := IdentifierSlot(s, rangeClass.value);
          if idSlot.Some? {
            var idList := IdList(s, doc, className, rangeClass.value, idSlot.value);
            if idList.Ok? {
              var nonMatch := FindMissingRefs(value, idList.value);
              if |nonMatch| > 0 {
                var m := UnknownRefsMessage(path, field, nonMatch, idSlot.value, value);
                assert m.message[..22] == "Unknown references in ";
                assert rangeClass.value in s.classes && s.classes[rangeClass.value].identifier == Some(m.field);
              }
            }
          }
        }
      }
    }
  }

  lemma {:induction false} CheckElementsMessages(s: Schema, value: Value, j: nat, className: string,
                                                 doc: seq<Member>, path: string)
    requires j <= |ToList(value)|
    ensures AllUnknownRefErrors(s, CheckElements(s, value, j, className, doc, path))
    decreases value, 3, |ToList(value)| - j
  {
    var elems := ToList(value);
    if j < |elems| {
      assert elems[j] == value || (value.List? && elems[j] == value.items[j]);
      CheckObjectMessages(s, elems[j], className, doc, path);
      CheckElementsMessages(s, value, j + 1, className, doc, path);
      var here := CheckObject(s, elems[j], className, doc, path);
      if here.Ok? {
        AllUnknownRefErrorsPrepend(s, here.value, CheckElements(s, value, j + 1, className, doc, path));
      }
    }
  }

  // ---------------------------------------------------------------------------
  // `validate_json` and `process`
  // ---------------------------------------------------------------------------

  /** `validate_json`: walks the record's fields in order, recursing into
      inlined values and collecting one message per non-inlined slot with
      unresolved references. */
  method ValidateJson(s: Schema, objectToValidate: Value, targetClass: string, jsonObject: seq<Member>,
                      path: string) returns (r: Result<seq<Message>>)
    ensures r == CheckObject(s, objectToValidate, targetClass, jsonObject, path)
    decreases objectToValidate, 2
  {
    if !objectToValidate.Obj? {
      return Err(AttributeError);
    }
    var v := objectToValidate;
    var messages: seq<Message> := [];
    var i := 0;
    PrependNil(CheckMembers(s, v, 0, targetClass, jsonObject, path));
    while i < |v.members|
      invariant 0 <= i <= |v.members|
      invariant CheckMembers(s, v, 0, targetClass, jsonObject, path)
             == Prepend(messages, CheckMembers(s, v, i, targetClass, jsonObject, path))
    {
      var field, value := v.members[i].key, v.members[i].val;
      assert value < v by { assert v.members[i] in v.members; }
      var slotDef := GetSlotDef(s, targetClass, field);
      if slotDef.Err? {
        return Err(slotDef.error);
      }
      var rangeClass := GetRangeClass(s, slotDef.value);
      var here: seq<Message> := [];
      if rangeClass.None? {
        // a primitive or unknown range: nothing to check
      } else if slotDef.value.value.inlined {
        var inlined := ValidateInlined(s, value, rangeClass.value, jsonObject, path + "->" + field);
        if inlined.Err? {
          return Err(inlined.error);
        }
        here := inlined.value;
      } else {
        var idSlot := IdentifierSlot(s, rangeClass.value);
        if idSlot.None? {
          return Err(AttributeError);
        }
        var idList := GetIdList(s, jsonObject, targetClass, rangeClass.value, idSlot.value);
        if idList.Err? {
          return Err(idList.error);
        }
        var nonMatch := FindMissingRefs(value, idList.value);
        if |nonMatch| > 0 {
          here := [UnknownRefsMessage(path, field, nonMatch, idSlot.value, value)];
        }
      }
      assert CheckSlot(s, field, value, targetClass, jsonObject, path) == Ok(here);
      PrependPrepend(messages, here, CheckMembers(s, v, i + 1, targetClass, jsonObject, path));
      messages := messages + here;
      i := i + 1;
    }
    assert messages + [] == messages;
    return Ok(messages);
  }

  /** The inner loop of `validate_json` over the elements `to_list` gives
      for an inlined value: each is validated as a record of `className`. */
  method ValidateInlined(s: Schema, value: Value, className: string, jsonObject: seq<Member>, path: string)
    returns (r: Result<seq<Message>>)
    ensures r == CheckElements(s, value, 0, className, jsonObject, path)
    decreases value, 3
  {
    var elems := ToList(value);
    var here: seq<Message> := [];
    var j := 0;
    PrependNil(CheckElements(s, value, 0, className, jsonObject, path));
    while j < |elems|
      invariant 0 <= j <= |elems|
      invariant CheckElements(s, value, 0, className, jsonObject, path)
             == Prepend(here, CheckElements(s, value, j, className, jsonObject, path))
    {
      assert elems[j] == value || (value.List? && elems[j] == value.items[j]);
      var validationMsgs := ValidateJson(s, elems[j], className, jsonObject, path);
      if validationMsgs.Err? {
        return Err(validationMsgs.error);
      }
      PrependPrepend(here, validationMsgs.value, CheckElements(s, value, j + 1, className, jsonObject, path));
      here := here + validationMsgs.value;
      j := j + 1;
    }
    assert here + [] == here;
    return Ok(here);
  }

  /** The members of the document root, which `get_id_list` scans. */
  function RootFields(obj: Value): seq<Member> {
    if obj.Obj? then obj.members else []
  }

  /** What `process` gives: a `TypeError` without a target class, otherwise
      the walk's exception or its messages, valid iff there are none. */
  function ProcessResult(s: Schema, obj: Value, targetClass: Option<string>): (r: Result<ValidationResult>)
    ensures targetClass.None? ==> r == Err(TypeError)
    ensures targetClass.Some? ==> (r.Ok? <==> CheckObject(s, obj, targetClass.value, RootFields(obj), "").Ok?)
    ensures targetClass.Some? && r.Err? ==>
              r.error == CheckObject(s, obj, targetClass.value, RootFields(obj), "").error
    ensures r.Ok? ==> r.value.pluginName == NAME && (r.value.valid <==> r.value.messages == [])
    ensures r.Ok? ==> CheckObject(s, obj, targetClass.value, RootFields(obj), "") == Ok(r.value.messages)
  {
    if targetClass.None? then Err(TypeError)
    else
      var messages :- CheckObject(s, obj, targetClass.value, RootFields(obj), "");
      Ok(ResultOf(NAME, messages))
  }

  /** `process`: validates the document from its root with an empty path. */
  method Process(s: Schema, obj: Value, targetClass: Option<string>) returns (r: Result<ValidationResult>)
    ensures r == ProcessResult(s, obj, targetClass)
  {
    if targetClass.None? {
      return Err(TypeError);
    }
    var messages :- ValidateJson(s, obj, targetClass.value, RootFields(obj), "");
    var valid := true;
    if |messages| > 0 {
      valid := false;
    }
    return Ok(ValidationResult(NAME, valid, messages));
  }

  /** The plugin as the orchestrators load it. */
  function Instance(s: Schema): (p: Plugin)
    ensures p.name == NAME
    ensures forall obj, targetClass :: p.run(obj, targetClass) == ProcessResult(s, obj, Some(targetClass))
  {
    Plugin(NAME, (obj: Value, targetClass: string) => ProcessResult(s, obj, Some(targetClass)))
  }
}
