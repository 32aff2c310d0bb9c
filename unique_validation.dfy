/** The uniqueness check of `UniqueValidationPlugin`
    (`ghga_validator/plugins/unique_validation.py`): over the walked records,
    the second and every later record of a class carrying an identifier
    already seen in that class is reported. The object walker is a
    parameter. */
module UniqueValidation {
  import opened Base
  import opened Document
  import opened Report
  import opened SchemaUtils
  import opened Utils

  const NAME := "UniqueValidationPlugin"

  /** A record of class `c` with identifier `x` occurs among `records`. */
  predicate Seen(records: seq<Record>, c: string, x: Value) {
    exists k | 0 <= k < |records| :: records[k].className == c && records[k].identifier == x
  }

  lemma SeenSnoc(records: seq<Record>, c: string, x: Value)
    requires records != []
    ensures Seen(records, c, x) <==>
              Seen(records[..|records| - 1], c, x)
              || (records[|records| - 1].className == c && records[|records| - 1].identifier == x)
  {
    var n := |records| - 1;
    if Seen(records, c, x) {
      var k :| 0 <= k < |records| && records[k].className == c && records[k].identifier == x;
      if k < n {
        assert records[..n][k] == records[k];
      }
    }
    if Seen(records[..n], c, x) {
      var k :| 0 <= k < n && records[..n][k].className == c && records[..n][k].identifier == x;
      assert records[..n][k] == records[k];
    }
  }

  /** The record at `n` repeats the class and identifier of an earlier one. */
  predicate IsRepeat(records: seq<Record>, n: nat)
    requires n < |records|
  {
    Seen(records[..n], records[n].className, records[n].identifier)
  }

  /** The message for a repeated record. The class must have an identifier
      slot: without one, reading its name fails on `None`. */
  function DuplicateMessage(s: Schema, r: Record): (m: Result<Message>)
    ensures m.Err? <==> IdentifierSlot(s, r.className).None?
    ensures m.Err? ==> m.error == AttributeError
    ensures m.Ok? ==> m.value.severity == Error && m.value.field == PathAsString(r.path)
                      && m.value.value == Data(r.data)
    ensures m.Ok? ==> m.value.message == "Duplicate value for unique attribute " + r.className
                                         + "(" + IdentifierSlot(s, r.className).value + "): " + PyStr(r.identifier)
  {
    match IdentifierSlot(s, r.className)
    case None => Err(AttributeError)
    case Some(idSlot) =>
      Ok(Message(Error,
                 "Duplicate value for unique attribute " + r.className + "(" + idSlot + "): " + PyStr(r.identifier),
                 PathAsString(r.path), Data(r.data)))
  }

  /** The records that repeat an earlier class and identifier, in walk order. */
  function Repeats(records: seq<Record>): seq<Record>
    decreases |records|
  {
    if records == [] then []
    else
      var n := |records| - 1;
      Repeats(records[..n]) + (if IsRepeat(records, n) then [records[n]] else [])
  }

  /** The messages of `validate_unique_fields`, or the exception that stops it. */
  function UniqueMessages(s: Schema, records: seq<Record>): Result<seq<Message>>
    decreases |records|
  {
    if records == [] then Ok([])
    else
      var n := |records| - 1;
      var earlier :- UniqueMessages(s, records[..n]);
      if IsRepeat(records, n) then
        var m :- DuplicateMessage(s, records[n]);
        Ok(earlier + [m])
      else Ok(earlier)
  }

  /** One more record of the walk: when it repeats, its message is appended,
      or its class's missing identifier slot stops the check. */
  lemma UniqueMessagesStep(s: Schema, records: seq<Record>, i: nat)
    requires i < |records|
    requires UniqueMessages(s, records[..i]).Ok?
    ensures !Seen(records[..i], records[i].className, records[i].identifier) ==>
              UniqueMessages(s, records[..i + 1]) == UniqueMessages(s, records[..i])
    ensures Seen(records[..i], records[i].className, records[i].identifier) ==>
              UniqueMessages(s, records[..i + 1]) ==
                (match DuplicateMessage(s, records[i])
                 case Err(e) => Err(e)
                 case Ok(m) => Ok(UniqueMessages(s, records[..i]).value + [m]))
  {
    assert records[..i + 1][..i] == records[..i];
    assert records[..i + 1][i] == records[i];
  }

  /** The table of seen identifiers after one more record: unchanged when the
      record's identifier is already listed for its class, otherwise that
      list extended by it; either way it lists exactly what the longer walk
      has seen. */
  lemma SeenTableStep(records: seq<Record>, i: nat, allIds: ListTable)
    requires i < |records|
    requires forall c, x :: x in ListAt(allIds, c) <==> Seen(records[..i], c, x)
    ensures records[i].identifier in ListAt(allIds, records[i].className) ==>
              forall c, x :: x in ListAt(allIds, c) <==> Seen(records[..i + 1], c, x)
    ensures var next := allIds[records[i].className := ListAt(allIds, records[i].className) + [records[i].identifier]];
            forall c, x :: x in ListAt(next, c) <==> Seen(records[..i + 1], c, x)
  {
    assert records[..i + 1][..i] == records[..i];
    forall c: string, x: Value
      ensures Seen(records[..i + 1], c, x) <==>
                Seen(records[..i], c, x) || (records[i].className == c && records[i].identifier == x)
    {
      SeenSnoc(records[..i + 1], c, x);
    }
    var next := allIds[records[i].className := ListAt(allIds, records[i].className) + [records[i].identifier]];
    forall c: string, x: Value
      ensures x in ListAt(next, c) <==>
                x in ListAt(allIds, c) || (records[i].className == c && records[i].identifier == x)
    {
    }
  }

  /** `validate_unique_fields`: the table `allIds` keeps, per class, the
      identifiers seen so far; a record whose identifier is already there is
      reported, any other record's identifier is added. */
  method ValidateUniqueFields(s: Schema, objectToValidate: seq<Record>) returns (r: Result<seq<Message>>)
    ensures r == UniqueMessages(s, objectToValidate)
  {
    var records := objectToValidate;
    var messages: seq<Message> := [];
    var allIds: ListTable := map[];
    var i := 0;
    while i < |records|
      invariant 0 <= i <= |records|
      invariant UniqueMessages(s, records[..i]) == Ok(messages)
      invariant forall c, x :: x in ListAt(allIds, c) <==> Seen(records[..i], c, x)
    {
      var className, identifier := records[i].className, records[i].identifier;
      UniqueMessagesStep(s, records, i);
      SeenTableStep(records, i, allIds);
      var known := if className in allIds then allIds[className] else [];
      if identifier in known {
        var idSlot := IdentifierSlot(s, className);
        if idSlot.None? {
          UniqueMessagesErrSticks(s, records, i + 1);
          return Err(AttributeError);
        }
        var message := Message(Error,
          "Duplicate value for unique attribute " + className + "(" + idSlot.value + "): " + PyStr(identifier),
          PathAsString(records[i].path), Data(records[i].data));
        messages := messages + [message];
      } else {
        allIds := allIds[className := known + [identifier]];
      }
      i := i + 1;
    }
    assert records[..i] == records;
    return Ok(messages);
  }

  /** Once the check has failed on a prefix of the walk, it fails on the
      whole walk with the same exception. */
  lemma {:induction false} UniqueMessagesErrSticks(s: Schema, records: seq<Record>, i: nat)
    requires i <= |records|
    requires UniqueMessages(s, records[..i]).Err?
    ensures UniqueMessages(s, records) == UniqueMessages(s, records[..i])
    decreases |records|
  {
    if i == |records| {
      assert records[..i] == records;
    } else {
      var n := |records| - 1;
      assert records[..n][..i] == records[..i];
      UniqueMessagesErrSticks(s, records[..n], i);
    }
  }

  /** The check succeeds exactly when every repeated record's class has an
      identifier slot, and then it gives one message per repeated record,
      in walk order. */
  lemma {:induction false} UniqueMessagesShape(s: Schema, records: seq<Record>)
    ensures UniqueMessages(s, records).Ok? <==>
              forall k :: 0 <= k < |Repeats(records)| ==> DuplicateMessage(s, Repeats(records)[k]).Ok?
    ensures UniqueMessages(s, records).Ok? ==>
              |UniqueMessages(s, records).value| == |Repeats(records)|
              && forall k :: 0 <= k < |Repeats(records)| ==>
                   DuplicateMessage(s, Repeats(records)[k]) == Ok(UniqueMessages(s, records).value[k])
    decreases |records|
  {
    if records != [] {
      var n := |records| - 1;
      UniqueMessagesShape(s, records[..n]);
      var tail := if IsRepeat(records, n) then [records[n]] else [];
      assert Repeats(records) == Repeats(records[..n]) + tail;
      assert forall k :: 0 <= k < |Repeats(records[..n])| ==> Repeats(records)[k] == Repeats(records[..n])[k];
      if IsRepeat(records, n) {
        assert Repeats(records)[|Repeats(records[..n])|] == records[n];
      }
    }
  }

  /** The pairs (class, identifier) of the records. */
  function Pairs(records: seq<Record>): (ps: seq<(string, Value)>)
    ensures |ps| == |records|
    ensures forall k :: 0 <= k < |records| ==> ps[k] == (records[k].className, records[k].identifier)
  {
    seq(|records|, k requires 0 <= k < |records| => (records[k].className, records[k].identifier))
  }

  lemma SeenIsInPairs(records: seq<Record>, c: string, x: Value)
    ensures Seen(records, c, x) <==> (c, x) in multiset(Pairs(records))
  {
    if (c, x) in multiset(Pairs(records)) {
      assert (c, x) in Pairs(records);
      var k :| 0 <= k < |records| && Pairs(records)[k] == (c, x);
    }
  }

  /** Counting: a class and identifier occurring `n > 0` times among the
      records is reported `n - 1` times; the first occurrence never is. In
      particular the same identifier in two different classes is never a
      duplicate. */
  lemma {:induction false} RepeatsCount(records: seq<Record>, c: string, x: Value)
    ensures multiset(Pairs(Repeats(records)))[(c, x)] ==
              if (c, x) in multiset(Pairs(records)) then multiset(Pairs(records))[(c, x)] - 1 else 0
    decreases |records|
  {
    if records != [] {
      var n := |records| - 1;
      var last := records[n];
      RepeatsCount(records[..n], c, x);
      assert Pairs(records) == Pairs(records[..n]) + [(last.className, last.identifier)];
      var tail := if IsRepeat(records, n) then [last] else [];
      assert Pairs(Repeats(records)) == Pairs(Repeats(records[..n])) + Pairs(tail);
      SeenIsInPairs(records[..n], last.className, last.identifier);
    }
  }

  /** With no class and identifier occurring twice, nothing is reported and
      the check succeeds. */
  lemma {:induction false} DistinctNoMessages(s: Schema, records: seq<Record>)
    requires forall i, j :: 0 <= i < j < |records| ==>
               (records[i].className, records[i].identifier) != (records[j].className, records[j].identifier)
    ensures UniqueMessages(s, records) == Ok([])
    decreases |records|
  {
    if records != [] {
      var n := |records| - 1;
      DistinctNoMessages(s, records[..n]);
    }
  }

  /** What `process` gives for the walk `walk(obj, targetClass)`: a
      `KeyError` without a target class, the check's exception, or a result
      that is valid iff no record repeats. */
  function ProcessResult(s: Schema, walk: (Value, string) -> seq<Record>, obj: Value,
                         targetClass: Option<string>): (r: Result<ValidationResult>)
    ensures targetClass.None? ==> r == Err(KeyError)
    ensures targetClass.Some? ==> (r.Ok? <==> UniqueMessages(s, walk(obj, targetClass.value)).Ok?)
    ensures targetClass.Some? && r.Err? ==> r.error == UniqueMessages(s, walk(obj, targetClass.value)).error
    ensures r.Ok? ==> r.value.pluginName == NAME
                      && r.value.messages == UniqueMessages(s, walk(obj, targetClass.value)).value
                      && (r.value.valid <==> Repeats(walk(obj, targetClass.value)) == [])
  {
    if targetClass.None? then Err(KeyError)
    else
      var records := walk(obj, targetClass.value);
      UniqueMessagesShape(s, records);
      var messages :- UniqueMessages(s, records);
      Ok(ResultOf(NAME, messages))
  }

  /** `process`. */
  method Process(s: Schema, walk: (Value, string) -> seq<Record>, obj: Value, targetClass: Option<string>)
    returns (r: Result<ValidationResult>)
    ensures r == ProcessResult(s, walk, obj, targetClass)
  {
    if targetClass.None? {
      return Err(KeyError);
    }
    var messages :- ValidateUniqueFields(s, walk(obj, targetClass.value));
    var valid := |messages| == 0;
    return Ok(ValidationResult(NAME, valid, messages));
  }

  /** The plugin as the orchestrators load it. */
  function Instance(s: Schema, walk: (Value, string) -> seq<Record>): (p: Plugin)
    ensures p.name == NAME
    ensures forall obj, targetClass :: p.run(obj, targetClass) == ProcessResult(s, walk, obj, Some(targetClass))
  {
    Plugin(NAME, (obj: Value, targetClass: string) => ProcessResult(s, walk, obj, Some(targetClass)))
  }
}
