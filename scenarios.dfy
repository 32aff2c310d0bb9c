/** Worked examples over a small submission schema: a `Submission` holds
    its `samples` inlined and names one of them in the non-inlined slot
    `primary_sample_ref`; a `Sample` is identified by its `sample_id`. */
module Scenarios {
  import opened Base
  import opened Document
  import opened Report
  import opened SchemaUtils
  import opened Utils
  import RefValidation
  import BackRefValidation
  import UniqueValidation

  function SubmissionSchema(): (s: Schema)
    ensures s.WellFormed()
  {
    Schema(
      ["Submission", "Sample"],
      map["Submission" := ClassDef(["samples", "primary_sample_ref"], map[], None, []),
          "Sample" := ClassDef(["sample_id"], map[], Some("sample_id"), [])],
      map["samples" := SlotDef(Some("Sample"), true),
          "primary_sample_ref" := SlotDef(Some("Sample"), false),
          "sample_id" := SlotDef(Some("string"), false)])
  }

  function SampleData(id: string): seq<Member> {
    [Member("sample_id", Str(id))]
  }

  /** `{"samples": [{"sample_id": "S1"}, {"sample_id": "S2"}], "primary_sample_ref": ref}` */
  function SubmissionDoc(ref: string): Value {
    Obj([Member("samples", List([Obj(SampleData("S1")), Obj(SampleData("S2"))])),
         Member("primary_sample_ref", Str(ref))])
  }

  /** A sample's own field has a primitive range, so a sample record
      contributes nothing to the reference check. */
  lemma SampleChecksClean(ref: string, id: string, path: string)
    ensures RefValidation.CheckObject(SubmissionSchema(), Obj(SampleData(id)), "Sample",
                                      SubmissionDoc(ref).members, path) == Ok([])
  {
    var s, doc := SubmissionSchema(), SubmissionDoc(ref).members;
    var v := Obj(SampleData(id));
    assert GetSlotDef(s, "Sample", "sample_id") == Ok(Some(SlotDef(Some("string"), false)));
    assert v.members[0] == Member("sample_id", Str(id));
    assert RefValidation.CheckSlot(s, "sample_id", Str(id), "Sample", doc, path) == Ok([]);
    assert RefValidation.CheckMembers(s, v, 1, "Sample", doc, path) == Ok([]);
    RefValidation.PrependNil(Ok([]));
    assert RefValidation.CheckMembers(s, v, 0, "Sample", doc, path) == Ok([]);
  }

  /** The inlined `samples` are walked and give no message. */
  lemma SamplesCheckClean(ref: string)
    ensures RefValidation.CheckSlot(SubmissionSchema(), "samples", SubmissionDoc(ref).members[0].val,
                                    "Submission", SubmissionDoc(ref).members, "") == Ok([])
  {
    var s, doc := SubmissionSchema(), SubmissionDoc(ref).members;
    var samples := doc[0].val;
    assert ToList(samples) == [Obj(SampleData("S1")), Obj(SampleData("S2"))];
    SampleChecksClean(ref, "S1", "->samples");
    SampleChecksClean(ref, "S2", "->samples");
    assert RefValidation.CheckElements(s, samples, 2, "Sample", doc, "->samples") == Ok([]);
    assert RefValidation.CheckElements(s, samples, 1, "Sample", doc, "->samples") == Ok([]);
    assert RefValidation.CheckElements(s, samples, 0, "Sample", doc, "->samples") == Ok([]);
    assert GetSlotDef(s, "Submission", "samples") == Ok(Some(SlotDef(Some("Sample"), true)));
  }

  /** The identifiers of the inlined samples are the ones `primary_sample_ref`
      is checked against. */
  lemma SubmissionIdList(ref: string)
    ensures RefValidation.IdList(SubmissionSchema(), SubmissionDoc(ref).members, "Submission", "Sample", "sample_id")
         == Ok([Str("S1"), Str("S2")])
  {
    var s, doc := SubmissionSchema(), SubmissionDoc(ref).members;
    assert doc[..1] == [doc[0]];
    assert doc[..1][..0] == [];
    assert GetSlotDef(s, "Submission", "samples") == Ok(Some(SlotDef(Some("Sample"), true)));
    assert GetSlotDef(s, "Submission", "primary_sample_ref") == Ok(Some(SlotDef(Some("Sample"), false)));
    var items := [Obj(SampleData("S1")), Obj(SampleData("S2"))];
    assert Lookup(SampleData("S1"), "sample_id") == Some(Str("S1"));
    assert Lookup(SampleData("S2"), "sample_id") == Some(Str("S2"));
    assert items[1..] == [Obj(SampleData("S2"))] && items[1..][1..] == [];
    assert RefValidation.SubscriptAll(items[1..][1..], "sample_id") == Ok([]);
    assert [Str("S2")] + [] == [Str("S2")];
    assert RefValidation.SubscriptAll(items[1..], "sample_id") == Ok([Str("S2")]);
    assert [Str("S1")] + [Str("S2")] == [Str("S1"), Str("S2")];
    assert RefValidation.SubscriptAll(items, "sample_id") == Ok([Str("S1"), Str("S2")]);
    assert RefValidation.IdsOf(doc[0].val, "sample_id") == Ok([Str("S1"), Str("S2")]);
    assert doc[..1][0] == doc[0];
    assert RefValidation.IdListOf(s, doc[..1][..0], "Submission", "Sample", "sample_id", true) == Ok([]);
    assert RefValidation.IdListOf(s, doc[..1], "Submission", "Sample", "sample_id", true) == Ok([Str("S1"), Str("S2")]);
    assert doc[..2] == doc;
  }

  /** The reference check of a whole submission, given what its
      `primary_sample_ref` slot gives. */
  lemma SubmissionCheck(ref: string, here: seq<Message>)
    requires RefValidation.CheckSlot(SubmissionSchema(), "primary_sample_ref", Str(ref), "Submission",
                                     SubmissionDoc(ref).members, "") == Ok(here)
    ensures RefValidation.ProcessResult(SubmissionSchema(), SubmissionDoc(ref), Some("Submission"))
         == Ok(ValidationResult(RefValidation.NAME, here == [], here))
  {
    var s, v := SubmissionSchema(), SubmissionDoc(ref);
    SamplesCheckClean(ref);
    assert RefValidation.CheckMembers(s, v, 2, "Submission", v.members, "") == Ok([]);
    assert here + [] == here;
    assert RefValidation.CheckMembers(s, v, 1, "Submission", v.members, "") == Ok(here);
    RefValidation.PrependNil(Ok(here));
    assert RefValidation.CheckMembers(s, v, 0, "Submission", v.members, "") == Ok(here);
  }

  /** The non-inlined `primary_sample_ref` is checked against the sample
      identifiers: one message exactly when it names no sample. */
  lemma PrimaryRefCheck(ref: string)
    ensures RefValidation.CheckSlot(SubmissionSchema(), "primary_sample_ref", Str(ref), "Submission",
                                    SubmissionDoc(ref).members, "")
         == Ok(if ref == "S1" || ref == "S2" then []
               else [RefValidation.UnknownRefsMessage("", "primary_sample_ref", [Str(ref)], "sample_id", Str(ref))])
  {
    var s := SubmissionSchema();
    SubmissionIdList(ref);
    assert GetSlotDef(s, "Submission", "primary_sample_ref") == Ok(Some(SlotDef(Some("Sample"), false)));
    assert GetRangeClass(s, Some(SlotDef(Some("Sample"), false))) == Some("Sample");
    assert IdentifierSlot(s, "Sample") == Some("sample_id");
    var missing := RefValidation.FindMissingRefs(Str(ref), [Str("S1"), Str("S2")]);
    assert missing == if ref == "S1" || ref == "S2" then [] else [Str(ref)];
  }

  /** A reference to an existing sample resolves: the check is valid. */
  lemma ResolvedReference()
    ensures RefValidation.ProcessResult(SubmissionSchema(), SubmissionDoc("S1"), Some("Submission"))
         == Ok(ValidationResult(RefValidation.NAME, true, []))
  {
    PrimaryRefCheck("S1");
    SubmissionCheck("S1", []);
  }

  lemma DanglingText()
    ensures RefValidation.NonMatchAsString([Str("S9")]) == "'S9' was unexpected"
  {
    assert PyStr(Str("S9")) == "S9";
  }

  /** The message for the dangling reference `S9`: the root's path is empty,
      so the text is the prefix, `->`, the slot name and the rendered value. */
  lemma DanglingMessage()
    ensures RefValidation.UnknownRefsMessage("", "primary_sample_ref", [Str("S9")], "sample_id", Str("S9"))
         == Message(Error, "Unknown references in " + "->" + "primary_sample_ref" + " (" + "'S9' was unexpected" + ")",
                    "sample_id", Text("S9"))
  {
    DanglingText();
    assert "Unknown references in " + "" == "Unknown references in ";
    assert PyStr(Str("S9")) == "S9";
  }

  /** A reference to a missing sample gives one error naming the slot's
      path, the identifier slot and the unresolved value. */
  lemma DanglingReference()
    ensures RefValidation.ProcessResult(SubmissionSchema(), SubmissionDoc("S9"), Some("Submission"))
         == Ok(ValidationResult(RefValidation.NAME, false,
                 [Message(Error,
                          "Unknown references in " + "->" + "primary_sample_ref" + " (" + "'S9' was unexpected" + ")",
                          "sample_id", Text("S9"))]))
  {
    PrimaryRefCheck("S9");
    DanglingMessage();
    SubmissionCheck("S9", [RefValidation.UnknownRefsMessage("", "primary_sample_ref", [Str("S9")], "sample_id", Str("S9"))]);
  }

  /** `{"samples": [{"sample_id": "S1"}, {"sample_id": "S2"}], "primary_sample_ref": []}` */
  function EmptyRefDoc(): Value {
    Obj([SubmissionDoc("S1").members[0], Member("primary_sample_ref", List([]))])
  }

  /** With an empty list in `primary_sample_ref`, the written scan raises
      nothing but replaces the samples' identifiers by `[]`, so a reference
      to `S1` elsewhere would be reported; the corrected scan keeps them. */
  lemma IdListAsWrittenDropsSamples()
    ensures RefValidation.IdListAsWritten(SubmissionSchema(), EmptyRefDoc().members, "Submission", "Sample",
                                          "sample_id") == Ok([])
    ensures RefValidation.IdList(SubmissionSchema(), EmptyRefDoc().members, "Submission", "Sample", "sample_id")
         == Ok([Str("S1"), Str("S2")])
  {
    var s, doc, full := SubmissionSchema(), EmptyRefDoc().members, SubmissionDoc("S1").members;
    SubmissionIdList("S1");
    assert GetSlotDef(s, "Submission", "samples") == Ok(Some(SlotDef(Some("Sample"), true)));
    assert GetSlotDef(s, "Submission", "primary_sample_ref") == Ok(Some(SlotDef(Some("Sample"), false)));
    assert doc[..1] == full[..1] && doc[..2] == doc && full[..2] == full;
    assert full[..2][..1] == full[..1] && full[..2][1] == full[1];
    assert RefValidation.IdList(s, full[..1], "Submission", "Sample", "sample_id") == Ok([Str("S1"), Str("S2")]);
    assert RefValidation.IdListAsWritten(s, doc[..1], "Submission", "Sample", "sample_id")
        == RefValidation.IdListAsWritten(s, full[..1], "Submission", "Sample", "sample_id");
    RefValidation.IdListAgree(s, full[..1], "Submission", "Sample", "sample_id");
    RefValidation.IdListAsWrittenResetByEmptyRef(s, doc, "Submission", "Sample", "sample_id", 1);
  }

  /** `get_id_list` as written also takes `primary_sample_ref` (its range is
      `Sample` too) and subscripts its string value: `TypeError`, on every
      submission, whatever it references. */
  lemma IdListAsWrittenFailsOnSubmission(ref: string)
    ensures RefValidation.IdListAsWritten(SubmissionSchema(), SubmissionDoc(ref).members, "Submission", "Sample",
                                          "sample_id") == Err(TypeError)
  {
    var s, doc := SubmissionSchema(), SubmissionDoc(ref).members;
    var items := [Obj(SampleData("S1")), Obj(SampleData("S2"))];
    assert doc[..1][0] == doc[0];
    assert doc[..2] == doc;
    assert GetSlotDef(s, "Submission", "samples") == Ok(Some(SlotDef(Some("Sample"), true)));
    assert GetSlotDef(s, "Submission", "primary_sample_ref") == Ok(Some(SlotDef(Some("Sample"), false)));
    assert Lookup(SampleData("S1"), "sample_id") == Some(Str("S1"));
    assert Lookup(SampleData("S2"), "sample_id") == Some(Str("S2"));
    assert RefValidation.SubscriptAll(items, "sample_id").Ok?;
    assert RefValidation.IdListOf(s, doc[..1][..0], "Submission", "Sample", "sample_id", false) == Ok([]);
    assert RefValidation.IdListOf(s, doc[..1], "Submission", "Sample", "sample_id", false).Ok?;
    assert RefValidation.IdsOf(Str(ref), "sample_id") == Err(TypeError);
  }

  // ---------------------------------------------------------------------------
  // The record-based checks, over the records a walk of a submission yields
  // ---------------------------------------------------------------------------

  function SubmissionRecord(ref: string): Record {
    Record("Submission", Null, SubmissionDoc(ref).members, [])
  }

  function SampleRecord(id: string, index: nat): Record {
    Record("Sample", Str(id), SampleData(id), [Key("samples"), Index(index)])
  }

  /** `{"samples": [{"sample_id": "S1"}, {"sample_id": "S1"}, {"sample_id": "S2"}], "primary_sample_ref": "S1"}` */
  function RepeatedSampleDoc(): Value {
    Obj([Member("samples", List([Obj(SampleData("S1")), Obj(SampleData("S1")), Obj(SampleData("S2"))])),
         Member("primary_sample_ref", Str("S1"))])
  }

  /** The records a walk of that submission yields: the root, then its three samples. */
  function SampleWalk(): seq<Record> {
    [Record("Submission", Null, RepeatedSampleDoc().members, []),
     SampleRecord("S1", 0), SampleRecord("S1", 1), SampleRecord("S2", 2)]
  }

  /** Only the third record repeats an earlier class and identifier. */
  lemma SampleWalkRepeats()
    ensures !UniqueValidation.IsRepeat(SampleWalk(), 0)
    ensures !UniqueValidation.IsRepeat(SampleWalk()[..2], 1)
    ensures UniqueValidation.IsRepeat(SampleWalk()[..3], 2)
    ensures !UniqueValidation.IsRepeat(SampleWalk(), 3)
  {
    var records := SampleWalk();
    assert records[..3][..2][1] == SampleRecord("S1", 0);
  }

  lemma DuplicateS1Message()
    ensures UniqueValidation.DuplicateMessage(SubmissionSchema(), SampleRecord("S1", 1))
         == Ok(Message(Error, "Duplicate value for unique attribute Sample(sample_id): S1", "samples.1",
                       Data(SampleData("S1"))))
  {
    SecondSamplePath();
    assert IdentifierSlot(SubmissionSchema(), "Sample") == Some("sample_id");
    assert PyStr(Str("S1")) == "S1";
    DuplicateS1Text();
  }

  lemma DuplicateS1Text()
    ensures "Duplicate value for unique attribute " + "Sample" + "(" + "sample_id" + "): " + "S1"
         == "Duplicate value for unique attribute Sample(sample_id): S1"
  {
    assert "Sample" + "(" + "sample_id" + "): " + "S1" == "Sample(sample_id): S1";
  }

  /** The path of the second sample. */
  lemma SecondSamplePath()
    ensures PathAsString([Key("samples"), Index(1)]) == "samples.1"
  {
    assert "0123456789"[1] == '1';
    assert NatToString(1) == "1";
  }

  /** Two samples with identifier `S1` and one with `S2`: the second `S1` is
      reported once, at its own path; `S2` and the submission, which has no
      identifier, are not. */
  lemma DuplicateSample()
    ensures UniqueValidation.UniqueMessages(SubmissionSchema(), SampleWalk())
         == Ok([Message(Error, "Duplicate value for unique attribute Sample(sample_id): S1", "samples.1",
                        Data(SampleData("S1")))])
  {
    var s := SubmissionSchema();
    var records := SampleWalk();
    var m := Message(Error, "Duplicate value for unique attribute Sample(sample_id): S1", "samples.1",
                     Data(SampleData("S1")));
    SampleWalkRepeats();
    DuplicateS1Message();
    assert records[..1][..0] == [] && records[..2][..1] == records[..1]
        && records[..3][..2] == records[..2] && records[..4][..3] == records[..3] && records[..4] == records;
    assert records[..1][0] == records[0] && records[..2][1] == records[1];
    assert UniqueValidation.UniqueMessages(s, records[..1]) == Ok([]);
    assert UniqueValidation.UniqueMessages(s, records[..2]) == Ok([]);
    assert [] + [m] == [m];
    assert UniqueValidation.UniqueMessages(s, records[..3]) == Ok([m]);
  }

  /** The submission's own fields put `S1` into the table for `Sample`. */
  lemma SubmissionSlotsTable()
    ensures BackRefValidation.CollectSlots(SubmissionSchema(), "Submission", SubmissionDoc("S1").members, map[])
         == map["Sample" := [Str("S1")]]
  {
    var s := SubmissionSchema();
    var data := SubmissionDoc("S1").members;
    assert ReferenceTarget(s, "Submission", "samples") == None;
    assert ReferenceTarget(s, "Submission", "primary_sample_ref") == Some("Sample");
    assert data[..1][..0] == [] && data[..2][..1] == data[..1] && data[..2] == data;
    assert BackRefValidation.CollectSlots(s, "Submission", data[..1], map[]) == map[];
    assert BackRefValidation.FindMissingRefs(Str("S1"), []) == [Str("S1")];
    assert data[1] == Member("primary_sample_ref", Str("S1"));
    assert ListAt(map[], "Sample") == [];
    assert [] + [Str("S1")] == [Str("S1")];
  }

  /** A sample's only field is its identifier, which references nothing. */
  lemma SampleSlotsUnchanged(id: string, table: ListTable)
    ensures BackRefValidation.CollectSlots(SubmissionSchema(), "Sample", SampleData(id), table) == table
  {
    assert ReferenceTarget(SubmissionSchema(), "Sample", "sample_id") == None;
    assert SampleData(id)[..0] == [] && SampleData(id)[..1] == SampleData(id);
  }

  /** Pass 1 over a submission referencing `S1`: only `primary_sample_ref`
      is a non-inlined reference slot, so the table holds `S1` for `Sample`. */
  lemma SubmissionRefTable()
    ensures BackRefValidation.CollectRecords(SubmissionSchema(), WalkedRecords()) == map["Sample" := [Str("S1")]]
  {
    var s := SubmissionSchema();
    var records := WalkedRecords();
    var table := map["Sample" := [Str("S1")]];
    SubmissionSlotsTable();
    SampleSlotsUnchanged("S1", table);
    SampleSlotsUnchanged("S2", table);
    assert records[..1][..0] == [] && records[..1][0] == SubmissionRecord("S1");
    assert BackRefValidation.CollectRecords(s, records[..1]) == table;
    assert records[..2][..1] == records[..1] && records[..2][1] == SampleRecord("S1", 0);
    assert BackRefValidation.CollectRecords(s, records[..2]) == table;
    assert records[..3] == records && records[..3][..2] == records[..2] && records[2] == SampleRecord("S2", 1);
  }

  /** No slot references a submission, so its class is skipped; `Sample`
      is referenced by `primary_sample_ref` and is checked. */
  lemma SubmissionExclusions()
    ensures BackRefValidation.IsExcluded(SubmissionSchema(), "Submission")
    ensures !BackRefValidation.IsExcluded(SubmissionSchema(), "Sample")
  {
    var s := SubmissionSchema();
    assert ReferenceTarget(s, "Submission", "samples") == None;
    assert ReferenceTarget(s, "Submission", "primary_sample_ref") == Some("Sample");
    assert ReferenceTarget(s, "Sample", "sample_id") == None;
    assert !BackRefValidation.SlotsTarget(s, "Submission", ["samples", "primary_sample_ref"], "Submission");
    assert !BackRefValidation.SlotsTarget(s, "Sample", ["sample_id"], "Submission");
    assert BackRefValidation.SlotsTarget(s, "Submission", ["samples", "primary_sample_ref"], "Sample");
  }

  function WalkedRecords(): seq<Record> {
    [SubmissionRecord("S1"), SampleRecord("S1", 0), SampleRecord("S2", 1)]
  }

  /** A walker that yields those records for any document. */
  function Walk(obj: Value, targetClass: string): seq<Record> {
    WalkedRecords()
  }

  /** Pass 2 flags only the sample `S2`. */
  lemma UnusedSampleRecords()
    ensures BackRefValidation.UnusedRecords(SubmissionSchema(), WalkedRecords(), map["Sample" := [Str("S1")]])
         == [SampleRecord("S2", 1)]
  {
    var s, records, table := SubmissionSchema(), WalkedRecords(), map["Sample" := [Str("S1")]];
    SubmissionExclusions();
    assert records[..1][..0] == [] && records[..2][..1] == records[..1] && records[..3][..2] == records[..2];
    assert records[..3] == records;
    assert BackRefValidation.UnusedRecords(s, records[..1], table) == [];
    assert BackRefValidation.UnusedRecords(s, records[..2], table) == [];
  }

  lemma UnusedS2Message()
    ensures BackRefValidation.UnusedMessage(SampleRecord("S2", 1))
         == Message(Unset, "Unused object identifier S2", "samples.1", Data(SampleData("S2")))
  {
    SecondSamplePath();
    assert PyStr(Str("S2")) == "S2";
  }

  /** Pass 2: the submission's class is never referenced, so it is skipped;
      `S1` is referenced; `S2` is reported as unused, at its own path. */
  lemma UnusedSample()
    ensures BackRefValidation.ProcessResult(SubmissionSchema(), Walk, SubmissionDoc("S1"),
                                            Some("Submission"))
         == Ok(ValidationResult(BackRefValidation.NAME, false,
                 [Message(Unset, "Unused object identifier S2", "samples.1", Data(SampleData("S2")))]))
  {
    var s, records, table := SubmissionSchema(), WalkedRecords(), map["Sample" := [Str("S1")]];
    SubmissionRefTable();
    UnusedSampleRecords();
    UnusedS2Message();
    assert Walk(SubmissionDoc("S1"), "Submission") == records;
    assert BackRefValidation.CollectRecords(s, records) == table;
    var ms := BackRefValidation.UnusedMessages(s, records, table);
    assert |ms| == 1 && ms[0] == BackRefValidation.UnusedMessage(SampleRecord("S2", 1));
    assert ms == [Message(Unset, "Unused object identifier S2", "samples.1", Data(SampleData("S2")))];
    assert BackRefValidation.ProcessResult(s, Walk, SubmissionDoc("S1"), Some("Submission"))
        == Ok(ResultOf(BackRefValidation.NAME, ms));
  }
}
