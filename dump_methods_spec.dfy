/** The examples of `describe '.dump'`: three stored samples, the text the
    tests expect for them, and one method per example that runs the dump
    engine and states the expectation the example checks. */
module DumpMethodsSpec {
  import opened Wrappers
  import opened Text
  import opened Inflector
  import opened UpdateTemplate
  import opened Records
  import opened SeedDump

  const SampleModel: string := "Sample"
  const SampleVar: string := "sample"

  // ---------------------------------------------------------------------
  // The fixture

  /** The attributes a stored sample has apart from its primary key and its
      timestamps, in column order. */
  const SampleColumns: Record := [
    ("string", Str("string")),
    ("text", Str("text")),
    ("integer", Int(42)),
    ("float", Float("3.14")),
    ("decimal", Decimal("2.72")),
    ("datetime", DateTime("1776-07-04 19:14:00")),
    ("time", Time("2000-01-01 03:15:00")),
    ("date", Date("1863-11-19")),
    ("binary", Binary("binary")),
    ("boolean", Bool(false))
  ]

  /** A sample row: its id, the columns above, then `created_at` and
      `updated_at` holding whatever the database stamped. */
  predicate IsSampleRow(r: Row)
  {
    |r.attributes| == 13
    && r.attributes[..11] == [("id", Int(r.id))] + SampleColumns
    && r.attributes[11].0 == "created_at"
    && r.attributes[12].0 == "updated_at"
  }

  /** `FactoryGirl.create_list(:sample, 3)`: three sample rows with ids
      `1 + idOffset` to `3 + idOffset`, stored in any order. */
  predicate IsSampleTable(t: seq<Row>, idOffset: int)
  {
    HasSampleIds(t, idOffset) && forall k :: 0 <= k < |t| ==> IsSampleRow(t[k])
  }

  /** Three rows whose ids are `1 + idOffset` to `3 + idOffset`. */
  predicate HasSampleIds(t: seq<Row>, idOffset: int)
  {
    |t| == 3 && {t[0].id, t[1].id, t[2].id} == {1 + idOffset, 2 + idOffset, 3 + idOffset}
  }

  // ---------------------------------------------------------------------
  // expected_output

  /** `name: text`, one attribute of an expected record. */
  function Field(name: string, text: string): string
  {
    name + ": " + text
  }

  /** The attribute texts of one expected record, after its optional id. */
  const SampleFieldTexts: seq<string> := [
    Field("string", "\"string\""),
    Field("text", "\"text\""),
    Field("integer", "42"),
    Field("float", "3.14"),
    Field("decimal", "\"2.72\""),
    Field("datetime", "\"1776-07-04 19:14:00\""),
    Field("time", "\"2000-01-01 03:15:00\""),
    Field("date", "\"1863-11-19\""),
    Field("binary", "\"binary\""),
    Field("boolean", "false")
  ]

  /** The attribute texts of the expected record with id `i`: the id first
      when it is included, then the sample's columns. */
  function RecordFields(includeId: bool, i: int): seq<string>
  {
    (if includeId then [Field("id", IntToString(i))] else []) + SampleFieldTexts
  }

  /** The expected text of the record with id `i`. */
  function ExpectedRecord(includeId: bool, i: int): string
  {
    "{" + Join(RecordFields(includeId, i), ", ") + "}"
  }

  /** The records `(1 + idOffset)..(3 + idOffset)`, in this order. */
  function ExpectedRecords(includeId: bool, idOffset: int): seq<string>
  {
    seq(3, k requires 0 <= k < 3 => ExpectedRecord(includeId, 1 + idOffset + k))
  }

  /** The template with the sample's names filled in. */
  function FilledCode(): string
  {
    Substitute(UpdateCode, SampleModel, SampleVar)
  }

  /** What `expected_output(include_id, id_offset)` returns. */
  function ExpectedText(includeId: bool, idOffset: int): string
  {
    "sample = [\n  " + Join(ExpectedRecords(includeId, idOffset), ",\n  ") + "\n]\n" + FilledCode()
  }

  /** The state of one example: the `@update_code` instance variable. */
  class SpecContext {
    var updateCode: string

    /** The `before` block that sets the template. */
    constructor ()
      ensures updateCode == UpdateCode
    {
      updateCode := UpdateCode;
    }

    /** `@update_code = @update_code.gsub("[model_name]", "Sample").gsub("[var_name]", "sample")`. */
    method FillUpdateCode()
      modifies this
      ensures updateCode == Substitute(old(updateCode), SampleModel, SampleVar)
    {
      updateCode := Substitute(updateCode, SampleModel, SampleVar);
    }

    /** `expected_output(include_id, id_offset)`: builds the records one id
        at a time, fills in the template in place and returns the text. */
    method ExpectedOutput(includeId: bool, idOffset: int) returns (output: string)
      modifies this
      ensures updateCode == Substitute(old(updateCode), SampleModel, SampleVar)
      ensures output == "sample = [\n  " + Join(ExpectedRecords(includeId, idOffset), ",\n  ") + "\n]\n" + updateCode
    {
      output := "sample = [\n  ";
      var data: seq<string> := [];
      var i := 1 + idOffset;
      while i <= 3 + idOffset
        invariant 1 + idOffset <= i <= 4 + idOffset
        invariant data == ExpectedRecords(includeId, idOffset)[..i - (1 + idOffset)]
        decreases 4 + idOffset - i
      {
        data := data + [ExpectedRecord(includeId, i)];
        i := i + 1;
      }
      assert data == ExpectedRecords(includeId, idOffset);
      FillUpdateCode();
      output := output + Join(data, ",\n  ") + "\n]\n" + updateCode;
    }
  }

  /** A second call of `expected_output` in the same example finds the
      template already filled and returns the same text. */
  lemma ExpectedTextIsStable()
    ensures Substitute(FilledCode(), SampleModel, SampleVar) == FilledCode()
  {
    SubstituteIdempotent(SampleModel, SampleVar, SampleModel, SampleVar);
  }

  // ---------------------------------------------------------------------
  // Printing the samples

  // The quoted values print as the record expects them, one literal at a time.

  lemma StringQuoted()
    ensures Quote("string") == "\"string\"" && Quote("text") == "\"text\""
  {
  }

  lemma DecimalQuoted()
    ensures Quote("2.72") == "\"2.72\"" && Quote("binary") == "\"binary\""
  {
  }

  lemma DateTimeQuoted()
    ensures Quote("1776-07-04 19:14:00") == "\"1776-07-04 19:14:00\""
  {
  }

  lemma TimeQuoted()
    ensures Quote("2000-01-01 03:15:00") == "\"2000-01-01 03:15:00\""
  {
  }

  lemma DateQuoted()
    ensures Quote("1863-11-19") == "\"1863-11-19\""
  {
  }

  lemma IntegerPrinted()
    ensures IntToString(42) == "42"
  {
  }

  lemma SampleColumnsPrinted()
    ensures RenderAttributes(SampleColumns) == SampleFieldTexts
  {
    StringQuoted();
    DecimalQuoted();
    DateTimeQuoted();
    TimeQuoted();
    DateQuoted();
    IntegerPrinted();
  }

  /** The exclusion under which `expected_output(include_id)` is produced. */
  function SampleExclude(includeId: bool): set<string>
  {
    if includeId then {"created_at", "updated_at"} else DefaultExclude
  }

  /** A sample row is its id, its columns and its two timestamps. */
  lemma SampleRowParts(r: Row)
    requires IsSampleRow(r)
    ensures r.attributes == [("id", Int(r.id))] + SampleColumns + r.attributes[11..]
    ensures |r.attributes[11..]| == 2
    ensures r.attributes[11..][0].0 == "created_at" && r.attributes[11..][1].0 == "updated_at"
  {
    assert r.attributes == r.attributes[..11] + r.attributes[11..];
  }

  /** Excluding the timestamps drops the last two attributes, and the
      attributes before them are projected on their own. */
  lemma SampleRowProjected(r: Row, exclude: set<string>)
    requires IsSampleRow(r) && "created_at" in exclude && "updated_at" in exclude
    ensures Project(r.attributes, exclude) == Project([("id", Int(r.id))], exclude) + Project(SampleColumns, exclude)
  {
    var idAttr := ("id", Int(r.id));
    SampleRowParts(r);
    ProjectDropsStamps([idAttr] + SampleColumns, r.attributes[11..], exclude);
    ProjectAppend([idAttr], SampleColumns, exclude);
  }

  /** Two trailing attributes whose names are excluded leave no trace. */
  lemma ProjectDropsStamps(head: Record, stamps: Record, exclude: set<string>)
    requires |stamps| == 2 && stamps[0].0 in exclude && stamps[1].0 in exclude
    ensures Project(head + stamps, exclude) == Project(head, exclude)
  {
    ProjectAppend(head, stamps, exclude);
    ProjectDropsAll(stamps, exclude);
  }

  /** None of the sample's column names is in `exclude`. */
  predicate KeepsColumns(exclude: set<string>)
  {
    forall k :: 0 <= k < |SampleColumns| ==> SampleColumns[k].0 !in exclude
  }

  /** No column name of a sample is excluded by default. */
  lemma SampleColumnsKept(includeId: bool)
    ensures KeepsColumns(SampleExclude(includeId))
  {
  }

  /** A record whose kept attributes print as `texts` prints as those
      texts joined inside braces. */
  lemma PrintedAs(rec: Record, exclude: set<string>, texts: seq<string>)
    requires RenderAttributes(Project(rec, exclude)) == texts
    ensures RenderRecord(rec, exclude) == "{" + Join(texts, ", ") + "}"
  {
  }

  /** Excluding the timestamps and no column, a sample row keeps its
      columns and, unless it is excluded too, its id. */
  lemma SampleRowKeeps(r: Row, exclude: set<string>)
    requires IsSampleRow(r) && "created_at" in exclude && "updated_at" in exclude && KeepsColumns(exclude)
    ensures Project(r.attributes, exclude) == Project([("id", Int(r.id))], exclude) + SampleColumns
  {
    SampleRowProjected(r, exclude);
    ProjectKeepsAll(SampleColumns, exclude);
  }

  /** Without its id, a sample row prints as the expected record. */
  lemma SampleRowPrintedWithoutId(r: Row, exclude: set<string>)
    requires IsSampleRow(r) && "created_at" in exclude && "updated_at" in exclude && KeepsColumns(exclude)
    requires "id" in exclude
    ensures RenderRecord(r.attributes, exclude) == ExpectedRecord(false, r.id)
  {
    SampleRowKeeps(r, exclude);
    assert Project([("id", Int(r.id))], exclude) == [];
    SampleColumnsPrinted();
    assert RecordFields(false, r.id) == SampleFieldTexts;
    PrintedAs(r.attributes, exclude, RecordFields(false, r.id));
  }

  /** With its id, a sample row prints as the expected record. */
  lemma SampleRowPrintedWithId(r: Row, exclude: set<string>)
    requires IsSampleRow(r) && "created_at" in exclude && "updated_at" in exclude && KeepsColumns(exclude)
    requires "id" !in exclude
    ensures RenderRecord(r.attributes, exclude) == ExpectedRecord(true, r.id)
  {
    var idAttr := ("id", Int(r.id));
    SampleRowKeeps(r, exclude);
    assert Project([idAttr], exclude) == [idAttr];
    SampleColumnsPrinted();
    RenderAttributesAppend([idAttr], SampleColumns);
    assert RenderAttributes([idAttr]) == [Field("id", IntToString(r.id))];
    PrintedAs(r.attributes, exclude, RecordFields(true, r.id));
  }

  /** A sample row prints as the expected record. */
  lemma SampleRowPrinted(r: Row, includeId: bool)
    requires IsSampleRow(r)
    ensures RenderRecord(r.attributes, SampleExclude(includeId)) == ExpectedRecord(includeId, r.id)
  {
    SampleColumnsKept(includeId);
    if includeId {
      SampleRowPrintedWithId(r, SampleExclude(includeId));
    } else {
      SampleRowPrintedWithoutId(r, SampleExclude(includeId));
    }
  }

  /** Three ascending ids that cover `first`, `first + 1` and `first + 2`
      are those three, in this order. */
  lemma ThreeAscendingIds(x0: int, x1: int, x2: int, first: int)
    requires x0 <= x1 <= x2
    requires first == x0 || first == x1 || first == x2
    requires first + 1 == x0 || first + 1 == x1 || first + 1 == x2
    requires first + 2 == x0 || first + 2 == x1 || first + 2 == x2
    ensures x0 == first && x1 == first + 1 && x2 == first + 2
  {
  }

  /** Sorting keeps the rows: each row of one is a row of the other. */
  lemma SortKeepsRows(t: seq<Row>)
    ensures |SortById(t)| == |t|
    ensures forall r :: r in SortById(t) <==> r in t
  {
    var s := SortById(t);
    assert |s| == |multiset(s)| == |multiset(t)| == |t|;
    forall r ensures r in s <==> r in t {
      assert r in s <==> r in multiset(s);
      assert r in t <==> r in multiset(t);
    }
  }

  /** Each id of the samples is the id of one of the sorted rows. */
  lemma SampleIdSorted(t: seq<Row>, idOffset: int, id: int)
    requires HasSampleIds(t, idOffset) && id in {1 + idOffset, 2 + idOffset, 3 + idOffset}
    ensures |SortById(t)| == 3
    ensures id == SortById(t)[0].id || id == SortById(t)[1].id || id == SortById(t)[2].id
  {
    SortKeepsRows(t);
    assert id in {t[0].id, t[1].id, t[2].id};
    var j :| 0 <= j < 3 && t[j].id == id;
    assert t[j] in t;
  }

  /** Each sorted row carries one of the samples' ids. */
  lemma SortedIdInRange(t: seq<Row>, idOffset: int, k: int)
    requires HasSampleIds(t, idOffset) && 0 <= k < 3
    ensures |SortById(t)| == 3
    ensures 1 + idOffset <= SortById(t)[k].id <= 3 + idOffset
  {
    var s := SortById(t);
    SortKeepsRows(t);
    assert s[k] in s;
    var j :| 0 <= j < 3 && t[j] == s[k];
    assert t[j].id in {t[0].id, t[1].id, t[2].id};
  }

  /** Read in primary-key order, the samples' ids are `1 + idOffset`,
      `2 + idOffset`, `3 + idOffset`. */
  lemma SampleIdsInKeyOrder(t: seq<Row>, idOffset: int)
    requires HasSampleIds(t, idOffset)
    ensures |SortById(t)| == 3
    ensures forall k :: 0 <= k < 3 ==> SortById(t)[k].id == 1 + idOffset + k
  {
    var s := SortById(t);
    SortedIdInRange(t, idOffset, 0);
    SortedIdInRange(t, idOffset, 1);
    SortedIdInRange(t, idOffset, 2);
    SampleIdSorted(t, idOffset, 1 + idOffset);
    SampleIdSorted(t, idOffset, 2 + idOffset);
    SampleIdSorted(t, idOffset, 3 + idOffset);
    assert s[0].id <= s[1].id <= s[2].id;
    ThreeAscendingIds(s[0].id, s[1].id, s[2].id, 1 + idOffset);
  }

  /** Sorting sample rows gives sample rows. */
  lemma SortedRowsAreSamples(t: seq<Row>)
    requires forall k :: 0 <= k < |t| ==> IsSampleRow(t[k])
    ensures forall k :: 0 <= k < |SortById(t)| ==> IsSampleRow(SortById(t)[k])
  {
    var s := SortById(t);
    SortKeepsRows(t);
    forall k | 0 <= k < |s| ensures IsSampleRow(s[k]) {
      assert s[k] in s;
      var j :| 0 <= j < |t| && t[j] == s[k];
    }
  }

  /** The stored samples, read in primary-key order, have ids
      `1 + idOffset`, `2 + idOffset`, `3 + idOffset`. */
  lemma SamplesInKeyOrder(t: seq<Row>, idOffset: int)
    requires IsSampleTable(t, idOffset)
    ensures |SortById(t)| == 3
    ensures forall k :: 0 <= k < 3 ==> IsSampleRow(SortById(t)[k]) && SortById(t)[k].id == 1 + idOffset + k
  {
    SampleIdsInKeyOrder(t, idOffset);
    SortedRowsAreSamples(t);
  }

  lemma ExpectedRecordAt(includeId: bool, idOffset: int, k: int)
    requires 0 <= k < 3
    ensures ExpectedRecords(includeId, idOffset)[k] == ExpectedRecord(includeId, 1 + idOffset + k)
  {
  }

  /** Rows print as `expected` when each of them prints as its entry. */
  lemma RowsPrintedAs(rows: seq<Row>, exclude: set<string>, expected: seq<string>)
    requires |rows| == |expected|
    requires forall k :: 0 <= k < |rows| ==> RenderRecord(rows[k].attributes, exclude) == expected[k]
    ensures RenderRows(rows, exclude) == expected
  {
  }

  /** The `k`-th stored sample in key order prints as the `k`-th expected record. */
  lemma SortedSamplePrinted(t: seq<Row>, idOffset: int, includeId: bool, k: int)
    requires IsSampleTable(t, idOffset) && 0 <= k < 3
    ensures |SortById(t)| == 3
    ensures RenderRecord(SortById(t)[k].attributes, SampleExclude(includeId)) == ExpectedRecords(includeId, idOffset)[k]
  {
    SamplesInKeyOrder(t, idOffset);
    var row := SortById(t)[k];
    SampleRowPrinted(row, includeId);
    ExpectedRecordAt(includeId, idOffset, k);
  }

  /** The stored samples print, in key order, as the expected records. */
  lemma SampleRowsPrinted(t: seq<Row>, idOffset: int, includeId: bool)
    requires IsSampleTable(t, idOffset)
    ensures RenderRows(SortById(t), SampleExclude(includeId)) == ExpectedRecords(includeId, idOffset)
  {
    SamplesInKeyOrder(t, idOffset);
    forall k | 0 <= k < 3
      ensures RenderRecord(SortById(t)[k].attributes, SampleExclude(includeId)) == ExpectedRecords(includeId, idOffset)[k]
    {
      SortedSamplePrinted(t, idOffset, includeId, k);
    }
    RowsPrintedAs(SortById(t), SampleExclude(includeId), ExpectedRecords(includeId, idOffset));
  }

  /** The dumped text laid out as the tests write it. */
  lemma AssembleLayout(model: string, varName: string, records: seq<string>)
    ensures Assemble(model, varName, records)
         == Header(varName) + Join(records, ",\n  ") + "\n]\n" + Substitute(UpdateCode, model, varName)
  {
  }

  /** The sample's dump opens as the tests expect. */
  lemma SampleHeader()
    ensures Header(SampleVar) == "sample = [\n  "
  {
  }

  /** The text of a sample dump whose records print as `records`. */
  lemma SampleAssembled(records: seq<string>)
    ensures Assemble(SampleModel, Underscore(SampleModel), records)
         == "sample = [\n  " + Join(records, ",\n  ") + "\n]\n" + FilledCode()
  {
    UnderscoreSample();
    AssembleLayout(SampleModel, SampleVar, records);
    SampleHeader();
  }

  /** The dump of the samples is the expected output, whatever the batch
      size, and also when the samples are given as an array in key order. */
  lemma SamplesDumpAsExpected(t: seq<Row>, idOffset: int, includeId: bool, opts: Options)
    requires IsSampleTable(t, idOffset) && opts.exclude == SampleExclude(includeId)
    ensures DumpText(Relation(SampleModel, t), opts) == Some(ExpectedText(includeId, idOffset))
    ensures DumpText(Listed(SampleModel, SortById(t)), opts) == Some(ExpectedText(includeId, idOffset))
  {
    SamplesInKeyOrder(t, idOffset);
    SampleRowsPrinted(t, idOffset, includeId);
    SampleAssembled(ExpectedRecords(includeId, idOffset));
  }

  // ---------------------------------------------------------------------
  // The exclude example

  /** The attribute texts expected once `string`, `float` and `datetime`
      are excluded as well. */
  const ExcludedFieldTexts: seq<string> := [
    Field("text", "\"text\""),
    Field("integer", "42"),
    Field("decimal", "\"2.72\""),
    Field("time", "\"2000-01-01 03:15:00\""),
    Field("date", "\"1863-11-19\""),
    Field("binary", "\"binary\""),
    Field("boolean", "false")
  ]

  const ExcludeOption: set<string> := {"id", "created_at", "updated_at", "string", "float", "datetime"}

  /** The text of the exclude example, given the filled-in template. */
  function ExcludedText(code: string): string
  {
    var r := "{" + Join(ExcludedFieldTexts, ", ") + "}";
    "sample = [\n  " + Join([r, r, r], ",\n  ") + "\n]\n" + code
  }

  /** The columns left once the exclude option is applied. */
  const ExcludedColumns: Record := [
    SampleColumns[1], SampleColumns[2], SampleColumns[4], SampleColumns[6],
    SampleColumns[7], SampleColumns[8], SampleColumns[9]
  ]

  lemma SampleColumnsExcluded()
    ensures Project(SampleColumns, ExcludeOption) == ExcludedColumns
  {
    ExcludedNames();
    KeptNames();
  }

  lemma ExcludedNames()
    ensures "string" in ExcludeOption && "float" in ExcludeOption && "datetime" in ExcludeOption
  {
  }

  lemma KeptNames()
    ensures "text" !in ExcludeOption && "integer" !in ExcludeOption && "decimal" !in ExcludeOption
    ensures "time" !in ExcludeOption && "date" !in ExcludeOption && "binary" !in ExcludeOption
    ensures "boolean" !in ExcludeOption
  {
  }

  lemma ExcludedColumnsPrinted()
    ensures RenderAttributes(ExcludedColumns) == ExcludedFieldTexts
  {
    SampleColumnsPrinted();
    var all := RenderAttributes(SampleColumns);
    assert RenderAttributes(ExcludedColumns) == [all[1], all[2], all[4], all[6], all[7], all[8], all[9]];
  }

  /** Under the exclude option a sample row prints as the record the
      example expects. */
  lemma SampleRowPrintedExcluding(r: Row)
    requires IsSampleRow(r)
    ensures RenderRecord(r.attributes, ExcludeOption) == "{" + Join(ExcludedFieldTexts, ", ") + "}"
  {
    SampleRowProjected(r, ExcludeOption);
    assert Project([("id", Int(r.id))], ExcludeOption) == [];
    SampleColumnsExcluded();
    ExcludedColumnsPrinted();
    assert Project(r.attributes, ExcludeOption) == ExcludedColumns;
  }

  /** With the exclude option the dump is the text the example expects. */
  lemma SamplesDumpExcluding(t: seq<Row>, opts: Options)
    requires IsSampleTable(t, 0) && opts.exclude == ExcludeOption
    ensures DumpText(Relation(SampleModel, t), opts) == Some(ExcludedText(FilledCode()))
  {
    var s := SortById(t);
    var r := "{" + Join(ExcludedFieldTexts, ", ") + "}";
    SamplesInKeyOrder(t, 0);
    forall k | 0 <= k < 3 ensures RenderRows(s, ExcludeOption)[k] == r {
      SampleRowPrintedExcluding(s[k]);
    }
    assert RenderRows(s, ExcludeOption) == [r, r, r];
    SampleAssembled([r, r, r]);
  }

  // ---------------------------------------------------------------------
  // The examples

  /** 'should return the dump of the models passed in', and 'should dump
      the models sorted by primary key ascending'. */
  method ReturnsDumpOfModels(t: seq<Row>) returns (dumped: Option<string>, expected: string)
    requires IsSampleTable(t, 0)
    ensures dumped == Some(expected) && expected == ExpectedText(false, 0)
  {
    SamplesDumpAsExpected(t, 0, false, Defaults);
    dumped := Dump(Relation(SampleModel, t), Defaults);
    var ctx := new SpecContext();
    expected := ctx.ExpectedOutput(false, 0);
  }

  /** 'should dump the models to the specified file'. */
  method DumpsToFile(t: seq<Row>) returns (contents: string, expected: string)
    requires IsSampleTable(t, 0)
    ensures contents == expected && expected == ExpectedText(false, 0)
  {
    SamplesDumpAsExpected(t, 0, false, Defaults);
    var file := new Destination();
    var _ := DumpToFile(Relation(SampleModel, t), Defaults, file, false);
    contents := file.contents;
    var ctx := new SpecContext();
    expected := ctx.ExpectedOutput(false, 0);
  }

  /** 'should append to the file rather than overwriting it'. */
  method AppendsToFile(t: seq<Row>) returns (contents: string, expected: string)
    requires IsSampleTable(t, 0)
    ensures contents == expected && expected == ExpectedText(false, 0) + ExpectedText(false, 0)
  {
    SamplesDumpAsExpected(t, 0, false, Defaults);
    var file := new Destination();
    var _ := DumpToFile(Relation(SampleModel, t), Defaults, file, false);
    assert file.contents == ExpectedText(false, 0);
    var _ := DumpToFile(Relation(SampleModel, t), Defaults, file, true);
    contents := file.contents;
    var ctx := new SpecContext();
    var first := ctx.ExpectedOutput(false, 0);
    assert ctx.updateCode == FilledCode();
    ExpectedTextIsStable();
    var second := ctx.ExpectedOutput(false, 0);
    assert ctx.updateCode == FilledCode();
    expected := first + second;
  }

  /** 'should return nil if the count is 0'. */
  method EmptyModelGivesNil() returns (dumped: Option<string>)
    ensures dumped == None
  {
    dumped := Dump(Relation("EmptyModel", []), Defaults);
  }

  /** 'should not raise an exception' with `batch_size: 100`; the dump is
      also the expected one. */
  method BatchSizeHundred(t: seq<Row>) returns (dumped: Option<string>)
    requires IsSampleTable(t, 0)
    ensures dumped == Some(ExpectedText(false, 0))
  {
    var opts := Options(100, DefaultExclude);
    dumped := Dump(Relation(SampleModel, t), opts);
    SamplesDumpAsExpected(t, 0, false, opts);
  }

  /** 'should not cause records to not be dumped': batch sizes 2 and 1. */
  method SmallBatchesKeepAllRecords(t: seq<Row>) returns (byTwo: Option<string>, byOne: Option<string>)
    requires IsSampleTable(t, 0)
    ensures byTwo == Some(ExpectedText(false, 0)) && byOne == Some(ExpectedText(false, 0))
  {
    var two, one := Options(2, DefaultExclude), Options(1, DefaultExclude);
    byTwo := Dump(Relation(SampleModel, t), two);
    byOne := Dump(Relation(SampleModel, t), one);
    SamplesDumpAsExpected(t, 0, false, two);
    SamplesDumpAsExpected(t, 0, false, one);
  }

  /** 'should return the dump of the models passed in' for
      `Sample.all.to_a` with `batch_size: 2`. */
  method ArrayDump(t: seq<Row>) returns (dumped: Option<string>)
    requires IsSampleTable(t, 0)
    ensures dumped == Some(ExpectedText(false, 0))
  {
    var opts := Options(2, DefaultExclude);
    var loaded := SortById(t);
    dumped := Dump(Listed(SampleModel, loaded), opts);
    SamplesDumpAsExpected(t, 0, false, opts);
  }

  /** 'should return nil if the array is empty'. */
  method EmptyArrayGivesNil(model: string) returns (dumped: Option<string>)
    ensures dumped == None
  {
    dumped := Dump(Listed(model, []), Defaults);
  }

  /** 'should exclude the specified attributes from the dump'. */
  method ExcludesAttributes(t: seq<Row>) returns (dumped: Option<string>, expected: string)
    requires IsSampleTable(t, 0)
    ensures dumped == Some(expected) && expected == ExcludedText(FilledCode())
  {
    var ctx := new SpecContext();
    ctx.FillUpdateCode();
    expected := ExcludedText(ctx.updateCode);
    var opts := Options(DefaultBatchSize, ExcludeOption);
    dumped := Dump(Relation(SampleModel, t), opts);
    SamplesDumpExcluding(t, opts);
  }
}
