/** `SeedDump.dump(records, options)`: the seed text for a model's records.
    A model class or relation is read in primary-key order, in batches; an
    array is read in its own order, in slices of the same size.  Each record
    is printed with the excluded attributes left out, the records form one
    array literal assigned to the model's snake-case name, and the filled-in
    update-or-create template follows.  No records gives `nil`. */
module SeedDump {
  import opened Wrappers
  import opened Text
  import opened Inflector
  import opened UpdateTemplate
  import opened Records

  /** A stored row: its primary key and its attributes in column order. */
  datatype Row = Row(id: int, attributes: Record)

  /** What `dump` is given: a model class or relation (its name and its rows
      in storage order), or an array of already loaded records (the name of
      their class and the records). */
  datatype Source =
    | Relation(model: string, table: seq<Row>)
    | Listed(model: string, items: seq<Row>)

  type BatchSize = n: int | n > 0 witness 1

  /** The options `dump` takes.  An explicit `exclude:` replaces the default
      set rather than adding to it. */
  datatype Options = Options(batchSize: BatchSize, exclude: set<string>)

  const DefaultBatchSize: BatchSize := 1000

  /** The attributes left out unless the caller says otherwise. */
  const DefaultExclude: set<string> := {"id", "created_at", "updated_at"}

  const Defaults: Options := Options(DefaultBatchSize, DefaultExclude)

  // ---------------------------------------------------------------------
  // Primary-key order

  predicate SortedById(rows: seq<Row>)
  {
    forall i, j :: 0 <= i < j < |rows| ==> rows[i].id <= rows[j].id
  }

  /** A primary key names one row. */
  predicate KeyedById(rows: seq<Row>)
  {
    forall r1, r2 :: r1 in rows && r2 in rows && r1.id == r2.id ==> r1 == r2
  }

  /** Puts `row` in its place in an id-sorted list. */
  function InsertById(row: Row, sorted: seq<Row>): (r: seq<Row>)
    requires SortedById(sorted)
    ensures SortedById(r)
    ensures multiset(r) == multiset(sorted) + multiset{row}
    decreases |sorted|
  {
    if |sorted| == 0 || row.id <= sorted[0].id then [row] + sorted
    else
      var rest := InsertById(row, sorted[1..]);
      InsertedAbove(row, sorted, rest);
      [sorted[0]] + rest
  }

  /** Inserting a row with a larger id than the head's into the tail of a
      sorted list gives rows whose ids are at least the head's. */
  lemma InsertedAbove(row: Row, sorted: seq<Row>, rest: seq<Row>)
    requires |sorted| > 0 && SortedById(sorted) && sorted[0].id <= row.id
    requires multiset(rest) == multiset(sorted[1..]) + multiset{row}
    ensures forall k :: 0 <= k < |rest| ==> sorted[0].id <= rest[k].id
    ensures multiset([sorted[0]] + rest) == multiset(sorted) + multiset{row}
  {
    var tail := sorted[1..];
    forall k | 0 <= k < |rest| ensures sorted[0].id <= rest[k].id {
      assert rest[k] in multiset(rest);
      if rest[k] != row {
        assert rest[k] in multiset(tail);
        var j :| 0 <= j < |tail| && tail[j] == rest[k];
        assert tail[j] == sorted[j + 1];
      }
    }
    assert sorted == [sorted[0]] + tail;
  }

  /** The rows in ascending primary-key order: the order in which batches
      are read from a relation. */
  function SortById(rows: seq<Row>): (r: seq<Row>)
    ensures SortedById(r)
    ensures multiset(r) == multiset(rows)
    decreases |rows|
  {
    if |rows| == 0 then []
    else
      assert rows == [rows[0]] + rows[1..];
      InsertById(rows[0], SortById(rows[1..]))
  }

  /** The head of an id-sorted list carries the smallest id. */
  lemma SortedHeadIsLeast(a: seq<Row>, r: Row)
    requires SortedById(a) && r in a
    ensures a[0].id <= r.id
  {
    var j :| 0 <= j < |a| && a[j] == r;
    if j > 0 {
      assert a[0].id <= a[j].id;
    }
  }

  lemma KeyedByIdTail(a: seq<Row>)
    requires |a| > 0 && KeyedById(a)
    ensures KeyedById(a[1..])
  {
    forall r1, r2 | r1 in a[1..] && r2 in a[1..] && r1.id == r2.id ensures r1 == r2 {
      assert r1 in a && r2 in a;
    }
  }

  /** Two id-sorted lists with the same rows, whose ids are keys, start
      with the same row. */
  lemma SortedHeadsAgree(a: seq<Row>, b: seq<Row>)
    requires |a| > 0 && SortedById(a) && SortedById(b) && KeyedById(a)
    requires multiset(a) == multiset(b)
    ensures |b| > 0 && a[0] == b[0]
  {
    assert |a| == |multiset(a)| == |b|;
    var x, y := a[0], b[0];
    assert x in multiset(b) && y in multiset(a);
    SortedHeadIsLeast(a, y);
    SortedHeadIsLeast(b, x);
  }

  /** Lists with the same elements and the same head have tails with the
      same elements. */
  lemma SameTails(a: seq<Row>, b: seq<Row>)
    requires |a| > 0 && |b| > 0 && a[0] == b[0] && multiset(a) == multiset(b)
    ensures multiset(a[1..]) == multiset(b[1..])
  {
    var x, ta, tb := a[0], multiset(a[1..]), multiset(b[1..]);
    assert a == [x] + a[1..] && b == [x] + b[1..];
    assert multiset(a) == multiset{x} + ta;
    assert multiset(b) == multiset{x} + tb;
    forall r ensures ta[r] == tb[r] {
      assert (multiset{x} + ta)[r] == (multiset{x} + tb)[r];
    }
  }

  /** Two id-sorted lists with the same rows, whose ids are keys, are equal. */
  lemma {:induction false} SortedByKeyUnique(a: seq<Row>, b: seq<Row>)
    requires SortedById(a) && SortedById(b) && KeyedById(a)
    requires multiset(a) == multiset(b)
    ensures a == b
    decreases |a|
  {
    if |a| > 0 {
      SortedHeadsAgree(a, b);
      SameTails(a, b);
      KeyedByIdTail(a);
      SortedByKeyUnique(a[1..], b[1..]);
      assert a == [a[0]] + a[1..] && b == [b[0]] + b[1..];
    } else {
      assert |multiset(b)| == 0;
    }
  }

  // ---------------------------------------------------------------------
  // Reading the records

  /** The records in the order they are dumped. */
  function Ordered(src: Source): seq<Row>
  {
    match src
    case Relation(_, table) => SortById(table)
    case Listed(_, items) => items
  }

  /** `records.count` for a relation, the array's length otherwise. */
  function Count(src: Source): (n: nat)
    ensures n == |Ordered(src)|
  {
    match src
    case Relation(_, table) =>
      assert |multiset(SortById(table))| == |multiset(table)|;
      |table|
    case Listed(_, items) => |items|
  }

  /** One batch: up to `limit` records from `offset` on. */
  function FetchBatch(src: Source, offset: nat, limit: BatchSize): (batch: seq<Row>)
    requires offset <= Count(src)
    ensures 0 < |batch| || offset == Count(src)
    ensures offset + |batch| <= Count(src) && |batch| <= limit
    ensures |batch| == limit || offset + |batch| == Count(src)
    ensures batch == Ordered(src)[offset..offset + |batch|]
  {
    var rows := Ordered(src);
    if offset + limit <= |rows| then rows[offset..offset + limit] else rows[offset..]
  }

  // ---------------------------------------------------------------------
  // The dump

  function RenderRows(rows: seq<Row>, exclude: set<string>): seq<string>
  {
    seq(|rows|, k requires 0 <= k < |rows| => RenderRecord(rows[k].attributes, exclude))
  }

  /** The records of a slice of rows are that slice of the records. */
  lemma RenderRowsSlice(rows: seq<Row>, i: int, j: int, exclude: set<string>)
    requires 0 <= i <= j <= |rows|
    ensures RenderRows(rows[i..j], exclude) == RenderRows(rows, exclude)[i..j]
  {
  }

  /** The text written once the first `offset` records are out: their
      texts, and a separator when more are to follow. */
  function Printed(texts: seq<string>, offset: nat): string
    requires offset <= |texts|
  {
    Join(texts[..offset], RecordSeparator) + (if 0 < offset < |texts| then RecordSeparator else "")
  }

  /** Writing the texts of one more non-empty batch, and a separator unless
      it was the last, extends the text by exactly that batch. */
  lemma PrintBatch(texts: seq<string>, offset: nat, next: nat, batch: seq<string>, separator: string)
    requires offset < next <= |texts| && batch == texts[offset..next]
    requires separator == if next < |texts| then RecordSeparator else ""
    ensures Printed(texts, offset) + Join(batch, RecordSeparator) + separator == Printed(texts, next)
  {
    var done := texts[..offset];
    assert texts[..next] == done + batch;
    assert Printed(texts, next) == Join(done + batch, RecordSeparator) + separator;
    if offset > 0 {
      assert Printed(texts, offset) == Join(done, RecordSeparator) + RecordSeparator;
      JoinAppend(done, batch, RecordSeparator);
    } else {
      assert Printed(texts, offset) == "";
      assert done + batch == batch;
    }
  }

  /** `sample = [` and the indentation of the first record. */
  function Header(varName: string): string
  {
    varName + " = [\n  "
  }

  const RecordSeparator: string := ",\n  "

  /** The end of the array and the filled-in template. */
  function Footer(model: string, varName: string): string
  {
    "\n]\n" + Substitute(UpdateCode, model, varName)
  }

  /** The whole text for the dumped records of `model`. */
  function Assemble(model: string, varName: string, records: seq<string>): string
  {
    Header(varName) + Join(records, RecordSeparator) + Footer(model, varName)
  }

  /** What `dump` returns, independent of how the records are batched. */
  function DumpText(src: Source, opts: Options): Option<string>
  {
    if Count(src) == 0 then None
    else Some(Assemble(src.model, Underscore(src.model), RenderRows(Ordered(src), opts.exclude)))
  }

  /** `nil` exactly when there is nothing to dump. */
  lemma DumpTextNilIffEmpty(src: Source, opts: Options)
    ensures DumpText(src, opts) == None <==> Count(src) == 0
  {
  }

  /** A relation's dump does not depend on the order its rows are stored
      in: it is read in primary-key order. */
  lemma DumpTextIgnoresStorageOrder(model: string, t1: seq<Row>, t2: seq<Row>, opts: Options)
    requires multiset(t1) == multiset(t2) && KeyedById(t1)
    ensures DumpText(Relation(model, t1), opts) == DumpText(Relation(model, t2), opts)
  {
    var s1, s2 := SortById(t1), SortById(t2);
    assert |t1| == |multiset(t1)| == |t2|;
    assert forall r :: r in s1 <==> r in t1 by {
      forall r ensures r in s1 <==> r in t1 {
        assert r in s1 <==> r in multiset(s1);
        assert r in t1 <==> r in multiset(t1);
      }
    }
    SortedByKeyUnique(s1, s2);
  }

  /** Fetches the batch that starts at `offset` and writes its records,
      followed by a separator unless it is the last batch. */
  method WriteBatch(src: Source, opts: Options, offset: nat, out: string) returns (next: string, nextOffset: nat)
    requires offset < |Ordered(src)|
    requires out == Printed(RenderRows(Ordered(src), opts.exclude), offset)
    ensures offset < nextOffset <= |Ordered(src)|
    ensures next == Printed(RenderRows(Ordered(src), opts.exclude), nextOffset)
  {
    ghost var rows := Ordered(src);
    var n := Count(src);
    var batch := FetchBatch(src, offset, opts.batchSize);
    nextOffset := offset + |batch|;
    var separator := if nextOffset < n then RecordSeparator else "";
    var written := RenderRows(batch, opts.exclude);
    RenderRowsSlice(rows, offset, nextOffset, opts.exclude);
    PrintBatch(RenderRows(rows, opts.exclude), offset, nextOffset, written, separator);
    next := out + Join(written, RecordSeparator) + separator;
  }

  /** Reads the records batch by batch, writing each batch's records and a
      separator after every batch but the last.  The text is the same
      whatever the batch size. */
  method WriteRecords(src: Source, opts: Options) returns (out: string)
    ensures out == Join(RenderRows(Ordered(src), opts.exclude), RecordSeparator)
  {
    var n := Count(src);
    ghost var texts := RenderRows(Ordered(src), opts.exclude);
    out := "";
    var offset := 0;
    while offset < n
      invariant 0 <= offset <= n
      invariant out == Printed(texts, offset)
      decreases n - offset
    {
      out, offset := WriteBatch(src, opts, offset, out);
    }
    assert texts[..n] == texts;
  }

  /** `SeedDump.dump`: counts the records and gives `nil` when there are
      none; otherwise opens the array under the model's variable name,
      writes the records, closes the array and appends the template. */
  method Dump(src: Source, opts: Options) returns (r: Option<string>)
    ensures r == DumpText(src, opts)
  {
    if Count(src) == 0 {
      return None;
    }
    var varName := Underscore(src.model);
    var records := WriteRecords(src, opts);
    r := Some(Header(varName) + records + Footer(src.model, varName));
  }

  // ---------------------------------------------------------------------
  // The `file:` and `append:` options

  /** A file the dump is written to. */
  class Destination {
    var contents: string

    /** A file name that does not exist yet: opening it creates it empty. */
    constructor ()
      ensures contents == ""
    {
      contents := "";
    }

    /** Opens the file for writing (`w`) or appending (`a`) and writes `text`. */
    method Write(text: string, append: bool)
      modifies this
      ensures contents == (if append then old(contents) else "") + text
    {
      if append {
        contents := contents + text;
      } else {
        contents := text;
      }
    }
  }

  /** `SeedDump.dump(records, file: name, append: flag)`: the text also goes
      to the file, which is left alone when there is nothing to dump. */
  method DumpToFile(src: Source, opts: Options, file: Destination, append: bool) returns (r: Option<string>)
    modifies file
    ensures r == DumpText(src, opts)
    ensures r == None ==> file.contents == old(file.contents)
    ensures r != None ==> file.contents == (if append then old(file.contents) else "") + r.value
  {
    r := Dump(src, opts);
    if r != None {
      file.Write(r.value, append);
    }
  }
}
