/** The Record Formatter: a record is an ordered list of attribute names and
    typed values; a record is printed as a hash literal `{name: value, ...}`
    over the attributes that are not excluded, in their column order. */
module Records {
  import opened Wrappers
  import opened Text

  /** A column value.  Floats, decimals and the date/time kinds arrive as
      text already formatted by the database layer. */
  datatype Value =
    | Str(text: string)
    | Int(number: int)
    | Float(literal: string)
    | Decimal(digits: string)
    | DateTime(stamp: string)
    | Time(clock: string)
    | Date(day: string)
    | Binary(bytes: string)
    | Bool(flag: bool)
    | Nil

  /** The type of a column; `nil` may stand in a column of any type. */
  datatype Kind =
    | StringKind | IntegerKind | FloatKind | DecimalKind
    | DateTimeKind | TimeKind | DateKind | BinaryKind | BooleanKind

  predicate HasKind(v: Value, k: Kind)
  {
    match v
    case Str(_) => k == StringKind
    case Int(_) => k == IntegerKind
    case Float(_) => k == FloatKind
    case Decimal(_) => k == DecimalKind
    case DateTime(_) => k == DateTimeKind
    case Time(_) => k == TimeKind
    case Date(_) => k == DateKind
    case Binary(_) => k == BinaryKind
    case Bool(_) => k == BooleanKind
    case Nil => true
  }

  type Attribute = (string, Value)
  type Record = seq<Attribute>

  function Quote(s: string): string
  {
    "\"" + s + "\""
  }

  /** How a value is printed: text-like values and decimals in double quotes,
      numbers and booleans bare, `nil` as the keyword. */
  function RenderValue(v: Value): string
  {
    match v
    case Str(s) => Quote(s)
    case Int(i) => IntToString(i)
    case Float(t) => t
    case Decimal(d) => Quote(d)
    case DateTime(t) => Quote(t)
    case Time(t) => Quote(t)
    case Date(d) => Quote(d)
    case Binary(b) => Quote(b)
    case Bool(b) => if b then "true" else "false"
    case Nil => "nil"
  }

  /** A float literal as the database layer prints it. */
  predicate NumericToken(t: string)
  {
    |t| > 0 && forall k :: 0 <= k < |t| ==> t[k] in "0123456789.-+eE"
  }

  predicate WellFormed(v: Value)
  {
    v.Float? ==> NumericToken(v.literal)
  }

  function Unquote(t: string): Option<string>
  {
    if |t| >= 2 && t[0] == '"' && t[|t| - 1] == '"' then Some(t[1..|t| - 1]) else None
  }

  function Wrap(t: Option<string>, make: string -> Value): Option<Value>
  {
    match t
    case Some(s) => Some(make(s))
    case None => None
  }

  /** Reads a printed value back, knowing its column's type: the reference
      against which printing is checked to lose nothing. */
  function ReadValue(k: Kind, t: string): Option<Value>
  {
    if t == "nil" then Some(Nil)
    else
      match k
      case StringKind => Wrap(Unquote(t), s => Str(s))
      case IntegerKind => (match ParseInt(t) case Some(i) => Some(Int(i)) case None => None)
      case FloatKind => if NumericToken(t) then Some(Float(t)) else None
      case DecimalKind => Wrap(Unquote(t), s => Decimal(s))
      case DateTimeKind => Wrap(Unquote(t), s => DateTime(s))
      case TimeKind => Wrap(Unquote(t), s => Time(s))
      case DateKind => Wrap(Unquote(t), s => Date(s))
      case BinaryKind => Wrap(Unquote(t), s => Binary(s))
      case BooleanKind => if t == "true" then Some(Bool(true)) else if t == "false" then Some(Bool(false)) else None
  }

  lemma UnquoteQuote(s: string)
    ensures Unquote(Quote(s)) == Some(s)
    ensures Quote(s) != "nil"
  {
    assert Quote(s)[1..|Quote(s)| - 1] == s;
    assert Quote(s)[0] == '"';
  }

  /** Printing a value loses nothing: in a column of its type it reads back
      as the same value.  In particular `false` prints as a value of its own
      and is never dropped. */
  lemma ReadRenderedValue(v: Value, k: Kind)
    requires HasKind(v, k) && WellFormed(v)
    ensures ReadValue(k, RenderValue(v)) == Some(v)
  {
    match v
    case Str(s) => ReadQuoted(s, k, t => Str(t));
    case Int(i) => ReadInteger(i);
    case Float(t) => ReadFloat(t);
    case Decimal(d) => ReadQuoted(d, k, t => Decimal(t));
    case DateTime(t) => ReadQuoted(t, k, t => DateTime(t));
    case Time(t) => ReadQuoted(t, k, t => Time(t));
    case Date(d) => ReadQuoted(d, k, t => Date(t));
    case Binary(b) => ReadQuoted(b, k, t => Binary(t));
    case Bool(b) =>
    case Nil =>
  }

  /** A quoted value reads back through its kind's constructor. */
  lemma ReadQuoted(s: string, k: Kind, make: string -> Value)
    requires k in {StringKind, DecimalKind, DateTimeKind, TimeKind, DateKind, BinaryKind}
    requires k == StringKind ==> make == (t => Str(t))
    requires k == DecimalKind ==> make == (t => Decimal(t))
    requires k == DateTimeKind ==> make == (t => DateTime(t))
    requires k == TimeKind ==> make == (t => Time(t))
    requires k == DateKind ==> make == (t => Date(t))
    requires k == BinaryKind ==> make == (t => Binary(t))
    ensures ReadValue(k, Quote(s)) == Some(make(s))
  {
    UnquoteQuote(s);
  }

  lemma ReadInteger(i: int)
    ensures ReadValue(IntegerKind, IntToString(i)) == Some(Int(i))
  {
    ParseIntToString(i);
    var t := IntToString(i);
    assert t != "nil" by { assert t[|t| - 1] != 'l'; }
  }

  lemma ReadFloat(t: string)
    requires NumericToken(t)
    ensures ReadValue(FloatKind, t) == Some(Float(t))
  {
    assert t[0] in "0123456789.-+eE";
  }

  // ---------------------------------------------------------------------
  // Attribute selection

  function Names(rec: Record): set<string>
  {
    set a | a in rec :: a.0
  }

  /** The attributes whose names are not excluded, in the record's order. */
  function Project(rec: Record, exclude: set<string>): Record
    decreases |rec|
  {
    if |rec| == 0 then []
    else (if rec[0].0 in exclude then [] else [rec[0]]) + Project(rec[1..], exclude)
  }

  /** Exclusion keeps exactly the attributes whose name is not excluded. */
  lemma {:induction false} ProjectMembers(rec: Record, exclude: set<string>, a: Attribute)
    ensures a in Project(rec, exclude) <==> a in rec && a.0 !in exclude
    decreases |rec|
  {
    if |rec| > 0 {
      ProjectMembers(rec[1..], exclude, a);
      assert rec == [rec[0]] + rec[1..];
    }
  }

  /** Exclusion works attribute by attribute, so it keeps the order. */
  lemma {:induction false} ProjectAppend(a: Record, b: Record, exclude: set<string>)
    ensures Project(a + b, exclude) == Project(a, exclude) + Project(b, exclude)
    decreases |a|
  {
    if |a| == 0 {
      assert a + b == b;
    } else {
      assert (a + b)[1..] == a[1..] + b;
      ProjectAppend(a[1..], b, exclude);
    }
  }

  /** A record none of whose names is excluded is kept whole. */
  lemma {:induction false} ProjectKeepsAll(rec: Record, exclude: set<string>)
    requires forall k :: 0 <= k < |rec| ==> rec[k].0 !in exclude
    ensures Project(rec, exclude) == rec
    decreases |rec|
  {
    if |rec| > 0 {
      ProjectKeepsAll(rec[1..], exclude);
    }
  }

  /** A record all of whose names are excluded vanishes. */
  lemma {:induction false} ProjectDropsAll(rec: Record, exclude: set<string>)
    requires forall k :: 0 <= k < |rec| ==> rec[k].0 in exclude
    ensures Project(rec, exclude) == []
    decreases |rec|
  {
    if |rec| > 0 {
      ProjectDropsAll(rec[1..], exclude);
    }
  }

  /** Names that are not attributes of the record are ignored. */
  lemma {:induction false} ProjectIgnoresUnknownNames(rec: Record, exclude: set<string>)
    ensures Project(rec, exclude) == Project(rec, exclude * Names(rec))
    decreases |rec|
  {
    if |rec| > 0 {
      var rest := rec[1..];
      assert Names(rec) == {rec[0].0} + Names(rest) by {
        assert rec == [rec[0]] + rest;
      }
      ProjectIgnoresUnknownNames(rest, exclude);
      ProjectIgnoresUnknownNames(rest, exclude * Names(rec));
      assert exclude * Names(rec) * Names(rest) == exclude * Names(rest);
    }
  }

  /** Excluding in two steps is excluding the union once. */
  lemma {:induction false} ProjectTwice(rec: Record, first: set<string>, second: set<string>)
    ensures Project(Project(rec, first), second) == Project(rec, first + second)
    decreases |rec|
  {
    if |rec| > 0 {
      var head := if rec[0].0 in first then [] else [rec[0]];
      ProjectAppend(head, Project(rec[1..], first), second);
      ProjectTwice(rec[1..], first, second);
      if head != [] {
        assert head[1..] == [];
      }
    }
  }

  // ---------------------------------------------------------------------
  // Printing a record

  /** `name: value`. */
  function RenderAttribute(a: Attribute): string
  {
    a.0 + ": " + RenderValue(a.1)
  }

  function RenderAttributes(rec: Record): seq<string>
  {
    seq(|rec|, k requires 0 <= k < |rec| => RenderAttribute(rec[k]))
  }

  /** `{name: value, name: value}` over the attributes not excluded. */
  function RenderRecord(rec: Record, exclude: set<string>): string
  {
    "{" + Join(RenderAttributes(Project(rec, exclude)), ", ") + "}"
  }

  /** Every attribute that is not excluded is printed, whatever its value:
      a `false` or `nil` never makes an attribute disappear. */
  lemma KeptAttributeIsPrinted(rec: Record, exclude: set<string>, k: int)
    requires 0 <= k < |rec| && rec[k].0 !in exclude
    ensures RenderAttribute(rec[k]) in RenderAttributes(Project(rec, exclude))
  {
    ProjectMembers(rec, exclude, rec[k]);
    var p := Project(rec, exclude);
    var j :| 0 <= j < |p| && p[j] == rec[k];
    assert RenderAttributes(p)[j] == RenderAttribute(rec[k]);
  }

  /** An excluded attribute is never printed, even when the record has the
      same name twice. */
  lemma ExcludedAttributeIsNotPrinted(rec: Record, exclude: set<string>, a: Attribute)
    requires a.0 in exclude
    ensures a !in Project(rec, exclude)
  {
    ProjectMembers(rec, exclude, a);
  }

  lemma RenderAttributesAppend(a: Record, b: Record)
    ensures RenderAttributes(a + b) == RenderAttributes(a) + RenderAttributes(b)
  {
  }
}
