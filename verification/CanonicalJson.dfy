/** The canonical printer behind request fingerprints. */
module CanonicalJson {
  // Object keys are sorted by code unit, everything else prints as JSON.stringify does. Numbers carry the text of a
  // finite number; values that have no JSON text print as null.

  import opened JsonText

  datatype Value =
    | Undefined
    | NotFinite
    | Null
    | Bool(b: bool)
    | Number(lexeme: Text)
    | String(units: Text)
    | List(items: seq<Value>)
    | Record(fields: seq<Field>)

  datatype Field = Field(name: Text, value: Value)

  const NULL: Text := [110, 117, 108, 108]
  const TRUE: Text := [116, 114, 117, 101]
  const FALSE: Text := [102, 97, 108, 115, 101]
  const OPEN_LIST: Unit := 91
  const CLOSE_LIST: Unit := 93
  const OPEN_RECORD: Unit := 123
  const CLOSE_RECORD: Unit := 125

  // ---------------------------------------------------------------- values

  /** Digits, sign, point and exponent letter: what the text of a finite number is made of. */
  predicate NumberUnit(u: Unit) {
    48 <= u <= 57 || u == 45 || u == 43 || u == 46 || u == 101
  }

  predicate NumberText(lexeme: Text) {
    lexeme != [] && (48 <= lexeme[0] <= 57 || lexeme[0] == 45) && forall u :: u in lexeme ==> NumberUnit(u)
  }

  predicate DistinctNames(fields: seq<Field>) {
    forall i, j :: 0 <= i < j < |fields| ==> fields[i].name != fields[j].name
  }

  /** An object has each key once, and numbers are written as numbers. */
  predicate Valid(v: Value) {
    match v
    case Number(lexeme) => NumberText(lexeme)
    case List(items) => forall i :: 0 <= i < |items| ==> Valid(items[i])
    case Record(fields) => DistinctNames(fields) && forall i :: 0 <= i < |fields| ==> Valid(fields[i].value)
    case _ => true
  }

  /** What a value without JSON text is taken for. */
  function Plain(v: Value): Value {
    if v.Undefined? || v.NotFinite? then Null else v
  }

  /**
   * Equal up to the order of object keys. A value without JSON text counts as null, because it prints as null.
   */
  ghost predicate Same(v: Value, w: Value) {
    match (Plain(v), Plain(w))
    case (List(xs), List(ys)) =>
      |xs| == |ys| && forall i :: 0 <= i < |xs| ==> Same(v.items[i], w.items[i])
    case (Record(fs), Record(gs)) =>
      |fs| == |gs|
      && forall i :: 0 <= i < |fs| ==>
           exists j :: 0 <= j < |gs| && v.fields[i].name == w.fields[j].name && Same(v.fields[i].value, w.fields[j].value)
    case (p, q) => p == q
  }

  // ---------------------------------------------------------------- sorting keys

  /** Code-unit order of strings, as the default sort has it. */
  predicate Before(a: Text, b: Text) {
    b != [] && (a == [] || a[0] < b[0] || (a[0] == b[0] && Before(a[1..], b[1..])))
  }

  lemma {:induction false} BeforeIsTotal(a: Text, b: Text)
    ensures Before(a, b) || a == b || Before(b, a)
    ensures !(Before(a, b) && Before(b, a)) && !Before(a, a)
  {
    if a != [] && b != [] {
      BeforeIsTotal(a[1..], b[1..]);
      if a[0] == b[0] && a[1..] == b[1..] {
        assert a == [a[0]] + a[1..] && b == [b[0]] + b[1..];
      }
    }
    if a != [] {
      BeforeIsTotal(a[1..], a[1..]);
    }
  }

  lemma {:induction false} BeforeIsTransitive(a: Text, b: Text, c: Text)
    requires Before(a, b) && Before(b, c)
    ensures Before(a, c)
  {
    if a != [] && a[0] == b[0] == c[0] {
      BeforeIsTransitive(a[1..], b[1..], c[1..]);
    }
  }

  function Size(v: Value): nat {
    match v
    case List(items) => 1 + ItemsSize(items)
    case Record(fields) => 1 + FieldsSize(fields)
    case _ => 1
  }

  function ItemsSize(items: seq<Value>): nat {
    if items == [] then 0 else 1 + Size(items[0]) + ItemsSize(items[1..])
  }

  function FieldsSize(fields: seq<Field>): nat {
    if fields == [] then 0 else 1 + Size(fields[0].value) + FieldsSize(fields[1..])
  }

  function Insert(f: Field, fields: seq<Field>): (r: seq<Field>)
    ensures |r| == |fields| + 1 && FieldsSize(r) == 1 + Size(f.value) + FieldsSize(fields)
  {
    if fields == [] || Before(f.name, fields[0].name) then [f] + fields
    else [fields[0]] + Insert(f, fields[1..])
  }

  function Sort(fields: seq<Field>): (r: seq<Field>)
    ensures |r| == |fields| && FieldsSize(r) == FieldsSize(fields)
  {
    if fields == [] then [] else Insert(fields[0], Sort(fields[1..]))
  }

  // ---------------------------------------------------------------- printing

  function Stringify(v: Value): Text
    decreases Size(v), 0
  {
    match v
    case Undefined => NULL
    case NotFinite => NULL
    case Null => NULL
    case Bool(b) => if b then TRUE else FALSE
    case Number(lexeme) => lexeme
    case String(units) => Quote(units)
    case List(items) => [OPEN_LIST] + ListText(items, true)
    case Record(fields) => [OPEN_RECORD] + RecordText(Sort(fields), true)
  }

  /** The rest of a list, with its closing bracket. */
  function ListText(items: seq<Value>, first: bool): Text
    decreases ItemsSize(items), 1
  {
    if items == [] then [CLOSE_LIST]
    else Separator(first) + (Stringify(items[0]) + ListText(items[1..], false))
  }

  function FieldText(f: Field): Text
    decreases Size(f.value), 1
  {
    Quote(f.name) + ([COLON] + Stringify(f.value))
  }

  function RecordText(fields: seq<Field>, first: bool): Text
    decreases FieldsSize(fields), 2
  {
    if fields == [] then [CLOSE_RECORD]
    else Separator(first) + (FieldText(fields[0]) + RecordText(fields[1..], false))
  }

  function Separator(first: bool): Text {
    if first then [] else [COMMA]
  }
}
