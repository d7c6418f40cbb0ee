/** Canonical text and equality up to key order are the same thing. */
module CanonicalTheorem {
  import opened JsonText
  import opened CanonicalJson
  import opened CanonicalOrder

  // ---------------------------------------------------------------- kinds of text

  /** What may follow a printed value inside a larger text. */
  predicate Closed(rest: Text) {
    rest == [] || rest[0] == COMMA || rest[0] == CLOSE_LIST || rest[0] == CLOSE_RECORD
  }

  datatype Kind = NullKind | TrueKind | FalseKind | NumberKind | StringKind | ListKind | RecordKind | NoKind

  function KindOf(v: Value): Kind {
    match v
    case Undefined => NullKind
    case NotFinite => NullKind
    case Null => NullKind
    case Bool(b) => if b then TrueKind else FalseKind
    case Number(_) => NumberKind
    case String(_) => StringKind
    case List(_) => ListKind
    case Record(_) => RecordKind
  }

  function KindOfText(u: Unit): Kind {
    if u == 110 then NullKind
    else if u == 116 then TrueKind
    else if u == 102 then FalseKind
    else if 48 <= u <= 57 || u == 45 then NumberKind
    else if u == QUOTE then StringKind
    else if u == OPEN_LIST then ListKind
    else if u == OPEN_RECORD then RecordKind
    else NoKind
  }

  /** The first unit tells what kind of value was printed. */
  lemma TextShowsKind(v: Value)
    requires Valid(v)
    ensures Stringify(v) != [] && KindOfText(Stringify(v)[0]) == KindOf(v)
  {
    hide Sort, ListText, RecordText, Escape;
  }

  /** How many number units the text begins with. */
  function NumberSpan(text: Text): nat {
    if text == [] || !NumberUnit(text[0]) then 0 else 1 + NumberSpan(text[1..])
  }

  lemma {:induction false} NumberEnds(a: Text, r: Text)
    requires (forall u :: u in a ==> NumberUnit(u)) && Closed(r)
    ensures NumberSpan(a + r) == |a|
    decreases |a|
  {
    if a == [] {
      assert a + r == r;
    } else {
      assert a[0] in a && (a + r)[1..] == a[1..] + r;
      NumberEnds(a[1..], r);
    }
  }

  lemma NumberReadsBack(a: Text, b: Text, r: Text, s: Text)
    requires NumberText(a) && NumberText(b) && Closed(r) && Closed(s) && a + r == b + s
    ensures a == b && r == s
  {
    NumberEnds(a, r);
    NumberEnds(b, s);
    PrefixesEqual(a, r, b, s);
  }

  // ---------------------------------------------------------------- equal text, equal value

  ghost predicate ItemsValid(items: seq<Value>) {
    forall i :: 0 <= i < |items| ==> Valid(items[i])
  }

  ghost predicate ItemsSame(xs: seq<Value>, ys: seq<Value>) {
    |xs| == |ys| && forall i :: 0 <= i < |xs| ==> Same(xs[i], ys[i])
  }

  ghost predicate FieldsValid(fields: seq<Field>) {
    forall i :: 0 <= i < |fields| ==> Valid(fields[i].value)
  }

  /** The same keys in the same places, with the same values. */
  ghost predicate FieldsSame(fs: seq<Field>, gs: seq<Field>) {
    |fs| == |gs| && forall i :: 0 <= i < |fs| ==> fs[i].name == gs[i].name && Same(fs[i].value, gs[i].value)
  }

  lemma SortValid(fields: seq<Field>)
    requires FieldsValid(fields)
    ensures FieldsValid(Sort(fields))
  {
    forall i | 0 <= i < |Sort(fields)|
      ensures Valid(Sort(fields)[i].value)
    {
      SortMembers(fields, Sort(fields)[i]);
    }
  }

  /** Sorted lists that agree place by place come from objects that agree key by key. */
  lemma SortedSameIsSame(fs: seq<Field>, gs: seq<Field>)
    requires FieldsSame(Sort(fs), Sort(gs))
    ensures Same(Record(fs), Record(gs))
  {
    forall i | 0 <= i < |fs|
      ensures exists j :: 0 <= j < |gs| && fs[i].name == gs[j].name && Same(fs[i].value, gs[j].value)
    {
      SortMembers(fs, fs[i]);
      var k :| 0 <= k < |Sort(fs)| && Sort(fs)[k] == fs[i];
      SortMembers(gs, Sort(gs)[k]);
      var j :| 0 <= j < |gs| && gs[j] == Sort(gs)[k];
    }
    assert Record(fs).fields == fs && Record(gs).fields == gs;
  }

  lemma SeparatorLength(first: bool, x: Text, y: Text, r: Text, s: Text)
    requires Separator(first) + x + r == Separator(first) + y + s
    ensures x + r == y + s
  {
    assert Separator(first) + x + r == Separator(first) + (x + r);
    assert Separator(first) + y + s == Separator(first) + (y + s);
    PrefixesEqual(Separator(first), x + r, Separator(first), y + s);
  }

  /** Reading a printed value gives back the value, up to key order, and what follows. */
  lemma {:induction false} ReadsBack(v: Value, w: Value, r: Text, s: Text)
    requires Valid(v) && Valid(w) && Closed(r) && Closed(s) && Stringify(v) + r == Stringify(w) + s
    ensures Same(v, w) && r == s
    decreases Size(v), 0
  {
    TextShowsKind(v);
    TextShowsKind(w);
    assert (Stringify(v) + r)[0] == Stringify(v)[0] && (Stringify(w) + s)[0] == Stringify(w)[0];
    assert KindOf(v) == KindOf(w);
    match v {
      case Number(_) => NumberReadsBack(v.lexeme, w.lexeme, r, s);
      case String(_) => QuoteReadsBack(v.units, w.units, r, s);
      case List(_) => ListReadsBack(v.items, w.items, r, s);
      case Record(_) => RecordReadsBack(v.fields, w.fields, r, s);
      case _ => PrefixesEqual(Stringify(v), r, Stringify(w), s);
    }
  }

  lemma {:induction false} ListReadsBack(xs: seq<Value>, ys: seq<Value>, r: Text, s: Text)
    requires ItemsValid(xs) && ItemsValid(ys) && Closed(r) && Closed(s)
    requires [OPEN_LIST] + ListText(xs, true) + r == [OPEN_LIST] + ListText(ys, true) + s
    ensures Same(List(xs), List(ys)) && r == s
    decreases ItemsSize(xs), 2
  {
    hide ListText;
    var x, y := ListText(xs, true), ListText(ys, true);
    assert [OPEN_LIST] + x + r == [OPEN_LIST] + (x + r) && [OPEN_LIST] + y + s == [OPEN_LIST] + (y + s);
    PrefixesEqual([OPEN_LIST], x + r, [OPEN_LIST], y + s);
    ItemsReadBack(xs, ys, true, r, s);
    assert List(xs).items == xs && List(ys).items == ys;
  }

  lemma ListTextStarts(items: seq<Value>, first: bool)
    requires ItemsValid(items)
    ensures ListText(items, first) != []
    ensures items == [] <==> ListText(items, first)[0] == CLOSE_LIST
    ensures !first ==> Closed(ListText(items, first))
  {
    hide Stringify;
    if items != [] {
      TextShowsKind(items[0]);
    }
  }

  lemma {:induction false} ItemsReadBack(xs: seq<Value>, ys: seq<Value>, first: bool, r: Text, s: Text)
    requires ItemsValid(xs) && ItemsValid(ys) && Closed(r) && Closed(s)
    requires ListText(xs, first) + r == ListText(ys, first) + s
    ensures ItemsSame(xs, ys) && r == s
    decreases ItemsSize(xs), 1
  {
    hide Stringify, Separator;
    ListTextStarts(xs, first);
    ListTextStarts(ys, first);
    assert (ListText(xs, first) + r)[0] == ListText(xs, first)[0] && (ListText(ys, first) + s)[0] == ListText(ys, first)[0];
    if xs == [] {
      PrefixesEqual([CLOSE_LIST], r, [CLOSE_LIST], s);
    } else {
      var x, y := ListText(xs[1..], false), ListText(ys[1..], false);
      SeparatorLength(first, Stringify(xs[0]) + x, Stringify(ys[0]) + y, r, s);
      assert Stringify(xs[0]) + x + r == Stringify(xs[0]) + (x + r);
      assert Stringify(ys[0]) + y + s == Stringify(ys[0]) + (y + s);
      ListTextStarts(xs[1..], false);
      ListTextStarts(ys[1..], false);
      ReadsBack(xs[0], ys[0], x + r, y + s);
      ItemsReadBack(xs[1..], ys[1..], false, r, s);
    }
  }

  lemma {:induction false} RecordReadsBack(fs: seq<Field>, gs: seq<Field>, r: Text, s: Text)
    requires FieldsValid(fs) && FieldsValid(gs) && Closed(r) && Closed(s)
    requires [OPEN_RECORD] + RecordText(Sort(fs), true) + r == [OPEN_RECORD] + RecordText(Sort(gs), true) + s
    ensures Same(Record(fs), Record(gs)) && r == s
    decreases FieldsSize(fs), 2
  {
    hide RecordText, Sort;
    var x, y := RecordText(Sort(fs), true), RecordText(Sort(gs), true);
    assert [OPEN_RECORD] + x + r == [OPEN_RECORD] + (x + r) && [OPEN_RECORD] + y + s == [OPEN_RECORD] + (y + s);
    PrefixesEqual([OPEN_RECORD], x + r, [OPEN_RECORD], y + s);
    SortValid(fs);
    SortValid(gs);
    FieldsReadBack(Sort(fs), Sort(gs), true, r, s);
    SortedSameIsSame(fs, gs);
  }

  lemma RecordTextStarts(fields: seq<Field>, first: bool)
    ensures RecordText(fields, first) != []
    ensures fields == [] <==> RecordText(fields, first)[0] == CLOSE_RECORD
    ensures !first ==> Closed(RecordText(fields, first))
  {
    hide Stringify, Escape;
  }

  lemma {:induction false} FieldReadsBack(f: Field, g: Field, r: Text, s: Text)
    requires Valid(f.value) && Valid(g.value) && Closed(r) && Closed(s) && FieldText(f) + r == FieldText(g) + s
    ensures f.name == g.name && Same(f.value, g.value) && r == s
    decreases Size(f.value), 1
  {
    hide Quote, Stringify;
    var x, y := Stringify(f.value), Stringify(g.value);
    assert FieldText(f) + r == Quote(f.name) + ([COLON] + (x + r));
    assert FieldText(g) + s == Quote(g.name) + ([COLON] + (y + s));
    QuoteReadsBack(f.name, g.name, [COLON] + (x + r), [COLON] + (y + s));
    PrefixesEqual([COLON], x + r, [COLON], y + s);
    ReadsBack(f.value, g.value, r, s);
  }

  lemma {:induction false} FieldsReadBack(fs: seq<Field>, gs: seq<Field>, first: bool, r: Text, s: Text)
    requires FieldsValid(fs) && FieldsValid(gs) && Closed(r) && Closed(s)
    requires RecordText(fs, first) + r == RecordText(gs, first) + s
    ensures FieldsSame(fs, gs) && r == s
    decreases FieldsSize(fs), 1
  {
    hide FieldText, Separator;
    RecordTextStarts(fs, first);
    RecordTextStarts(gs, first);
    assert (RecordText(fs, first) + r)[0] == RecordText(fs, first)[0];
    assert (RecordText(gs, first) + s)[0] == RecordText(gs, first)[0];
    if fs == [] {
      PrefixesEqual([CLOSE_RECORD], r, [CLOSE_RECORD], s);
    } else {
      var x, y := RecordText(fs[1..], false), RecordText(gs[1..], false);
      SeparatorLength(first, FieldText(fs[0]) + x, FieldText(gs[0]) + y, r, s);
      assert FieldText(fs[0]) + x + r == FieldText(fs[0]) + (x + r);
      assert FieldText(gs[0]) + y + s == FieldText(gs[0]) + (y + s);
      RecordTextStarts(fs[1..], false);
      RecordTextStarts(gs[1..], false);
      FieldReadsBack(fs[0], gs[0], x + r, y + s);
      FieldsReadBack(fs[1..], gs[1..], false, r, s);
    }
  }

  // ---------------------------------------------------------------- equal value, equal text

  lemma {:induction false} ItemSize(items: seq<Value>, i: nat)
    requires i < |items|
    ensures Size(items[i]) < ItemsSize(items)
  {
    if i > 0 {
      ItemSize(items[1..], i - 1);
    }
  }

  lemma {:induction false} FieldSize(fields: seq<Field>, i: nat)
    requires i < |fields|
    ensures Size(fields[i].value) < FieldsSize(fields)
  {
    if i > 0 {
      FieldSize(fields[1..], i - 1);
    }
  }

  lemma {:induction false} SameItemsPrintAlike(xs: seq<Value>, ys: seq<Value>, first: bool)
    requires |xs| == |ys| && forall i :: 0 <= i < |xs| ==> Stringify(xs[i]) == Stringify(ys[i])
    ensures ListText(xs, first) == ListText(ys, first)
    decreases |xs|
  {
    hide Stringify;
    if xs != [] {
      SameItemsPrintAlike(xs[1..], ys[1..], false);
    }
  }

  lemma {:induction false} SameFieldsPrintAlike(fs: seq<Field>, gs: seq<Field>, first: bool)
    requires |fs| == |gs|
    requires forall i :: 0 <= i < |fs| ==> fs[i].name == gs[i].name && Stringify(fs[i].value) == Stringify(gs[i].value)
    ensures RecordText(fs, first) == RecordText(gs, first)
    decreases |fs|
  {
    hide Stringify, Quote;
    if fs != [] {
      SameFieldsPrintAlike(fs[1..], gs[1..], false);
    }
  }

  /** The field of `gs` under the key of `fs[i]`. */
  ghost predicate Partner(fs: seq<Field>, gs: seq<Field>, i: nat, j: nat) {
    i < |fs| && j < |gs| && fs[i].name == gs[j].name && Same(fs[i].value, gs[j].value)
  }

  lemma RecordPartner(v: Value, w: Value, i: nat) returns (j: nat)
    requires v.Record? && w.Record? && Same(v, w) && i < |v.fields|
    ensures Partner(v.fields, w.fields, i, j)
  {
    var f := v.fields[i];
    j :| 0 <= j < |w.fields| && v.fields[i].name == w.fields[j].name && Same(v.fields[i].value, w.fields[j].value);
  }

  lemma Partnered(fs: seq<Field>, gs: seq<Field>, i: nat) returns (j: nat)
    requires Same(Record(fs), Record(gs)) && i < |fs|
    ensures Partner(fs, gs, i, j)
  {
    j := RecordPartner(Record(fs), Record(gs), i);
  }

  lemma SameNames(fs: seq<Field>, gs: seq<Field>)
    requires DistinctNames(fs) && DistinctNames(gs) && Same(Record(fs), Record(gs))
    ensures Names(Sort(fs)) == Names(Sort(gs))
  {
    assert |fs| == |gs|;
    forall name | name in Names(fs)
      ensures name in Names(gs)
    {
      var f :| f in fs && f.name == name;
      var i :| 0 <= i < |fs| && fs[i] == f;
      var j := Partnered(fs, gs, i);
      assert gs[j] in gs;
    }
    NamesCount(fs);
    NamesCount(gs);
    SubsetOfSameSize(Names(fs), Names(gs));
    NamesOfSort(fs);
    NamesOfSort(gs);
  }

  /** Place by place, the sorted fields of objects that agree key by key agree. */
  lemma SameSorted(fs: seq<Field>, gs: seq<Field>)
    requires DistinctNames(fs) && DistinctNames(gs) && Same(Record(fs), Record(gs))
    ensures FieldsSame(Sort(fs), Sort(gs))
  {
    SameNames(fs, gs);
    SortIncreases(fs);
    SortIncreases(gs);
    IncreasingUnique(Sort(fs), Sort(gs));
    forall k | 0 <= k < |Sort(fs)|
      ensures Same(Sort(fs)[k].value, Sort(gs)[k].value)
    {
      SortMembers(fs, Sort(fs)[k]);
      SortMembers(gs, Sort(gs)[k]);
      var i :| 0 <= i < |fs| && fs[i] == Sort(fs)[k];
      var l :| 0 <= l < |gs| && gs[l] == Sort(gs)[k];
      var j := Partnered(fs, gs, i);
      assert j == l;
    }
  }

  lemma {:induction false} SamePrintsAlike(v: Value, w: Value)
    requires Valid(v) && Valid(w) && Same(v, w)
    ensures Stringify(v) == Stringify(w)
    decreases Size(v)
  {
    if v.List? {
      forall i | 0 <= i < |v.items|
        ensures Stringify(v.items[i]) == Stringify(w.items[i])
      {
        ItemSize(v.items, i);
        SamePrintsAlike(v.items[i], w.items[i]);
      }
      SameItemsPrintAlike(v.items, w.items, true);
    } else if v.Record? {
      var fs, gs := Sort(v.fields), Sort(w.fields);
      SameSorted(v.fields, w.fields);
      SortValid(v.fields);
      SortValid(w.fields);
      forall k | 0 <= k < |fs|
        ensures fs[k].name == gs[k].name && Stringify(fs[k].value) == Stringify(gs[k].value)
      {
        FieldSize(fs, k);
        SamePrintsAlike(fs[k].value, gs[k].value);
      }
      SameFieldsPrintAlike(fs, gs, true);
    }
  }

  /** Canonical text is equal exactly when the values are equal up to key order. */
  lemma CanonicalTextIsEquality(v: Value, w: Value)
    requires Valid(v) && Valid(w)
    ensures Stringify(v) == Stringify(w) <==> Same(v, w)
  {
    if Stringify(v) == Stringify(w) {
      assert Stringify(v) + [] == Stringify(w) + [];
      ReadsBack(v, w, [], []);
    }
    if Same(v, w) {
      SamePrintsAlike(v, w);
    }
  }

  /** Outside JSON the printer is not injective: a key set to undefined prints like a key set to null. */
  lemma UndefinedPrintsLikeNull(key: Text)
    ensures var v, w := Record([Field(key, Undefined)]), Record([Field(key, Null)]);
      Valid(v) && Valid(w) && v != w && Stringify(v) == Stringify(w)
  {
    var v, w := Record([Field(key, Undefined)]), Record([Field(key, Null)]);
    assert v.fields[0].value != w.fields[0].value;
    assert Same(v.fields[0].value, w.fields[0].value) && v.fields[0].name == w.fields[0].name;
    CanonicalTextIsEquality(v, w);
  }
}
