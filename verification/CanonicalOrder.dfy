/** Sorting an object's fields by key. */
module CanonicalOrder {
  import opened JsonText
  import opened CanonicalJson

  predicate Increasing(fields: seq<Field>) {
    forall i, j :: 0 <= i < j < |fields| ==> Before(fields[i].name, fields[j].name)
  }

  lemma {:induction false} InsertKeeps(f: Field, fields: seq<Field>)
    ensures multiset(Insert(f, fields)) == multiset{f} + multiset(fields)
  {
    if fields != [] && !Before(f.name, fields[0].name) {
      InsertKeeps(f, fields[1..]);
      assert fields == [fields[0]] + fields[1..];
    }
  }

  lemma {:induction false} SortKeeps(fields: seq<Field>)
    ensures multiset(Sort(fields)) == multiset(fields)
  {
    if fields != [] {
      SortKeeps(fields[1..]);
      InsertKeeps(fields[0], Sort(fields[1..]));
      assert fields == [fields[0]] + fields[1..];
    }
  }

  lemma SortMembers(fields: seq<Field>, f: Field)
    ensures f in Sort(fields) <==> f in fields
  {
    SortKeeps(fields);
    assert f in multiset(Sort(fields)) <==> f in multiset(fields);
  }

  lemma InsertMember(f: Field, fields: seq<Field>, g: Field)
    ensures g in Insert(f, fields) <==> g == f || g in fields
  {
    InsertKeeps(f, fields);
    assert g in multiset(Insert(f, fields)) <==> g in multiset{f} + multiset(fields);
  }

  lemma {:induction false} InsertIncreases(f: Field, fields: seq<Field>)
    requires Increasing(fields) && forall g :: g in fields ==> g.name != f.name
    ensures Increasing(Insert(f, fields))
  {
    if fields == [] {
    } else if Before(f.name, fields[0].name) {
      forall j | 0 <= j < |fields|
        ensures Before(f.name, fields[j].name)
      {
        if j > 0 {
          BeforeIsTransitive(f.name, fields[0].name, fields[j].name);
        }
      }
    } else {
      var head, rest := fields[0], fields[1..];
      assert head in fields;
      BeforeIsTotal(f.name, head.name);
      InsertIncreases(f, rest);
      forall g | g in Insert(f, rest)
        ensures Before(head.name, g.name)
      {
        InsertMember(f, rest, g);
      }
    }
  }

  lemma {:induction false} SortIncreases(fields: seq<Field>)
    requires DistinctNames(fields)
    ensures Increasing(Sort(fields))
  {
    if fields != [] {
      var rest := fields[1..];
      SortIncreases(rest);
      forall g | g in Sort(rest)
        ensures g.name != fields[0].name
      {
        SortMembers(rest, g);
      }
      InsertIncreases(fields[0], Sort(rest));
    }
  }

  // ---------------------------------------------------------------- one order per set of keys

  ghost function Names(fields: seq<Field>): set<Text> {
    set f | f in fields :: f.name
  }

  lemma {:induction false} NamesCount(fields: seq<Field>)
    requires DistinctNames(fields)
    ensures |Names(fields)| == |fields|
  {
    if fields == [] {
    } else {
      var rest := fields[1..];
      NamesCount(rest);
      assert fields == [fields[0]] + rest;
      assert Names(fields) == {fields[0].name} + Names(rest);
      assert fields[0].name !in Names(rest);
    }
  }

  lemma NamesOfSort(fields: seq<Field>)
    ensures Names(Sort(fields)) == Names(fields)
  {
    forall f: Field
      ensures f in Sort(fields) <==> f in fields
    {
      SortMembers(fields, f);
    }
  }

  lemma SubsetOfSameSize<T>(a: set<T>, b: set<T>)
    requires a <= b && |a| == |b|
    ensures a == b
  {
    assert b == a + (b - a);
    assert |b| == |a| + |b - a|;
  }

  lemma HeadIsLeast(fields: seq<Field>, name: Text)
    requires Increasing(fields) && fields != [] && name in Names(fields)
    ensures name == fields[0].name || Before(fields[0].name, name)
  {
    var f :| f in fields && f.name == name;
    var i :| 0 <= i < |fields| && fields[i] == f;
  }

  lemma NamesOfRest(fields: seq<Field>)
    requires Increasing(fields) && fields != []
    ensures Increasing(fields[1..]) && Names(fields[1..]) == Names(fields) - {fields[0].name}
  {
    var rest := fields[1..];
    assert fields == [fields[0]] + rest;
    assert Names(fields) == {fields[0].name} + Names(rest);
    forall f | f in rest
      ensures f.name != fields[0].name
    {
      var i :| 0 <= i < |rest| && rest[i] == f;
      assert Before(fields[0].name, fields[i + 1].name);
      BeforeIsTotal(f.name, f.name);
    }
  }

  /** Two increasing lists with the same keys have them in the same places. */
  lemma {:induction false} IncreasingUnique(fs: seq<Field>, gs: seq<Field>)
    requires Increasing(fs) && Increasing(gs) && Names(fs) == Names(gs)
    ensures |fs| == |gs| && forall k :: 0 <= k < |fs| ==> fs[k].name == gs[k].name
    decreases |fs|
  {
    if fs == [] {
      assert gs != [] ==> gs[0].name in Names(gs);
    } else {
      assert fs[0].name in Names(fs);
      var g :| g in gs && g.name == fs[0].name;
      HeadIsLeast(gs, fs[0].name);
      assert gs[0].name in Names(gs);
      HeadIsLeast(fs, gs[0].name);
      BeforeIsTotal(fs[0].name, gs[0].name);
      NamesOfRest(fs);
      NamesOfRest(gs);
      IncreasingUnique(fs[1..], gs[1..]);
      forall k | 0 <= k < |fs|
        ensures fs[k].name == gs[k].name
      {
        if k > 0 {
          assert fs[k] == fs[1..][k - 1] && gs[k] == gs[1..][k - 1];
        }
      }
    }
  }
}
