/**
 Deep equality of JSON values. An array is read as an object keyed by its indices, so both are
 objects here: a list of fields in insertion order, each key at most once.
 */
module DeepEqual {

  datatype Primitive = Null | Bool(b: bool) | Number(n: int) | Text(s: string)
  datatype Field = Field(key: string, value: Json)
  datatype Json = Plain(p: Primitive) | Object(fields: seq<Field>)

  /** What a value means: an unordered tree. */
  datatype Tree = Leaf(p: Primitive) | Node(children: map<string, Tree>)

  predicate HasKey(fields: seq<Field>, key: string) {
    exists i :: 0 <= i < |fields| && fields[i].key == key
  }

  /** Keys are distinct at every level. */
  predicate WellFormed(a: Json)
    decreases a, 0
  {
    a.Object? ==> FieldsWellFormed(a.fields)
  }

  predicate FieldsWellFormed(fields: seq<Field>)
    decreases fields, 1
  {
    fields != [] ==>
      !HasKey(fields[1..], fields[0].key) && WellFormed(fields[0].value) && FieldsWellFormed(fields[1..])
  }

  function Meaning(a: Json): Tree
    decreases a, 0
  {
    match a
    case Plain(p) => Leaf(p)
    case Object(fields) => Node(Children(fields))
  }

  function Children(fields: seq<Field>): map<string, Tree>
    decreases fields, 1
  {
    if fields == [] then map[] else Children(fields[1..])[fields[0].key := Meaning(fields[0].value)]
  }

  /** The value of a key. */
  function Get(fields: seq<Field>, key: string): (r: Json)
    requires HasKey(fields, key)
    ensures exists i :: 0 <= i < |fields| && fields[i].key == key && r == fields[i].value
  {
    if fields[0].key == key then fields[0].value
    else
      assert HasKey(fields[1..], key) by {
        var i :| 0 <= i < |fields| && fields[i].key == key;
        assert fields[1..][i - 1].key == key;
      }
      var r := Get(fields[1..], key);
      assert exists i :: 0 <= i < |fields| && fields[i].key == key && r == fields[i].value by {
        var i :| 0 <= i < |fields[1..]| && fields[1..][i].key == key && r == fields[1..][i].value;
        assert fields[i + 1].key == key && r == fields[i + 1].value;
      }
      r
  }

  /** Compare as the program does: equal key counts, then each key of a in turn, stopping at the first difference. */
  predicate Equal(a: Json, b: Json)
    decreases a, 0
  {
    if a.Plain? && b.Plain? then a.p == b.p
    else if a.Plain? || b.Plain? then false
    else |a.fields| == |b.fields| && EachIn(a.fields, b.fields)
  }

  predicate EachIn(fields: seq<Field>, others: seq<Field>)
    decreases fields, 1
  {
    fields != [] ==>
      && HasKey(others, fields[0].key)
      && Equal(fields[0].value, Get(others, fields[0].key))
      && EachIn(fields[1..], others)
  }

  lemma {:induction false} ChildKeys(fields: seq<Field>, key: string)
    ensures key in Children(fields) <==> HasKey(fields, key)
  {
    if fields != [] {
      ChildKeys(fields[1..], key);
      if HasKey(fields, key) && key != fields[0].key {
        var i :| 0 <= i < |fields| && fields[i].key == key;
        assert fields[1..][i - 1].key == key;
      }
      if HasKey(fields[1..], key) {
        var i :| 0 <= i < |fields[1..]| && fields[1..][i].key == key;
        assert fields[i + 1].key == key;
      }
    }
  }

  lemma {:induction false} ChildCount(fields: seq<Field>)
    requires FieldsWellFormed(fields)
    ensures |Children(fields).Keys| == |fields|
  {
    if fields != [] {
      ChildCount(fields[1..]);
      ChildKeys(fields[1..], fields[0].key);
      assert Children(fields).Keys == Children(fields[1..]).Keys + {fields[0].key};
    }
  }

  lemma {:induction false} ChildValue(fields: seq<Field>, key: string)
    requires FieldsWellFormed(fields) && HasKey(fields, key)
    ensures key in Children(fields) && Children(fields)[key] == Meaning(Get(fields, key)) && WellFormed(Get(fields, key))
  {
    if fields[0].key != key {
      var i :| 0 <= i < |fields| && fields[i].key == key;
      assert fields[1..][i - 1].key == key;
      ChildValue(fields[1..], key);
    }
  }

  lemma SameSizeSubset(a: set<string>, b: set<string>)
    requires a <= b && |a| == |b|
    ensures a == b
  {
    assert b == a + (b - a);
    assert |b - a| == 0;
  }

  /** Finding every child of one object, unchanged, among the children of another. */
  lemma {:induction false} EachInMeans(fields: seq<Field>, others: seq<Field>)
    requires FieldsWellFormed(fields) && FieldsWellFormed(others)
    ensures EachIn(fields, others) <==>
      forall k :: k in Children(fields) ==> k in Children(others) && Children(fields)[k] == Children(others)[k]
    decreases fields, 1
  {
    if fields != [] {
      var key := fields[0].key;
      ChildKeys(others, key);
      ChildKeys(fields[1..], key);
      assert Children(fields)[key] == Meaning(fields[0].value);
      if HasKey(others, key) {
        ChildValue(others, key);
        EqualMeans(fields[0].value, Get(others, key));
      }
      EachInMeans(fields[1..], others);
    }
  }

  /** The comparison finds two well-formed values equal exactly when they mean the same tree. */
  lemma {:induction false} EqualMeans(a: Json, b: Json)
    requires WellFormed(a) && WellFormed(b)
    ensures Equal(a, b) <==> Meaning(a) == Meaning(b)
    decreases a, 0
  {
    if a.Object? && b.Object? {
      EachInMeans(a.fields, b.fields);
      ChildCount(a.fields);
      ChildCount(b.fields);
      var x, y := Children(a.fields), Children(b.fields);
      if Equal(a, b) {
        SameSizeSubset(x.Keys, y.Keys);
        assert x == y;
      }
    }
  }

  /** Hence the comparison is an equivalence relation, and the order of fields does not matter to it. */
  lemma EqualIsEquivalence(a: Json, b: Json, c: Json)
    requires WellFormed(a) && WellFormed(b) && WellFormed(c)
    ensures Equal(a, a)
    ensures Equal(a, b) ==> Equal(b, a)
    ensures Equal(a, b) && Equal(b, c) ==> Equal(a, c)
  {
    EqualMeans(a, a);
    EqualMeans(a, b);
    EqualMeans(b, a);
    EqualMeans(b, c);
    EqualMeans(a, c);
  }
}
