/** settingsController.js: a nested payload, the flat $set made from it, and what applying that does to a document. */
module SettingsMerge {
  import opened Wrappers
  import opened DottedPaths

  /** A JavaScript value; the contents of arrays and dates play no part. */
  datatype Value = Undefined | Null | Scalar(text: string) | Array(items: seq<string>) | Date(ms: int)
                 | Object(fields: seq<Field>)

  datatype Field = Field(key: string, value: Value)

  /** A stored document; object keys carry no order that matters here. */
  datatype Doc = Leaf(value: Value) | Node(fields: map<string, Doc>)

  type Path = seq<string>

  datatype Entry = Entry(path: Path, value: Value)

  predicate IsPlainObject(v: Value) { v.Object? }

  /** Written as it is: anything but undefined and objects with keys. */
  predicate IsLeaf(v: Value) { !v.Undefined? && !(IsPlainObject(v) && v.fields != []) }

  function Stored(v: Value): Doc { if v == Object([]) then Node(map[]) else Leaf(v) }

  /** Object keys are unique. */
  predicate UniqueKeys(v: Value) {
    v.Object? ==>
      && (forall i, j :: 0 <= i < j < |v.fields| ==> v.fields[i].key != v.fields[j].key)
      && forall f :: f in v.fields ==> UniqueKeys(f.value)
  }

  predicate DotFreeKeys(v: Value) {
    v.Object? ==> forall f :: f in v.fields ==> DotFree(f.key) && DotFreeKeys(f.value)
  }

  // ---------- flattening ----------

  function Emitted(prefix: string, v: Value): seq<(string, Value)>
    decreases v, 1
  {
    if v.Undefined? then []
    else if !IsPlainObject(v) || v.fields == [] then [(prefix, v)]
    else EmittedFields(prefix + ".", v.fields)
  }

  function EmittedFields(lead: string, fields: seq<Field>): seq<(string, Value)>
    decreases fields, 0
  {
    if fields == [] then []
    else
      var last := fields[|fields| - 1];
      EmittedFields(lead, fields[..|fields| - 1]) + Emitted(lead + last.key, last.value)
  }

  function WriteAll(m: map<string, Value>, es: seq<(string, Value)>): map<string, Value> {
    if es == [] then m else WriteAll(m, es[..|es| - 1])[es[|es| - 1].0 := es[|es| - 1].1]
  }

  lemma {:induction false} WriteAllConcat(m: map<string, Value>, a: seq<(string, Value)>, b: seq<(string, Value)>)
    ensures WriteAll(m, a + b) == WriteAll(WriteAll(m, a), b)
  {
    if b == [] {
      assert a + b == a;
    } else {
      WriteAllConcat(m, a, b[..|b| - 1]);
      assert (a + b)[..|a + b| - 1] == a + b[..|b| - 1];
    }
  }

  class SetTarget {
    var entries: map<string, Value>

    constructor ()
      ensures entries == map[]
    {
      entries := map[];
    }
  }

  method FlattenForMongoSet(prefix: string, value: Value, target: SetTarget)
    modifies target
    ensures target.entries == WriteAll(old(target.entries), Emitted(prefix, value))
    decreases value
  {
    if value.Undefined? { return; }
    if !IsPlainObject(value) || value.fields == [] {
      target.entries := target.entries[prefix := value];
      assert Emitted(prefix, value)[..0] == [];
      return;
    }
    for i := 0 to |value.fields|
      invariant target.entries == WriteAll(old(target.entries), EmittedFields(prefix + ".", value.fields[..i]))
    {
      var field := value.fields[i];
      assert value.fields[..i + 1][..i] == value.fields[..i];
      WriteAllConcat(old(target.entries), EmittedFields(prefix + ".", value.fields[..i]),
                     Emitted(prefix + "." + field.key, field.value));
      FlattenForMongoSet(prefix + "." + field.key, field.value, target);
    }
    assert value.fields[..|value.fields|] == value.fields;
  }

  // ---------- the leaves of a payload, by key path ----------

  ghost function Leaves(v: Value): set<Entry>
    decreases v, 1
  {
    if v.Undefined? then {} else if IsLeaf(v) then {Entry([], v)} else FieldLeaves(v.fields)
  }

  ghost function FieldLeaves(fields: seq<Field>): set<Entry>
    decreases fields, 0
  {
    if fields == [] then {}
    else FieldLeaves(fields[..|fields| - 1]) + Below(fields[|fields| - 1].key, Leaves(fields[|fields| - 1].value))
  }

  ghost function Below(key: string, leaves: set<Entry>): set<Entry> {
    set e | e in leaves :: Entry([key] + e.path, e.value)
  }

  function Tail(e: Entry): Entry
    requires e.path != []
  {
    Entry(e.path[1..], e.value)
  }

  lemma BelowHas(key: string, leaves: set<Entry>, e: Entry)
    ensures e in Below(key, leaves) <==> e.path != [] && e.path[0] == key && Tail(e) in leaves
  {
    if e.path != [] && e.path[0] == key && Tail(e) in leaves {
      assert e == Entry([key] + Tail(e).path, Tail(e).value);
    }
    if e in Below(key, leaves) {
      var x :| x in leaves && e == Entry([key] + x.path, x.value);
      assert Tail(e) == x;
    }
  }

  lemma {:induction false} FieldLeavesHas(fields: seq<Field>, e: Entry)
    ensures e in FieldLeaves(fields) <==>
      e.path != [] && exists f :: f in fields && f.key == e.path[0] && Tail(e) in Leaves(f.value)
  {
    if fields != [] {
      var n := |fields| - 1;
      FieldLeavesHas(fields[..n], e);
      BelowHas(fields[n].key, Leaves(fields[n].value), e);
      assert fields == fields[..n] + [fields[n]];
    }
  }

  /** The value a payload has at a path of keys. */
  ghost predicate HasAt(v: Value, path: Path, x: Value)
    decreases |path|
  {
    if path == [] then v == x
    else v.Object? && exists f :: f in v.fields && f.key == path[0] && HasAt(f.value, path[1..], x)
  }

  /** The leaves are the values found at some path, but for undefined and objects with keys. */
  lemma {:induction false} LeavesAre(v: Value, path: Path, x: Value)
    ensures Entry(path, x) in Leaves(v) <==>
      HasAt(v, path, x) && x != Undefined && (x.Object? ==> x.fields == [])
    decreases v
  {
    var e := Entry(path, x);
    if v.Object? && v.fields != [] {
      FieldLeavesHas(v.fields, e);
      if path != [] {
        forall f | f in v.fields
          ensures Tail(e) in Leaves(f.value) <==>
            HasAt(f.value, path[1..], x) && x != Undefined && (x.Object? ==> x.fields == [])
        {
          LeavesAre(f.value, path[1..], x);
        }
      }
    }
  }

  predicate Emits(v: Value) {
    if v.Object? && v.fields != [] then exists f :: f in v.fields && Emits(f.value) else !v.Undefined?
  }

  lemma {:induction false} EmitsIffLeaves(v: Value)
    ensures Emits(v) <==> Leaves(v) != {}
  {
    if v.Object? && v.fields != [] {
      forall f | f in v.fields ensures Emits(f.value) <==> Leaves(f.value) != {} { EmitsIffLeaves(f.value); }
      if Emits(v) {
        var f :| f in v.fields && Emits(f.value);
        var e :| e in Leaves(f.value);
        var l := Entry([f.key] + e.path, e.value);
        assert Tail(l) == e;
        FieldLeavesHas(v.fields, l);
      } else if Leaves(v) != {} {
        var l :| l in Leaves(v);
        FieldLeavesHas(v.fields, l);
      }
    }
  }

  /** Distinct leaves have distinct paths, and no path is a prefix of another. */
  lemma {:induction false} LeavesPrefixFree(v: Value, a: Entry, b: Entry)
    requires UniqueKeys(v) && a in Leaves(v) && b in Leaves(v) && a.path <= b.path
    ensures a == b
    decreases v
  {
    if !IsLeaf(v) {
      FieldLeavesHas(v.fields, a);
      FieldLeavesHas(v.fields, b);
      var f :| f in v.fields && f.key == a.path[0] && Tail(a) in Leaves(f.value);
      var g :| g in v.fields && g.key == b.path[0] && Tail(b) in Leaves(g.value);
      assert f == g;
      LeavesPrefixFree(f.value, Tail(a), Tail(b));
      assert a.path == [f.key] + Tail(a).path && b.path == [f.key] + Tail(b).path;
    }
  }

  lemma {:induction false} LeafKeysDotFree(v: Value, e: Entry)
    requires DotFreeKeys(v) && e in Leaves(v)
    ensures forall k :: k in e.path ==> DotFree(k)
    decreases v
  {
    if !IsLeaf(v) {
      FieldLeavesHas(v.fields, e);
      var f :| f in v.fields && f.key == e.path[0] && Tail(e) in Leaves(f.value);
      LeafKeysDotFree(f.value, Tail(e));
      assert e.path == [f.key] + Tail(e).path;
    }
  }

  // ---------- what is emitted are the leaves ----------

  function Named(lead: Path, e: Entry): (string, Value) {
    (if lead + e.path == [] then "" else Join(lead + e.path), e.value)
  }

  ghost predicate IsEmission(es: seq<(string, Value)>, lead: Path, leaves: set<Entry>) {
    && (forall e :: e in es ==> exists l :: l in leaves && e == Named(lead, l))
    && (forall l :: l in leaves ==> Named(lead, l) in es)
  }

  lemma NamedBelow(lead: Path, key: string, x: Entry)
    ensures Named(lead + [key], x) == Named(lead, Entry([key] + x.path, x.value))
  {
    assert lead + [key] + x.path == lead + ([key] + x.path);
  }

  lemma EmissionBelow(es: seq<(string, Value)>, lead: Path, key: string, leaves: set<Entry>)
    requires IsEmission(es, lead + [key], leaves)
    ensures IsEmission(es, lead, Below(key, leaves))
  {
    forall e | e in es ensures exists l :: l in Below(key, leaves) && e == Named(lead, l) {
      var x :| x in leaves && e == Named(lead + [key], x);
      NamedBelow(lead, key, x);
      assert Entry([key] + x.path, x.value) in Below(key, leaves);
    }
    forall l | l in Below(key, leaves) ensures Named(lead, l) in es {
      var x :| x in leaves && l == Entry([key] + x.path, x.value);
      NamedBelow(lead, key, x);
    }
  }

  lemma EmissionsJoin(a: seq<(string, Value)>, b: seq<(string, Value)>, lead: Path, left: set<Entry>, right: set<Entry>)
    requires IsEmission(a, lead, left) && IsEmission(b, lead, right)
    ensures IsEmission(a + b, lead, left + right)
  {
  }

  /** Below a prefix the leaves are emitted, each under the prefix and its key path joined by dots. */
  lemma {:induction false} EmittedAreLeaves(lead: Path, v: Value)
    requires lead != []
    ensures IsEmission(Emitted(Join(lead), v), lead, Leaves(v))
    decreases v, 1
  {
    if IsLeaf(v) {
      assert lead + [] == lead;
    } else if v.Object? {
      EmittedFieldsAreLeaves(lead, v.fields);
    }
  }

  lemma {:induction false} EmittedFieldsAreLeaves(lead: Path, fields: seq<Field>)
    ensures IsEmission(EmittedFields(if lead == [] then "" else Join(lead) + ".", fields), lead, FieldLeaves(fields))
    decreases fields, 0
  {
    if fields != [] {
      var n := |fields| - 1;
      var dot := if lead == [] then "" else Join(lead) + ".";
      var last := fields[n];
      EmittedFieldsAreLeaves(lead, fields[..n]);
      EmittedAreLeaves(lead + [last.key], last.value);
      assert (lead + [last.key])[..|lead|] == lead;
      assert Join(lead + [last.key]) == dot + last.key;
      EmissionBelow(Emitted(dot + last.key, last.value), lead, last.key, Leaves(last.value));
      EmissionsJoin(EmittedFields(dot, fields[..n]), Emitted(dot + last.key, last.value), lead,
                    FieldLeaves(fields[..n]), Below(last.key, Leaves(last.value)));
    }
  }

  /** A key with a dot in it can collide with a nested one: two values are emitted for one path. */
  lemma DottedKeysCollide()
    ensures EmittedFields("", [Field("a.b", Scalar("x")), Field("a", Object([Field("b", Scalar("y"))]))])
         == [("a.b", Scalar("x")), ("a.b", Scalar("y"))]
  {
    var inner := [Field("b", Scalar("y"))];
    var outer := [Field("a.b", Scalar("x")), Field("a", Object(inner))];
    assert inner[..0] == [] && outer[..1] == [Field("a.b", Scalar("x"))] && outer[..1][..0] == [];
    assert "a." + "b" == "a.b" && "" + "a.b" == "a.b" && "" + "a" + "." == "a.";
    assert Emitted("a.b", Scalar("y")) == [("a.b", Scalar("y"))];
    assert Emitted("a.b", Scalar("x")) == [("a.b", Scalar("x"))];
    assert EmittedFields("a.", inner) == [("a.b", Scalar("y"))];
    assert EmittedFields("", outer[..1]) == [("a.b", Scalar("x"))];
    assert Emitted("" + "a", Object(inner)) == EmittedFields("a.", inner);
  }
}
