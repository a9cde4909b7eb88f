/** settingsController.js, updateSettings: from the payload to the document, and what is read back afterwards. */
module SettingsHandler {
  import opened Wrappers
  import opened DottedPaths
  import opened SettingsMerge
  import opened SettingsUpdate

  // ---------- what is read back ----------

  /** What a document holds at a path of keys. */
  function Read(slot: Option<Doc>, path: Path): Option<Doc>
    decreases |path|
  {
    if path == [] then slot
    else if slot.None? || slot.value.Leaf? then None
    else Read(Get(slot.value.fields, path[0]), path[1..])
  }

  /** Reading below a key of a merged object. */
  lemma ReadMergedKey(slot: Option<Doc>, v: Value, path: Path)
    requires Compatible(slot, v) && Emits(v) && !IsLeaf(v) && path != []
    ensures Read(Merge(slot, v), path) == Read(MergeKey(Fields(slot), v.fields, path[0]), path[1..])
    ensures Read(slot, path) == Read(Get(Fields(slot), path[0]), path[1..])
  {
    if slot.None? { assert Get(Fields(slot), path[0]) == None; }
    assert Get(Merge(slot, v).value.fields, path[0]) == MergeKey(Fields(slot), v.fields, path[0]);
  }

  /** A leaf of the payload is read back as its value, an empty object as an object without keys. */
  lemma {:induction false} LeafReadsBack(slot: Option<Doc>, v: Value, l: Entry)
    requires UniqueKeys(v) && Compatible(slot, v) && l in Leaves(v)
    ensures Read(Merge(slot, v), l.path) == Some(if l.value.Object? then Node(map[]) else Leaf(l.value))
    decreases v
  {
    EmitsIffLeaves(v);
    if IsLeaf(v) {
      LeavesAre(v, l.path, l.value);
    } else {
      FieldLeavesHas(v.fields, l);
      var f :| f in v.fields && f.key == l.path[0] && Tail(l) in Leaves(f.value);
      FieldOfKey(v, f);
      ReadMergedKey(slot, v, l.path);
      LeafReadsBack(Get(Fields(slot), f.key), f.value, Tail(l));
    }
  }

  /** A path that neither leads to nor goes through a leaf of the payload. */
  ghost predicate Apart(leaves: set<Entry>, path: Path) {
    forall l :: l in leaves ==> !(l.path <= path) && !(path <= l.path)
  }

  lemma ApartBelow(v: Value, f: Field, path: Path)
    requires v.Object? && v.fields != [] && f in v.fields && path != [] && path[0] == f.key
    requires Apart(Leaves(v), path)
    ensures Apart(Leaves(f.value), path[1..])
  {
    forall e | e in Leaves(f.value) ensures !(e.path <= path[1..]) && !(path[1..] <= e.path) {
      var l := Entry([f.key] + e.path, e.value);
      assert Tail(l) == e;
      FieldLeavesHas(v.fields, l);
      assert l in Leaves(v) && path == [f.key] + path[1..];
    }
  }

  /** Such a path is read as before. */
  lemma {:induction false} RestReadsAsBefore(slot: Option<Doc>, v: Value, path: Path)
    requires UniqueKeys(v) && Compatible(slot, v) && Apart(Leaves(v), path)
    ensures Read(Merge(slot, v), path) == Read(slot, path)
    decreases v
  {
    EmitsIffLeaves(v);
    if Emits(v) {
      var some :| some in Leaves(v);
      if !IsLeaf(v) {
        assert path != [] by { assert [] <= some.path; }
        ReadMergedKey(slot, v, path);
        if path[0] in Keys(v.fields) {
          var f := FieldOf(v.fields, path[0]);
          ApartBelow(v, f, path);
          RestReadsAsBefore(Get(Fields(slot), f.key), f.value, path[1..]);
        }
      }
    }
  }

  /** A stored leaf stands on the way to a leaf of the payload. */
  ghost predicate Blocked(slot: Option<Doc>, l: Entry, n: nat) {
    n < |l.path| && Read(slot, l.path[..n]).Some? && Read(slot, l.path[..n]).value.Leaf?
  }

  lemma ReadStep(slot: Option<Doc>, k: string, rest: Path)
    requires Roomy(slot)
    ensures Read(slot, [k] + rest) == Read(Get(Fields(slot), k), rest)
  {
    assert ([k] + rest)[1..] == rest;
  }

  lemma BlockedBelow(slot: Option<Doc>, l: Entry, n: nat)
    requires Roomy(slot) && l.path != [] && n > 0
    ensures Blocked(slot, l, n) <==> Blocked(Get(Fields(slot), l.path[0]), Tail(l), n - 1)
  {
    if n < |l.path| {
      assert l.path[..n] == [l.path[0]] + Tail(l).path[..n - 1];
      ReadStep(slot, l.path[0], Tail(l).path[..n - 1]);
    }
  }

  /** A payload can be merged in exactly when no stored leaf stands on the way to one of its leaves. */
  lemma {:induction false} CompatibleIff(slot: Option<Doc>, v: Value)
    ensures Compatible(slot, v) <==> forall l, n: nat :: l in Leaves(v) ==> !Blocked(slot, l, n)
    decreases v
  {
    EmitsIffLeaves(v);
    if Emits(v) && !IsLeaf(v) {
      if !Roomy(slot) {
        var l :| l in Leaves(v);
        FieldLeavesHas(v.fields, l);
        assert l.path[..0] == [] && Blocked(slot, l, 0);
      } else {
        if f :| f in v.fields && !Compatible(Get(Fields(slot), f.key), f.value) {
          CompatibleIff(Get(Fields(slot), f.key), f.value);
          var e, n: nat :| e in Leaves(f.value) && Blocked(Get(Fields(slot), f.key), e, n);
          var l := Entry([f.key] + e.path, e.value);
          assert Tail(l) == e;
          FieldLeavesHas(v.fields, l);
          BlockedBelow(slot, l, n + 1);
        }
        if l, n: nat :| l in Leaves(v) && Blocked(slot, l, n) {
          FieldLeavesHas(v.fields, l);
          var f :| f in v.fields && f.key == l.path[0] && Tail(l) in Leaves(f.value);
          assert n != 0 by { assert l.path[..0] == []; }
          BlockedBelow(slot, l, n);
          CompatibleIff(Get(Fields(slot), f.key), f.value);
        }
      }
    }
  }

  // ---------- the update handler ----------

  datatype Reply = Unchanged | Updated | Failed

  function Parse(e: (string, Value)): Entry { Entry(Split(e.0), e.1) }

  /** MongoDB refuses a $set with two paths of which one leads to or through the other. */
  ghost predicate PathsClash(m: map<string, Value>) {
    exists s, t :: s in m && t in m && s != t && Split(s) <= Split(t)
  }

  lemma NamedParses(payload: seq<Field>, l: Entry)
    requires DotFreeKeys(Object(payload)) && l in FieldLeaves(payload)
    ensures Parse(Named([], l)) == l
  {
    FieldLeavesHas(payload, l);
    LeafKeysDotFree(Object(payload), l);
    assert [] + l.path == l.path;
    SplitJoin(l.path);
  }

  lemma {:induction false} WrittenKeys(es: seq<(string, Value)>)
    requires forall a, b :: a in es && b in es && a.0 == b.0 ==> a == b
    ensures forall s :: s in WriteAll(map[], es) ==> (s, WriteAll(map[], es)[s]) in es
    ensures forall e :: e in es ==> e.0 in WriteAll(map[], es) && WriteAll(map[], es)[e.0] == e.1
  {
    if es != [] {
      var init := es[..|es| - 1];
      assert es == init + [es[|es| - 1]];
      WrittenKeys(init);
    }
  }

  /** The flat $set of a payload holds exactly its leaves, each under its own path, and no two paths clash. */
  lemma FlatSetIsLeaves(payload: seq<Field>)
    requires UniqueKeys(Object(payload)) && DotFreeKeys(Object(payload))
    ensures var m := WriteAll(map[], EmittedFields("", payload));
            && (forall s :: s in m ==> Parse((s, m[s])) in FieldLeaves(payload))
            && (forall l :: l in FieldLeaves(payload) ==> Named([], l).0 in m && m[Named([], l).0] == l.value)
            && !PathsClash(m)
  {
    var es := EmittedFields("", payload);
    EmittedFieldsAreLeaves([], payload);
    forall l | l in FieldLeaves(payload) ensures Parse(Named([], l)) == l { NamedParses(payload, l); }
    forall a, b | a in es && b in es && Split(a.0) <= Split(b.0) ensures a == b {
      var k, l :| k in FieldLeaves(payload) && l in FieldLeaves(payload) && a == Named([], k) && b == Named([], l);
      assert payload != [];
      LeavesPrefixFree(Object(payload), k, l);
    }
    WrittenKeys(es);
  }

  /** It is empty when no field has a leaf, and otherwise has the payload's leaves, ready to be set. */
  lemma FlatSetFits(payload: seq<Field>)
    requires UniqueKeys(Object(payload)) && DotFreeKeys(Object(payload))
    ensures var m := WriteAll(map[], EmittedFields("", payload));
            && (m == map[] <==> !exists f :: f in payload && Emits(f.value))
            && !PathsClash(m)
            && (m != map[] ==>
                  && (forall s :: s in m ==> Parse((s, m[s])) in Leaves(Object(payload)))
                  && (forall l :: l in Leaves(Object(payload)) ==> exists s :: s in m && Parse((s, m[s])) == l))
  {
    var m := WriteAll(map[], EmittedFields("", payload));
    FlatSetIsLeaves(payload);
    EmitsIffLeaves(Object(payload));
    if payload == [] {
      assert FieldLeaves(payload) == {};
    } else {
      forall l | l in FieldLeaves(payload) ensures exists s :: s in m && Parse((s, m[s])) == l {
        NamedParses(payload, l);
        assert Named([], l).0 in m;
      }
    }
  }

  lemma NoneEmitted(payload: seq<Field>)
    ensures FieldLeaves(payload) == {} <==> !exists f :: f in payload && Emits(f.value)
  {
    if payload != [] { EmitsIffLeaves(Object(payload)); }
  }

  lemma MergeReadsBack(slot: Option<Doc>, payload: seq<Field>)
    requires payload != [] && UniqueKeys(Object(payload)) && Compatible(slot, Object(payload))
    ensures var now := Merge(slot, Object(payload));
            && (forall l :: l in FieldLeaves(payload) ==>
                  Read(now, l.path) == Some(if l.value.Object? then Node(map[]) else Leaf(l.value)))
            && (forall path :: Apart(FieldLeaves(payload), path) ==> Read(now, path) == Read(slot, path))
  {
    var v := Object(payload);
    forall l | l in FieldLeaves(payload)
      ensures Read(Merge(slot, v), l.path) == Some(if l.value.Object? then Node(map[]) else Leaf(l.value))
    {
      LeafReadsBack(slot, v, l);
    }
    forall path | Apart(FieldLeaves(payload), path) ensures Read(Merge(slot, v), path) == Read(slot, path) {
      RestReadsAsBefore(slot, v, path);
    }
  }

  class SettingsStore {
    var doc: Option<Doc>

    constructor (doc: Option<Doc>)
      ensures this.doc == doc
    {
      this.doc := doc;
    }

    /** The entries set one after the other, in any order, up to the first that cannot be. */
    method SetEach(toSet: map<string, Value>) returns (ok: bool, slot: Option<Doc>, ghost done: seq<Entry>)
      ensures forall e :: e in done <==> exists s :: s in toSet && Parse((s, toSet[s])) == e
      ensures ApplyAll(doc, done) == if ok then Ok(slot) else Conflict
    {
      var rest := toSet.Keys;
      ok, slot, done := true, doc, [];
      while rest != {}
        invariant rest <= toSet.Keys
        invariant forall e :: e in done <==> exists s :: s in toSet && s !in rest && Parse((s, toSet[s])) == e
        invariant ApplyAll(doc, done) == if ok then Ok(slot) else Conflict
      {
        var s :| s in rest;
        var e := Parse((s, toSet[s]));
        assert (done + [e])[..|done|] == done;
        if ok {
          var r := SetAt(slot, e.path, e.value);
          if r.Ok? { slot := r.slot; } else { ok := false; }
        }
        done, rest := done + [e], rest - {s};
      }
    }

    /** One $set; on an error nothing is written. */
    method FindOneAndUpdate(toSet: map<string, Value>, ghost v: Value) returns (ok: bool)
      requires UniqueKeys(v) && !PathsClash(toSet)
      requires forall s :: s in toSet ==> Parse((s, toSet[s])) in Leaves(v)
      requires forall l :: l in Leaves(v) ==> exists s :: s in toSet && Parse((s, toSet[s])) == l
      modifies this
      ensures ok == Compatible(old(doc), v)
      ensures doc == if ok then Merge(old(doc), v) else old(doc)
    {
      var slot;
      ghost var done;
      ok, slot, done := SetEach(toSet);
      SettingLeavesMerges(doc, v, done);
      if ok { doc := slot; }
    }

    /** The loop that builds the flat $set from the payload's entries. */
    method BuildSet(payload: seq<Field>) returns (toSet: map<string, Value>)
      ensures toSet == WriteAll(map[], EmittedFields("", payload))
    {
      var target := new SetTarget();
      for i := 0 to |payload|
        invariant target.entries == WriteAll(map[], EmittedFields("", payload[..i])) && fresh(target)
      {
        assert payload[..i + 1][..i] == payload[..i];
        WriteAllConcat(map[], EmittedFields("", payload[..i]), Emitted(payload[i].key, payload[i].value));
        assert "" + payload[i].key == payload[i].key;
        if !payload[i].value.Undefined? {
          FlattenForMongoSet(payload[i].key, payload[i].value, target);
        }
      }
      assert payload[..|payload|] == payload;
      toSet := target.entries;
    }

    /**
     * updateSettings from the validated payload on: a deep merge, unless a leaf stands where an object is needed. After
     * it the leaves of the payload are read back as they were sent, and what lies apart from them as before.
     */
    method UpdateSettings(payload: seq<Field>) returns (reply: Reply)
      requires UniqueKeys(Object(payload)) && DotFreeKeys(Object(payload))
      modifies this
      ensures reply == Unchanged <==> FieldLeaves(payload) == {}
      ensures reply == Failed <==> exists l, n: nat :: l in FieldLeaves(payload) && Blocked(old(doc), l, n)
      ensures reply == Updated ==>
        && Compatible(old(doc), Object(payload)) && doc == Merge(old(doc), Object(payload))
        && (forall l :: l in FieldLeaves(payload) ==>
              Read(doc, l.path) == Some(if l.value.Object? then Node(map[]) else Leaf(l.value)))
        && (forall path :: Apart(FieldLeaves(payload), path) ==> Read(doc, path) == Read(old(doc), path))
      ensures reply != Updated ==> doc == old(doc)
    {
      var toSet := BuildSet(payload);
      FlatSetFits(payload);
      NoneEmitted(payload);
      if toSet == map[] { return Unchanged; }
      CompatibleIff(doc, Object(payload));
      ghost var was := doc;
      var ok := FindOneAndUpdate(toSet, Object(payload));
      if ok { MergeReadsBack(was, payload); }
      reply := if ok then Updated else Failed;
    }
  }
}
