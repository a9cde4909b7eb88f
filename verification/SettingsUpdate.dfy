/** What MongoDB makes of a flat $set, and that for a flattened payload this is a deep merge. */
module SettingsUpdate {
  import opened Wrappers
  import opened DottedPaths
  import opened SettingsMerge

  datatype Outcome = Conflict | Ok(slot: Option<Doc>)

  function Get(m: map<string, Doc>, k: string): Option<Doc> { if k in m then Some(m[k]) else None }

  /** Room for keys: a missing value or an object, but no leaf. */
  predicate Roomy(slot: Option<Doc>) { slot.Some? ==> slot.value.Node? }

  function Fields(slot: Option<Doc>): map<string, Doc>
    requires Roomy(slot)
  {
    if slot.None? then map[] else slot.value.fields
  }

  // ---------- $set ----------

  /** One entry: missing objects on the way are created, a leaf on the way is an error. */
  function SetAt(slot: Option<Doc>, path: Path, v: Value): (r: Outcome)
    ensures r.Ok? ==> r.slot.Some?
    decreases |path|
  {
    if path == [] then Ok(Some(Stored(v)))
    else if !Roomy(slot) then Conflict
    else
      var r := SetAt(Get(Fields(slot), path[0]), path[1..], v);
      if r.Conflict? then Conflict else Ok(Some(Node(Fields(slot)[path[0] := r.slot.value])))
  }

  function ApplyAll(slot: Option<Doc>, es: seq<Entry>): Outcome {
    if es == [] then Ok(slot)
    else
      var r := ApplyAll(slot, es[..|es| - 1]);
      if r.Conflict? then Conflict else SetAt(r.slot, es[|es| - 1].path, es[|es| - 1].value)
  }

  /** The entries whose path starts with k, with that key taken off. */
  function Project(es: seq<Entry>, k: string): seq<Entry> {
    if es == [] then []
    else
      var e := es[|es| - 1];
      Project(es[..|es| - 1], k) + if e.path != [] && e.path[0] == k then [Tail(e)] else []
  }

  lemma {:induction false} ProjectHas(es: seq<Entry>, k: string, e: Entry)
    ensures e in Project(es, k) <==> Entry([k] + e.path, e.value) in es
  {
    if es != [] {
      var last := es[|es| - 1];
      ProjectHas(es[..|es| - 1], k, e);
      assert es == es[..|es| - 1] + [last];
      if last.path != [] && last.path[0] == k {
        assert last == Entry([k] + Tail(last).path, last.value);
        assert Entry([k] + e.path, e.value) == last ==> ([k] + e.path)[1..] == e.path;
      }
    }
  }

  ghost predicate Splits(slot: Option<Doc>, es: seq<Entry>)
    requires Roomy(slot)
  {
    var r := ApplyAll(slot, es);
    && (r.Conflict? <==> exists k :: ApplyAll(Get(Fields(slot), k), Project(es, k)).Conflict?)
    && (r.Ok? ==>
          && Roomy(r.slot) && (r.slot.Some? <==> slot.Some? || es != [])
          && forall k :: ApplyAll(Get(Fields(slot), k), Project(es, k)) == Ok(Get(Fields(r.slot), k)))
  }

  /** The entries of one key, with one more entry written last. */
  lemma ProjectStep(at: Option<Doc>, es: seq<Entry>, k: string)
    requires es != [] && es[|es| - 1].path != []
    ensures var init, e := es[..|es| - 1], es[|es| - 1];
            var before := ApplyAll(at, Project(init, k));
            ApplyAll(at, Project(es, k)) ==
              if before.Conflict? || e.path[0] != k then before else SetAt(before.slot, e.path[1..], e.value)
  {
    var init, e := es[..|es| - 1], es[|es| - 1];
    if e.path[0] == k {
      assert Project(es, k) == Project(init, k) + [Tail(e)];
      assert Project(es, k)[..|Project(es, k)| - 1] == Project(init, k);
    } else {
      assert Project(es, k) == Project(init, k);
    }
  }

  /** A $set works key by key: on every field it does what that field's own entries do. */
  lemma {:induction false} SetKeyByKey(slot: Option<Doc>, es: seq<Entry>)
    requires Roomy(slot) && forall e :: e in es ==> e.path != []
    ensures Splits(slot, es)
  {
    if es == [] {
      assert forall k :: Project(es, k) == [];
    } else {
      var init, e := es[..|es| - 1], es[|es| - 1];
      assert e in es;
      SetKeyByKey(slot, init);
      SplitsStep(slot, es);
    }
  }

  /** What a key's own entries do when one more entry, for key h, is set after the others have been. */
  lemma SplitsKey(slot: Option<Doc>, es: seq<Entry>, k: string)
    requires Roomy(slot) && es != [] && es[|es| - 1].path != [] && Splits(slot, es[..|es| - 1])
    requires ApplyAll(slot, es[..|es| - 1]).Ok?
    ensures var e, fields := es[|es| - 1], Fields(ApplyAll(slot, es[..|es| - 1]).slot);
            ApplyAll(Get(Fields(slot), k), Project(es, k))
              == if k == e.path[0] then SetAt(Get(fields, k), e.path[1..], e.value) else Ok(Get(fields, k))
  {
    ProjectStep(Get(Fields(slot), k), es, k);
  }

  lemma SplitsConflict(slot: Option<Doc>, es: seq<Entry>)
    requires Roomy(slot) && es != [] && es[|es| - 1].path != [] && Splits(slot, es[..|es| - 1])
    requires ApplyAll(slot, es[..|es| - 1]).Conflict?
    ensures Splits(slot, es)
  {
    var k :| ApplyAll(Get(Fields(slot), k), Project(es[..|es| - 1], k)).Conflict?;
    ProjectStep(Get(Fields(slot), k), es, k);
  }

  /** A conflict of one more entry shows at its own key alone. */
  lemma SplitsConflictIff(slot: Option<Doc>, es: seq<Entry>)
    requires Roomy(slot) && es != [] && es[|es| - 1].path != [] && Splits(slot, es[..|es| - 1])
    requires ApplyAll(slot, es[..|es| - 1]).Ok?
    ensures ApplyAll(slot, es).Conflict? <==> exists k :: ApplyAll(Get(Fields(slot), k), Project(es, k)).Conflict?
  {
    var e := es[|es| - 1];
    SplitsKey(slot, es, e.path[0]);
    if k :| ApplyAll(Get(Fields(slot), k), Project(es, k)).Conflict? {
      SplitsKey(slot, es, k);
    }
  }

  lemma SplitsOk(slot: Option<Doc>, es: seq<Entry>, k: string)
    requires Roomy(slot) && es != [] && es[|es| - 1].path != [] && Splits(slot, es[..|es| - 1])
    requires ApplyAll(slot, es).Ok?
    ensures var r := ApplyAll(slot, es);
            && Roomy(r.slot) && r.slot.Some?
            && ApplyAll(Get(Fields(slot), k), Project(es, k)) == Ok(Get(Fields(r.slot), k))
  {
    SplitsKey(slot, es, k);
  }

  lemma SplitsStep(slot: Option<Doc>, es: seq<Entry>)
    requires Roomy(slot) && es != [] && es[|es| - 1].path != [] && Splits(slot, es[..|es| - 1])
    ensures Splits(slot, es)
  {
    if ApplyAll(slot, es[..|es| - 1]).Conflict? {
      SplitsConflict(slot, es);
    } else {
      SplitsConflictIff(slot, es);
      if ApplyAll(slot, es).Ok? {
        SplitsOk(slot, es, es[|es| - 1].path[0]);
        forall k ensures ApplyAll(Get(Fields(slot), k), Project(es, k)) == Ok(Get(Fields(ApplyAll(slot, es).slot), k)) {
          SplitsOk(slot, es, k);
        }
      }
    }
  }

  // ---------- deep merge ----------

  predicate Compatible(slot: Option<Doc>, v: Value)
    decreases v
  {
    !Emits(v) || IsLeaf(v) ||
    (Roomy(slot) && forall f :: f in v.fields ==> Compatible(Get(Fields(slot), f.key), f.value))
  }

  function Keys(fields: seq<Field>): set<string> { set f | f in fields :: f.key }

  ghost function FieldOf(fields: seq<Field>, k: string): (f: Field)
    requires k in Keys(fields)
    ensures f in fields && f.key == k
  {
    var f :| f in fields && f.key == k; f
  }

  /** Deep merge of a payload into a document: undefined is skipped, leaves replace, objects merge key by key. */
  ghost function Merge(slot: Option<Doc>, v: Value): Option<Doc>
    requires Compatible(slot, v)
    decreases v, 1
  {
    if !Emits(v) then slot
    else if IsLeaf(v) then Some(Stored(v))
    else
      var m := Fields(slot);
      Some(Node(map k | k in m.Keys + Keys(v.fields) && MergeKey(m, v.fields, k).Some?
                      :: MergeKey(m, v.fields, k).value))
  }

  ghost function MergeKey(m: map<string, Doc>, fields: seq<Field>, k: string): Option<Doc>
    requires forall f :: f in fields ==> Compatible(Get(m, f.key), f.value)
    decreases fields, 0
  {
    if k in Keys(fields) then Merge(Get(m, k), FieldOf(fields, k).value) else Get(m, k)
  }

  lemma {:induction false} SameLeaf(slot: Option<Doc>, v: Value, es: seq<Entry>)
    requires es != [] && forall e :: e in es ==> e == Entry([], v)
    ensures ApplyAll(slot, es) == Ok(Some(Stored(v)))
  {
    assert es[|es| - 1] in es;
    var init := es[..|es| - 1];
    forall e | e in init ensures e == Entry([], v) { assert e in es; }
    if init != [] { SameLeaf(slot, v, init); }
  }

  lemma {:induction false} LeafInTheWay(slot: Option<Doc>, es: seq<Entry>)
    requires !Roomy(slot) && es != [] && forall e :: e in es ==> e.path != []
    ensures ApplyAll(slot, es).Conflict?
  {
    assert es[|es| - 1] in es;
    if |es| > 1 { LeafInTheWay(slot, es[..|es| - 1]); }
  }

  lemma HasMember(es: seq<Entry>)
    requires es != []
    ensures exists e :: e in es
  {
    assert es[0] in es;
  }

  /**
   * Whatever order the leaves of a payload are set in, the result is the deep merge, or an error where that is
   * undefined.
   */
  lemma {:induction false} SettingLeavesMerges(slot: Option<Doc>, v: Value, es: seq<Entry>)
    requires UniqueKeys(v) && forall e :: e in es <==> e in Leaves(v)
    ensures ApplyAll(slot, es) == if Compatible(slot, v) then Ok(Merge(slot, v)) else Conflict
    decreases v
  {
    EmitsIffLeaves(v);
    if !Emits(v) {
      if es != [] { HasMember(es); }
    } else if IsLeaf(v) {
      assert Entry([], v) in es;
      SameLeaf(slot, v, es);
    } else {
      assert es != [] by { var e :| e in Leaves(v); assert e in es; }
      forall e | e in es ensures e.path != [] { FieldLeavesHas(v.fields, e); }
      if !Roomy(slot) {
        LeafInTheWay(slot, es);
      } else {
        SetKeyByKey(slot, es);
        var m := Fields(slot);
        forall k
          ensures k in Keys(v.fields) ==>
            var f := FieldOf(v.fields, k);
            ApplyAll(Get(m, k), Project(es, k))
              == if Compatible(Get(m, k), f.value) then Ok(Merge(Get(m, k), f.value)) else Conflict
          ensures k !in Keys(v.fields) ==> ApplyAll(Get(m, k), Project(es, k)) == Ok(Get(m, k))
        {
          if k in Keys(v.fields) {
            var f := FieldOf(v.fields, k);
            ProjectIsField(v, es, f);
            SettingLeavesMerges(Get(m, k), f.value, Project(es, k));
          } else {
            NoSuchField(v, es, k);
          }
        }
        MergesByKey(slot, v, es);
      }
    }
  }

  lemma ProjectIsField(v: Value, es: seq<Entry>, f: Field)
    requires v.Object? && v.fields != [] && UniqueKeys(v) && f in v.fields
    requires forall e :: e in es <==> e in Leaves(v)
    ensures forall e :: e in Project(es, f.key) <==> e in Leaves(f.value)
  {
    forall e ensures e in Project(es, f.key) <==> e in Leaves(f.value) {
      var l := Entry([f.key] + e.path, e.value);
      ProjectHas(es, f.key, e);
      FieldLeavesHas(v.fields, l);
      assert Tail(l) == e;
    }
  }

  lemma NoSuchField(v: Value, es: seq<Entry>, k: string)
    requires v.Object? && v.fields != [] && k !in Keys(v.fields)
    requires forall e :: e in es <==> e in Leaves(v)
    ensures Project(es, k) == []
  {
    if Project(es, k) != [] {
      var e := Project(es, k)[0];
      ProjectHas(es, k, e);
      FieldLeavesHas(v.fields, Entry([k] + e.path, e.value));
    }
  }

  /** Each key's own entries merge that key. */
  ghost predicate KeysMerge(m: map<string, Doc>, fields: seq<Field>, es: seq<Entry>) {
    forall k ::
      && (k in Keys(fields) ==>
            var f := FieldOf(fields, k);
            ApplyAll(Get(m, k), Project(es, k))
              == if Compatible(Get(m, k), f.value) then Ok(Merge(Get(m, k), f.value)) else Conflict)
      && (k !in Keys(fields) ==> ApplyAll(Get(m, k), Project(es, k)) == Ok(Get(m, k)))
  }

  lemma FieldOfKey(v: Value, f: Field)
    requires v.Object? && UniqueKeys(v) && f in v.fields
    ensures f.key in Keys(v.fields) && FieldOf(v.fields, f.key) == f
  {
  }

  lemma MergedKeys(slot: Option<Doc>, v: Value, es: seq<Entry>, k: string)
    requires v.Object? && v.fields != [] && Emits(v) && Roomy(slot) && Splits(slot, es) && Compatible(slot, v)
    requires KeysMerge(Fields(slot), v.fields, es) && ApplyAll(slot, es).Ok?
    ensures Get(Fields(ApplyAll(slot, es).slot), k) == MergeKey(Fields(slot), v.fields, k)
  {
    assert ApplyAll(Get(Fields(slot), k), Project(es, k)) == Ok(MergeKey(Fields(slot), v.fields, k));
  }

  /** Puts the results for the single keys together. */
  lemma MergesByKey(slot: Option<Doc>, v: Value, es: seq<Entry>)
    requires v.Object? && v.fields != [] && UniqueKeys(v) && Emits(v) && Roomy(slot) && es != [] && Splits(slot, es)
    requires KeysMerge(Fields(slot), v.fields, es)
    ensures ApplyAll(slot, es) == if Compatible(slot, v) then Ok(Merge(slot, v)) else Conflict
  {
    var m, r := Fields(slot), ApplyAll(slot, es);
    if f :| f in v.fields && !Compatible(Get(m, f.key), f.value) {
      FieldOfKey(v, f);
      assert ApplyAll(Get(m, f.key), Project(es, f.key)).Conflict?;
    } else {
      NoConflict(slot, v, es);
      var merged := Merge(slot, v).value.fields;
      forall k ensures Get(Fields(r.slot), k) == Get(merged, k) {
        MergedKeys(slot, v, es, k);
      }
      SameByGet(Fields(r.slot), merged);
    }
  }

  lemma NoConflict(slot: Option<Doc>, v: Value, es: seq<Entry>)
    requires v.Object? && v.fields != [] && Emits(v) && Roomy(slot) && Splits(slot, es) && Compatible(slot, v)
    requires KeysMerge(Fields(slot), v.fields, es)
    ensures ApplyAll(slot, es).Ok?
  {
    forall k ensures ApplyAll(Get(Fields(slot), k), Project(es, k)).Ok? {
      if k in Keys(v.fields) { assert FieldOf(v.fields, k) in v.fields; }
    }
  }

  lemma SameByGet(a: map<string, Doc>, b: map<string, Doc>)
    requires forall k :: Get(a, k) == Get(b, k)
    ensures a == b
  {
    forall k ensures k in a <==> k in b { assert Get(a, k) == Get(b, k); }
    forall k | k in a ensures a[k] == b[k] { assert Get(a, k) == Get(b, k); }
  }
}
