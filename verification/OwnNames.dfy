/**
 * Batches that hand out names the single search knows nothing of: the single search finds a name for a created product
 * only, and sees no others; a batch also names variants and rows that are refused later, and counts these as used.
 */
module OwnNames {
  import opened Picks
  import opened Text
  import opened ProductNames

  /**
   * One name of a batch, by its base; `own` when it is the own name of a product that gets created, which the single
   * search then looks for from the base `single`.
   */
  datatype Slot = Slot(base: string, own: bool, single: string)

  function Bases(slots: seq<Slot>): (bases: seq<string>)
    ensures |bases| == |slots| && forall i :: 0 <= i < |slots| ==> bases[i] == slots[i].base
  {
    seq(|slots|, i requires 0 <= i < |slots| => slots[i].base)
  }

  lemma BasesConcat(a: seq<Slot>, b: seq<Slot>)
    ensures Bases(a + b) == Bases(a) + Bases(b)
  {
  }

  function Owned(slots: seq<Slot>): (owned: seq<bool>)
    ensures |owned| == |slots| && forall i :: 0 <= i < |slots| ==> owned[i] == slots[i].own
  {
    seq(|slots|, i requires 0 <= i < |slots| => slots[i].own)
  }

  function Singles(slots: seq<Slot>): (bases: seq<string>)
    ensures |bases| == |slots| && forall i :: 0 <= i < |slots| ==> bases[i] == slots[i].single
  {
    seq(|slots|, i requires 0 <= i < |slots| => slots[i].single)
  }

  /** Of one name for each slot, the own ones. */
  function Own(slots: seq<Slot>, names: seq<string>): seq<string>
    requires |names| == |slots|
  {
    Picked(Owned(slots), names)
  }

  /** What the single search starts from, name by name. */
  function SingleBases(slots: seq<Slot>): seq<string> { Own(slots, Singles(slots)) }

  lemma OwnConcat(a: seq<Slot>, b: seq<Slot>, x: seq<string>, y: seq<string>)
    requires |x| == |a| && |y| == |b|
    ensures Own(a + b, x + y) == Own(a, x) + Own(b, y)
    ensures SingleBases(a + b) == SingleBases(a) + SingleBases(b)
  {
    assert Owned(a + b) == Owned(a) + Owned(b) && Singles(a + b) == Singles(a) + Singles(b);
    PickedConcat(Owned(a), Owned(b), x, y);
    PickedConcat(Owned(a), Owned(b), Singles(a), Singles(b));
  }

  /** What a batch hands out, and what it then counts as used. */
  ghost function Batch(slots: seq<Slot>, stored: set<string>): (names: seq<string>)
    ensures |names| == |slots|
  {
    Allocate(Bases(slots), LowerSet(stored))
  }

  ghost function Used(slots: seq<Slot>, stored: set<string>): set<string> {
    UsedAfter(LowerSet(stored), Batch(slots, stored))
  }

  /** What the single search hands out for the own names, and what is then stored. */
  ghost function Single(slots: seq<Slot>, stored: set<string>): seq<string> { OneByOne(SingleBases(slots), stored) }

  ghost function Taken(slots: seq<Slot>, stored: set<string>): set<string> {
    StoredAfter(stored, Single(slots, stored))
  }

  ghost function NextSingle(base: string, taken: set<string>): string { Candidate(base, FirstFree(base, taken)) }

  ghost predicate Agrees(slots: seq<Slot>, stored: set<string>) {
    Own(slots, Batch(slots, stored)) == Single(slots, stored)
  }

  // ---------- one slot more ----------

  lemma BatchSnoc(slots: seq<Slot>, slot: Slot, stored: set<string>)
    ensures Batch(slots + [slot], stored) == Batch(slots, stored) + [NextInBatch(slot.base, Used(slots, stored))]
  {
    assert Bases(slots + [slot]) == Bases(slots) + [slot.base];
    AllocateSnoc(Bases(slots), slot.base, LowerSet(stored));
  }

  lemma OwnSnoc(slots: seq<Slot>, slot: Slot, names: seq<string>, name: string)
    requires |names| == |slots|
    ensures Own(slots + [slot], names + [name]) == Own(slots, names) + if slot.own then [name] else []
  {
    assert Owned(slots + [slot]) == Owned(slots) + [slot.own];
    PickedSnoc(Owned(slots), slot.own, names, name);
  }

  lemma SingleSnoc(slots: seq<Slot>, slot: Slot, stored: set<string>)
    ensures Single(slots + [slot], stored)
         == Single(slots, stored) + if slot.own then [NextSingle(slot.single, Taken(slots, stored))] else []
  {
    assert Singles(slots + [slot]) == Singles(slots) + [slot.single];
    OwnSnoc(slots, slot, Singles(slots), slot.single);
    if slot.own {
      OneByOneSnoc(SingleBases(slots), slot.single, stored);
    } else {
      assert SingleBases(slots + [slot]) == SingleBases(slots);
    }
  }

  lemma AgreesSnoc(slots: seq<Slot>, slot: Slot, stored: set<string>)
    ensures Agrees(slots + [slot], stored) <==>
      Agrees(slots, stored) &&
      (slot.own ==> NextInBatch(slot.base, Used(slots, stored)) == NextSingle(slot.single, Taken(slots, stored)))
  {
    BatchSnoc(slots, slot, stored);
    SingleSnoc(slots, slot, stored);
    OwnSnoc(slots, slot, Batch(slots, stored), NextInBatch(slot.base, Used(slots, stored)));
    PickedLength(Owned(slots), Batch(slots, stored), Singles(slots));
    if slot.own {
      SnocEqual(Own(slots, Batch(slots, stored)), Single(slots, stored),
                NextInBatch(slot.base, Used(slots, stored)), NextSingle(slot.single, Taken(slots, stored)));
    } else {
      var own, single := Own(slots, Batch(slots, stored)), Single(slots, stored);
      assert own + [] == own && single + [] == single;
    }
  }

  lemma SnocEqual(a: seq<string>, b: seq<string>, x: string, y: string)
    requires |a| == |b|
    ensures a + [x] == b + [y] <==> a == b && x == y
  {
    if a + [x] == b + [y] {
      assert (a + [x])[..|a|] == a && (b + [y])[..|a|] == b;
      assert (a + [x])[|a|] == x && (b + [y])[|a|] == y;
    }
  }

  lemma OwnAmong(slots: seq<Slot>, names: seq<string>, x: string)
    requires |names| == |slots|
    ensures x in Own(slots, names) <==> exists i :: 0 <= i < |slots| && slots[i].own && names[i] == x
  {
    PickedHas(Owned(slots), names, x);
  }

  /** As long as the two agree, what the single search sees as stored the batch counts as used. */
  lemma TakenIsUsed(slots: seq<Slot>, stored: set<string>, x: string)
    requires Agrees(slots, stored) && x in Taken(slots, stored)
    ensures Lower(x) in Used(slots, stored)
  {
    StoredAfterHas(stored, Single(slots, stored), x);
    OwnAmong(slots, Batch(slots, stored), x);
    UsedAfterHas(LowerSet(stored), Batch(slots, stored), Lower(x));
  }

  lemma SameUnlessUsed(slots: seq<Slot>, base: string, stored: set<string>)
    requires Agrees(slots, stored)
    ensures NextInBatch(base, Used(slots, stored)) == NextSingle(base, Taken(slots, stored))
       <==> Lower(NextSingle(base, Taken(slots, stored))) !in Used(slots, stored)
  {
    var used, taken := Used(slots, stored), Taken(slots, stored);
    var m, n := FirstFree(Lower(base), used), FirstFree(base, taken);
    LowerCandidate(base, m);
    LowerCandidate(base, n);
    if Lower(Candidate(base, n)) !in used {
      forall k: nat | k < n ensures Candidate(Lower(base), k) in used {
        LowerCandidate(base, k);
        TakenIsUsed(slots, stored, Candidate(base, k));
      }
      FirstFreeUnique(Lower(base), used, m, n);
    }
  }

  // ---------- exactly when they agree ----------

  /** Both ways start from the same bases. */
  ghost predicate SameBases(slots: seq<Slot>) {
    forall i :: 0 <= i < |slots| && slots[i].own ==> slots[i].base == slots[i].single
  }

  /** No own name that the single search finds is used when its turn comes in the batch. */
  ghost predicate NonePushed(slots: seq<Slot>, stored: set<string>) {
    slots == [] ||
    (var init, last := slots[..|slots| - 1], slots[|slots| - 1];
     && NonePushed(init, stored)
     && (last.own ==> Lower(NextSingle(last.single, Taken(init, stored))) !in Used(init, stored)))
  }

  /** Slot by slot: the two agree exactly when the batch's loop never finds a name used that the single search finds. */
  lemma {:induction false} AgreesIff(slots: seq<Slot>, stored: set<string>)
    requires SameBases(slots)
    ensures Agrees(slots, stored) <==> NonePushed(slots, stored)
  {
    if slots != [] {
      var init, last := slots[..|slots| - 1], slots[|slots| - 1];
      assert slots == init + [last];
      AgreesIff(init, stored);
      AgreesSnoc(init, last, stored);
      if Agrees(init, stored) { SameUnlessUsed(init, last.base, stored); }
    }
  }

  lemma {:induction false} PrefixAgrees(slots: seq<Slot>, stored: set<string>, i: nat)
    requires i < |slots| && NonePushed(slots, stored)
    ensures NonePushed(slots[..i], stored)
    ensures slots[i].own ==> Lower(NextSingle(slots[i].single, Taken(slots[..i], stored))) !in Used(slots[..i], stored)
  {
    var init := slots[..|slots| - 1];
    if i < |init| {
      PrefixAgrees(init, stored, i);
      assert init[..i] == slots[..i];
    }
  }

  /** The i-th name of a batch is the first free one at its turn, and the names before it do not depend on it. */
  lemma {:induction false} BatchAt(slots: seq<Slot>, stored: set<string>, i: nat)
    requires i < |slots|
    ensures Batch(slots, stored)[i] == NextInBatch(slots[i].base, Used(slots[..i], stored))
    ensures Batch(slots, stored)[..i] == Batch(slots[..i], stored)
  {
    var init := slots[..|slots| - 1];
    assert slots == init + [slots[|slots| - 1]];
    BatchSnoc(init, slots[|slots| - 1], stored);
    if i < |init| {
      BatchAt(init, stored, i);
      assert init[..i] == slots[..i];
      assert Batch(slots, stored)[..i] == Batch(init, stored)[..i];
    }
  }

  // ---------- by the bases alone ----------

  /** A candidate of an own base that is taken when case is ignored is taken as it is. */
  ghost predicate TakenAsIs(slots: seq<Slot>, stored: set<string>) {
    forall i, k: nat :: 0 <= i < |slots| && slots[i].own && Lower(Candidate(slots[i].base, k)) in LowerSet(stored) ==>
      Candidate(slots[i].base, k) in stored
  }

  /** The earlier slot can give nothing that pushes the name of the later one but what the single search sees, too. */
  ghost predicate Apart(earlier: Slot, later: Slot, stored: set<string>) {
    forall m: nat, k: nat ::
      (Lower(Candidate(earlier.base, m)) == Lower(Candidate(later.base, k)) && Candidate(later.base, k) !in stored)
      ==> earlier.own && Candidate(earlier.base, m) == Candidate(later.base, k)
  }

  ghost predicate AllApart(slots: seq<Slot>, stored: set<string>) {
    forall i, j :: 0 <= j < i < |slots| && slots[i].own ==> Apart(slots[j], slots[i], stored)
  }

  lemma NotPushed(slots: seq<Slot>, last: Slot, stored: set<string>)
    requires Agrees(slots, stored) && last.own && last.base != "" && last.single == last.base
    requires TakenAsIs([last], stored) && forall j :: 0 <= j < |slots| ==> Apart(slots[j], last, stored)
    ensures Lower(NextSingle(last.base, Taken(slots, stored))) !in Used(slots, stored)
  {
    var names, taken := Batch(slots, stored), Taken(slots, stored);
    var n := FirstFree(last.base, taken);
    var name := NextSingle(last.base, taken);
    StoredAfterHas(stored, Single(slots, stored), name);
    UsedAfterHas(LowerSet(stored), names, Lower(name));
    assert Lower(name) in LowerSet(stored) ==> name in stored by {
      assert [last][0].own && name == Candidate([last][0].base, n);
    }
    forall j | 0 <= j < |names| ensures Lower(names[j]) != Lower(name) {
      BatchAt(slots, stored, j);
      var m := FirstFree(Lower(slots[j].base), Used(slots[..j], stored));
      assert names[j] == Candidate(slots[j].base, m);
      if Lower(names[j]) == Lower(name) {
        assert Apart(slots[j], last, stored);
        OwnAmong(slots, names, name);
      }
    }
    assert name != "" by { assert name == Candidate(last.base, n); }
  }

  /** Where earlier names and case never push an own name the two agree. */
  lemma {:induction false} ApartAgrees(slots: seq<Slot>, stored: set<string>)
    requires forall i :: 0 <= i < |slots| ==> slots[i].base != ""
    requires SameBases(slots) && TakenAsIs(slots, stored) && AllApart(slots, stored)
    ensures Agrees(slots, stored)
  {
    if slots != [] {
      var init, last := slots[..|slots| - 1], slots[|slots| - 1];
      assert slots == init + [last];
      ApartAgrees(init, stored);
      AgreesSnoc(init, last, stored);
      if last.own {
        assert TakenAsIs([last], stored) by { assert slots[|slots| - 1] == last; }
        NotPushed(init, last, stored);
        SameUnlessUsed(init, last.base, stored);
      }
    }
  }

  predicate OwnOf(slot: Slot, base: string) { slot.own && slot.base == base }

  /**
   * A name that comes before an own name of the same base, case ignored, always pushes it, unless it is the own name of
   * just this base: whatever is stored, and whatever other names come in between.
   */
  lemma SharedBaseDisagrees(slots: seq<Slot>, stored: set<string>, j: nat, i: nat)
    requires j < i < |slots| && slots[i].own && SameBases(slots)
    requires Lower(slots[j].base) == Lower(slots[i].base) && !OwnOf(slots[j], slots[i].base)
    ensures !Agrees(slots, stored)
  {
    AgreesIff(slots, stored);
    if NonePushed(slots, stored) {
      PrefixAgrees(slots, stored, i);
      AgreesIff(slots[..i], stored);
      PushedAt(slots[..i], stored, j, slots[i].base);
    }
  }

  lemma PushedAt(slots: seq<Slot>, stored: set<string>, j: nat, base: string)
    requires Agrees(slots, stored) && j < |slots|
    requires Lower(slots[j].base) == Lower(base) && !OwnOf(slots[j], base)
    ensures Lower(NextSingle(base, Taken(slots, stored))) in Used(slots, stored)
  {
    var low, names, used := Lower(base), Batch(slots, stored), Used(slots, stored);
    var before := Used(slots[..j], stored);
    BatchAt(slots, stored, j);
    var m := FirstFree(low, before);
    LowerCandidate(slots[j].base, m);
    forall k: nat | k <= m ensures Candidate(low, k) in used {
      UsedAfterHas(LowerSet(stored), names, Candidate(low, k));
      UsedAfterHas(LowerSet(stored), Batch(slots[..j], stored), Candidate(low, k));
    }
    NotTaken(slots, stored, j, base, m);
    var n := FirstFree(base, Taken(slots, stored));
    assert n <= m;
    LowerCandidate(base, n);
  }

  /** Of the candidates of a base the single search has not taken the one that a name of another slot stands for. */
  lemma NotTaken(slots: seq<Slot>, stored: set<string>, j: nat, base: string, m: nat)
    requires Agrees(slots, stored) && j < |slots| && !OwnOf(slots[j], base)
    requires Lower(slots[j].base) == Lower(base) && Batch(slots, stored)[j] == Candidate(slots[j].base, m)
    ensures Candidate(base, m) !in Taken(slots, stored)
  {
    var names, name := Batch(slots, stored), Candidate(base, m);
    LowerCandidate(base, m);
    LowerCandidate(slots[j].base, m);
    AllocateFresh(Bases(slots), LowerSet(stored));
    assert Lower(name) == Lower(names[j]) && Lower(name) !in LowerSet(stored);
    StoredAfterHas(stored, Single(slots, stored), name);
    OwnAmong(slots, names, name);
    if name in Taken(slots, stored) {
      assert name in stored ==> Lower(name) in LowerSet(stored);
      var i :| 0 <= i < |slots| && slots[i].own && names[i] == name;
      assert i == j;
      SameSuffix(slots[j].base, base, m);
    }
  }

  lemma SameSuffix(a: string, b: string, m: nat)
    requires Candidate(a, m) == Candidate(b, m)
    ensures a == b
  {
    assert |a| == |b|;
    assert Candidate(a, m)[..|a|] == a && Candidate(b, m)[..|b|] == b;
  }

  // ---------- bases of which none is numbered from another ----------

  ghost predicate NumberedFrom(name: string, base: string) {
    exists k: nat :: k > 0 && Lower(name) == Candidate(Lower(base), k)
  }

  ghost predicate Separate(slots: seq<Slot>) {
    forall i, j :: 0 <= j < i < |slots| && slots[i].own ==>
      !NumberedFrom(slots[j].base, slots[i].base) && !NumberedFrom(slots[i].base, slots[j].base)
  }

  lemma LastHyphen(base: string, k: nat)
    requires k > 0
    ensures var s := Candidate(base, k);
            |base| < |s| && s[|base|] == '-' && s[..|base|] == base && s[|base| + 1..] == Decimal(k)
            && forall i :: |base| < i < |s| ==> s[i] != '-'
  {
    var s, d := Candidate(base, k), Decimal(k);
    forall i | |base| < i < |s| ensures s[i] != '-' {
      assert s[i] == d[i - |base| - 1] && IsDigit(d[i - |base| - 1]);
    }
  }

  /** Two bases share a candidate only if they are the same, or one is a numbered candidate of the other. */
  lemma CommonCandidate(a: string, m: nat, b: string, k: nat)
    requires Candidate(a, m) == Candidate(b, k)
    ensures (a == b && m == k) || (m == 0 && k > 0 && a == Candidate(b, k)) || (k == 0 && m > 0 && b == Candidate(a, m))
  {
    if m > 0 && k > 0 {
      LastHyphen(a, m);
      LastHyphen(b, k);
      assert |a| == |b|;
      DecimalInjective(m, k);
    }
  }

  lemma SeparateApart(earlier: Slot, later: Slot, stored: set<string>)
    requires !NumberedFrom(earlier.base, later.base) && !NumberedFrom(later.base, earlier.base)
    requires Lower(earlier.base) == Lower(later.base) ==> OwnOf(earlier, later.base)
    ensures Apart(earlier, later, stored)
  {
    forall m: nat, k: nat | Lower(Candidate(earlier.base, m)) == Lower(Candidate(later.base, k))
      ensures earlier.own && Candidate(earlier.base, m) == Candidate(later.base, k)
    {
      LowerCandidate(earlier.base, m);
      LowerCandidate(later.base, k);
      CommonCandidate(Lower(earlier.base), m, Lower(later.base), k);
    }
  }

  /** No own name has its base, case ignored, from an earlier name but an own one of just this base. */
  ghost predicate Unshared(slots: seq<Slot>) {
    forall i, j :: 0 <= j < i < |slots| && slots[i].own && Lower(slots[j].base) == Lower(slots[i].base) ==>
      OwnOf(slots[j], slots[i].base)
  }

  /** Where the two ways agree, each name is a candidate of the bases of both. */
  lemma {:induction false} AgreeingBases(slots: seq<Slot>, stored: set<string>, i: nat) returns (m: nat, k: nat)
    requires Agrees(slots, stored) && i < |slots| && slots[i].own
    ensures Candidate(slots[i].base, m) == Candidate(slots[i].single, k)
  {
    var init, last := slots[..|slots| - 1], slots[|slots| - 1];
    assert slots == init + [last];
    AgreesSnoc(init, last, stored);
    if i < |init| {
      m, k := AgreeingBases(init, stored, i);
    } else {
      m, k := FirstFree(Lower(last.base), Used(init, stored)), FirstFree(last.single, Taken(init, stored));
    }
  }

  /** Bases that differ have no candidate in common. */
  ghost predicate NeverMeet(a: string, b: string) { forall m: nat, k: nat :: Candidate(a, m) != Candidate(b, k) }

  /**
   * For bases that are not numbered from each other, and stored names where case does not decide: the two agree exactly
   * when they start from the same bases, and share none with earlier names that the single search does not see.
   */
  lemma SeparateAgreesIff(slots: seq<Slot>, stored: set<string>)
    requires forall i :: 0 <= i < |slots| ==> slots[i].base != ""
    requires forall i :: 0 <= i < |slots| && slots[i].own && slots[i].base != slots[i].single ==>
      NeverMeet(slots[i].base, slots[i].single)
    requires TakenAsIs(slots, stored) && Separate(slots)
    ensures Agrees(slots, stored) <==> SameBases(slots) && Unshared(slots)
  {
    if Agrees(slots, stored) {
      forall i | 0 <= i < |slots| && slots[i].own ensures slots[i].base == slots[i].single {
        var m, k := AgreeingBases(slots, stored, i);
      }
    }
    if SameBases(slots) { SameBasesAgreeIff(slots, stored); }
  }

  lemma SameBasesAgreeIff(slots: seq<Slot>, stored: set<string>)
    requires forall i :: 0 <= i < |slots| ==> slots[i].base != ""
    requires SameBases(slots) && TakenAsIs(slots, stored) && Separate(slots)
    ensures Agrees(slots, stored) <==> Unshared(slots)
  {
    if Unshared(slots) {
      forall i, j | 0 <= j < i < |slots| && slots[i].own ensures Apart(slots[j], slots[i], stored) {
        SeparateApart(slots[j], slots[i], stored);
      }
      ApartAgrees(slots, stored);
    } else {
      var i, j :| 0 <= j < i < |slots| && slots[i].own && Lower(slots[j].base) == Lower(slots[i].base)
                  && !OwnOf(slots[j], slots[i].base);
      SharedBaseDisagrees(slots, stored, j, i);
    }
  }

  // ---------- one base again and again ----------

  lemma UsedFirst(prev: seq<string>, base: string, k: nat)
    requires forall i :: 0 <= i < |prev| ==> prev[i] == Candidate(base, i)
    ensures Candidate(Lower(base), k) in UsedAfter({}, prev) <==> k < |prev|
  {
    UsedAfterHas({}, prev, Candidate(Lower(base), k));
    LowerCandidate(base, k);
    forall i | 0 <= i < |prev| && Lower(prev[i]) == Candidate(Lower(base), k) ensures i == k {
      LowerCandidate(base, i);
      CandidateInjective(Lower(base), i, k);
    }
    if k < |prev| { assert Lower(prev[k]) == Candidate(Lower(base), k); }
  }

  lemma StoredFirst(prev: seq<string>, base: string, k: nat)
    requires base != "" && forall i :: 0 <= i < |prev| ==> prev[i] == Candidate(base, i)
    ensures Candidate(base, k) in StoredAfter({}, prev) <==> k < |prev|
  {
    StoredAfterHas({}, prev, Candidate(base, k));
    forall i | 0 <= i < |prev| && prev[i] == Candidate(base, k) ensures i == k { CandidateInjective(base, i, k); }
    if k < |prev| { assert prev[k] == Candidate(base, k); }
  }

  lemma NextFirst(prev: seq<string>, base: string)
    requires base != "" && forall i :: 0 <= i < |prev| ==> prev[i] == Candidate(base, i)
    ensures NextInBatch(base, UsedAfter({}, prev)) == Candidate(base, |prev|)
    ensures NextSingle(base, StoredAfter({}, prev)) == Candidate(base, |prev|)
  {
    var used, taken, n := UsedAfter({}, prev), StoredAfter({}, prev), |prev|;
    forall k: nat ensures Candidate(Lower(base), k) in used <==> k < n { UsedFirst(prev, base, k); }
    FirstFreeUnique(Lower(base), used, n, FirstFree(Lower(base), used));
    forall k: nat ensures Candidate(base, k) in taken <==> k < n { StoredFirst(prev, base, k); }
    FirstFreeUnique(base, taken, n, FirstFree(base, taken));
  }

  function Repeat(base: string, n: nat): seq<string> { if n == 0 then [] else Repeat(base, n - 1) + [base] }

  function Firsts(base: string, n: nat): seq<string> {
    if n == 0 then [] else Firsts(base, n - 1) + [Candidate(base, n - 1)]
  }

  lemma {:induction false} FirstsAt(base: string, n: nat)
    ensures |Firsts(base, n)| == n && forall i :: 0 <= i < n ==> Firsts(base, n)[i] == Candidate(base, i)
  {
    if n != 0 { FirstsAt(base, n - 1); }
  }

  lemma FirstsNext(base: string, n: nat)
    requires base != ""
    ensures NextInBatch(base, UsedAfter({}, Firsts(base, n))) == Candidate(base, n)
    ensures NextSingle(base, StoredAfter({}, Firsts(base, n))) == Candidate(base, n)
  {
    FirstsAt(base, n);
    NextFirst(Firsts(base, n), base);
  }

  lemma AgainNext(bases: seq<string>, base: string, n: nat)
    requires base != "" && Allocate(bases, {}) == Firsts(base, n) == OneByOne(bases, {})
    ensures Allocate(bases + [base], {}) == Firsts(base, n + 1)
    ensures OneByOne(bases + [base], {}) == Firsts(base, n + 1)
  {
    AllocateSnoc(bases, base, {});
    OneByOneSnoc(bases, base, {});
    FirstsNext(base, n);
  }

  /** With nothing stored a base that comes n times gets its first n candidates, in a batch as in the single search. */
  lemma {:induction false} SameBaseAgain(base: string, n: nat)
    requires base != ""
    ensures Allocate(Repeat(base, n), {}) == Firsts(base, n) == OneByOne(Repeat(base, n), {})
  {
    if n != 0 {
      SameBaseAgain(base, n - 1);
      AgainNext(Repeat(base, n - 1), base, n - 1);
    }
  }
}
