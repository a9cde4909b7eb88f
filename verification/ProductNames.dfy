/** Slug and SKU allocation: one row at a time against the collection, and a whole batch against a prefetched set. */
module ProductNames {
  import opened Text
  import Slugify

  // ---------- numbered candidates: base, base-1, base-2, ... ----------

  function Candidate(base: string, n: nat): string {
    if n == 0 then base else base + "-" + Decimal(n)
  }

  lemma CandidateInjective(base: string, m: nat, n: nat)
    requires Candidate(base, m) == Candidate(base, n)
    ensures m == n
  {
    if m != 0 && n != 0 {
      assert Candidate(base, m)[|base| + 1..] == Decimal(m);
      assert Candidate(base, n)[|base| + 1..] == Decimal(n);
      DecimalInjective(m, n);
    } else {
      assert |Candidate(base, m)| == |Candidate(base, n)|;
    }
  }

  lemma LowerCandidate(base: string, n: nat)
    ensures Lower(Candidate(base, n)) == Candidate(Lower(base), n)
  {
    if n != 0 {
      LowerConcat(base + "-", Decimal(n));
      LowerConcat(base, "-");
      LowerDigits(Decimal(n));
      assert Lower("-") == "-";
    }
  }

  ghost predicate IsFirstFree(base: string, taken: set<string>, n: nat) {
    Candidate(base, n) !in taken && forall k: nat :: k < n ==> Candidate(base, k) in taken
  }

  lemma FirstFreeUnique(base: string, taken: set<string>, m: nat, n: nat)
    requires IsFirstFree(base, taken, m) && IsFirstFree(base, taken, n)
    ensures m == n
  {
  }

  ghost function Tried(base: string, n: nat): set<string> {
    set k: nat | k < n :: Candidate(base, k)
  }

  /** Pigeonhole step: a taken candidate was not tried before, so what is left of the taken names shrinks. */
  lemma TriedGrows(base: string, taken: set<string>, n: nat)
    requires Candidate(base, n) in taken
    ensures taken - Tried(base, n + 1) < taken - Tried(base, n)
  {
    if Candidate(base, n) in Tried(base, n) {
      var k: nat :| k < n && Candidate(base, k) == Candidate(base, n);
      CandidateInjective(base, k, n);
    }
    assert Candidate(base, n) in Tried(base, n + 1);
    assert Tried(base, n) <= Tried(base, n + 1);
  }

  ghost function FirstFreeFrom(base: string, taken: set<string>, n: nat): (r: nat)
    requires forall k: nat :: k < n ==> Candidate(base, k) in taken
    ensures IsFirstFree(base, taken, r)
    decreases taken - Tried(base, n)
  {
    if Candidate(base, n) !in taken then n
    else TriedGrows(base, taken, n); FirstFreeFrom(base, taken, n + 1)
  }

  ghost function FirstFree(base: string, taken: set<string>): (r: nat)
    ensures IsFirstFree(base, taken, r)
  {
    FirstFreeFrom(base, taken, 0)
  }

  // ---------- the batch allocator as a function of the used set ----------

  function LowerSet(names: set<string>): set<string> { set s | s in names :: Lower(s) }

  function Elements(names: seq<string>): set<string> { set s | s in names }

  ghost function NextInBatch(base: string, used: set<string>): string {
    Candidate(base, FirstFree(Lower(base), used))
  }

  /** The used set once the names `out` have been added to it in lower case. */
  ghost function UsedAfter(used: set<string>, out: seq<string>): set<string> {
    if out == [] then used else UsedAfter(used, out[..|out| - 1]) + {Lower(out[|out| - 1])}
  }

  lemma {:induction false} UsedAfterHas(used: set<string>, out: seq<string>, x: string)
    ensures x in UsedAfter(used, out) <==> x in used || exists i :: 0 <= i < |out| && Lower(out[i]) == x
  {
    if out != [] { UsedAfterHas(used, out[..|out| - 1], x); }
  }

  lemma UsedAfterSnoc(used: set<string>, out: seq<string>, name: string)
    ensures UsedAfter(used, out + [name]) == UsedAfter(used, out) + {Lower(name)}
  {
    assert (out + [name])[..|out|] == out;
  }

  lemma {:induction false} UsedAfterConcat(used: set<string>, a: seq<string>, b: seq<string>)
    ensures UsedAfter(used, a + b) == UsedAfter(UsedAfter(used, a), b)
  {
    if b == [] {
      assert a + b == a;
    } else {
      UsedAfterConcat(used, a, b[..|b| - 1]);
      assert (a + b)[..|a + b| - 1] == a + b[..|b| - 1];
    }
  }

  /** The names handed out in turn when `used` holds the lower-cased names seen so far. */
  ghost function Allocate(bases: seq<string>, used: set<string>): (out: seq<string>)
    ensures |out| == |bases|
  {
    if bases == [] then []
    else
      var prev := Allocate(bases[..|bases| - 1], used);
      prev + [NextInBatch(bases[|bases| - 1], UsedAfter(used, prev))]
  }

  lemma AllocateSnoc(bases: seq<string>, base: string, used: set<string>)
    ensures Allocate(bases + [base], used)
         == Allocate(bases, used) + [NextInBatch(base, UsedAfter(used, Allocate(bases, used)))]
  {
    assert (bases + [base])[..|bases|] == bases;
  }

  lemma {:induction false} AllocateConcat(a: seq<string>, b: seq<string>, used: set<string>)
    ensures Allocate(a + b, used) == Allocate(a, used) + Allocate(b, UsedAfter(used, Allocate(a, used)))
  {
    if b == [] {
      assert a + b == a;
    } else {
      var init, last := b[..|b| - 1], b[|b| - 1];
      var first := Allocate(a, used);
      var mid := UsedAfter(used, first);
      calc {
        Allocate(a + b, used);
      ==  { assert a + b == (a + init) + [last]; AllocateSnoc(a + init, last, used); }
        Allocate(a + init, used) + [NextInBatch(last, UsedAfter(used, Allocate(a + init, used)))];
      ==  { AllocateConcat(a, init, used); UsedAfterConcat(used, first, Allocate(init, mid)); }
        (first + Allocate(init, mid)) + [NextInBatch(last, UsedAfter(mid, Allocate(init, mid)))];
      ==
        first + (Allocate(init, mid) + [NextInBatch(last, UsedAfter(mid, Allocate(init, mid)))]);
      ==  { AllocateSnoc(init, last, mid); assert init + [last] == b; }
        first + Allocate(b, mid);
      }
    }
  }

  /** Pairwise different when case is ignored, and different from every name in `used`. */
  ghost predicate FreshIgnoringCase(out: seq<string>, used: set<string>) {
    forall i :: 0 <= i < |out| ==>
      Lower(out[i]) !in used && forall j :: 0 <= j < i ==> Lower(out[j]) != Lower(out[i])
  }

  lemma {:induction false} AllocateFresh(bases: seq<string>, used: set<string>)
    ensures FreshIgnoringCase(Allocate(bases, used), used)
  {
    if bases != [] {
      var init, base := bases[..|bases| - 1], bases[|bases| - 1];
      AllocateFresh(init, used);
      var prev := Allocate(init, used);
      var taken := UsedAfter(used, prev);
      LowerCandidate(base, FirstFree(Lower(base), taken));
      UsedAfterHas(used, prev, Lower(NextInBatch(base, taken)));
    }
  }

  // ---------- the prefetch query ----------

  /** The pattern ^base(-\d+)?$ with the i flag. */
  predicate MatchesNumbered(s: string, base: string) {
    && |base| <= |s|
    && Lower(s[..|base|]) == Lower(base)
    && (|s| == |base|
        || (|s| > |base| + 1 && s[|base|] == '-' && AllDigits(s[|base| + 1..])))
  }

  function Prefetch(stored: set<string>, bases: set<string>): set<string> {
    set s | s in stored && exists b :: b in bases && MatchesNumbered(s, b)
  }

  lemma NumberedNamesMatch(s: string, base: string, n: nat)
    requires Lower(s) == Candidate(Lower(base), n)
    ensures MatchesNumbered(s, base)
  {
    var t := Lower(s);
    assert s[..|base|] == s[..|base|] && Lower(s[..|base|]) == t[..|base|] == Lower(base);
    if n != 0 {
      var d := Decimal(n);
      assert t[|base|] == '-' && t[|base| + 1..] == d;
      forall i | |base| < i < |s| ensures IsDigit(s[i]) {
        assert t[i] == d[i - |base| - 1];
      }
    }
  }

  /** On the candidates of a prefetched base, the prefetched names and the whole collection agree. */
  lemma PrefetchAgrees(stored: set<string>, bases: set<string>, base: string, n: nat)
    requires base in bases
    ensures Candidate(Lower(base), n) in LowerSet(Prefetch(stored, bases))
       <==> Candidate(Lower(base), n) in LowerSet(stored)
  {
    var c := Candidate(Lower(base), n);
    if c in LowerSet(stored) {
      var s :| s in stored && Lower(s) == c;
      NumberedNamesMatch(s, base, n);
      assert s in Prefetch(stored, bases);
    }
  }

  /** The prefilter loses nothing: the batch gets the names it would get with the whole collection in memory. */
  lemma {:induction false} PrefilterLosesNothing(stored: set<string>, all: set<string>, bases: seq<string>)
    requires Elements(bases) <= all
    ensures Allocate(bases, LowerSet(Prefetch(stored, all))) == Allocate(bases, LowerSet(stored))
  {
    if bases != [] {
      var init, base := bases[..|bases| - 1], bases[|bases| - 1];
      assert base in Elements(bases) && Elements(init) <= Elements(bases);
      PrefilterLosesNothing(stored, all, init);
      var prev := Allocate(init, LowerSet(stored));
      var few, full := UsedAfter(LowerSet(Prefetch(stored, all)), prev), UsedAfter(LowerSet(stored), prev);
      forall k: nat ensures Candidate(Lower(base), k) in few <==> Candidate(Lower(base), k) in full {
        PrefetchAgrees(stored, all, base, k);
        UsedAfterHas(LowerSet(Prefetch(stored, all)), prev, Candidate(Lower(base), k));
        UsedAfterHas(LowerSet(stored), prev, Candidate(Lower(base), k));
      }
      FirstFreeUnique(Lower(base), full, FirstFree(Lower(base), few), FirstFree(Lower(base), full));
    }
  }

  // ---------- one row at a time, asking the collection each time ----------

  /** What is stored once the names `out` have been inserted: the empty one never is, the field being required. */
  ghost function StoredAfter(stored: set<string>, out: seq<string>): set<string> {
    if out == [] then stored
    else
      var before := StoredAfter(stored, out[..|out| - 1]);
      if out[|out| - 1] == "" then before else before + {out[|out| - 1]}
  }

  lemma {:induction false} StoredAfterHas(stored: set<string>, out: seq<string>, x: string)
    ensures x in StoredAfter(stored, out) <==> x in stored || (x != "" && x in out)
  {
    if out != [] {
      StoredAfterHas(stored, out[..|out| - 1], x);
      assert out == out[..|out| - 1] + [out[|out| - 1]];
    }
  }

  lemma StoredAfterSnoc(stored: set<string>, out: seq<string>, name: string)
    ensures StoredAfter(stored, out + [name])
         == if name == "" then StoredAfter(stored, out) else StoredAfter(stored, out) + {name}
  {
    assert (out + [name])[..|out|] == out;
  }

  /** Names found one by one; each is inserted before the next is looked for. */
  ghost function OneByOne(bases: seq<string>, stored: set<string>): (out: seq<string>)
    ensures |out| == |bases|
  {
    if bases == [] then []
    else
      var prev := OneByOne(bases[..|bases| - 1], stored);
      var base := bases[|bases| - 1];
      prev + [Candidate(base, FirstFree(base, StoredAfter(stored, prev)))]
  }

  lemma OneByOneSnoc(bases: seq<string>, base: string, stored: set<string>)
    ensures OneByOne(bases + [base], stored)
         == OneByOne(bases, stored) + [Candidate(base, FirstFree(base, StoredAfter(stored, OneByOne(bases, stored))))]
  {
    assert (bases + [base])[..|bases|] == bases;
  }

  /** The batch equals the one-by-one names exactly when these never clash in anything but case. */
  lemma {:induction false} BatchAgreesIff(bases: seq<string>, stored: set<string>)
    ensures Allocate(bases, LowerSet(stored)) == OneByOne(bases, stored)
       <==> FreshIgnoringCase(OneByOne(bases, stored), LowerSet(stored))
  {
    AllocateFresh(bases, LowerSet(stored));
    if bases != [] && FreshIgnoringCase(OneByOne(bases, stored), LowerSet(stored)) {
      var init, base := bases[..|bases| - 1], bases[|bases| - 1];
      var prev := OneByOne(init, stored);
      var out := OneByOne(bases, stored);
      assert forall i :: 0 <= i < |prev| ==> prev[i] == out[i];
      BatchAgreesIff(init, stored);
      var single := StoredAfter(stored, prev);
      var used := UsedAfter(LowerSet(stored), prev);
      var n := FirstFree(base, single);
      UsedAfterHas(LowerSet(stored), prev, Lower(out[|prev|]));
      LowerCandidate(base, n);
      forall k: nat | k < n ensures Candidate(Lower(base), k) in used {
        LowerCandidate(base, k);
        UsedAfterHas(LowerSet(stored), prev, Lower(Candidate(base, k)));
        StoredAfterHas(stored, prev, Candidate(base, k));
      }
      FirstFreeUnique(Lower(base), used, n, FirstFree(Lower(base), used));
    }
  }

  /** SKUs keep their case: one that differs from a stored one in case alone is numbered by the batch only. */
  lemma MixedCaseDisagrees()
    ensures Allocate(["abc-x"], LowerSet({"ABC-x"})) != OneByOne(["abc-x"], {"ABC-x"})
  {
    var bases, stored := ["abc-x"], {"ABC-x"};
    assert bases[..0] == [] && OneByOne([], stored) == [];
    FirstFreeUnique("abc-x", stored, 0, FirstFree("abc-x", stored));
    assert OneByOne(bases, stored)[0] == "abc-x";
    assert Lower("ABC-x") == "abc-x" == Lower("abc-x");
    BatchAgreesIff(bases, stored);
  }

  // ---------- slugs ----------

  ghost predicate AllLower(names: set<string>) { forall s :: s in names ==> Lower(s) == s }

  ghost predicate AtMostOneEmpty(bases: seq<string>) {
    forall i, j :: 0 <= i < j < |bases| ==> !(bases[i] == "" && bases[j] == "")
  }

  lemma {:induction false} OneByOneShape(bases: seq<string>, stored: set<string>, i: nat)
    requires i < |bases|
    ensures OneByOne(bases, stored)[i]
         == Candidate(bases[i], FirstFree(bases[i], StoredAfter(stored, OneByOne(bases, stored)[..i])))
  {
    var init := bases[..|bases| - 1];
    if i < |init| {
      OneByOneShape(init, stored, i);
      assert OneByOne(bases, stored)[..i] == OneByOne(init, stored)[..i];
    } else {
      assert OneByOne(bases, stored)[..i] == OneByOne(init, stored);
    }
  }

  /** What the single search finds for the i-th of some slug bases. */
  lemma SlugAt(bases: seq<string>, stored: set<string>, i: nat)
    requires AllLower(Elements(bases)) && "" !in stored && i < |bases|
    ensures var out := OneByOne(bases, stored);
            && Lower(out[i]) == out[i] && out[i] !in stored && (out[i] == "" <==> bases[i] == "")
            && forall j :: 0 <= j < i && out[j] != "" ==> out[j] != out[i]
  {
    var out := OneByOne(bases, stored);
    var taken := StoredAfter(stored, out[..i]);
    var n := FirstFree(bases[i], taken);
    OneByOneShape(bases, stored, i);
    StoredAfterHas(stored, out[..i], out[i]);
    StoredAfterHas(stored, out[..i], "");
    assert bases[i] in Elements(bases);
    LowerCandidate(bases[i], n);
    if bases[i] == "" {
      assert Candidate("", 0) !in taken;
      FirstFreeUnique("", taken, 0, n);
    }
    forall j | 0 <= j < i && out[j] != "" ensures out[j] != out[i] {
      assert out[..i][j] in out[..i];
    }
  }

  /** Slugs found one by one can only clash on being empty. */
  lemma SlugsFreshIff(bases: seq<string>, stored: set<string>)
    requires AllLower(Elements(bases)) && "" !in stored
    ensures FreshIgnoringCase(OneByOne(bases, stored), stored) <==> AtMostOneEmpty(bases)
  {
    var out := OneByOne(bases, stored);
    forall i | 0 <= i < |bases|
      ensures Lower(out[i]) == out[i] && out[i] !in stored && (out[i] == "" <==> bases[i] == "")
      ensures forall j :: 0 <= j < i && out[j] != "" ==> out[j] != out[i]
    {
      SlugAt(bases, stored, i);
    }
    if !AtMostOneEmpty(bases) {
      var i, j :| 0 <= i < j < |bases| && bases[i] == "" && bases[j] == "";
      assert out[i] == out[j];
    }
  }

  lemma LowerSetOfLower(names: set<string>)
    requires AllLower(names)
    ensures LowerSet(names) == names
  {
    forall s | s in names ensures s in LowerSet(names) { assert Lower(s) in LowerSet(names); }
  }

  /** For slug bases the two ways agree unless two rows have a name without a single slug character. */
  lemma SlugBatchAgreesIff(bases: seq<string>, stored: set<string>)
    requires AllLower(Elements(bases)) && AllLower(stored) && "" !in stored
    ensures Allocate(bases, LowerSet(stored)) == OneByOne(bases, stored) <==> AtMostOneEmpty(bases)
  {
    LowerSetOfLower(stored);
    BatchAgreesIff(bases, stored);
    SlugsFreshIff(bases, stored);
  }

  /** Two rows with no slug character: the second is numbered in a batch and has the empty slug on its own. */
  lemma EmptyTwiceDisagrees()
    ensures Allocate(["", ""], LowerSet({})) != OneByOne(["", ""], {})
  {
    assert !AtMostOneEmpty(["", ""]) by { assert ["", ""][0] == "" && ["", ""][1] == ""; }
    assert Lower("") == "";
    SlugBatchAgreesIff(["", ""], {});
  }
}
