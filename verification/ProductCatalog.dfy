/** productController.js: the product collection with its unique names, single creation and bulk creation. */
module ProductCatalog {
  import opened Text
  import opened Slugify
  import opened ProductNames
  import opened OwnNames
  import opened Picks
  import opened Wrappers

  /** The naming fields of one incoming row; "" stands for a field that is missing. */
  datatype Row = Row(name: string, slug: string, sku: string, variantSkus: seq<string>)

  datatype Names = Names(slug: string, sku: string, variantSkus: seq<string>)

  type ProductId = nat

  function AlphaNumerics(s: string): string {
    if s == [] then []
    else if IsDigit(s[0]) || 'a' <= s[0] <= 'z' then [s[0]] + AlphaNumerics(s[1..])
    else AlphaNumerics(s[1..])
  }

  function SkuPrefix(name: string): string {
    var a := AlphaNumerics(Lower(name));
    if a == "" then "item" else if |a| > 5 then a[..5] else a
  }

  function MakeProductSku(name: string, index: nat): string {
    var digits := Decimal(index);
    SkuPrefix(name) + "-" + (if |digits| == 1 then "00" else if |digits| == 2 then "0" else "") + digits
  }

  function SlugBase(row: Row): string {
    Slugify.Slugify(if Blank(row.slug) then row.name else row.slug)
  }

  function SkuBase(row: Row): string {
    var raw := SkuText(row);
    if '-' in raw then Trim(raw) else MakeProductSku(row.name, 1)
  }

  /** What generateUniqueSku starts from. */
  function SingleSkuBase(text: string, index: nat): string {
    Trim(if '-' in text then text else MakeProductSku(text, index))
  }

  /** The text a single creation hands to generateUniqueSku. */
  function SkuText(row: Row): string { if Blank(row.sku) then row.name else row.sku }

  /** A SKU that is sent without a hyphen is made from the product's name in a batch, but from itself otherwise. */
  lemma SkuBaseAgreesIff(row: Row)
    ensures SkuBase(row) == SingleSkuBase(SkuText(row), 1)
       <==> '-' in SkuText(row) || SkuPrefix(row.name) == SkuPrefix(SkuText(row))
  {
    TrimUntrimmable(MakeProductSku(SkuText(row), 1));
    MadeSkuUntrimmable(SkuText(row), 1);
    var p, q := SkuPrefix(row.name), SkuPrefix(SkuText(row));
    assert MakeProductSku(row.name, 1) == p + "-00" + Decimal(1);
    assert MakeProductSku(SkuText(row), 1) == q + "-00" + Decimal(1);
    if p + "-00" + Decimal(1) == q + "-00" + Decimal(1) {
      assert |p| == |q|;
      assert (p + "-00" + Decimal(1))[..|p|] == p && (q + "-00" + Decimal(1))[..|q|] == q;
    }
  }

  /** The least numbered name of a base that is not taken. */
  ghost function FreeName(base: string, taken: set<string>): string { Candidate(base, FirstFree(base, taken)) }

  /** What a variant's SKU starts from in a single creation: the one sent, or one made from the product's name. */
  function SingleVariantBase(row: Row, i: nat): string
    requires i < |row.variantSkus|
  {
    SingleSkuBase(if Blank(row.variantSkus[i]) then MakeProductSku(row.name, i + 1) else row.variantSkus[i], 1)
  }

  /** A row without variants gets one default variant that carries the row's own sku. */
  function VariantRows(row: Row): (v: seq<string>) {
    if row.variantSkus == [] then [row.sku] else row.variantSkus
  }

  function VariantSkuBase(name: string, sku: string, index: nat): string {
    var made := MakeProductSku(name, index + 1);
    var raw := if Blank(sku) then made else sku;
    if '-' in raw then Trim(raw) else made
  }

  function VariantSkuBases(row: Row): seq<string> {
    seq(|VariantRows(row)|, i requires 0 <= i < |VariantRows(row)| => VariantSkuBase(row.name, VariantRows(row)[i], i))
  }

  function SlugBases(rows: seq<Row>): (bases: seq<string>)
    ensures |bases| == |rows| && forall i :: 0 <= i < |rows| ==> bases[i] == SlugBase(rows[i])
  {
    seq(|rows|, i requires 0 <= i < |rows| => SlugBase(rows[i]))
  }

  /** All SKU bases of a batch in allocation order: each row's own, then those of its variants. */
  function SkuBases(rows: seq<Row>): seq<string> {
    if rows == [] then []
    else SkuBases(rows[..|rows| - 1]) + [SkuBase(rows[|rows| - 1])] + VariantSkuBases(rows[|rows| - 1])
  }

  function SlugsOf(names: seq<Names>): (s: seq<string>)
    ensures |s| == |names| && forall i :: 0 <= i < |names| ==> s[i] == names[i].slug
  {
    seq(|names|, i requires 0 <= i < |names| => names[i].slug)
  }

  function SkusOf(names: seq<Names>): seq<string> {
    if names == [] then []
    else SkusOf(names[..|names| - 1]) + [names[|names| - 1].sku] + names[|names| - 1].variantSkus
  }

  /** One set of names for each row, with one SKU for each of its variants. */
  ghost predicate SameShape(out: seq<Names>, rows: seq<Row>) {
    && |out| == |rows|
    && forall i :: 0 <= i < |rows| ==> |out[i].variantSkus| == |VariantRows(rows[i])|
  }

  // ---------- batch allocation ----------

  method FindFreeInBatch(base: string, used: set<string>) returns (name: string)
    ensures name == NextInBatch(base, used)
  {
    name := base;
    var count := 1;
    ghost var low := Lower(base);
    LowerCandidate(base, 0);
    while Lower(name) in used
      invariant count >= 1 && name == Candidate(base, count - 1)
      invariant forall k: nat :: k < count - 1 ==> Candidate(low, k) in used
      decreases used - Tried(low, count - 1)
    {
      LowerCandidate(base, count - 1);
      TriedGrows(low, used, count - 1);
      name := base + "-" + Decimal(count);
      count := count + 1;
    }
    LowerCandidate(base, count - 1);
    FirstFreeUnique(low, used, count - 1, FirstFree(low, used));
  }

  method AllocateVariants(bases: seq<string>, used0: set<string>) returns (skus: seq<string>, used: set<string>)
    ensures skus == Allocate(bases, used0)
    ensures used == UsedAfter(used0, skus)
  {
    skus, used := [], used0;
    for j := 0 to |bases|
      invariant skus == Allocate(bases[..j], used0)
      invariant used == UsedAfter(used0, skus)
    {
      var sku := FindFreeInBatch(bases[j], used);
      AllocateSnoc(bases[..j], bases[j], used0);
      UsedAfterSnoc(used0, skus, sku);
      assert bases[..j + 1] == bases[..j] + [bases[j]];
      skus, used := skus + [sku], used + {Lower(sku)};
    }
    assert bases[..|bases|] == bases;
  }

  method AllocateRow(row: Row, usedSlugs0: set<string>, usedSkus0: set<string>)
      returns (names: Names, usedSlugs: set<string>, usedSkus: set<string>)
    ensures names.slug == NextInBatch(SlugBase(row), usedSlugs0)
    ensures usedSlugs == usedSlugs0 + {Lower(names.slug)}
    ensures names.sku == NextInBatch(SkuBase(row), usedSkus0)
    ensures names.variantSkus == Allocate(VariantSkuBases(row), usedSkus0 + {Lower(names.sku)})
    ensures usedSkus == UsedAfter(usedSkus0 + {Lower(names.sku)}, names.variantSkus)
    ensures |names.variantSkus| == |VariantRows(row)|
  {
    var slug := FindFreeInBatch(SlugBase(row), usedSlugs0);
    usedSlugs := usedSlugs0 + {Lower(slug)};
    var sku := FindFreeInBatch(SkuBase(row), usedSkus0);
    var variantSkus;
    variantSkus, usedSkus := AllocateVariants(VariantSkuBases(row), usedSkus0 + {Lower(sku)});
    names := Names(slug, sku, variantSkus);
  }

  method AllocateRows(rows: seq<Row>, slugs0: set<string>, skus0: set<string>) returns (out: seq<Names>)
    ensures SameShape(out, rows)
    ensures SlugsOf(out) == Allocate(SlugBases(rows), slugs0)
    ensures SkusOf(out) == Allocate(SkuBases(rows), skus0)
  {
    var usedSlugs, usedSkus := slugs0, skus0;
    out := [];
    for i := 0 to |rows|
      invariant SameShape(out, rows[..i])
      invariant SlugsOf(out) == Allocate(SlugBases(rows[..i]), slugs0)
      invariant usedSlugs == UsedAfter(slugs0, SlugsOf(out))
      invariant SkusOf(out) == Allocate(SkuBases(rows[..i]), skus0)
      invariant usedSkus == UsedAfter(skus0, SkusOf(out))
    {
      var names;
      names, usedSlugs, usedSkus := AllocateRow(rows[i], usedSlugs, usedSkus);
      AppendRow(rows, i, out, names, slugs0, skus0);
      ShapeSnoc(rows, i, out, names);
      out := out + [names];
    }
    assert rows[..|rows|] == rows;
  }

  /** Allocates the names of a whole batch, as if every stored name were in the used sets. */
  method AllocateBatch(rows: seq<Row>, storedSlugs: set<string>, storedSkus: set<string>) returns (out: seq<Names>)
    ensures SameShape(out, rows)
    ensures SlugsOf(out) == Allocate(SlugBases(rows), LowerSet(storedSlugs))
    ensures SkusOf(out) == Allocate(SkuBases(rows), LowerSet(storedSkus))
  {
    var slugBases, skuBases := SlugBases(rows), SkuBases(rows);
    PrefilterLosesNothing(storedSlugs, Elements(slugBases), slugBases);
    PrefilterLosesNothing(storedSkus, Elements(skuBases), skuBases);
    var usedSlugs := LowerSet(Prefetch(storedSlugs, Elements(slugBases)));
    var usedSkus := LowerSet(Prefetch(storedSkus, Elements(skuBases)));
    out := AllocateRows(rows, usedSlugs, usedSkus);
  }

  /** One more row's names extend the allocation of the rows before it. */
  lemma AppendRow(rows: seq<Row>, i: nat, out: seq<Names>, names: Names, slugs0: set<string>, skus0: set<string>)
    requires i < |rows|
    requires SlugsOf(out) == Allocate(SlugBases(rows[..i]), slugs0)
    requires SkusOf(out) == Allocate(SkuBases(rows[..i]), skus0)
    requires names.slug == NextInBatch(SlugBase(rows[i]), UsedAfter(slugs0, SlugsOf(out)))
    requires names.sku == NextInBatch(SkuBase(rows[i]), UsedAfter(skus0, SkusOf(out)))
    requires names.variantSkus == Allocate(VariantSkuBases(rows[i]), UsedAfter(skus0, SkusOf(out)) + {Lower(names.sku)})
    ensures SlugsOf(out + [names]) == Allocate(SlugBases(rows[..i + 1]), slugs0)
    ensures UsedAfter(slugs0, SlugsOf(out + [names])) == UsedAfter(slugs0, SlugsOf(out)) + {Lower(names.slug)}
    ensures SkusOf(out + [names]) == Allocate(SkuBases(rows[..i + 1]), skus0)
    ensures UsedAfter(skus0, SkusOf(out + [names]))
         == UsedAfter(UsedAfter(skus0, SkusOf(out)) + {Lower(names.sku)}, names.variantSkus)
  {
    SlugBasesSnoc(rows, i);
    SkuBasesSnoc(rows, i);
    NamesSnoc(out, names);
    AllocateSnoc(SlugBases(rows[..i]), SlugBase(rows[i]), slugs0);
    UsedAfterSnoc(slugs0, SlugsOf(out), names.slug);
    AllocateSnoc(SkuBases(rows[..i]), SkuBase(rows[i]), skus0);
    UsedAfterSnoc(skus0, SkusOf(out), names.sku);
    AllocateConcat(SkuBases(rows[..i]) + [SkuBase(rows[i])], VariantSkuBases(rows[i]), skus0);
    UsedAfterConcat(skus0, SkusOf(out) + [names.sku], names.variantSkus);
  }

  lemma ShapeSnoc(rows: seq<Row>, i: nat, out: seq<Names>, names: Names)
    requires i < |rows| && SameShape(out, rows[..i]) && |names.variantSkus| == |VariantRows(rows[i])|
    ensures SameShape(out + [names], rows[..i + 1])
  {
  }

  lemma SlugBasesSnoc(rows: seq<Row>, i: nat)
    requires i < |rows|
    ensures SlugBases(rows[..i + 1]) == SlugBases(rows[..i]) + [SlugBase(rows[i])]
  {
  }

  lemma SkuBasesSnoc(rows: seq<Row>, i: nat)
    requires i < |rows|
    ensures SkuBases(rows[..i + 1]) == SkuBases(rows[..i]) + [SkuBase(rows[i])] + VariantSkuBases(rows[i])
  {
    assert rows[..i + 1][..i] == rows[..i];
  }

  lemma NamesSnoc(out: seq<Names>, names: Names)
    ensures SlugsOf(out + [names]) == SlugsOf(out) + [names.slug]
    ensures SkusOf(out + [names]) == SkusOf(out) + [names.sku] + names.variantSkus
  {
    assert (out + [names])[..|out|] == out;
  }

  // ---------- the collection ----------

  ghost predicate UniqueNames(docs: map<ProductId, Names>) {
    forall a, b :: a in docs && b in docs && a != b ==> docs[a].slug != docs[b].slug && docs[a].sku != docs[b].sku
  }

  ghost predicate CleanNames(docs: map<ProductId, Names>) {
    forall a :: a in docs ==> docs[a].slug != "" && Lower(docs[a].slug) == docs[a].slug
  }

  ghost predicate ValidDocs(docs: map<ProductId, Names>) { UniqueNames(docs) && CleanNames(docs) }

  function StoredSlugs(docs: map<ProductId, Names>): set<string> { set id | id in docs :: docs[id].slug }

  function StoredSkus(docs: map<ProductId, Names>): set<string> { set id | id in docs :: docs[id].sku }

  function Others(docs: map<ProductId, Names>, exclude: Option<ProductId>): map<ProductId, Names> {
    if exclude.Some? then docs - {exclude.value} else docs
  }

  /** A name without blanks at its ends, which the schema's trim leaves alone. */
  ghost predicate Untrimmable(s: string) { s == [] || (!IsSpace(s[0]) && !IsSpace(s[|s| - 1])) }

  lemma {:induction false} TrimUntrimmable(s: string)
    ensures Untrimmable(Trim(s))
    ensures Untrimmable(s) ==> Trim(s) == s
  {
    TrimStartLeads(s);
    TrimEndEnds(TrimStart(s));
  }

  lemma {:induction false} TrimStartLeads(s: string)
    ensures TrimStart(s) == [] || !IsSpace(TrimStart(s)[0])
  {
    if s != [] && IsSpace(s[0]) { TrimStartLeads(s[1..]); }
  }

  lemma {:induction false} TrimEndEnds(s: string)
    ensures TrimEnd(s) == [] || !IsSpace(TrimEnd(s)[|TrimEnd(s)| - 1])
    ensures TrimEnd(s) != [] ==> TrimEnd(s)[0] == s[0]
  {
    if s != [] && IsSpace(s[|s| - 1]) {
      TrimEndEnds(s[..|s| - 1]);
    }
  }

  lemma CandidateUntrimmable(base: string, n: nat)
    requires Untrimmable(base)
    ensures Untrimmable(Candidate(base, n))
  {
    if n != 0 {
      var c, d := Candidate(base, n), Decimal(n);
      assert c[|c| - 1] == d[|d| - 1] && IsDigit(d[|d| - 1]);
      assert c[0] == if base == "" then '-' else base[0];
    }
  }

  lemma MadeSkuUntrimmable(name: string, index: nat)
    ensures Untrimmable(MakeProductSku(name, index))
  {
    var a, s, d := AlphaNumerics(Lower(name)), MakeProductSku(name, index), Decimal(index);
    AlphaNumericsAlphabet(Lower(name));
    assert s[|s| - 1] == d[|d| - 1] && IsDigit(d[|d| - 1]);
    assert s[0] == if a == "" then 'i' else a[0];
  }

  lemma {:induction false} AlphaNumericsAlphabet(s: string)
    ensures forall i :: 0 <= i < |AlphaNumerics(s)| ==> !IsSpace(AlphaNumerics(s)[i]) && AlphaNumerics(s)[i] != '-'
  {
    if s != [] { AlphaNumericsAlphabet(s[1..]); }
  }

  predicate Distinct(ids: seq<ProductId>) { forall i, j :: 0 <= i < j < |ids| ==> ids[i] != ids[j] }

  // ---------- what the allocated names look like ----------

  lemma {:induction false} AllocateUntrimmable(bases: seq<string>, used: set<string>)
    requires forall i :: 0 <= i < |bases| ==> Untrimmable(bases[i])
    ensures forall i :: 0 <= i < |bases| ==> Untrimmable(Allocate(bases, used)[i])
  {
    if bases != [] {
      var init, base := bases[..|bases| - 1], bases[|bases| - 1];
      AllocateUntrimmable(init, used);
      CandidateUntrimmable(base, FirstFree(Lower(base), UsedAfter(used, Allocate(init, used))));
    }
  }

  lemma {:induction false} AllocateKeepsLower(bases: seq<string>, used: set<string>)
    requires forall i :: 0 <= i < |bases| ==> Lower(bases[i]) == bases[i]
    ensures forall i :: 0 <= i < |bases| ==> Lower(Allocate(bases, used)[i]) == Allocate(bases, used)[i]
  {
    if bases != [] {
      var init, base := bases[..|bases| - 1], bases[|bases| - 1];
      AllocateKeepsLower(init, used);
      LowerCandidate(base, FirstFree(Lower(base), UsedAfter(used, Allocate(init, used))));
    }
  }

  lemma SlugBaseClean(row: Row)
    ensures Lower(SlugBase(row)) == SlugBase(row) && Untrimmable(SlugBase(row))
  {
    var text := if Blank(row.slug) then row.name else row.slug;
    SlugifyIdempotent(text);
    SlugifyIsSlug(text);
  }

  lemma SkuBaseUntrimmable(name: string, raw: string, index: nat)
    ensures Untrimmable(if '-' in raw then Trim(raw) else MakeProductSku(name, index))
  {
    TrimUntrimmable(raw);
    MadeSkuUntrimmable(name, index);
  }

  lemma {:induction false} SkuBasesUntrimmable(rows: seq<Row>)
    ensures forall i :: 0 <= i < |SkuBases(rows)| ==> Untrimmable(SkuBases(rows)[i])
  {
    if rows != [] {
      var row := rows[|rows| - 1];
      SkuBasesUntrimmable(rows[..|rows| - 1]);
      SkuBaseUntrimmable(row.name, if Blank(row.sku) then row.name else row.sku, 1);
      var v := VariantRows(row);
      forall i | 0 <= i < |v| ensures Untrimmable(VariantSkuBases(row)[i]) {
        var made := MakeProductSku(row.name, i + 1);
        SkuBaseUntrimmable(row.name, if Blank(v[i]) then made else v[i], i + 1);
      }
    }
  }

  lemma {:induction false} TrimKeepsHyphen(s: string)
    requires '-' in s
    ensures '-' in TrimStart(s) && '-' in TrimEnd(s)
  {
    if IsSpace(s[0]) { TrimKeepsHyphen(s[1..]); }
    if IsSpace(s[|s| - 1]) { TrimKeepsHyphen(s[..|s| - 1]); }
  }

  lemma {:induction false} SkuBasesNotEmpty(rows: seq<Row>)
    ensures "" !in SkuBases(rows)
  {
    if rows != [] {
      var row := rows[|rows| - 1];
      SkuBasesNotEmpty(rows[..|rows| - 1]);
      if '-' in SkuText(row) { TrimNotEmpty(SkuText(row)); }
      var v := VariantRows(row);
      forall i | 0 <= i < |v| ensures VariantSkuBases(row)[i] != "" {
        var raw := if Blank(v[i]) then MakeProductSku(row.name, i + 1) else v[i];
        if '-' in raw { TrimNotEmpty(raw); }
      }
    }
  }

  lemma TrimNotEmpty(s: string)
    requires '-' in s
    ensures Trim(s) != ""
  {
    TrimKeepsHyphen(s);
    TrimKeepsHyphen(TrimStart(s));
  }

  // ---------- a batch's own SKUs and those of creating the rows in turn ----------

  /** The bases of one row's SKUs: for its own in a batch and on single creation, and for its variants in a batch. */
  datatype Plan = Plan(base: string, single: string, created: bool, variants: seq<string>)

  /** Row-by-row creation stores a row when its name has a slug character. */
  function PlanOf(row: Row): Plan {
    Plan(SkuBase(row), SingleSkuBase(SkuText(row), 1), SlugBase(row) != "", VariantSkuBases(row))
  }

  function Plans(rows: seq<Row>): (plans: seq<Plan>)
    ensures |plans| == |rows|
  {
    if rows == [] then [] else Plans(rows[..|rows| - 1]) + [PlanOf(rows[|rows| - 1])]
  }

  lemma PlansSnoc(rows: seq<Row>, i: nat)
    requires i < |rows|
    ensures Plans(rows[..i + 1]) == Plans(rows[..i]) + [PlanOf(rows[i])]
  {
    assert rows[..i + 1][..i] == rows[..i];
  }

  function PlanBases(plans: seq<Plan>): seq<string> {
    if plans == [] then []
    else
      var plan := plans[|plans| - 1];
      PlanBases(plans[..|plans| - 1]) + [plan.base] + plan.variants
  }

  lemma {:induction false} PlanBasesOfRows(rows: seq<Row>)
    ensures PlanBases(Plans(rows)) == SkuBases(rows)
  {
    if rows != [] {
      PlanBasesOfRows(rows[..|rows| - 1]);
      PlanBasesSnoc(Plans(rows[..|rows| - 1]), PlanOf(rows[|rows| - 1]));
    }
  }

  lemma PlanBasesSnoc(plans: seq<Plan>, plan: Plan)
    ensures PlanBases(plans + [plan]) == PlanBases(plans) + [plan.base] + plan.variants
  {
    assert (plans + [plan])[..|plans|] == plans;
  }

  /** What creating the rows in turn starts from, for those that get created. */
  function SinglesOf(plans: seq<Plan>): seq<string> {
    if plans == [] then []
    else
      var plan := plans[|plans| - 1];
      SinglesOf(plans[..|plans| - 1]) + if plan.created then [plan.single] else []
  }

  lemma SinglesSnoc(plans: seq<Plan>, plan: Plan)
    ensures SinglesOf(plans + [plan]) == SinglesOf(plans) + if plan.created then [plan.single] else []
  {
    assert (plans + [plan])[..|plans|] == plans;
  }

  /** The own SKUs of the rows that get created. */
  function OwnSkus(plans: seq<Plan>, out: seq<Names>): seq<string>
    requires |out| == |plans|
  {
    if plans == [] then []
    else
      var n := |plans| - 1;
      OwnSkus(plans[..n], out[..n]) + if plans[n].created then [out[n].sku] else []
  }

  ghost predicate Shaped(out: seq<Names>, plans: seq<Plan>) {
    |out| == |plans| && forall i :: 0 <= i < |plans| ==> |out[i].variantSkus| == |plans[i].variants|
  }

  lemma ShapedSnoc(rows: seq<Row>, out: seq<Names>, plans: seq<Plan>, plan: Plan)
    requires rows != [] && SameShape(out, rows) && Shaped(out[..|rows| - 1], plans)
    requires |plan.variants| == |VariantRows(rows[|rows| - 1])|
    ensures Shaped(out, plans + [plan])
  {
    assert forall i :: 0 <= i < |plans| ==> out[..|rows| - 1][i] == out[i];
  }

  lemma ShapePrefix(rows: seq<Row>, out: seq<Names>)
    requires rows != [] && SameShape(out, rows)
    ensures SameShape(out[..|rows| - 1], rows[..|rows| - 1])
  {
  }

  lemma PlanVariants(row: Row)
    ensures |PlanOf(row).variants| == |VariantRows(row)|
  {
  }

  lemma {:induction false} ShapeOfPlans(rows: seq<Row>, out: seq<Names>)
    requires SameShape(out, rows)
    ensures Shaped(out, Plans(rows))
  {
    if rows != [] {
      var n := |rows| - 1;
      ShapePrefix(rows, out);
      ShapeOfPlans(rows[..n], out[..n]);
      PlanVariants(rows[n]);
      ShapedSnoc(rows, out, Plans(rows[..n]), PlanOf(rows[n]));
    }
  }

  function VariantSlots(bases: seq<string>): seq<Slot> {
    seq(|bases|, i requires 0 <= i < |bases| => Slot(bases[i], false, ""))
  }

  function OwnSlot(plan: Plan): Slot { Slot(plan.base, plan.created, plan.single) }

  function PlanSlots(plan: Plan): seq<Slot> { [OwnSlot(plan)] + VariantSlots(plan.variants) }

  /** The SKUs of a batch in allocation order; those of variants and of refused rows are nobody's own. */
  function Slots(plans: seq<Plan>): seq<Slot> {
    if plans == [] then [] else Slots(plans[..|plans| - 1]) + PlanSlots(plans[|plans| - 1])
  }

  /** One row's slots: its own SKU, if the row gets created, and none of its variants'. */
  lemma OwnOfPlan(plan: Plan, names: Names)
    requires |names.variantSkus| == |plan.variants|
    ensures Own(PlanSlots(plan), [names.sku] + names.variantSkus) == if plan.created then [names.sku] else []
    ensures SingleBases(PlanSlots(plan)) == if plan.created then [plan.single] else []
  {
    var own, slots := OwnSlot(plan), VariantSlots(plan.variants);
    OwnSnoc([], own, [], names.sku);
    OwnSnoc([], own, [], own.single);
    assert [] + [own] == [own] && [] + [names.sku] == [names.sku] && Singles([own]) == [] + [own.single];
    OwnConcat([own], slots, [names.sku], names.variantSkus);
    PickedNone(Owned(slots), names.variantSkus);
    PickedNone(Owned(slots), Singles(slots));
  }

  lemma Regroup(a: seq<string>, x: string, b: seq<string>)
    ensures a + [x] + b == a + ([x] + b)
  {
  }

  lemma {:induction false} SlotBases(plans: seq<Plan>)
    ensures Bases(Slots(plans)) == PlanBases(plans)
  {
    if plans != [] {
      var n := |plans| - 1;
      SlotBases(plans[..n]);
      assert Bases(PlanSlots(plans[n])) == [plans[n].base] + plans[n].variants;
      BasesConcat(Slots(plans[..n]), PlanSlots(plans[n]));
      Regroup(PlanBases(plans[..n]), plans[n].base, plans[n].variants);
    }
  }

  lemma OwnStep(slots: seq<Slot>, plan: Plan, skus: seq<string>, names: Names)
    requires |skus| == |slots| && |names.variantSkus| == |plan.variants|
    ensures |skus + [names.sku] + names.variantSkus| == |slots + PlanSlots(plan)|
    ensures Own(slots + PlanSlots(plan), skus + [names.sku] + names.variantSkus)
         == Own(slots, skus) + if plan.created then [names.sku] else []
    ensures SingleBases(slots + PlanSlots(plan)) == SingleBases(slots) + if plan.created then [plan.single] else []
  {
    Regroup(skus, names.sku, names.variantSkus);
    OwnConcat(slots, PlanSlots(plan), skus, [names.sku] + names.variantSkus);
    OwnOfPlan(plan, names);
  }

  lemma {:induction false} SlotsOfPlans(plans: seq<Plan>, out: seq<Names>)
    requires Shaped(out, plans)
    ensures |SkusOf(out)| == |Slots(plans)| && Own(Slots(plans), SkusOf(out)) == OwnSkus(plans, out)
    ensures SingleBases(Slots(plans)) == SinglesOf(plans)
  {
    if plans != [] {
      var n := |plans| - 1;
      SlotsOfPlans(plans[..n], out[..n]);
      OwnStep(Slots(plans[..n]), plans[n], SkusOf(out[..n]), out[n]);
    }
  }

  /** Every own slot is some created row's. */
  lemma {:induction false} SlotOwner(plans: seq<Plan>, i: nat) returns (r: nat)
    requires i < |Slots(plans)| && Slots(plans)[i].own
    ensures r < |plans| && plans[r].created && Slots(plans)[i] == OwnSlot(plans[r])
  {
    var n := |plans| - 1;
    if i < |Slots(plans[..n])| { r := SlotOwner(plans[..n], i); } else { r := n; }
  }

  /** ... and every row has its slot. */
  lemma {:induction false} OwnerSlot(plans: seq<Plan>, r: nat) returns (i: nat)
    requires r < |plans|
    ensures i < |Slots(plans)| && Slots(plans)[i] == OwnSlot(plans[r])
  {
    var n := |plans| - 1;
    if r < n { i := OwnerSlot(plans[..n], r); } else { i := |Slots(plans[..n])|; }
  }

  ghost predicate SamePlanBases(plans: seq<Plan>) {
    forall r :: 0 <= r < |plans| && plans[r].created ==> plans[r].base == plans[r].single
  }

  lemma SameBasesIff(plans: seq<Plan>)
    ensures SameBases(Slots(plans)) <==> SamePlanBases(plans)
  {
    if SamePlanBases(plans) {
      forall i | 0 <= i < |Slots(plans)| && Slots(plans)[i].own ensures Slots(plans)[i].base == Slots(plans)[i].single {
        var r := SlotOwner(plans, i);
      }
    }
    if SameBases(Slots(plans)) {
      forall r | 0 <= r < |plans| && plans[r].created ensures plans[r].base == plans[r].single {
        var i := OwnerSlot(plans, r);
      }
    }
  }

  /** What a batch gives its created rows, and creating the rows in turn gives them, is what the slots say. */
  lemma BatchOfPlans(plans: seq<Plan>, out: seq<Names>, stored: set<string>)
    requires Shaped(out, plans) && SkusOf(out) == Allocate(PlanBases(plans), LowerSet(stored))
    ensures Agrees(Slots(plans), stored) <==> OwnSkus(plans, out) == OneByOne(SinglesOf(plans), stored)
  {
    SlotBases(plans);
    SlotsOfPlans(plans, out);
  }

  /** Exactly when the two give the same SKUs: the batch's loop never finds used what the single search finds. */
  lemma BulkSkusPushedIff(rows: seq<Row>, out: seq<Names>, stored: set<string>)
    requires SameShape(out, rows) && SkusOf(out) == Allocate(SkuBases(rows), LowerSet(stored))
    requires SamePlanBases(Plans(rows))
    ensures OwnSkus(Plans(rows), out) == OneByOne(SinglesOf(Plans(rows)), stored)
       <==> NonePushed(Slots(Plans(rows)), stored)
  {
    PlanBasesOfRows(rows);
    ShapeOfPlans(rows, out);
    SameBasesIff(Plans(rows));
    BatchOfPlans(Plans(rows), out, stored);
    AgreesIff(Slots(Plans(rows)), stored);
  }

  // ---------- ... by the rows and the stored SKUs alone ----------

  /** Names made from different prefixes never meet. */
  lemma OtherBaseOtherNames(row: Row)
    ensures var plan := PlanOf(row); plan.base != plan.single ==> NeverMeet(plan.base, plan.single)
  {
    if SkuBase(row) != SingleSkuBase(SkuText(row), 1) { DifferentPrefixes(row); }
  }

  lemma DifferentPrefixes(row: Row)
    requires SkuBase(row) != SingleSkuBase(SkuText(row), 1)
    ensures NeverMeet(SkuBase(row), SingleSkuBase(SkuText(row), 1))
  {
    SkuBaseAgreesIff(row);
    MadeSkuUntrimmable(SkuText(row), 1);
    TrimUntrimmable(MakeProductSku(SkuText(row), 1));
    forall m: nat, k: nat ensures Candidate(SkuBase(row), m) != Candidate(SingleSkuBase(SkuText(row), 1), k) {
      FirstHyphen(row.name, m);
      FirstHyphen(SkuText(row), k);
    }
  }

  lemma FirstHyphen(name: string, k: nat)
    ensures var p, s := SkuPrefix(name), Candidate(MakeProductSku(name, 1), k);
            |p| < |s| && s[..|p|] == p && s[|p|] == '-' && '-' !in s[..|p|]
  {
    AlphaNumericsAlphabet(Lower(name));
  }

  /** Rows that the two ways start from different bases never get the same names. */
  ghost predicate Distinguished(plans: seq<Plan>) {
    forall r :: 0 <= r < |plans| && plans[r].base != plans[r].single ==> NeverMeet(plans[r].base, plans[r].single)
  }

  lemma DistinguishedSnoc(plans: seq<Plan>, plan: Plan)
    requires Distinguished(plans) && (plan.base != plan.single ==> NeverMeet(plan.base, plan.single))
    ensures Distinguished(plans + [plan])
  {
  }

  lemma {:induction false} PlansDistinguished(rows: seq<Row>)
    ensures Distinguished(Plans(rows))
  {
    if rows != [] {
      var n := |rows| - 1;
      PlansDistinguished(rows[..n]);
      OtherBaseOtherNames(rows[n]);
      DistinguishedSnoc(Plans(rows[..n]), PlanOf(rows[n]));
    }
  }

  lemma SlotsNotEmpty(rows: seq<Row>)
    ensures forall i :: 0 <= i < |Slots(Plans(rows))| ==> Slots(Plans(rows))[i].base != ""
  {
    var slots := Slots(Plans(rows));
    PlanBasesOfRows(rows);
    SlotBases(Plans(rows));
    SkuBasesNotEmpty(rows);
    forall i | 0 <= i < |slots| ensures slots[i].base != "" {
      assert Bases(slots)[i] == slots[i].base && SkuBases(rows)[i] in SkuBases(rows);
    }
  }

  /**
   * Where no base is numbered from another and case does not decide what is stored: a batch gives its created rows the
   * SKUs of creating them in turn exactly when both start from the same bases and none of these bases is, case ignored,
   * that of an earlier variant, of an earlier row that is refused, or of an earlier row in other case.
   */
  lemma BulkSkusAgreeIff(rows: seq<Row>, out: seq<Names>, stored: set<string>)
    requires SameShape(out, rows) && SkusOf(out) == Allocate(SkuBases(rows), LowerSet(stored))
    requires TakenAsIs(Slots(Plans(rows)), stored) && Separate(Slots(Plans(rows)))
    ensures OwnSkus(Plans(rows), out) == OneByOne(SinglesOf(Plans(rows)), stored)
       <==> SamePlanBases(Plans(rows)) && Unshared(Slots(Plans(rows)))
  {
    var plans := Plans(rows);
    PlansDistinguished(rows);
    forall i | 0 <= i < |Slots(plans)| && Slots(plans)[i].own && Slots(plans)[i].base != Slots(plans)[i].single
      ensures NeverMeet(Slots(plans)[i].base, Slots(plans)[i].single)
    {
      var r := SlotOwner(plans, i);
    }
    PlanBasesOfRows(rows);
    ShapeOfPlans(rows, out);
    SameBasesIff(plans);
    BatchOfPlans(plans, out, stored);
    SlotsNotEmpty(rows);
    SeparateAgreesIff(Slots(plans), stored);
  }

  // ---------- two equal rows ----------

  lemma TwinBases(plan: Plan)
    requires plan.created && plan.base == plan.single && plan.variants == [plan.base]
    ensures PlanBases([plan, plan]) == [plan.base, plan.base, plan.base, plan.base]
    ensures SinglesOf([plan, plan]) == [plan.base, plan.base]
  {
    PlanBasesSnoc([], plan);
    PlanBasesSnoc([plan], plan);
    SinglesSnoc([], plan);
    SinglesSnoc([plan], plan);
    assert [] + [plan] == [plan] && [plan] + [plan] == [plan, plan];
  }

  lemma TwinSkus(plan: Plan, first: Names, second: Names)
    requires plan.created && |first.variantSkus| == 1 && |second.variantSkus| == 1
    ensures OwnSkus([plan, plan], [first, second]) == [first.sku, second.sku]
    ensures SkusOf([first, second]) == [first.sku, first.variantSkus[0], second.sku, second.variantSkus[0]]
  {
    assert [plan, plan][..1] == [plan] && [first, second][..1] == [first];
    assert [plan][..0] == [] && [first][..0] == [];
    assert OwnSkus([plan], [first]) == [first.sku];
    NamesSnoc([], first);
    NamesSnoc([first], second);
    assert [] + [first] == [first] && [first] + [second] == [first, second];
  }

  lemma TwinPlansDisagree(base: string, first: Names, second: Names)
    requires base != "" && |first.variantSkus| == |second.variantSkus| == 1
    requires var plan := Plan(base, base, true, [base]);
             SkusOf([first, second]) == Allocate(PlanBases([plan, plan]), {})
    ensures var plan := Plan(base, base, true, [base]);
            && OwnSkus([plan, plan], [first, second]) == [base, Candidate(base, 2)]
            && OneByOne(SinglesOf([plan, plan]), {}) == [base, Candidate(base, 1)]
  {
    var plan := Plan(base, base, true, [base]);
    TwinBases(plan);
    TwinSkus(plan, first, second);
    FourTimes(base);
    SameBaseAgain(base, 4);
    SameBaseAgain(base, 2);
  }

  lemma FourTimes(base: string)
    ensures Repeat(base, 2) == [base, base] && Repeat(base, 4) == [base, base, base, base]
    ensures |Firsts(base, 2)| == 2 && |Firsts(base, 4)| == 4 && Firsts(base, 2) == [base, Candidate(base, 1)]
    ensures Firsts(base, 4)[0] == base && Firsts(base, 4)[2] == Candidate(base, 2)
  {
    assert Repeat(base, 1) == [base] && Repeat(base, 3) == Repeat(base, 2) + [base];
    FirstsAt(base, 2);
    FirstsAt(base, 4);
    assert Candidate(base, 0) == base;
  }

  /**
   * Two equal rows with nothing but a name, and nothing stored: the first row's default variant takes the number that
   * the second row gets when the rows are created in turn.
   */
  lemma TwinRowsDisagree(name: string, first: Names, second: Names)
    requires '-' !in name && Slugify.Slugify(name) != "" && |first.variantSkus| == |second.variantSkus| == 1
    requires var row := Row(name, "", "", []); SkusOf([first, second]) == Allocate(SkuBases([row, row]), {})
    ensures var rows, base := [Row(name, "", "", []), Row(name, "", "", [])], MakeProductSku(name, 1);
            && OwnSkus(Plans(rows), [first, second]) == [base, Candidate(base, 2)]
            && OneByOne(SinglesOf(Plans(rows)), {}) == [base, Candidate(base, 1)]
  {
    var row := Row(name, "", "", []);
    NamedOnly(name);
    TwinPlans(row);
    PlanBasesOfRows([row, row]);
    TwinPlansDisagree(MakeProductSku(name, 1), first, second);
  }

  lemma TwinPlans(row: Row)
    ensures Plans([row, row]) == [PlanOf(row), PlanOf(row)]
  {
    PlansSnoc([row, row], 0);
    PlansSnoc([row, row], 1);
    assert [row, row][..0] == [] && [row, row][..2] == [row, row];
  }

  lemma NamedOnly(name: string)
    requires '-' !in name && Slugify.Slugify(name) != ""
    ensures var base := MakeProductSku(name, 1);
            PlanOf(Row(name, "", "", [])) == Plan(base, base, true, [base]) && base != ""
  {
    MadeSkuUntrimmable(name, 1);
    TrimUntrimmable(MakeProductSku(name, 1));
  }

  /** An ordinary name of this kind. */
  lemma MilkHasASlug()
    ensures Slugify.Slugify("milk") == "milk" && '-' !in "milk"
  {
    SlugFixed("milk");
  }

  /** A row's own SKU stands in the flat list right after the SKUs of the rows before it. */
  lemma {:induction false} OwnSkuPosition(out: seq<Names>, i: nat)
    requires i < |out|
    ensures |SkusOf(out[..i])| < |SkusOf(out)| && SkusOf(out)[|SkusOf(out[..i])|] == out[i].sku
    ensures forall j :: 0 <= j < i ==> |SkusOf(out[..j])| < |SkusOf(out[..i])|
    decreases |out|, i
  {
    if i < |out| - 1 {
      OwnSkuPosition(out[..|out| - 1], i);
      assert out[..|out| - 1][..i] == out[..i];
    }
    forall j | 0 <= j < i ensures |SkusOf(out[..j])| < |SkusOf(out[..i])| {
      OwnSkuPosition(out[..i], j);
      assert out[..i][..j] == out[..j];
    }
  }

  /** Stored as it is by the schema's lowercase and trim, and clashing with no other document. */
  ghost predicate Insertable(out: seq<Names>, slugs: set<string>, skus: set<string>) {
    forall i :: 0 <= i < |out| ==>
      && Lower(Trim(out[i].slug)) == out[i].slug && Trim(out[i].sku) == out[i].sku
      && out[i].slug !in slugs && out[i].sku !in skus
      && forall j :: 0 <= j < i ==> out[j].slug != out[i].slug && out[j].sku != out[i].sku
  }

  lemma BatchInsertable(rows: seq<Row>, out: seq<Names>, slugs: set<string>, skus: set<string>)
    requires |out| == |rows|
    requires SlugsOf(out) == Allocate(SlugBases(rows), LowerSet(slugs))
    requires SkusOf(out) == Allocate(SkuBases(rows), LowerSet(skus))
    ensures Insertable(out, slugs, skus)
  {
    forall i | 0 <= i < |rows|
      ensures Lower(SlugBases(rows)[i]) == SlugBases(rows)[i] && Untrimmable(SlugBases(rows)[i])
    {
      SlugBaseClean(rows[i]);
    }
    AllocateKeepsLower(SlugBases(rows), LowerSet(slugs));
    AllocateUntrimmable(SlugBases(rows), LowerSet(slugs));
    AllocateFresh(SlugBases(rows), LowerSet(slugs));
    SkuBasesUntrimmable(rows);
    AllocateUntrimmable(SkuBases(rows), LowerSet(skus));
    AllocateFresh(SkuBases(rows), LowerSet(skus));
    forall i | 0 <= i < |out|
      ensures Lower(Trim(out[i].slug)) == out[i].slug && out[i].slug !in slugs
      ensures Trim(out[i].sku) == out[i].sku && out[i].sku !in skus
      ensures forall j :: 0 <= j < i ==> out[j].slug != out[i].slug && out[j].sku != out[i].sku
    {
      TrimUntrimmable(out[i].slug);
      TrimUntrimmable(out[i].sku);
      assert out[i].slug == SlugsOf(out)[i];
      OwnSkuPosition(out, i);
      assert Lower(out[i].slug) !in LowerSet(slugs) && Lower(out[i].sku) !in LowerSet(skus);
      forall j | 0 <= j < i ensures out[j].slug != out[i].slug && out[j].sku != out[i].sku {
        OwnSkuPosition(out, j);
        assert out[j].slug == SlugsOf(out)[j];
      }
    }
  }

  /** Bulk creation hands out the slugs that creating the rows one by one would, unless two rows have an empty base. */
  lemma BulkSlugsAgreeIff(rows: seq<Row>, docs: map<ProductId, Names>)
    requires CleanNames(docs)
    ensures Allocate(SlugBases(rows), LowerSet(StoredSlugs(docs))) == OneByOne(SlugBases(rows), StoredSlugs(docs))
       <==> AtMostOneEmpty(SlugBases(rows))
  {
    var bases := SlugBases(rows);
    forall s | s in Elements(bases) ensures Lower(s) == s {
      var i :| 0 <= i < |bases| && bases[i] == s;
      SlugBaseClean(rows[i]);
    }
    SlugBatchAgreesIff(bases, StoredSlugs(docs));
  }

  lemma StoredSlugsInsert(docs: map<ProductId, Names>, id: ProductId)
    requires id !in docs
    ensures forall names: Names {:trigger docs[id := names]} ::
      StoredSlugs(docs[id := names]) == StoredSlugs(docs) + {names.slug}
  {
    forall names: Names
      ensures StoredSlugs(docs[id := names]) == StoredSlugs(docs) + {names.slug}
    {
      var after := docs[id := names];
      assert after[id].slug == names.slug;
      forall s | s in StoredSlugs(docs) ensures s in StoredSlugs(after) {
        var a :| a in docs && docs[a].slug == s;
        assert after[a].slug == s;
      }
    }
  }

  /** What the schema's setters make of a document's names. */
  function Setters(names: Names): Names { Names(Lower(Trim(names.slug)), Trim(names.sku), names.variantSkus) }

  /** The slug is required, and slug and sku have unique indexes. */
  predicate Accepts(docs: map<ProductId, Names>, names: Names) {
    names.slug != "" && names.slug !in StoredSlugs(docs) && names.sku !in StoredSkus(docs)
  }

  /** insertMany, unordered: a document that is refused does not stop the others. */
  function InsertMany(docs: map<ProductId, Names>, ids: seq<ProductId>, out: seq<Names>): map<ProductId, Names>
    requires |ids| == |out|
  {
    if out == [] then docs
    else
      var n := |out| - 1;
      var before := InsertMany(docs, ids[..n], out[..n]);
      if Accepts(before, Setters(out[n])) then before[ids[n] := Setters(out[n])] else before
  }

  /** The collection after a batch: each row under its id, but for rows with an empty slug. */
  function WithRows(docs: map<ProductId, Names>, ids: seq<ProductId>, out: seq<Names>): map<ProductId, Names>
    requires |ids| == |out|
  {
    if out == [] then docs
    else
      var n := |out| - 1;
      var before := WithRows(docs, ids[..n], out[..n]);
      if out[n].slug == "" then before else before[ids[n] := out[n]]
  }

  lemma WithRowsSnoc(docs: map<ProductId, Names>, ids: seq<ProductId>, out: seq<Names>, i: nat)
    requires |ids| == |out| && i < |out|
    ensures WithRows(docs, ids[..i + 1], out[..i + 1])
         == var before := WithRows(docs, ids[..i], out[..i]);
            if out[i].slug == "" then before else before[ids[i] := out[i]]
  {
    assert ids[..i + 1][..i] == ids[..i] && out[..i + 1][..i] == out[..i];
  }

  /** Old documents stay as they are, and the only other documents are the rows with a slug. */
  lemma {:induction false} WithRowsHas(docs: map<ProductId, Names>, ids: seq<ProductId>, out: seq<Names>, id: ProductId)
    requires |ids| == |out| && Distinct(ids) && forall i :: 0 <= i < |ids| ==> ids[i] !in docs
    ensures id in docs ==> id in WithRows(docs, ids, out) && WithRows(docs, ids, out)[id] == docs[id]
    ensures forall i :: 0 <= i < |ids| && ids[i] == id ==>
      if out[i].slug == "" then id !in WithRows(docs, ids, out)
      else id in WithRows(docs, ids, out) && WithRows(docs, ids, out)[id] == out[i]
    ensures id !in docs && id !in ids ==> id !in WithRows(docs, ids, out)
  {
    if out != [] {
      var n := |out| - 1;
      WithRowsHas(docs, ids[..n], out[..n], id);
      assert forall i :: 0 <= i < n ==> ids[..n][i] == ids[i] && out[..n][i] == out[i];
    }
  }

  lemma NextInsertable(docs: map<ProductId, Names>, ids: seq<ProductId>, out: seq<Names>, i: nat)
    requires |ids| == |out| && Distinct(ids) && (forall k :: 0 <= k < |ids| ==> ids[k] !in docs) && i < |out|
    requires Insertable(out, StoredSlugs(docs), StoredSkus(docs))
    ensures var now := WithRows(docs, ids[..i], out[..i]);
            ids[i] !in now && out[i].slug !in StoredSlugs(now) && out[i].sku !in StoredSkus(now)
    ensures Lower(Trim(out[i].slug)) == out[i].slug && Trim(out[i].sku) == out[i].sku
  {
    var now := WithRows(docs, ids[..i], out[..i]);
    WithRowsHas(docs, ids[..i], out[..i], ids[i]);
    forall a | a in now ensures now[a].slug != out[i].slug && now[a].sku != out[i].sku {
      WithRowsHas(docs, ids[..i], out[..i], a);
      if a in docs {
        assert docs[a].slug in StoredSlugs(docs) && docs[a].sku in StoredSkus(docs);
      } else {
        var k :| 0 <= k < i && ids[..i][k] == a;
        assert now[a] == out[k];
      }
    }
  }

  lemma InsertManySnoc(docs: map<ProductId, Names>, ids: seq<ProductId>, out: seq<Names>, i: nat)
    requires |ids| == |out| && i < |out|
    ensures InsertMany(docs, ids[..i + 1], out[..i + 1])
         == var before := InsertMany(docs, ids[..i], out[..i]);
            if Accepts(before, Setters(out[i])) then before[ids[i] := Setters(out[i])] else before
  {
    assert ids[..i + 1][..i] == ids[..i] && out[..i + 1][..i] == out[..i];
  }

  /** None of a batch's names is refused by a unique index or changed by a setter. */
  lemma {:induction false} InsertManyKeepsBatch(docs: map<ProductId, Names>, ids: seq<ProductId>, out: seq<Names>,
                                                n: nat)
    requires n <= |ids| == |out| && Distinct(ids) && forall k :: 0 <= k < |ids| ==> ids[k] !in docs
    requires Insertable(out, StoredSlugs(docs), StoredSkus(docs))
    ensures InsertMany(docs, ids[..n], out[..n]) == WithRows(docs, ids[..n], out[..n])
  {
    if n != 0 {
      InsertManyKeepsBatch(docs, ids, out, n - 1);
      var before := WithRows(docs, ids[..n - 1], out[..n - 1]);
      assert Setters(out[n - 1]) == out[n - 1] && (Accepts(before, out[n - 1]) <==> out[n - 1].slug != "") by {
        NextInsertable(docs, ids, out, n - 1);
      }
      InsertManySnoc(docs, ids, out, n - 1);
      WithRowsSnoc(docs, ids, out, n - 1);
    }
  }

  lemma InsertKeepsValid(docs: map<ProductId, Names>, id: ProductId, names: Names)
    requires ValidDocs(docs) && id !in docs && names.slug != "" && Lower(names.slug) == names.slug
    requires names.slug !in StoredSlugs(docs) && names.sku !in StoredSkus(docs)
    ensures ValidDocs(docs[id := names])
  {
    forall a | a in docs ensures docs[a].slug != names.slug && docs[a].sku != names.sku {
      assert docs[a].slug in StoredSlugs(docs) && docs[a].sku in StoredSkus(docs);
    }
  }

  lemma {:induction false} WithRowsKeepsValid(docs: map<ProductId, Names>, ids: seq<ProductId>, out: seq<Names>, n: nat)
    requires ValidDocs(docs) && n <= |ids| == |out| && Distinct(ids) && forall k :: 0 <= k < |ids| ==> ids[k] !in docs
    requires Insertable(out, StoredSlugs(docs), StoredSkus(docs))
    ensures ValidDocs(WithRows(docs, ids[..n], out[..n]))
  {
    if n != 0 {
      WithRowsKeepsValid(docs, ids, out, n - 1);
      NextInsertable(docs, ids, out, n - 1);
      WithRowsSnoc(docs, ids, out, n - 1);
      LowerLower(Trim(out[n - 1].slug));
      if out[n - 1].slug != "" {
        InsertKeepsValid(WithRows(docs, ids[..n - 1], out[..n - 1]), ids[n - 1], out[n - 1]);
      }
    }
  }

  lemma InsertWholeBatch(docs: map<ProductId, Names>, ids: seq<ProductId>, out: seq<Names>)
    requires ValidDocs(docs) && |ids| == |out| && Distinct(ids) && forall k :: 0 <= k < |ids| ==> ids[k] !in docs
    requires Insertable(out, StoredSlugs(docs), StoredSkus(docs))
    ensures InsertMany(docs, ids, out) == WithRows(docs, ids, out) && ValidDocs(WithRows(docs, ids, out))
  {
    WithRowsKeepsValid(docs, ids, out, |out|);
    assert ids[..|out|] == ids && out[..|out|] == out;
    InsertManyKeepsBatch(docs, ids, out, |out|);
  }

  /** At most one row of a batch is refused. */
  lemma AtMostOneRefused(rows: seq<Row>, out: seq<Names>, slugs: set<string>, i: nat, j: nat)
    requires |out| == |rows| && SlugsOf(out) == Allocate(SlugBases(rows), LowerSet(slugs))
    requires i < j < |out|
    ensures out[i].slug != "" || out[j].slug != ""
  {
    AllocateFresh(SlugBases(rows), LowerSet(slugs));
    assert SlugsOf(out)[i] == out[i].slug && SlugsOf(out)[j] == out[j].slug;
  }

  /** One more row created: what is handed out, and what is stored, for slugs and for SKUs. */
  lemma SlugStep(rows: seq<Row>, i: nat, id: ProductId, names: Names, docs: map<ProductId, Names>, stored: set<string>,
                 slugs: seq<string>)
    requires i < |rows| && id !in docs && slugs == OneByOne(SlugBases(rows[..i]), stored)
    requires StoredSlugs(docs) == StoredAfter(stored, slugs)
    requires names.slug == Candidate(SlugBase(rows[i]), FirstFree(SlugBase(rows[i]), StoredSlugs(docs)))
    ensures slugs + [names.slug] == OneByOne(SlugBases(rows[..i + 1]), stored)
    ensures StoredAfter(stored, slugs + [names.slug])
         == if names.slug == "" then StoredSlugs(docs) else StoredSlugs(docs[id := names])
  {
    StoredSlugsInsert(docs, id);
    SlugBasesSnoc(rows, i);
    OneByOneSnoc(SlugBases(rows[..i]), SlugBase(rows[i]), stored);
    StoredAfterSnoc(stored, slugs, names.slug);
  }

  lemma SkuStep(plans: seq<Plan>, plan: Plan, id: ProductId, names: Names, docs: map<ProductId, Names>,
                stored: set<string>, skus: seq<string>)
    requires id !in docs && skus == OneByOne(SinglesOf(plans), stored) && StoredSkus(docs) == StoredAfter(stored, skus)
    requires plan.single != "" && names.sku == Candidate(plan.single, FirstFree(plan.single, StoredSkus(docs)))
    ensures plan.created ==>
      && skus + [names.sku] == OneByOne(SinglesOf(plans + [plan]), stored)
      && StoredAfter(stored, skus + [names.sku]) == StoredSkus(docs[id := names])
    ensures !plan.created ==> skus == OneByOne(SinglesOf(plans + [plan]), stored)
  {
    var singles := SinglesOf(plans);
    SinglesSnoc(plans, plan);
    if plan.created {
      StoredSkusInsert(docs, id, names);
      OneMoreSku(singles, plan.single, stored, skus);
    } else {
      assert singles + [] == singles;
    }
  }

  lemma OneMoreSku(singles: seq<string>, base: string, stored: set<string>, skus: seq<string>)
    requires skus == OneByOne(singles, stored) && base != ""
    ensures var taken := StoredAfter(stored, skus);
            var sku := Candidate(base, FirstFree(base, taken));
            && skus + [sku] == OneByOne(singles + [base], stored)
            && StoredAfter(stored, skus + [sku]) == taken + {sku}
  {
    OneByOneSnoc(singles, base, stored);
    var taken := StoredAfter(stored, skus);
    StoredAfterSnoc(stored, skus, Candidate(base, FirstFree(base, taken)));
  }

  lemma SingleBaseNotEmpty(row: Row)
    ensures SingleSkuBase(SkuText(row), 1) != ""
  {
    TrimNotEmpty(if '-' in SkuText(row) then SkuText(row) else MakeProductSku(SkuText(row), 1));
  }

  lemma StoredSkusInsert(docs: map<ProductId, Names>, id: ProductId, names: Names)
    requires id !in docs
    ensures StoredSkus(docs[id := names]) == StoredSkus(docs) + {names.sku}
  {
    var after := docs[id := names];
    assert after[id].sku == names.sku;
    forall s | s in StoredSkus(docs) ensures s in StoredSkus(after) {
      var a :| a in docs && docs[a].sku == s;
      assert after[a].sku == s;
    }
  }

  // ---------- the collection ----------

  class ProductCollection {
    var docs: map<ProductId, Names>

    constructor ()
      ensures docs == map[]
    {
      docs := map[];
    }

    ghost predicate Valid() reads this { ValidDocs(docs) }

    method GenerateUniqueSlug(text: string, exclude: Option<ProductId>) returns (slug: string)
      ensures slug == Candidate(Slugify.Slugify(text),
                                FirstFree(Slugify.Slugify(text), StoredSlugs(Others(docs, exclude))))
    {
      var base := Slugify.Slugify(text);
      slug := base;
      var count := 0;
      ghost var taken := StoredSlugs(Others(docs, exclude));
      while exists id :: id in docs && exclude != Some(id) && docs[id].slug == slug
        invariant count >= 0 && slug == Candidate(base, count)
        invariant forall k: nat :: k < count ==> Candidate(base, k) in taken
        decreases taken - Tried(base, count)
      {
        assert slug in taken by {
          var id :| id in docs && exclude != Some(id) && docs[id].slug == slug;
          assert id in Others(docs, exclude);
        }
        TriedGrows(base, taken, count);
        count := count + 1;
        slug := base + "-" + Decimal(count);
      }
      assert slug !in taken;
      FirstFreeUnique(base, taken, count, FirstFree(base, taken));
    }

    method GenerateUniqueSku(text: string, index: nat, exclude: Option<ProductId>) returns (sku: string)
      ensures var base := SingleSkuBase(text, index);
              sku == Candidate(base, FirstFree(base, StoredSkus(Others(docs, exclude))))
    {
      var base := Trim(if '-' in text then text else MakeProductSku(text, index));
      sku := base;
      var count := 0;
      ghost var taken := StoredSkus(Others(docs, exclude));
      while exists id :: id in docs && exclude != Some(id) && docs[id].sku == sku
        invariant count >= 0 && sku == Candidate(base, count)
        invariant forall k: nat :: k < count ==> Candidate(base, k) in taken
        decreases taken - Tried(base, count)
      {
        assert sku in taken by {
          var id :| id in docs && exclude != Some(id) && docs[id].sku == sku;
          assert id in Others(docs, exclude);
        }
        TriedGrows(base, taken, count);
        count := count + 1;
        sku := base + "-" + Decimal(count);
      }
      assert sku !in taken;
      FirstFreeUnique(base, taken, count, FirstFree(base, taken));
    }

    /** One insert: the schema's setters, the required slug and the two unique indexes. */
    method Insert(id: ProductId, names: Names) returns (ok: bool)
      requires id !in docs
      modifies this
      ensures ok == Accepts(old(docs), Setters(names))
      ensures docs == if ok then old(docs)[id := Setters(names)] else old(docs)
      ensures var slug, sku := Lower(Trim(names.slug)), Trim(names.sku);
              && (ok <==> slug != "" &&
                          forall a :: a in old(docs) ==> old(docs)[a].slug != slug && old(docs)[a].sku != sku)
              && (ok ==> docs[id] == Names(slug, sku, names.variantSkus))
      ensures ValidDocs(old(docs)) ==> ValidDocs(docs)
    {
      var stored := Setters(names);
      LowerLower(Trim(names.slug));
      ok := stored.slug != "" && forall a :: a in docs ==> docs[a].slug != stored.slug && docs[a].sku != stored.sku;
      if ok { docs := docs[id := stored]; }
    }

    /** The SKUs of the variants of a single creation, each of them free in the collection. */
    method NameVariants(row: Row) returns (variantSkus: seq<string>)
      ensures |variantSkus| == |row.variantSkus|
      ensures forall i :: 0 <= i < |row.variantSkus| ==>
        variantSkus[i] == FreeName(SingleVariantBase(row, i), StoredSkus(docs))
    {
      variantSkus := [];
      for i := 0 to |row.variantSkus|
        invariant |variantSkus| == i
        invariant forall k :: 0 <= k < i ==> variantSkus[k] == FreeName(SingleVariantBase(row, k), StoredSkus(docs))
      {
        var variantSku := NameVariant(row, i);
        variantSkus := variantSkus + [variantSku];
      }
    }

    method NameVariant(row: Row, i: nat) returns (variantSku: string)
      requires i < |row.variantSkus|
      ensures variantSku == FreeName(SingleVariantBase(row, i), StoredSkus(docs))
    {
      var made := MakeProductSku(row.name, i + 1);
      variantSku := GenerateUniqueSku(if Blank(row.variantSkus[i]) then made else row.variantSkus[i], 1, None);
    }

    /** createProduct, as far as its names go. */
    method CreateProduct(id: ProductId, row: Row) returns (names: Names, ok: bool)
      requires id !in docs && Valid()
      modifies this
      ensures Valid()
      ensures names.slug == Candidate(SlugBase(row), FirstFree(SlugBase(row), StoredSlugs(old(docs))))
      ensures var base := SingleSkuBase(SkuText(row), 1);
              names.sku == Candidate(base, FirstFree(base, StoredSkus(old(docs))))
      ensures |names.variantSkus| == |row.variantSkus|
      ensures forall i :: 0 <= i < |row.variantSkus| ==>
        names.variantSkus[i] == FreeName(SingleVariantBase(row, i), StoredSkus(old(docs)))
      ensures ok <==> names.slug != ""
      ensures ok <==> SlugBase(row) != ""
      ensures docs == if ok then old(docs)[id := names] else old(docs)
    {
      var slug := GenerateUniqueSlug(if Blank(row.slug) then row.name else row.slug, None);
      var sku := GenerateUniqueSku(SkuText(row), 1, None);
      var variantSkus := NameVariants(row);
      names := Names(slug, sku, variantSkus);
      ghost var n := FirstFree(SlugBase(row), StoredSlugs(docs));
      SlugBaseClean(row);
      LowerCandidate(SlugBase(row), n);
      CandidateUntrimmable(SlugBase(row), n);
      TrimUntrimmable(slug);
      ghost var text := SkuText(row);
      TrimUntrimmable(if '-' in text then text else MakeProductSku(text, 1));
      ghost var base := SingleSkuBase(text, 1);
      CandidateUntrimmable(base, FirstFree(base, StoredSkus(docs)));
      TrimUntrimmable(sku);
      if SlugBase(row) == "" { FirstFreeUnique("", StoredSlugs(docs), 0, n); }
      ok := Insert(id, names);
      if ok { InsertKeepsValid(old(docs), id, names); }
    }

    /** Creating the rows in turn gives the slugs of OneByOne, and its SKUs to the rows that get created. */
    method CreateEach(rows: seq<Row>, ids: seq<ProductId>) returns (slugs: seq<string>, skus: seq<string>)
      requires |ids| == |rows| && Distinct(ids) && (forall i :: 0 <= i < |ids| ==> ids[i] !in docs) && Valid()
      modifies this
      ensures Valid()
      ensures slugs == OneByOne(SlugBases(rows), StoredSlugs(old(docs)))
      ensures skus == OneByOne(SinglesOf(Plans(rows)), StoredSkus(old(docs)))
      ensures StoredSkus(docs) == StoredAfter(StoredSkus(old(docs)), skus)
    {
      slugs, skus := [], [];
      for i := 0 to |rows|
        invariant Valid()
        invariant slugs == OneByOne(SlugBases(rows[..i]), StoredSlugs(old(docs)))
        invariant StoredSlugs(docs) == StoredAfter(StoredSlugs(old(docs)), slugs)
        invariant skus == OneByOne(SinglesOf(Plans(rows[..i])), StoredSkus(old(docs)))
        invariant StoredSkus(docs) == StoredAfter(StoredSkus(old(docs)), skus)
        invariant docs.Keys <= old(docs.Keys) + set k | 0 <= k < i :: ids[k]
      {
        slugs, skus := CreateNext(rows, i, ids[i], StoredSlugs(old(docs)), StoredSkus(old(docs)), slugs, skus);
      }
      assert rows[..|rows|] == rows;
    }

    /** One more row, given what was handed out to the rows before it. */
    method CreateNext(rows: seq<Row>, i: nat, id: ProductId, ghost slugs0: set<string>, ghost skus0: set<string>,
                      slugs: seq<string>, skus: seq<string>)
        returns (moreSlugs: seq<string>, moreSkus: seq<string>)
      requires i < |rows| && id !in docs && Valid()
      requires slugs == OneByOne(SlugBases(rows[..i]), slugs0) && StoredSlugs(docs) == StoredAfter(slugs0, slugs)
      requires skus == OneByOne(SinglesOf(Plans(rows[..i])), skus0) && StoredSkus(docs) == StoredAfter(skus0, skus)
      modifies this
      ensures Valid() && docs.Keys <= old(docs.Keys) + {id}
      ensures moreSlugs == OneByOne(SlugBases(rows[..i + 1]), slugs0)
      ensures StoredSlugs(docs) == StoredAfter(slugs0, moreSlugs)
      ensures moreSkus == OneByOne(SinglesOf(Plans(rows[..i + 1])), skus0)
      ensures StoredSkus(docs) == StoredAfter(skus0, moreSkus)
    {
      ghost var was := docs;
      var names, ok := CreateProduct(id, rows[i]);
      SlugStep(rows, i, id, names, was, slugs0, slugs);
      SingleBaseNotEmpty(rows[i]);
      SkuStep(Plans(rows[..i]), PlanOf(rows[i]), id, names, was, skus0, skus);
      PlansSnoc(rows, i);
      moreSlugs := slugs + [names.slug];
      moreSkus := if ok then skus + [names.sku] else skus;
    }

    method InsertBatch(ids: seq<ProductId>, out: seq<Names>)
      requires |ids| == |out| && Distinct(ids) && forall i :: 0 <= i < |ids| ==> ids[i] !in docs
      modifies this
      ensures docs == InsertMany(old(docs), ids, out)
    {
      for i := 0 to |out|
        invariant docs == InsertMany(old(docs), ids[..i], out[..i])
        invariant forall k :: i <= k < |ids| ==> ids[k] !in docs
      {
        assert ids[..i + 1][..i] == ids[..i] && out[..i + 1][..i] == out[..i];
        var _ := Insert(ids[i], out[i]);
      }
      assert ids[..|out|] == ids && out[..|out|] == out;
    }

    /** bulkCreateProducts from name resolution on: every row is stored but one whose slug is empty. */
    method BulkCreate(rows: seq<Row>, ids: seq<ProductId>) returns (out: seq<Names>)
      requires |ids| == |rows| && Distinct(ids) && (forall i :: 0 <= i < |ids| ==> ids[i] !in docs) && Valid()
      modifies this
      ensures Valid() && SameShape(out, rows)
      ensures SlugsOf(out) == Allocate(SlugBases(rows), LowerSet(StoredSlugs(old(docs))))
      ensures SkusOf(out) == Allocate(SkuBases(rows), LowerSet(StoredSkus(old(docs))))
      ensures docs == WithRows(old(docs), ids, out)
    {
      out := AllocateBatch(rows, StoredSlugs(docs), StoredSkus(docs));
      BatchInsertable(rows, out, StoredSlugs(docs), StoredSkus(docs));
      InsertWholeBatch(docs, ids, out);
      InsertBatch(ids, out);
    }

    /** The naming part of updateProduct when a slug is sent: the product keeps a name nobody else has. */
    method ChangeSlug(id: ProductId, text: string) returns (ok: bool)
      requires id in docs && Valid()
      modifies this
      ensures Valid() && docs.Keys == old(docs.Keys)
      ensures forall a :: a in docs && (a != id || !ok) ==> docs[a] == old(docs)[a]
      ensures var base := Slugify.Slugify(text);
              ok ==> docs[id] == old(docs)[id].(slug :=
                       Candidate(base, FirstFree(base, StoredSlugs(Others(old(docs), Some(id))))))
      ensures ok <==> Slugify.Slugify(text) != ""
    {
      var slug := GenerateUniqueSlug(text, Some(id));
      SlugifyIdempotent(text);
      ghost var base := Slugify.Slugify(text);
      ghost var n := FirstFree(base, StoredSlugs(Others(docs, Some(id))));
      LowerCandidate(base, n);
      if base == "" {
        FirstFreeUnique(base, StoredSlugs(Others(docs, Some(id))), 0, n);
      }
      forall a | a in docs && a != id ensures docs[a].slug != slug {
        assert a in Others(docs, Some(id));
      }
      ok := slug != "";
      if ok { docs := docs[id := docs[id].(slug := slug)]; }
    }
  }
}
