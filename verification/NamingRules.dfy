/** What the names handed out look like, told on the texts that were sent. */
module NamingRules {
  import opened Text
  import opened Slugify
  import opened ProductNames
  import opened ProductCatalog

  // ---------- numbers in names ----------

  lemma {:induction false} NoLeadingZero(n: nat)
    requires n > 0
    ensures Decimal(n)[0] != '0'
  {
    if n >= 10 { NoLeadingZero(n / 10); }
  }

  lemma {:induction false} DecimalLength(n: nat, k: nat)
    requires k < |Decimal(n)|
    ensures k == 1 ==> n >= 10
    ensures k == 2 ==> n >= 100
    ensures k == 3 ==> n >= 1000
  {
    if n >= 10 && k > 0 { DecimalLength(n / 10, k - 1); }
  }

  /** The n-th name of a base is the base itself, or the base, a hyphen and the number n without zeros in front. */
  lemma CandidateReads(base: string, n: nat)
    ensures var c, b := Candidate(base, n), |base|;
            if n == 0 then c == base
            else && |c| > b + 1 && c[..b] == base && c[b] == '-' && c[b + 1] != '0'
                 && AllDigits(c[b + 1..]) && DecimalValue(c[b + 1..]) == n
  {
    if n != 0 {
      DecimalRoundTrip(n);
      NoLeadingZero(n);
      assert Candidate(base, n)[|base| + 1..] == Decimal(n);
    }
  }

  // ---------- made SKUs ----------

  predicate IsAlphaNumeric(c: char) { IsDigit(c) || 'a' <= c <= 'z' || 'A' <= c <= 'Z' }

  lemma {:induction false} AlphaNumericsConcat(a: string, b: string)
    ensures AlphaNumerics(a + b) == AlphaNumerics(a) + AlphaNumerics(b)
  {
    if a == [] {
      assert a + b == b;
    } else {
      AlphaNumericsConcat(a[1..], b);
      assert (a + b)[1..] == a[1..] + b;
    }
  }

  /** A character that is neither letter nor digit makes no difference to the prefix of a SKU. */
  lemma OthersLeaveNoTrace(a: string, c: char, b: string)
    requires !IsAlphaNumeric(c)
    ensures SkuPrefix(a + [c] + b) == SkuPrefix(a + b)
  {
    LowerConcat(a + [c], b);
    LowerConcat(a, [c]);
    LowerConcat(a, b);
    AlphaNumericsConcat(Lower(a) + Lower([c]), Lower(b));
    AlphaNumericsConcat(Lower(a), Lower([c]));
    AlphaNumericsConcat(Lower(a), Lower(b));
    NothingKept(c);
  }

  lemma NothingKept(c: char)
    requires !IsAlphaNumeric(c)
    ensures AlphaNumerics(Lower([c])) == []
  {
    assert Lower([c])[0] == c && Lower([c])[1..] == [];
  }

  lemma {:induction false} AllKept(s: string)
    requires forall i :: 0 <= i < |s| ==> IsDigit(s[i]) || 'a' <= s[i] <= 'z'
    ensures AlphaNumerics(s) == s
  {
    if s != [] { AllKept(s[1..]); }
  }

  /** Of letters and digits the first five are taken, in lower case; where there are none it is "item". */
  lemma PrefixOfLetters(s: string)
    requires forall i :: 0 <= i < |s| ==> IsAlphaNumeric(s[i])
    ensures SkuPrefix(s) == if s == "" then "item" else Lower(if |s| > 5 then s[..5] else s)
  {
    AllKept(Lower(s));
    if |s| > 5 { assert Lower(s)[..5] == Lower(s[..5]); }
  }

  /** After the prefix and a hyphen the index is written with three digits, or more where it needs more. */
  lemma MadeSkuReads(name: string, index: nat)
    ensures var s, p := MakeProductSku(name, index), |SkuPrefix(name)|;
            && |s| >= p + 4 && s[..p] == SkuPrefix(name) && s[p] == '-'
            && AllDigits(s[p + 1..]) && DecimalValue(s[p + 1..]) == index
            && (|s| > p + 4 ==> index >= 1000 && s[p + 1] != '0')
  {
    var prefix, number := MadeSkuParts(name, index);
    var s := prefix + "-" + number;
    assert s[..|prefix|] == prefix && s[|prefix|] == '-' && s[|prefix| + 1..] == number;
  }

  lemma MadeSkuParts(name: string, index: nat) returns (prefix: string, number: string)
    ensures prefix == SkuPrefix(name) && MakeProductSku(name, index) == prefix + "-" + number
    ensures AllDigits(number) && DecimalValue(number) == index && |number| >= 3
    ensures |number| > 3 ==> index >= 1000 && number[0] != '0'
  {
    prefix := SkuPrefix(name);
    var d := Decimal(index);
    var zeros := if |d| == 1 then "00" else if |d| == 2 then "0" else "";
    number := zeros + d;
    assert prefix + "-" + zeros + d == prefix + "-" + number;
    PaddedReads(index, zeros);
  }

  lemma PaddedReads(index: nat, zeros: string)
    requires zeros == if |Decimal(index)| == 1 then "00" else if |Decimal(index)| == 2 then "0" else ""
    ensures var number := zeros + Decimal(index);
            && AllDigits(number) && DecimalValue(number) == index && |number| >= 3
            && (|number| > 3 ==> index >= 1000 && number[0] != '0')
  {
    var d := Decimal(index);
    DecimalRoundTrip(index);
    ZerosAdd(|zeros|, zeros, d);
    if |d| > 3 {
      DecimalLength(index, 3);
      NoLeadingZero(index);
    }
  }

  lemma {:induction false} ZerosAdd(n: nat, zeros: string, d: string)
    requires AllDigits(d) && |zeros| == n && forall i :: 0 <= i < n ==> zeros[i] == '0'
    ensures AllDigits(zeros + d) && DecimalValue(zeros + d) == DecimalValue(d)
    decreases |d| + n
  {
    if d != [] {
      assert (zeros + d)[..|zeros + d| - 1] == zeros + d[..|d| - 1];
      ZerosAdd(n, zeros, d[..|d| - 1]);
    } else if n > 0 {
      assert zeros + d == zeros;
      assert zeros[..n - 1] + d == zeros[..n - 1];
      ZerosAdd(n - 1, zeros[..n - 1], d);
    }
  }

  // ---------- what a row is named after ----------

  /**
   * The slug follows the slug sent, or else the name; the SKU in a batch the SKU sent, or else the name, if that has a
   * hyphen in it, and is made from the name otherwise.
   */
  lemma NamedAfter(row: Row)
    ensures Trim(row.slug) != "" ==> SlugBase(row) == Slugify.Slugify(row.slug)
    ensures Trim(row.slug) == "" ==> SlugBase(row) == Slugify.Slugify(row.name)
    ensures Trim(row.sku) != "" && '-' in row.sku ==> SkuBase(row) == Trim(row.sku)
    ensures Trim(row.sku) == "" && '-' in row.name ==> SkuBase(row) == Trim(row.name)
    ensures '-' !in row.sku && (Trim(row.sku) != "" || '-' !in row.name) ==> SkuBase(row) == MakeProductSku(row.name, 1)
  {
  }

  /** A variant's SKU follows the one sent, if that has a hyphen in it, and else is made with the variant's number. */
  lemma VariantNamedAfter(row: Row, i: nat)
    requires i < |row.variantSkus|
    ensures |VariantSkuBases(row)| == |row.variantSkus|
    ensures VariantSkuBases(row)[i] ==
      if Trim(row.variantSkus[i]) != "" && '-' in row.variantSkus[i] then Trim(row.variantSkus[i])
      else MakeProductSku(row.name, i + 1)
  {
    var made := MakeProductSku(row.name, i + 1);
    MadeSkuReads(row.name, i + 1);
    MadeSkuUntrimmable(row.name, i + 1);
    TrimUntrimmable(made);
  }

  /** In a single creation a SKU sent is kept if it has a hyphen in it, and else made from its own characters. */
  lemma SingleNamedAfter(row: Row, index: nat)
    ensures var text := if Trim(row.sku) != "" then row.sku else row.name;
            SingleSkuBase(SkuText(row), index) == if '-' in text then Trim(text) else MakeProductSku(text, index)
    ensures forall i :: 0 <= i < |row.variantSkus| ==>
      var text := row.variantSkus[i];
      SingleVariantBase(row, i) == if Trim(text) == "" then MakeProductSku(row.name, i + 1)
                                   else if '-' in text then Trim(text) else MakeProductSku(text, 1)
  {
    MadeSkuUntrimmable(SkuText(row), index);
    TrimUntrimmable(MakeProductSku(SkuText(row), index));
    forall i | 0 <= i < |row.variantSkus|
      ensures SingleVariantBase(row, i) == if Trim(row.variantSkus[i]) == "" then MakeProductSku(row.name, i + 1)
                                           else if '-' in row.variantSkus[i] then Trim(row.variantSkus[i])
                                           else MakeProductSku(row.variantSkus[i], 1)
    {
      SingleVariant(row, i);
    }
  }

  lemma SingleVariant(row: Row, i: nat)
    requires i < |row.variantSkus|
    ensures SingleVariantBase(row, i) == if Trim(row.variantSkus[i]) == "" then MakeProductSku(row.name, i + 1)
                                         else if '-' in row.variantSkus[i] then Trim(row.variantSkus[i])
                                         else MakeProductSku(row.variantSkus[i], 1)
  {
    MadeSkuReads(row.name, i + 1);
    MadeSkuUntrimmable(row.name, i + 1);
    TrimUntrimmable(MakeProductSku(row.name, i + 1));
    MadeSkuUntrimmable(row.variantSkus[i], 1);
    TrimUntrimmable(MakeProductSku(row.variantSkus[i], 1));
  }

  /** A row without variants gets one, which follows the row's own SKU. */
  lemma DefaultVariant(row: Row)
    requires row.variantSkus == []
    ensures VariantSkuBases(row) == VariantSkuBases(row.(variantSkus := [row.sku]))
  {
  }

  /** A row without a slug, named by words: the slug is its words, cleaned, with single hyphens between them. */
  lemma SlugFromName(row: Row, lead: string, words: seq<string>, gaps: seq<string>)
    requires Trim(row.slug) == "" && words != [] && |gaps| == |words| && row.name == lead + Spaced(words, gaps)
    requires AllSpace(lead) && AreGaps(gaps) && AreWords(words)
    ensures SlugBase(row) == Hyphenated(CleanedAll(words))
  {
    NamedAfter(row);
    SlugOfWords(lead, words, gaps);
  }
}
