/** utils/slugify.js: the four replacements, and what they leave. */
module Slugify {
  import opened Text

  /** replace(/\s+/g, '-') */
  function SpacesToHyphens(s: string): string {
    if s == [] then []
    else if !IsSpace(s[0]) then [s[0]] + SpacesToHyphens(s[1..])
    else if |s| > 1 && IsSpace(s[1]) then SpacesToHyphens(s[1..])
    else "-" + SpacesToHyphens(s[1..])
  }

  predicate IsSlugChar(c: char) { IsDigit(c) || 'a' <= c <= 'z' || c == '_' || c == '-' }

  predicate IsWordOrHyphen(c: char) { IsSlugChar(c) || 'A' <= c <= 'Z' }

  /** replace(/[^\w\-]+/g, '') */
  function KeepWord(s: string): string {
    if s == [] then []
    else if IsWordOrHyphen(s[0]) then [s[0]] + KeepWord(s[1..])
    else KeepWord(s[1..])
  }

  /** replace(/\-\-+/g, '-') */
  function CollapseHyphens(s: string): string {
    if s == [] then []
    else if |s| > 1 && s[0] == '-' && s[1] == '-' then CollapseHyphens(s[1..])
    else [s[0]] + CollapseHyphens(s[1..])
  }

  function Slugify(text: string): string {
    CollapseHyphens(KeepWord(SpacesToHyphens(Trim(Lower(text)))))
  }

  /** What a slug looks like: its alphabet, and no two hyphens in a row. */
  predicate IsSlug(s: string) {
    && (forall i :: 0 <= i < |s| ==> IsSlugChar(s[i]))
    && (forall i :: 0 <= i < |s| - 1 ==> !(s[i] == '-' && s[i + 1] == '-'))
  }

  predicate NoUpper(s: string) { forall i :: 0 <= i < |s| ==> !('A' <= s[i] <= 'Z') }

  lemma {:induction false} TrimKeepsNoUpper(s: string)
    requires NoUpper(s)
    ensures NoUpper(TrimStart(s)) && NoUpper(TrimEnd(s))
    decreases |s|
  {
    if s != [] {
      TrimKeepsNoUpper(s[1..]);
      TrimKeepsNoUpper(s[..|s| - 1]);
    }
  }

  lemma {:induction false} HyphensKeepNoUpper(s: string)
    requires NoUpper(s)
    ensures NoUpper(SpacesToHyphens(s))
  {
    if s != [] { HyphensKeepNoUpper(s[1..]); }
  }

  lemma {:induction false} KeepWordAlphabet(s: string)
    requires NoUpper(s)
    ensures forall i :: 0 <= i < |KeepWord(s)| ==> IsSlugChar(KeepWord(s)[i])
  {
    if s != [] { KeepWordAlphabet(s[1..]); }
  }

  lemma {:induction false} CollapseIsSlug(s: string)
    requires forall i :: 0 <= i < |s| ==> IsSlugChar(s[i])
    ensures IsSlug(CollapseHyphens(s))
    ensures s == [] <==> CollapseHyphens(s) == []
    ensures s != [] ==> CollapseHyphens(s)[0] == s[0]
  {
    if s != [] { CollapseIsSlug(s[1..]); }
  }

  /** Every result of slugify is a slug: lower case, word characters and single hyphens only. */
  lemma SlugifyIsSlug(text: string)
    ensures IsSlug(Slugify(text))
  {
    var a := Lower(text);
    assert NoUpper(a);
    TrimKeepsNoUpper(a);
    TrimKeepsNoUpper(TrimStart(a));
    HyphensKeepNoUpper(Trim(a));
    KeepWordAlphabet(SpacesToHyphens(Trim(a)));
    CollapseIsSlug(KeepWord(SpacesToHyphens(Trim(a))));
  }

  lemma {:induction false} ReplacementsFixSlugs(s: string)
    requires IsSlug(s)
    ensures SpacesToHyphens(s) == s && KeepWord(s) == s && CollapseHyphens(s) == s
  {
    if s != [] { ReplacementsFixSlugs(s[1..]); }
  }

  lemma SlugFixed(s: string)
    requires IsSlug(s)
    ensures Lower(s) == s && Trim(s) == s && Slugify(s) == s
  {
    assert forall i :: 0 <= i < |s| ==> IsSlugChar(s[i]) && LowerChar(s[i]) == s[i] && !IsSpace(s[i]);
    ReplacementsFixSlugs(s);
  }

  /** A slug that is sent back as the wanted slug is taken unchanged as the new base. */
  lemma SlugifyIdempotent(text: string)
    ensures Slugify(Slugify(text)) == Slugify(text)
    ensures Lower(Slugify(text)) == Slugify(text) && Trim(Slugify(text)) == Slugify(text)
  {
    SlugifyIsSlug(text);
    SlugFixed(Slugify(text));
  }

  // ---------- what slugify computes ----------

  predicate AllSpace(s: string) { forall i :: 0 <= i < |s| ==> IsSpace(s[i]) }

  /** A stretch of text without white space; it may hold any other character. */
  predicate IsWord(s: string) { forall i :: 0 <= i < |s| ==> !IsSpace(s[i]) }

  predicate CountsInSlug(c: char) { IsDigit(c) || 'a' <= c <= 'z' || 'A' <= c <= 'Z' || c == '_' || c == '-' }

  /** A word in lower case, without the characters that have no place in a slug. */
  function Cleaned(word: string): string {
    if word == [] then []
    else (if CountsInSlug(word[0]) then [LowerChar(word[0])] else []) + Cleaned(word[1..])
  }

  function CleanedAll(words: seq<string>): seq<string> {
    if words == [] then [] else [Cleaned(words[0])] + CleanedAll(words[1..])
  }

  /** Something is left of a word, with hyphens inside at most, and one by one. */
  predicate Sound(s: string) {
    && s != "" && s[0] != '-' && s[|s| - 1] != '-'
    && forall i :: 0 <= i < |s| - 1 ==> !(s[i] == '-' && s[i + 1] == '-')
  }

  /** Words with a gap after each; the last gap is what trails the text. */
  function Spaced(words: seq<string>, gaps: seq<string>): string
    requires |gaps| == |words|
  {
    if words == [] then [] else words[0] + gaps[0] + Spaced(words[1..], gaps[1..])
  }

  function Hyphenated(words: seq<string>): string {
    if words == [] then []
    else if |words| == 1 then words[0]
    else words[0] + "-" + Hyphenated(words[1..])
  }

  /** Gaps of white space, none of them empty but perhaps the last one. */
  predicate AreGaps(gaps: seq<string>) {
    forall i :: 0 <= i < |gaps| ==> AllSpace(gaps[i]) && (gaps[i] == "" ==> i == |gaps| - 1)
  }

  predicate AreWords(words: seq<string>) {
    forall i :: 0 <= i < |words| ==> IsWord(words[i]) && Sound(Cleaned(words[i]))
  }

  lemma {:induction false} SpacesCopyWord(w: string, rest: string)
    requires IsWord(w)
    ensures SpacesToHyphens(w + rest) == w + SpacesToHyphens(rest)
  {
    if w == [] {
      assert w + rest == rest;
    } else {
      assert (w + rest)[0] == w[0] && (w + rest)[1..] == w[1..] + rest;
      SpacesCopyWord(w[1..], rest);
    }
  }

  lemma {:induction false} SpacesBecomeHyphen(gap: string, rest: string)
    requires gap != "" && AllSpace(gap) && rest != "" && !IsSpace(rest[0])
    ensures SpacesToHyphens(gap + rest) == "-" + SpacesToHyphens(rest)
  {
    assert (gap + rest)[0] == gap[0] && (gap + rest)[1..] == gap[1..] + rest;
    if |gap| == 1 {
      assert gap[1..] + rest == rest;
    } else {
      assert (gap + rest)[1] == gap[1];
      SpacesBecomeHyphen(gap[1..], rest);
    }
  }

  /** The text with the last gap taken off. */
  function Ended(gaps: seq<string>): seq<string>
    requires gaps != []
  {
    gaps[..|gaps| - 1] + [""]
  }

  lemma {:induction false} SpacedToHyphenated(words: seq<string>, gaps: seq<string>)
    requires words != [] && |gaps| == |words| && AreGaps(gaps) && gaps[|gaps| - 1] == ""
    requires forall i :: 0 <= i < |words| ==> IsWord(words[i]) && words[i] != ""
    ensures SpacesToHyphens(Spaced(words, gaps)) == Hyphenated(words)
    ensures Spaced(words, gaps) != "" && Spaced(words, gaps)[0] == words[0][0]
  {
    var rest := Spaced(words[1..], gaps[1..]);
    assert Spaced(words, gaps) == words[0] + (gaps[0] + rest);
    SpacesCopyWord(words[0], gaps[0] + rest);
    if |words| == 1 {
      assert gaps[0] + rest == "" && words[0] + "" == words[0];
    } else {
      SpacedToHyphenated(words[1..], gaps[1..]);
      SpacesBecomeHyphen(gaps[0], rest);
      assert words[0] + ("-" + Hyphenated(words[1..])) == words[0] + "-" + Hyphenated(words[1..]);
    }
  }

  lemma {:induction false} KeepWordConcat(a: string, b: string)
    ensures KeepWord(a + b) == KeepWord(a) + KeepWord(b)
  {
    if a == [] {
      assert a + b == b;
    } else {
      assert (a + b)[0] == a[0] && (a + b)[1..] == a[1..] + b;
      KeepWordConcat(a[1..], b);
    }
  }

  lemma {:induction false} KeepWordCleans(w: string)
    ensures KeepWord(Lower(w)) == Cleaned(w)
  {
    if w != [] {
      assert Lower(w)[0] == LowerChar(w[0]) && Lower(w)[1..] == Lower(w[1..]);
      KeepWordCleans(w[1..]);
    }
  }

  function LowerAll(words: seq<string>): (low: seq<string>)
    ensures |low| == |words| && forall i :: 0 <= i < |words| ==> low[i] == Lower(words[i])
  {
    seq(|words|, i requires 0 <= i < |words| => Lower(words[i]))
  }

  lemma {:induction false} KeepWordHyphenated(words: seq<string>)
    ensures KeepWord(Hyphenated(LowerAll(words))) == Hyphenated(CleanedAll(words))
    ensures |CleanedAll(words)| == |words|
  {
    if words != [] {
      assert LowerAll(words)[1..] == LowerAll(words[1..]);
      KeepWordHyphenated(words[1..]);
      KeepWordCleans(words[0]);
      if |words| > 1 {
        KeepWordConcat(Lower(words[0]) + "-", Hyphenated(LowerAll(words[1..])));
        KeepWordConcat(Lower(words[0]), "-");
        assert KeepWord("-") == "-";
      }
    }
  }

  lemma {:induction false} CleanedAlphabet(w: string)
    ensures forall i :: 0 <= i < |Cleaned(w)| ==> IsSlugChar(Cleaned(w)[i])
  {
    if w != [] { CleanedAlphabet(w[1..]); }
  }

  lemma {:induction false} HyphenatedIsSlug(words: seq<string>)
    requires words != [] && forall i :: 0 <= i < |words| ==> Sound(Cleaned(words[i]))
    ensures IsSlug(Hyphenated(CleanedAll(words)))
    ensures Hyphenated(CleanedAll(words)) != "" && Hyphenated(CleanedAll(words))[0] != '-'
  {
    CleanedAlphabet(words[0]);
    if |words| > 1 {
      HyphenatedIsSlug(words[1..]);
      JoinedIsSlug(Cleaned(words[0]), Hyphenated(CleanedAll(words[1..])));
    } else {
      assert CleanedAll(words[1..]) == [] && CleanedAll(words) == [Cleaned(words[0])];
    }
  }

  lemma JoinedIsSlug(a: string, b: string)
    requires IsSlug(a) && IsSlug(b) && Sound(a) && b != "" && b[0] != '-'
    ensures IsSlug(a + "-" + b)
  {
    var s := a + "-" + b;
    forall i | 0 <= i < |s| ensures IsSlugChar(s[i]) {
      assert s[i] == if i < |a| then a[i] else if i == |a| then '-' else b[i - |a| - 1];
    }
    forall i | 0 <= i < |s| - 1 ensures !(s[i] == '-' && s[i + 1] == '-') {
      if i > |a| { assert s[i] == b[i - |a| - 1] && s[i + 1] == b[i - |a|]; }
    }
  }

  lemma {:induction false} LowerSpaced(words: seq<string>, gaps: seq<string>)
    requires |gaps| == |words| && AreGaps(gaps)
    ensures Lower(Spaced(words, gaps)) == Spaced(LowerAll(words), gaps)
  {
    if words != [] {
      assert LowerAll(words)[1..] == LowerAll(words[1..]);
      LowerSpaced(words[1..], gaps[1..]);
      LowerConcat(words[0] + gaps[0], Spaced(words[1..], gaps[1..]));
      LowerConcat(words[0], gaps[0]);
      LowerSpace(gaps[0]);
    }
  }

  lemma LowerSpace(s: string)
    requires AllSpace(s)
    ensures Lower(s) == s
  {
  }

  lemma {:induction false} TrimStartLead(lead: string, s: string)
    requires AllSpace(lead) && s != "" && !IsSpace(s[0])
    ensures TrimStart(lead + s) == s
  {
    if lead == [] {
      assert lead + s == s;
    } else {
      assert (lead + s)[0] == lead[0] && (lead + s)[1..] == lead[1..] + s;
      TrimStartLead(lead[1..], s);
    }
  }

  lemma {:induction false} TrimEndTrail(s: string, trail: string)
    requires AllSpace(trail) && s != "" && !IsSpace(s[|s| - 1])
    ensures TrimEnd(s + trail) == s
  {
    if trail == [] {
      assert s + trail == s;
    } else {
      var n := |trail| - 1;
      assert (s + trail)[|s + trail| - 1] == trail[n] && (s + trail)[..|s + trail| - 1] == s + trail[..n];
      TrimEndTrail(s, trail[..n]);
    }
  }

  lemma SpacedOne(word: string, gap: string)
    ensures Spaced([word], [gap]) == word + gap
  {
    assert [word][1..] == [] && [gap][1..] == [] && word + gap + Spaced([], []) == word + gap;
  }

  /** The trailing gap stands at the end, after a text that ends with a word. */
  lemma {:induction false} SpacedEnds(words: seq<string>, gaps: seq<string>)
    requires words != [] && |gaps| == |words| && forall i :: 0 <= i < |words| ==> IsWord(words[i]) && words[i] != ""
    ensures Spaced(words, gaps) == Spaced(words, Ended(gaps)) + gaps[|gaps| - 1]
    ensures var s := Spaced(words, Ended(gaps)); s != "" && !IsSpace(s[|s| - 1])
  {
    if |words| == 1 {
      SpacedOne(words[0], gaps[0]);
      SpacedOne(words[0], "");
      assert words == [words[0]] && gaps == [gaps[0]] && Ended(gaps) == [""] && words[0] + "" == words[0];
    } else {
      assert Ended(gaps)[1..] == Ended(gaps[1..]) && Ended(gaps)[0] == gaps[0];
      SpacedEnds(words[1..], gaps[1..]);
      var rest := Spaced(words[1..], Ended(gaps[1..]));
      assert Spaced(words, Ended(gaps)) == words[0] + gaps[0] + rest;
      assert words[0] + gaps[0] + (rest + gaps[|gaps| - 1]) == words[0] + gaps[0] + rest + gaps[|gaps| - 1];
    }
  }

  lemma TrimSpaced(lead: string, words: seq<string>, gaps: seq<string>)
    requires words != [] && |gaps| == |words| && AllSpace(lead) && AreGaps(gaps)
    requires forall i :: 0 <= i < |words| ==> IsWord(words[i]) && words[i] != ""
    ensures Trim(lead + Spaced(words, gaps)) == Spaced(words, Ended(gaps))
  {
    SpacedEnds(words, gaps);
    SpacedToHyphenated(words, Ended(gaps));
    var inner, trail := Spaced(words, Ended(gaps)), gaps[|gaps| - 1];
    assert (inner + trail)[0] == inner[0];
    TrimStartLead(lead, inner + trail);
    TrimEndTrail(inner, trail);
  }

  lemma LowerWord(w: string)
    requires IsWord(w)
    ensures IsWord(Lower(w)) && (w != "" ==> Lower(w) != "")
  {
    forall i | 0 <= i < |w| ensures !IsSpace(Lower(w)[i]) { assert Lower(w)[i] == LowerChar(w[i]); }
  }

  /**
   * The slug of words parted by white space, wherever it stands and however much of it: the words in lower case,
   * without the characters that have no place in a slug, joined by single hyphens.
   */
  lemma SlugOfWords(lead: string, words: seq<string>, gaps: seq<string>)
    requires words != [] && |gaps| == |words| && AllSpace(lead) && AreGaps(gaps) && AreWords(words)
    ensures Slugify(lead + Spaced(words, gaps)) == Hyphenated(CleanedAll(words))
  {
    var low := LowerAll(words);
    forall i | 0 <= i < |low| ensures IsWord(low[i]) && low[i] != "" {
      LowerWord(words[i]);
      assert words[i] != "";
    }
    LowerConcat(lead, Spaced(words, gaps));
    LowerSpace(lead);
    LowerSpaced(words, gaps);
    TrimSpaced(lead, low, gaps);
    SpacedToHyphenated(low, Ended(gaps));
    KeepWordHyphenated(words);
    HyphenatedIsSlug(words);
    ReplacementsFixSlugs(Hyphenated(CleanedAll(words)));
  }

  lemma SlugOfTwoWords(lead: string, a: string, gap: string, b: string, trail: string)
    requires AllSpace(lead) && AllSpace(gap) && gap != "" && AllSpace(trail)
    requires IsWord(a) && Sound(Cleaned(a)) && IsWord(b) && Sound(Cleaned(b))
    ensures Slugify(lead + (a + gap + b + trail)) == Cleaned(a) + "-" + Cleaned(b)
  {
    var words, gaps := [a, b], [gap, trail];
    SlugOfWords(lead, words, gaps);
    SpacedTwo(a, gap, b, trail);
    assert words[1..] == [b] && [b][1..] == [] && CleanedAll([b]) == [Cleaned(b)];
    assert CleanedAll(words) == [Cleaned(a), Cleaned(b)] && [Cleaned(a), Cleaned(b)][1..] == [Cleaned(b)];
  }

  lemma SpacedTwo(a: string, gap: string, b: string, trail: string)
    ensures Spaced([a, b], [gap, trail]) == a + gap + b + trail
  {
    SpacedOne(b, trail);
    assert [a, b][1..] == [b] && [gap, trail][1..] == [trail];
    assert a + gap + (b + trail) == a + gap + b + trail;
  }

  lemma SlugOfFreshMilk(text: string)
    requires text == "Fresh Milk"
    ensures Slugify(text) == "fresh-milk"
  {
    var first, second := text[..5], text[6..];
    CleanedFresh(first);
    CleanedMilk(second);
    SlugOfTwoWords("", first, " ", second, "");
    assert "" + (first + " " + second + "") == text;
  }

  lemma CleanedFresh(word: string)
    requires word == "Fresh"
    ensures IsWord(word) && Cleaned(word) == "fresh" && Sound(Cleaned(word))
  {
    assert Cleaned(word[4..]) == "h" && Cleaned(word[3..]) == "sh" by { assert word[3..][1..] == word[4..]; }
    assert word[2..][1..] == word[3..] && word[1..][1..] == word[2..];
    assert Cleaned(word[2..]) == "esh" && Cleaned(word[1..]) == "resh";
  }

  lemma CleanedMilk(word: string)
    requires word == "Milk"
    ensures IsWord(word) && Cleaned(word) == "milk" && Sound(Cleaned(word))
  {
    assert Cleaned(word[3..]) == "k" && Cleaned(word[2..]) == "lk" by { assert word[2..][1..] == word[3..]; }
    assert word[1..][1..] == word[2..] && Cleaned(word[1..]) == "ilk";
  }

  // ---------- characters that leave no trace ----------

  lemma {:induction false} SpacesApart(x: string, y: string)
    requires x == "" || y == "" || !IsSpace(x[|x| - 1]) || !IsSpace(y[0])
    ensures SpacesToHyphens(x + y) == SpacesToHyphens(x) + SpacesToHyphens(y)
  {
    if x == "" {
      assert x + y == y;
    } else if y == "" {
      assert x + y == x;
    } else {
      assert (x + y)[0] == x[0] && (x + y)[1..] == x[1..] + y;
      SpacesApart(x[1..], y);
    }
  }

  lemma {:induction false} SpacesLead(y: string)
    requires y != "" && IsSpace(y[0])
    ensures SpacesToHyphens(y) != "" && SpacesToHyphens(y)[0] == '-'
  {
    if |y| > 1 && IsSpace(y[1]) { SpacesLead(y[1..]); }
  }

  lemma {:induction false} SpacesTrail(x: string)
    requires x != "" && IsSpace(x[|x| - 1])
    ensures var s := SpacesToHyphens(x); s != "" && s[|s| - 1] == '-'
  {
    if |x| > 1 { SpacesTrail(x[1..]); }
  }

  /** What a character turns into, by the one after it. */
  function Lead(c: char, next: char): string {
    if !IsSpace(c) then [c] else if IsSpace(next) then "" else "-"
  }

  lemma SpacesStep(s: string)
    requires |s| > 1
    ensures SpacesToHyphens(s) == Lead(s[0], s[1]) + SpacesToHyphens(s[1..])
  {
    assert "" + SpacesToHyphens(s[1..]) == SpacesToHyphens(s[1..]);
  }

  lemma SpacesStepBoth(x: string, y: string, t: string)
    requires |x| > 1 && SpacesToHyphens(x[1..] + y) == SpacesToHyphens(x[1..]) + t
    ensures SpacesToHyphens(x + y) == SpacesToHyphens(x) + t
  {
    var z := x + y;
    assert z[1..] == x[1..] + y && z[0] == x[0] && z[1] == x[1];
    SpacesStep(z);
    SpacesStep(x);
  }

  lemma OneSpace(c: char, y: string)
    requires IsSpace(c) && y != "" && IsSpace(y[0])
    ensures SpacesToHyphens([c] + y) == SpacesToHyphens(y) && SpacesToHyphens([c]) == "-"
  {
    SpacesStep([c] + y);
    assert ([c] + y)[1..] == y && [c][1..] == "";
  }

  /** White space on both sides of a cut makes a hyphen on both sides, but only one without the cut. */
  lemma {:induction false} SpacesMeet(x: string, y: string, t: string)
    requires x != "" && y != "" && IsSpace(x[|x| - 1]) && IsSpace(y[0]) && SpacesToHyphens(y) == "-" + t
    ensures SpacesToHyphens(x + y) == SpacesToHyphens(x) + t
  {
    if |x| == 1 {
      OneSpace(x[0], y);
      assert x == [x[0]];
    } else {
      SpacesMeet(x[1..], y, t);
      SpacesStepBoth(x, y, t);
    }
  }

  lemma {:induction false} CollapseTwo(a: string, b: string)
    ensures CollapseHyphens(a + "--" + b) == CollapseHyphens(a + "-" + b)
  {
    var two, one := a + "--" + b, a + "-" + b;
    if a == "" {
      assert two[1..] == one;
    } else {
      assert two[0] == one[0] == a[0] && two[1..] == a[1..] + "--" + b && one[1..] == a[1..] + "-" + b;
      assert two[1] == one[1];
      CollapseTwo(a[1..], b);
    }
  }

  lemma ReplacementsForget(x: string, c: char, y: string)
    requires !IsSpace(c) && !CountsInSlug(c)
    ensures CollapseHyphens(KeepWord(SpacesToHyphens(x + [c] + y))) == CollapseHyphens(KeepWord(SpacesToHyphens(x + y)))
  {
    var s, t := SpacesToHyphens(x), SpacesToHyphens(y);
    assert SpacesToHyphens([c]) == [c] && KeepWord([c]) == "";
    SpacesApart(x + [c], y);
    SpacesApart(x, [c]);
    KeepWordConcat(s + [c], t);
    KeepWordConcat(s, [c]);
    assert KeepWord(SpacesToHyphens(x + [c] + y)) == KeepWord(s) + KeepWord(t);
    if x == "" || y == "" || !IsSpace(x[|x| - 1]) || !IsSpace(y[0]) {
      SpacesApart(x, y);
      KeepWordConcat(s, t);
    } else {
      SpacesTrail(x);
      SpacesLead(y);
      assert t == "-" + t[1..];
      SpacesMeet(x, y, t[1..]);
      var n := |s| - 1;
      KeepWordConcat(s[..n], "-");
      KeepWordConcat("-", t[1..]);
      KeepWordConcat(s, t[1..]);
      assert s == s[..n] + "-" && KeepWord("-") == "-";
      assert KeepWord(s) + KeepWord(t) == KeepWord(s[..n]) + "--" + KeepWord(t[1..]);
      CollapseTwo(KeepWord(s[..n]), KeepWord(t[1..]));
    }
  }

  lemma {:induction false} TrimStartInside(a: string, rest: string)
    requires !AllSpace(a)
    ensures TrimStart(a + rest) == TrimStart(a) + rest
  {
    assert (a + rest)[0] == a[0] && (a + rest)[1..] == a[1..] + rest;
    if IsSpace(a[0]) { TrimStartInside(a[1..], rest); }
  }

  lemma {:induction false} TrimEndInside(rest: string, b: string)
    requires !AllSpace(b)
    ensures TrimEnd(rest + b) == rest + TrimEnd(b)
  {
    var n := |b| - 1;
    assert (rest + b)[|rest + b| - 1] == b[n] && (rest + b)[..|rest + b| - 1] == rest + b[..n];
    if IsSpace(b[n]) {
      TrimEndInside(rest, b[..n]);
    }
  }

  lemma TrimInside(a: string, mid: string, b: string)
    requires !AllSpace(a) && !AllSpace(b)
    ensures Trim(a + mid + b) == TrimStart(a) + mid + TrimEnd(b)
  {
    assert a + mid + b == a + (mid + b);
    TrimStartInside(a, mid + b);
    assert TrimStart(a) + (mid + b) == TrimStart(a) + mid + b;
    TrimEndInside(TrimStart(a) + mid, b);
  }

  lemma LowerNotSpace(s: string)
    requires !AllSpace(s)
    ensures !AllSpace(Lower(s))
  {
    var i :| 0 <= i < |s| && !IsSpace(s[i]);
    assert Lower(s)[i] == LowerChar(s[i]);
  }

  /**
   * Inside a text, a character that is neither white space nor has a place in a slug makes no difference at all,
   * whether it is part of a word or stands alone between blanks.
   */
  lemma SlugForgets(a: string, c: char, b: string)
    requires !IsSpace(c) && !CountsInSlug(c) && !AllSpace(a) && !AllSpace(b)
    ensures Slugify(a + [c] + b) == Slugify(a + b)
  {
    var x, y := TrimStart(Lower(a)), TrimEnd(Lower(b));
    LowerNotSpace(a);
    LowerNotSpace(b);
    assert Lower([c]) == [c];
    LowerConcat(a + [c], b);
    LowerConcat(a, [c]);
    LowerConcat(a, b);
    TrimInside(Lower(a), [c], Lower(b));
    TrimInside(Lower(a), "", Lower(b));
    assert Lower(a) + "" + Lower(b) == Lower(a + b) && x + "" + y == x + y;
    ReplacementsForget(x, c, y);
  }
}
