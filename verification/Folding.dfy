/** Case folding of path text. The Unicode case tables are a parameter: `table` stands for
    lowercasing the uppercase form of a rune outside ASCII. */
module Folding {
  import opened Paths
  import opened Utf8

  type CaseTable = Rune -> Rune

  /** How literal text compares: byte by byte, or regardless of case. */
  datatype Folding = Exact | Folded(table: CaseTable)

  const SLASH: Rune := 0x2F

  /** No rune outside ASCII folds to the path separator. */
  ghost predicate KeepsSlash(table: CaseTable) {
    forall r: Rune :: RUNE_SELF <= r ==> table(r) != SLASH
  }

  function FoldRune(table: CaseTable, r: Rune): Rune {
    if r < RUNE_SELF then
      if 'A' as int <= r <= 'Z' as int then r + 0x20 else r
    else table(r)
  }

  function FoldRunes(table: CaseTable, runes: seq<Rune>): (folded: seq<Rune>)
    ensures |folded| == |runes|
    ensures forall i :: 0 <= i < |runes| ==> folded[i] == FoldRune(table, runes[i])
  {
    seq(|runes|, i requires 0 <= i < |runes| => FoldRune(table, runes[i]))
  }

  /** `foldKey`: every rune folded. */
  function FoldKey(table: CaseTable, s: string): string {
    Encode(FoldRunes(table, Runes(s)))
  }

  /** How many bytes of `s` the runes `want` take at its start, if they match. */
  function PrefixLen(table: CaseTable, s: string, want: seq<Rune>): (n: Option<nat>)
    ensures n.Some? ==> n.value <= |s|
    decreases |want|
  {
    if want == [] then Some(0)
    else if s == "" then None
    else
      var (r, size) := DecodeRune(s);
      if FoldRune(table, r) != FoldRune(table, want[0]) then None
      else match PrefixLen(table, s[size..], want[1..])
        case None => None
        case Some(n) => Some(size + n)
  }

  /** `foldPrefixLen`: ranges over the runes of `prefix`, consuming `s` rune by rune. */
  method FoldPrefixLen(table: CaseTable, s: string, prefix: string) returns (n: nat, ok: bool)
    ensures ok <==> PrefixLen(table, s, Runes(prefix)).Some?
    ensures ok ==> n == PrefixLen(table, s, Runes(prefix)).value
  {
    hide DecodeRune;
    var want := Runes(prefix);
    var i := 0;
    for k := 0 to |want|
      invariant i <= |s|
      invariant PrefixLen(table, s, want) == match PrefixLen(table, s[i..], want[k..])
                                             case None => None
                                             case Some(n) => Some(i + n)
    {
      if i == |s| {
        return 0, false;
      }
      var (r, size) := DecodeRune(s[i..]);
      if FoldRune(table, r) != FoldRune(table, want[k]) {
        return 0, false;
      }
      assert s[i..][size..] == s[i + size..] && want[k..][1..] == want[k + 1..];
      i := i + size;
    }
    return i, true;
  }

  /** `PrefixLen` for the end of `s`. */
  function SuffixLen(table: CaseTable, s: string, suffix: string): (n: Option<nat>)
    ensures n.Some? ==> n.value <= |s|
    decreases |suffix|
  {
    if suffix == "" then Some(0)
    else if s == "" then None
    else
      var (want, wantSize) := DecodeLastRune(suffix);
      var (r, size) := DecodeLastRune(s);
      if FoldRune(table, r) != FoldRune(table, want) then None
      else match SuffixLen(table, s[..|s| - size], suffix[..|suffix| - wantSize])
        case None => None
        case Some(n) => Some(size + n)
  }

  /** `foldSuffixLen`: consumes both strings from the end. */
  method FoldSuffixLen(table: CaseTable, s: string, suffix: string) returns (n: nat, ok: bool)
    ensures ok <==> SuffixLen(table, s, suffix).Some?
    ensures ok ==> n == SuffixLen(table, s, suffix).value
  {
    hide DecodeLastRune;
    var i, j := |s|, |suffix|;
    assert s[..i] == s && suffix[..j] == suffix;
    while j > 0
      invariant 0 <= i <= |s| && 0 <= j <= |suffix|
      invariant SuffixLen(table, s, suffix) == match SuffixLen(table, s[..i], suffix[..j])
                                               case None => None
                                               case Some(n) => Some(|s| - i + n)
    {
      if i == 0 {
        return 0, false;
      }
      var (want, wantSize) := DecodeLastRune(suffix[..j]);
      var (r, size) := DecodeLastRune(s[..i]);
      if FoldRune(table, r) != FoldRune(table, want) {
        return 0, false;
      }
      assert s[..i][..i - size] == s[..i - size];
      assert suffix[..j][..j - wantSize] == suffix[..j - wantSize];
      i := i - size;
      j := j - wantSize;
    }
    return |s| - i, true;
  }

  predicate FoldEqual(table: CaseTable, a: string, b: string) {
    PrefixLen(table, a, Runes(b)) == Some(|a|)
  }

  /** The bytes that the text before and after a '*' takes at the two ends of `s`, if `s`
      starts and ends with them without the two overlapping. */
  function Affixes(fold: Folding, s: string, before: string, after: string): (n: Option<(nat, nat)>)
    ensures n.Some? ==> n.value.0 + n.value.1 <= |s|
  {
    if |before| + |after| <= |s| && HasPrefix(s, before) && HasSuffix(s, after) then Some((|before|, |after|))
    else if fold.Exact? then None
    else
      match (PrefixLen(fold.table, s, Runes(before)), SuffixLen(fold.table, s, after))
      case (Some(b), Some(a)) => if b + a <= |s| then Some((b, a)) else None
      case _ => None
  }

  // What the byte-level scans mean, on any byte strings

  lemma {:induction false} PrefixLenMeaning(table: CaseTable, s: string, want: seq<Rune>)
    ensures PrefixLen(table, s, want) ==
            if |want| <= |Runes(s)| && FoldRunes(table, Runes(s)[..|want|]) == FoldRunes(table, want)
            then Some(Width(s, |want|)) else None
    decreases |want|
  {
    hide DecodeRune, FoldRune, FoldRunes;
    if want != [] && s != "" {
      PrefixLenMeaning(table, s[DecodeRune(s).1..], want[1..]);
      PrefixStep(table, Runes(s), want);
    }
  }

  lemma PrefixStep(table: CaseTable, runes: seq<Rune>, want: seq<Rune>)
    requires want != [] && runes != []
    ensures |want| <= |runes| ==>
              (FoldRunes(table, runes[..|want|]) == FoldRunes(table, want) <==>
               && FoldRune(table, runes[0]) == FoldRune(table, want[0])
               && FoldRunes(table, runes[1..][..|want| - 1]) == FoldRunes(table, want[1..]))
  {
    if |want| <= |runes| {
      var n := |want|;
      var a, b := FoldRunes(table, runes[..n]), FoldRunes(table, want);
      assert runes[..n] == [runes[0]] + runes[1..][..n - 1];
      assert a == [FoldRune(table, runes[0])] + FoldRunes(table, runes[1..][..n - 1]);
      assert b == [FoldRune(table, want[0])] + FoldRunes(table, want[1..]);
    }
  }

  /** The last runes of `runes` fold like `want`. */
  predicate FoldEnds(table: CaseTable, runes: seq<Rune>, want: seq<Rune>) {
    |want| <= |runes| && FoldRunes(table, runes[|runes| - |want|..]) == FoldRunes(table, want)
  }

  lemma SuffixLenTakes(table: CaseTable, s: string, suffix: string, i: nat, j: nat, r: Rune, want: Rune)
    requires s != "" && suffix != "" && i <= |s| && j < |suffix|
    requires DecodeLastRune(s) == (r, |s| - i) && DecodeLastRune(suffix) == (want, |suffix| - j)
    ensures var rest := SuffixLen(table, s[..i], suffix[..j]);
            && (SuffixLen(table, s, suffix).Some? <==> FoldRune(table, r) == FoldRune(table, want) && rest.Some?)
            && (SuffixLen(table, s, suffix).Some? ==> SuffixLen(table, s, suffix).value == |s| - i + rest.value)
  {
    hide DecodeLastRune, FoldRune;
  }

  lemma SuffixLenDone(table: CaseTable, s: string, suffix: string)
    requires s == "" || suffix == ""
    ensures SuffixLen(table, s, suffix) == if suffix == "" then Some(0) else None
    ensures FoldEnds(table, Runes(s), Runes(suffix)) <==> suffix == ""
    ensures suffix == "" ==> Width(s, |Runes(s)| - |Runes(suffix)|) == |s|
  {
    if suffix == "" {
      WidthWhole(s);
    } else {
      LastRuneIsLast(suffix);
    }
  }

  lemma {:induction false} SuffixLenMeaning(table: CaseTable, s: string, suffix: string)
    ensures SuffixLen(table, s, suffix).Some? <==> FoldEnds(table, Runes(s), Runes(suffix))
    ensures FoldEnds(table, Runes(s), Runes(suffix)) ==>
              SuffixLen(table, s, suffix).value == |s| - Width(s, |Runes(s)| - |Runes(suffix)|)
    decreases |suffix|
  {
    hide SuffixLen, Runes, Width, DecodeLastRune, FoldRune, FoldRunes;
    if s == "" || suffix == "" {
      SuffixLenDone(table, s, suffix);
    } else {
      LastRuneIsLast(s);
      LastRuneIsLast(suffix);
      var n, k := |Runes(s)| - 1, |Runes(suffix)| - 1;
      var i, j := Width(s, n), Width(suffix, k);
      CutAt(s, n);
      CutAt(suffix, k);
      SuffixLenTakes(table, s, suffix, i, j, Runes(s)[n], Runes(suffix)[k]);
      SuffixLenMeaning(table, s[..i], suffix[..j]);
      if k <= n {
        WidthOfCut(s, n, n - k);
        SuffixStep(table, Runes(s), Runes(suffix));
      }
    }
  }

  lemma FoldSnoc(table: CaseTable, runes: seq<Rune>)
    requires runes != []
    ensures var n := |runes| - 1;
            FoldRunes(table, runes) == FoldRunes(table, runes[..n]) + [FoldRune(table, runes[n])]
  {
  }

  lemma SuffixStep(table: CaseTable, runes: seq<Rune>, want: seq<Rune>)
    requires 0 < |want| <= |runes|
    ensures var (n, k) := (|runes| - 1, |want| - 1);
            FoldEnds(table, runes, want) <==>
            FoldRune(table, runes[n]) == FoldRune(table, want[k]) && FoldEnds(table, runes[..n], want[..k])
  {
    hide FoldRune, FoldRunes;
    var n, k := |runes|, |want|;
    var tail := runes[n - k..];
    assert tail[..k - 1] == runes[..n - 1][n - k..];
    FoldSnoc(table, tail);
    FoldSnoc(table, want);
  }

  lemma FoldConcat(table: CaseTable, xs: seq<Rune>, ys: seq<Rune>)
    ensures FoldRunes(table, xs + ys) == FoldRunes(table, xs) + FoldRunes(table, ys)
  {
  }

  lemma FoldSlice(table: CaseTable, runes: seq<Rune>, i: nat, j: nat)
    requires i <= j <= |runes|
    ensures FoldRunes(table, runes)[i..j] == FoldRunes(table, runes[i..j])
  {
  }

  /** `foldEqual` compares folded runes. */
  lemma FoldEqualMeaning(table: CaseTable, a: string, b: string)
    ensures FoldEqual(table, a, b) <==> FoldKey(table, a) == FoldKey(table, b)
  {
    hide FoldRunes, DecodeRune;
    var xs, ys := Runes(a), Runes(b);
    PrefixLenMeaning(table, a, ys);
    RunesEncode(FoldRunes(table, xs));
    RunesEncode(FoldRunes(table, ys));
    WidthWhole(a);
    if |ys| < |xs| {
      WidthGrows(a, |ys|, |xs|);
    }
    assert |ys| == |xs| ==> xs[..|ys|] == xs;
  }

  lemma FoldKeyConcat(table: CaseTable, a: string, b: string)
    requires Joinable(a, b)
    ensures FoldKey(table, a + b) == FoldKey(table, a) + FoldKey(table, b)
  {
    hide Joinable, FoldRunes;
    RunesConcat(a, b);
    FoldConcat(table, Runes(a), Runes(b));
    EncodeConcat(FoldRunes(table, Runes(a)), FoldRunes(table, Runes(b)));
  }

  // Affixes, measured in runes

  predicate RuneAffixes(runes: seq<Rune>, before: seq<Rune>, after: seq<Rune>) {
    && |before| + |after| <= |runes|
    && runes[..|before|] == before
    && runes[|runes| - |after|..] == after
  }

  predicate ByteAffixes(s: string, before: string, after: string) {
    |before| + |after| <= |s| && HasPrefix(s, before) && HasSuffix(s, after)
  }

  /** The text around a '*' neither ends nor starts within a rune. */
  predicate WholeAffixes(before: string, after: string) {
    !EndsOpen(before) && !StartsInside(after)
  }

  lemma ByteAffixesAreRuneAffixes(s: string, before: string, after: string)
    requires ByteAffixes(s, before, after) && WholeAffixes(before, after)
    ensures RuneAffixes(Runes(s), Runes(before), Runes(after))
    ensures Width(s, |Runes(before)|) == |before|
    ensures Width(s, |Runes(s)| - |Runes(after)|) == |s| - |after|
  {
    hide ByteAffixes, WholeAffixes, Runes, Width, RuneAffixes;
    var mid := Between(s, before, after);
    RunesOfThree(s, before, mid, after);
  }

  lemma Between(s: string, before: string, after: string) returns (mid: string)
    requires ByteAffixes(s, before, after)
    ensures s == before + mid + after
  {
    mid := s[|before|..|s| - |after|];
  }

  lemma RunesOfThree(s: string, a: string, b: string, c: string)
    requires s == a + b + c && WholeAffixes(a, c)
    ensures RuneAffixes(Runes(s), Runes(a), Runes(c))
    ensures Width(s, |Runes(a)|) == |a|
    ensures Width(s, |Runes(s)| - |Runes(c)|) == |s| - |c|
  {
    hide EndsOpen, StartsInside, Runes, Width, RuneAffixes;
    assert s == a + (b + c);
    FrontOf(s, a, b + c);
    RunesConcat(a, b);
    BackOf(s, a + b, c);
    ThreeAffixes(Runes(a), Runes(b), Runes(c));
  }

  lemma ThreeAffixes(before: seq<Rune>, mid: seq<Rune>, after: seq<Rune>)
    ensures RuneAffixes(before + mid + after, before, after)
  {
    var runes := before + mid + after;
    assert runes[..|before|] == before && runes[|runes| - |after|..] == after;
  }

  lemma FrontOf(s: string, front: string, back: string)
    requires s == front + back && Joinable(front, back)
    ensures |Runes(front)| <= |Runes(s)| && Width(s, |Runes(front)|) == |front|
  {
    RunesConcat(front, back);
  }

  lemma BackOf(s: string, front: string, back: string)
    requires s == front + back && Joinable(front, back)
    ensures Runes(s) == Runes(front) + Runes(back)
    ensures Width(s, |Runes(s)| - |Runes(back)|) == |front|
  {
    hide Joinable, Runes, Width;
    RunesConcat(front, back);
    var n := |Runes(s)| - |Runes(back)|;
    assert n == |Runes(front)|;
  }

  lemma RuneAffixesAreByteAffixes(runes: seq<Rune>, before: seq<Rune>, after: seq<Rune>)
    requires RuneAffixes(runes, before, after)
    ensures ByteAffixes(Encode(runes), Encode(before), Encode(after))
  {
    hide Encode;
    var mid := runes[|before|..|runes| - |after|];
    assert runes == before + (mid + after);
    EncodeConcat(before, mid + after);
    EncodeConcat(mid, after);
    assert Encode(runes) == Encode(before) + Encode(mid) + Encode(after);
  }

  lemma AffixesExact(runes: seq<Rune>, before: seq<Rune>, after: seq<Rune>)
    ensures Affixes(Exact, Encode(runes), Encode(before), Encode(after)) ==
            if RuneAffixes(runes, before, after) then Some((|Encode(before)|, |Encode(after)|)) else None
  {
    hide Encode, Runes, EndsOpen, StartsInside;
    if RuneAffixes(runes, before, after) {
      RuneAffixesAreByteAffixes(runes, before, after);
    } else if ByteAffixes(Encode(runes), Encode(before), Encode(after)) {
      RunesEncode(runes);
      RunesEncode(before);
      RunesEncode(after);
      WholeText(Encode(before));
      WholeText(Encode(after));
      ByteAffixesAreRuneAffixes(Encode(runes), Encode(before), Encode(after));
    }
  }

  lemma AffixesAre(fold: Folding, s: string, before: string, after: string)
    ensures ByteAffixes(s, before, after) ==> Affixes(fold, s, before, after) == Some((|before|, |after|))
    ensures !ByteAffixes(s, before, after) && fold.Exact? ==> Affixes(fold, s, before, after) == None
    ensures !ByteAffixes(s, before, after) && fold.Folded? ==>
              var (b, a) := (PrefixLen(fold.table, s, Runes(before)), SuffixLen(fold.table, s, after));
              Affixes(fold, s, before, after) ==
              if b.Some? && a.Some? && b.value + a.value <= |s| then Some((b.value, a.value)) else None
  {
  }

  lemma FoldedRuneAffixes(table: CaseTable, runes: seq<Rune>, before: seq<Rune>, after: seq<Rune>)
    ensures RuneAffixes(FoldRunes(table, runes), FoldRunes(table, before), FoldRunes(table, after)) <==>
            && |before| + |after| <= |runes|
            && FoldRunes(table, runes[..|before|]) == FoldRunes(table, before)
            && FoldRunes(table, runes[|runes| - |after|..]) == FoldRunes(table, after)
  {
    hide FoldRunes;
    if |before| + |after| <= |runes| {
      FoldSlice(table, runes, 0, |before|);
      FoldSlice(table, runes, |runes| - |after|, |runes|);
    }
  }

  lemma AffixesFolded(table: CaseTable, mid: string, before: string, after: string)
    requires WholeAffixes(before, after)
    ensures var (rs, bs, cs) := (Runes(mid), Runes(before), Runes(after));
            Affixes(Folded(table), mid, before, after) ==
            if RuneAffixes(FoldRunes(table, rs), FoldRunes(table, bs), FoldRunes(table, cs))
            then Some((Width(mid, |bs|), |mid| - Width(mid, |rs| - |cs|))) else None
  {
    hide Runes, FoldRunes, PrefixLen, SuffixLen, Affixes, ByteAffixes, RuneAffixes, WholeAffixes, Width;
    var rs, bs, cs := Runes(mid), Runes(before), Runes(after);
    FoldedRuneAffixes(table, rs, bs, cs);
    AffixesAre(Folded(table), mid, before, after);
    if ByteAffixes(mid, before, after) {
      ByteAffixesAreRuneAffixes(mid, before, after);
      RuneAffixesCut(rs, bs, cs);
    } else {
      PrefixLenMeaning(table, mid, bs);
      SuffixLenMeaning(table, mid, after);
      if |bs| <= |rs| && |cs| <= |rs| {
        WidthsFit(mid, |bs|, |rs| - |cs|);
      }
    }
  }

  /** Two places in a text are ordered by bytes as they are by runes. */
  lemma WidthsFit(s: string, n: nat, m: nat)
    requires n <= |Runes(s)| && m <= |Runes(s)|
    ensures Width(s, n) <= Width(s, m) <==> n <= m
  {
    if n < m {
      WidthGrows(s, n, m);
    } else if m < n {
      WidthGrows(s, m, n);
    }
  }

  lemma RuneAffixesCut(runes: seq<Rune>, before: seq<Rune>, after: seq<Rune>)
    requires RuneAffixes(runes, before, after)
    ensures |before| + |after| <= |runes| && runes[..|before|] == before && runes[|runes| - |after|..] == after
  {
  }

  /** The cut `x` of `s` and the cut `y` of the folded `s` delimit the same runes. */
  predicate SameCut(table: CaseTable, s: string, x: (nat, nat), y: (nat, nat)) {
    var folded := FoldKey(table, s);
    && x.0 + x.1 <= |s| && y.0 + y.1 <= |folded|
    && FoldKey(table, s[..x.0]) == folded[..y.0]
    && FoldKey(table, s[x.0..|s| - x.1]) == folded[y.0..|folded| - y.1]
    && FoldKey(table, s[|s| - x.1..]) == folded[|folded| - y.1..]
  }

  /** Matching the text around a '*' regardless of case cuts `mid` where matching the folded
      text byte by byte cuts the folded `mid`. */
  predicate CutsAlike(table: CaseTable, mid: string, before: string, after: string) {
    var x := Affixes(Folded(table), mid, before, after);
    var y := Affixes(Exact, FoldKey(table, mid), FoldKey(table, before), FoldKey(table, after));
    && (x.None? <==> y.None?)
    && (x.Some? ==> SameCut(table, mid, x.value, y.value))
  }

  lemma AffixesRefine(table: CaseTable, mid: string, before: string, after: string)
    requires WholeAffixes(before, after)
    ensures CutsAlike(table, mid, before, after)
  {
    hide FoldRunes, Encode, Affixes, SameCut, WholeAffixes;
    var rs, bs, cs := Runes(mid), Runes(before), Runes(after);
    AffixesFolded(table, mid, before, after);
    AffixesExact(FoldRunes(table, rs), FoldRunes(table, bs), FoldRunes(table, cs));
    if RuneAffixes(FoldRunes(table, rs), FoldRunes(table, bs), FoldRunes(table, cs)) {
      FoldSlice(table, rs, 0, |bs|);
      FoldSlice(table, rs, |rs| - |cs|, |rs|);
      CutAtRunes(table, mid, |bs|, |rs| - |cs|);
      assert FoldRunes(table, rs[..|bs|]) == FoldRunes(table, bs);
      assert FoldRunes(table, rs[|rs| - |cs|..]) == FoldRunes(table, cs);
    }
  }

  lemma CutAtRunes(table: CaseTable, s: string, n: nat, m: nat)
    requires n <= m <= |Runes(s)|
    ensures var rs := Runes(s);
            SameCut(table, s, (Width(s, n), |s| - Width(s, m)),
                    (|Encode(FoldRunes(table, rs[..n]))|, |Encode(FoldRunes(table, rs[m..]))|))
  {
    hide FoldRunes, Encode, Runes, Width;
    var rs := Runes(s);
    var fs := FoldRunes(table, rs);
    RunesOfCut(s, n, m);
    ThreeWays(fs, n, m);
    FoldSlice(table, rs, 0, n);
    FoldSlice(table, rs, n, m);
    FoldSlice(table, rs, m, |rs|);
    assert fs[..n] == FoldRunes(table, rs[..n]) && fs[m..] == FoldRunes(table, rs[m..]);
    CutThree(Encode(fs[..n]), Encode(fs[n..m]), Encode(fs[m..]));
  }

  lemma RunesOfCut(s: string, n: nat, m: nat)
    requires n <= m <= |Runes(s)|
    ensures var (i, j) := (Width(s, n), Width(s, m));
            && i <= j
            && Runes(s[..i]) == Runes(s)[..n]
            && Runes(s[i..j]) == Runes(s)[n..m]
            && Runes(s[j..]) == Runes(s)[m..]
  {
    hide Runes;
    var i, j := Width(s, n), Width(s, m);
    WidthsFit(s, n, m);
    CutAt(s, n);
    CutAt(s, m);
    WidthOfCut(s, m, n);
    CutAt(s[..j], n);
    assert s[..j][i..] == s[i..j];
    assert Runes(s)[..m][n..] == Runes(s)[n..m];
  }

  lemma ThreeWays(rs: seq<Rune>, n: nat, m: nat)
    requires n <= m <= |rs|
    ensures Encode(rs) == Encode(rs[..n]) + Encode(rs[n..m]) + Encode(rs[m..])
  {
    WidthSplit(rs, m);
    WidthSplit(rs[..m], n);
    assert rs[..m][..n] == rs[..n] && rs[..m][n..] == rs[n..m];
  }

  lemma CutThree(a: string, b: string, c: string)
    ensures var s := a + b + c;
            && s[..|a|] == a && s[|a|..|s| - |c|] == b && s[|s| - |c|..] == c
  {
  }

  /** No other rune folds like U+FFFD, which stands for bytes that decode to nothing. */
  ghost predicate KeepsError(table: CaseTable) {
    forall r: Rune :: FoldRune(table, r) == FoldRune(table, RUNE_ERROR) ==> r == RUNE_ERROR
  }

  /** Folding and cutting agree on every text exactly when the text around the '*' does not end
      or start within a rune: comparing bytes first also accepts half a rune. */
  lemma AffixesRefineIff(table: CaseTable, before: string, after: string)
    requires KeepsError(table)
    ensures (forall mid :: CutsAlike(table, mid, before, after)) <==> WholeAffixes(before, after)
  {
    hide CutsAlike, EndsOpen, StartsInside;
    if EndsOpen(before) {
      var mid := OpenPrefixFails(table, before, after);
      assert !CutsAlike(table, mid, before, after);
    } else if StartsInside(after) {
      var mid := InnerSuffixFails(table, before, after);
      assert !CutsAlike(table, mid, before, after);
    } else {
      forall mid ensures CutsAlike(table, mid, before, after) {
        AffixesRefine(table, mid, before, after);
      }
    }
  }

  /** Half of a two-byte rune, compared by bytes, starts that rune; folded, it does not. */
  lemma HalfRuneExample(table: CaseTable)
    requires KeepsError(table)
    ensures var (half, whole) := ([Byte(0xC3)], [Byte(0xC3), Byte(0xA9)]);
            && Affixes(Folded(table), whole, half, "") == Some((1, 0))
            && Affixes(Exact, FoldKey(table, whole), FoldKey(table, half), FoldKey(table, "")) == None
  {
    var half, whole := [Byte(0xC3)], [Byte(0xC3), Byte(0xA9)];
    assert whole[..1] == half && whole[2..] == "";
    assert Runes(half) == [RUNE_ERROR] && Runes(whole) == [0xE9];
    FoldedDiffer(table, Runes(whole), Runes(half), [], 0);
    AffixesExact(FoldRunes(table, Runes(whole)), FoldRunes(table, Runes(half)), FoldRunes(table, []));
  }

  /** The bytes fit, but the runes do not. */
  lemma RunesDiffer(table: CaseTable, mid: string, before: string, after: string)
    requires ByteAffixes(mid, before, after)
    requires !RuneAffixes(FoldRunes(table, Runes(mid)), FoldRunes(table, Runes(before)), FoldRunes(table, Runes(after)))
    ensures !CutsAlike(table, mid, before, after)
  {
    hide FoldRunes, Encode, Affixes, SameCut, Runes;
    AffixesAre(Folded(table), mid, before, after);
    AffixesExact(FoldRunes(table, Runes(mid)), FoldRunes(table, Runes(before)), FoldRunes(table, Runes(after)));
  }

  /** How many bytes of an open sequence `s` ends with. */
  function OpenLength(s: string): (n: nat)
    requires EndsOpen(s)
    ensures OpensAtEnd(s, n)
  {
    if OpensAtEnd(s, 1) then 1 else if OpensAtEnd(s, 2) then 2 else 3
  }

  /** A text that completes the rune that `before` ends within. */
  lemma OpenPrefixFails(table: CaseTable, before: string, after: string) returns (mid: string)
    requires KeepsError(table) && EndsOpen(before)
    ensures '/' in mid ==> '/' in before || '/' in after
    ensures !CutsAlike(table, mid, before, after)
  {
    hide FoldRunes, DecodeRune, OpensAtEnd, CutsAlike, RuneAffixes, EndsOpen;
    var n := OpenLength(before);
    OpenTail(before, n);
    var a, t := before[..|before| - n], before[|before| - n..];
    var done := t + Completion(t) + after;
    mid := before + Completion(t) + after;
    assert before == a + t && mid == a + done;
    assert done[0] == t[0];
    CompletedDecodes(t, after);
    RunesConcat(a, t);
    RunesConcat(a, done);
    FoldedDiffer(table, Runes(mid), Runes(before), Runes(after), |Runes(a)|);
    CompletionSlashFree(t);
    AffixesOverlap(before, Completion(t), after);
    RunesDiffer(table, mid, before, after);
  }

  lemma OpenTail(s: string, n: nat)
    requires OpensAtEnd(s, n)
    ensures n <= |s| && Opens(s[|s| - n..])
  {
  }

  lemma CompletionSlashFree(t: string)
    requires Opens(t)
    ensures '/' !in Completion(t)
  {
  }

  lemma AffixesOverlap(before: string, between: string, after: string)
    ensures ByteAffixes(before + between + after, before, after)
  {
    var s := before + between + after;
    assert s[..|before|] == before && s[|s| - |after|..] == after;
  }

  lemma FoldedDiffer(table: CaseTable, runes: seq<Rune>, before: seq<Rune>, after: seq<Rune>, i: nat)
    requires i < |before| && i < |runes| && FoldRune(table, runes[i]) != FoldRune(table, before[i])
    ensures !RuneAffixes(FoldRunes(table, runes), FoldRunes(table, before), FoldRunes(table, after))
  {
    var fs, bs := FoldRunes(table, runes), FoldRunes(table, before);
    assert |bs| <= |fs| ==> fs[..|bs|][i] == fs[i];
  }

  /** A text that completes the rune that `after` starts within. */
  lemma InnerSuffixFails(table: CaseTable, before: string, after: string) returns (mid: string)
    requires KeepsError(table) && !EndsOpen(before) && StartsInside(after)
    ensures '/' in mid ==> '/' in before || '/' in after
    ensures !CutsAlike(table, mid, before, after)
  {
    hide FoldRunes, DecodeRune, CutsAlike, RuneAffixes, EndsOpen;
    var lead := [Byte(0xC3)];
    mid := before + lead + after;
    InnerDecodes(after);
    assert mid == before + (lead + after);
    RunesConcat(before, lead + after);
    assert (lead + after)[2..] == after[1..];
    FoldedDifferAfter(table, Runes(mid), Runes(before), Runes(after));
    AffixesOverlap(before, lead, after);
    RunesDiffer(table, mid, before, after);
  }

  lemma InnerDecodes(after: string)
    requires StartsInside(after)
    ensures DecodeRune(after) == (RUNE_ERROR, 1)
    ensures var d := DecodeRune([Byte(0xC3)] + after);
            d.1 == 2 && d.0 != RUNE_ERROR
  {
  }

  lemma FoldedDifferAfter(table: CaseTable, runes: seq<Rune>, before: seq<Rune>, after: seq<Rune>)
    requires 0 < |after| <= |runes|
    requires FoldRune(table, runes[|runes| - |after|]) != FoldRune(table, after[0])
    ensures !RuneAffixes(FoldRunes(table, runes), FoldRunes(table, before), FoldRunes(table, after))
  {
    var fs, cs := FoldRunes(table, runes), FoldRunes(table, after);
    assert fs[|fs| - |cs|..][0] == fs[|fs| - |cs|];
  }

  // The path separator survives folding

  lemma {:induction false} SlashRune(s: string, i: nat)
    requires i < |Runes(s)| && Runes(s)[i] == SLASH
    ensures '/' in s
    decreases |s|
  {
    if i > 0 {
      SlashRune(s[DecodeRune(s).1..], i - 1);
    } else {
      assert s[0] == '/';
    }
  }

  lemma {:induction false} SlashByte(runes: seq<Rune>)
    requires SLASH !in runes
    ensures '/' !in Encode(runes)
  {
    if runes != [] {
      SlashByte(runes[1..]);
      assert '/' !in EncodeRune(runes[0]);
    }
  }

  lemma FoldKeySlashFree(table: CaseTable, s: string)
    requires KeepsSlash(table) && '/' !in s
    ensures '/' !in FoldKey(table, s)
  {
    hide Encode, Runes;
    var runes := Runes(s);
    forall i | 0 <= i < |runes|
      ensures FoldRune(table, runes[i]) != SLASH
    {
      if runes[i] == SLASH {
        SlashRune(s, i);
      }
    }
    SlashByte(FoldRunes(table, runes));
  }

  lemma FoldKeyAround(table: CaseTable, a: string, b: string)
    ensures FoldKey(table, a + "/" + b) == FoldKey(table, a) + "/" + FoldKey(table, b)
  {
    hide FoldKey;
    SlashFolds(table);
    SlashCloses(a);
    FoldKeyConcat(table, a, "/");
    FoldKeyConcat(table, a + "/", b);
  }

  lemma SlashCloses(a: string)
    ensures !EndsOpen(a + "/") && !StartsInside("/")
  {
    var s := a + "/";
    assert s[|s| - 1] == '/';
  }

  lemma SlashFolds(table: CaseTable)
    ensures FoldKey(table, "/") == "/"
  {
    assert Runes("/") == [SLASH];
    assert FoldRunes(table, [SLASH]) == [SLASH];
    assert Encode([SLASH]) == "/";
  }

  function FoldKeys(table: CaseTable, parts: seq<string>): (keys: seq<string>)
    ensures |keys| == |parts|
    ensures forall i :: 0 <= i < |parts| ==> keys[i] == FoldKey(table, parts[i])
  {
    seq(|parts|, i requires 0 <= i < |parts| => FoldKey(table, parts[i]))
  }

  /** Folding a path folds its segments one by one. */
  lemma {:induction false} FoldSplit(table: CaseTable, path: string)
    requires KeepsSlash(table)
    ensures Split(FoldKey(table, path)) == FoldKeys(table, Split(path))
    decreases |path|
  {
    hide FoldKey, Split, IndexByte;
    var j := IndexByte(path, '/');
    if j < 0 {
      SplitWhole(path);
      FoldKeySlashFree(table, path);
      SplitWhole(FoldKey(table, path));
    } else {
      var a, b := path[..j], path[j + 1..];
      assert path == a + "/" + b;
      SplitFirst(a, b);
      FoldSplit(table, b);
      FoldKeyAround(table, a, b);
      FoldKeySlashFree(table, a);
      SplitFirst(FoldKey(table, a), FoldKey(table, b));
      FoldKeysCons(table, a, Split(b));
    }
  }

  lemma FoldKeysCons(table: CaseTable, a: string, parts: seq<string>)
    ensures FoldKeys(table, [a] + parts) == [FoldKey(table, a)] + FoldKeys(table, parts)
  {
  }

  lemma {:induction false} FoldJoin(table: CaseTable, parts: seq<string>)
    requires parts != []
    ensures FoldKey(table, Join(parts)) == Join(FoldKeys(table, parts))
  {
    hide FoldKey;
    var keys := FoldKeys(table, parts);
    if |parts| > 1 {
      FoldJoin(table, parts[1..]);
      FoldKeyAround(table, parts[0], Join(parts[1..]));
      assert keys[1..] == FoldKeys(table, parts[1..]);
    }
  }
}
