/** Matching regardless of case refines matching the folded pattern against the folded path. */
module FoldedMatching {
  import opened Paths
  import opened Utf8
  import opened Folding
  import opened Patterns
  import opened Matching
  import opened MatchingLaws

  function FoldSegment(table: CaseTable, seg: Segment): Segment {
    if seg.slot >= 0 then seg else seg.(literal := FoldKey(table, seg.literal))
  }

  function FoldSegments(table: CaseTable, segs: seq<Segment>): (r: seq<Segment>)
    ensures |r| == |segs|
    ensures forall i :: 0 <= i < |segs| ==> r[i] == FoldSegment(table, segs[i])
  {
    seq(|segs|, i requires 0 <= i < |segs| => FoldSegment(table, segs[i]))
  }

  /** The pattern with its literal text folded, compared byte by byte. */
  function FoldPattern(table: CaseTable, p: Pattern): Pattern {
    p.(head := FoldSegments(table, p.head), tail := FoldSegments(table, p.tail),
       before := FoldKey(table, p.before), after := FoldKey(table, p.after), fold := Exact)
  }

  function FoldMatch(table: CaseTable, m: Match): Match {
    Match(FoldKeys(table, m.head), FoldKey(table, m.lead), FoldKey(table, m.splat),
          FoldKey(table, m.trail), FoldKeys(table, m.tail))
  }

  lemma SegmentFolds(table: CaseTable, seg: Segment, part: string)
    ensures SegmentMatches(Folded(table), seg, part) <==>
            SegmentMatches(Exact, FoldSegment(table, seg), FoldKey(table, part))
  {
    FoldEqualMeaning(table, part, seg.literal);
  }

  lemma SegmentsFold(table: CaseTable, segs: seq<Segment>, parts: seq<string>)
    ensures SegmentsMatch(Folded(table), segs, parts) <==>
            SegmentsMatch(Exact, FoldSegments(table, segs), FoldKeys(table, parts))
  {
    hide FoldKey, FoldEqual;
    forall i | 0 <= i < |segs| && i < |parts|
      ensures SegmentMatches(Folded(table), segs[i], parts[i]) <==>
              SegmentMatches(Exact, FoldSegments(table, segs)[i], FoldKeys(table, parts)[i])
    {
      SegmentFolds(table, segs[i], parts[i]);
    }
  }

  /** Matching `path` regardless of case finds exactly the reading of the folded path by the
      folded pattern, cut out of the original path at the corresponding runes. */
  predicate FoldsAlike(table: CaseTable, p: Pattern, path: string) {
    SameMatch(table, Parse(p, path), Parse(FoldPattern(table, p), FoldKey(table, path)))
  }

  predicate SameMatch(table: CaseTable, m: Option<Match>, folded: Option<Match>) {
    match m
    case None => folded == None
    case Some(m) => folded == Some(FoldMatch(table, m))
  }

  /** The text of a pattern around its '*' neither ends nor starts within a rune. */
  predicate WholePattern(p: Pattern) {
    p.hasSplat ==> WholeAffixes(p.before, p.after)
  }

  lemma FoldRefines(table: CaseTable, p: Pattern, path: string)
    requires KeepsSlash(table) && p.fold == Folded(table) && WholePattern(p)
    ensures FoldsAlike(table, p, path)
  {
    hide FoldKey, Split, SegmentsMatch, Join, Affixes, WholeAffixes;
    var parts, keys := Split(path), Split(FoldKey(table, path));
    FoldSplit(table, path);
    if p.hasSplat {
      FoldRefinesSplat(table, p, path);
    } else {
      SegmentsFold(table, p.head, parts);
      FoldEmpty(table);
      assert FoldKeys(table, []) == [];
    }
  }

  lemma FoldEmpty(table: CaseTable)
    ensures FoldKey(table, "") == ""
  {
  }

  lemma FoldRefinesSplat(table: CaseTable, p: Pattern, path: string)
    requires p.fold == Folded(table) && p.hasSplat && WholeAffixes(p.before, p.after)
    requires Split(FoldKey(table, path)) == FoldKeys(table, Split(path))
    ensures FoldsAlike(table, p, path)
  {
    hide FoldKey, Split, SegmentsMatch, Join, Around, WholeAffixes, SameMatch;
    var parts, keys := Split(path), Split(FoldKey(table, path));
    var h, t := |p.head|, |parts| - |p.tail|;
    if h < t {
      assert keys[..h] == FoldKeys(table, parts[..h]) && keys[t..] == FoldKeys(table, parts[t..]);
      assert keys[h..t] == FoldKeys(table, parts[h..t]);
      SegmentsFold(table, p.head, parts[..h]);
      SegmentsFold(table, p.tail, parts[t..]);
      FoldJoin(table, parts[h..t]);
      AroundFolds(table, p, parts[..h], Join(parts[h..t]), parts[t..]);
      AffixesRefine(table, Join(parts[h..t]), p.before, p.after);
    }
    NoMatch(table);
  }

  lemma NoMatch(table: CaseTable)
    ensures SameMatch(table, None, None)
  {
  }

  lemma AroundFolds(table: CaseTable, p: Pattern, head: seq<string>, mid: string, tail: seq<string>)
    requires p.fold == Folded(table)
    ensures var folded := Around(FoldPattern(table, p), FoldKeys(table, head), FoldKey(table, mid), FoldKeys(table, tail));
            SameMatch(table, Around(p, head, mid, tail), folded) <==> CutsAlike(table, mid, p.before, p.after)
  {
    hide FoldKey, Affixes;
  }

  /** Matching regardless of case refines matching folded text, on every path, exactly when the
      pattern's text around the '*' does not end or start within a rune. */
  lemma FoldRefinesIff(table: CaseTable, raw: string)
    requires KeepsSlash(table) && KeepsError(table)
    ensures var p := Compile(raw).(fold := Folded(table));
            (forall path :: FoldsAlike(table, p, path)) <==> WholePattern(p)
  {
    hide Compile, FoldsAlike, WholeAffixes, CutsAlike;
    var p := Compile(raw).(fold := Folded(table));
    if WholePattern(p) {
      forall path ensures FoldsAlike(table, p, path) {
        FoldRefines(table, p, path);
      }
    } else {
      var mid := BrokenMiddle(table, raw);
      BrokenMatch(table, raw, mid);
      assert !FoldsAlike(table, p, PathAround(raw, mid));
    }
  }

  /** The path that fills the '*' of `raw` and the text around it by `mid`, and every placeholder by its own text. */
  function PathAround(raw: string, mid: string): string
    requires '*' in raw
  {
    var (front, _, _, back) := Cut(raw);
    Join(front + [mid] + back)
  }

  lemma BrokenMiddle(table: CaseTable, raw: string) returns (mid: string)
    requires KeepsError(table) && !WholePattern(Compile(raw))
    ensures '*' in raw && '/' !in mid
    ensures !CutsAlike(table, mid, Compile(raw).before, Compile(raw).after)
  {
    hide CutsAlike, EndsOpen, StartsInside, Cut, Split, Join;
    if '*' !in raw {
      PlainCompiled(raw);
    }
    CompiledFromCut(raw);
    CutGlues(raw);
    var before, after := Compile(raw).before, Compile(raw).after;
    if EndsOpen(before) {
      mid := OpenPrefixFails(table, before, after);
    } else {
      mid := InnerSuffixFails(table, before, after);
    }
  }

  lemma BrokenMatch(table: CaseTable, raw: string, mid: string)
    requires KeepsSlash(table) && '*' in raw && '/' !in mid
    requires !CutsAlike(table, mid, Compile(raw).before, Compile(raw).after)
    ensures !FoldsAlike(table, Compile(raw).(fold := Folded(table)), PathAround(raw, mid))
  {
    hide CutsAlike, Cut, Split, Join, Compile, FoldKey, Around, SegmentsMatch, NamesAfter, SameMatch;
    var p := Compile(raw).(fold := Folded(table));
    var (front, before, after, back) := Cut(raw);
    var path := PathAround(raw, mid);
    CompiledFromCut(raw);
    SplitAround(front, mid, back);
    SplitWhole(mid);
    SliceThree(front, [mid], back);
    FoldSplit(table, path);
    FoldsThree(table, front, mid, back);
    OwnText(Folded(table), front, NamesAfter(front, []));
    OwnText(Folded(table), back, NamesAfter(back, NamesAfter(front, [])));
    SegmentsFold(table, p.head, front);
    SegmentsFold(table, p.tail, back);
    JoinOne(mid);
    JoinOne(FoldKey(table, mid));
    AroundFolds(table, p, front, mid, back);
  }

  lemma JoinOne(mid: string)
    ensures Join([mid]) == mid
  {
  }

  /** Every segment of a pattern matches its own text. */
  lemma OwnText(fold: Folding, parts: seq<string>, names: seq<string>)
    ensures SegmentsMatch(fold, SegmentsFor(parts, names), parts)
  {
  }

  lemma FoldsThree(table: CaseTable, front: seq<string>, mid: string, back: seq<string>)
    ensures var (a, m, b) := (FoldKeys(table, front), FoldKey(table, mid), FoldKeys(table, back));
            var keys := FoldKeys(table, front + [mid] + back);
            var t := |keys| - |back|;
            && keys[..|front|] == a && keys[|front|..t] == [m] && keys[t..] == b
  {
    hide FoldKey;
  }

  /** A pattern of well-formed text folds whole. */
  lemma WellFormedFoldsWhole(raw: string)
    requires Valid(raw)
    ensures WholePattern(Compile(raw))
  {
    hide Valid, Cut, Split, Join, EndsOpen, StartsInside;
    if '*' in raw {
      CompiledFromCut(raw);
      CutGlues(raw);
      var (front, before, after, back) := Cut(raw);
      var a, b := Join(front + [before]), Join([after] + back);
      StarApart(a, b);
      ValidPieces(a + "*", b);
      ValidPieces(a, "*");
      LastPieceValid(front, before);
      FirstPieceValid(after, back);
      WholeText(before);
      WholeText(after);
    }
  }

  lemma StarApart(a: string, b: string)
    ensures Joinable(a, "*") && Joinable(a + "*", b)
  {
    assert (a + "*")[|a|] == '*';
  }

  lemma LastPieceValid(front: seq<string>, before: string)
    requires Valid(Join(front + [before]))
    ensures Valid(before)
  {
    hide Valid, EndsOpen, StartsInside;
    if front == [] {
      assert front + [before] == [before];
    } else {
      JoinConcat(front, [before]);
      SlashCloses(Join(front));
      ValidPieces(Join(front) + "/", before);
    }
  }

  lemma FirstPieceValid(after: string, back: seq<string>)
    requires Valid(Join([after] + back))
    ensures Valid(after)
  {
    hide Valid, EndsOpen;
    if back == [] {
      assert [after] + back == [after];
    } else {
      JoinConcat([after], back);
      assert after + "/" + Join(back) == after + ("/" + Join(back));
      ValidPieces(after, "/" + Join(back));
    }
  }

  /** Looking up an exact path by its folded key agrees with matching it segment by segment. */
  lemma FoldKeyLookup(table: CaseTable, raw: string, path: string)
    requires KeepsSlash(table) && Compile(raw).Exact()
    ensures Matches(Compile(raw).(fold := Folded(table)), path) <==> FoldKey(table, path) == FoldKey(table, raw)
  {
    hide FoldKey, Split, NamesAfter, Compile, SegmentsMatch;
    var p := Compile(raw).(fold := Folded(table));
    ExactIsPlain(raw);
    PlainCompiled(raw);
    FoldRefines(table, p, path);
    FoldSplit(table, raw);
    NoNamesNoSlots(Split(raw), []);
    var q := FoldPattern(table, p);
    LiteralsFold(table, Split(raw));
    LiteralHead(q.head, FoldKeys(table, Split(raw)), Split(FoldKey(table, path)));
  }

  lemma ExactIsPlain(raw: string)
    requires Compile(raw).Exact()
    ensures '*' !in raw && NamesAfter(Split(raw), []) == []
  {
  }

  lemma LiteralsFold(table: CaseTable, parts: seq<string>)
    requires forall i :: 0 <= i < |parts| ==> !IsPlaceholder(parts[i])
    ensures var segs := FoldSegments(table, SegmentsFor(parts, []));
            forall i :: 0 <= i < |segs| ==> segs[i].slot < 0 && segs[i].literal == FoldKeys(table, parts)[i]
  {
    hide FoldKey;
  }

  lemma LiteralHead(segs: seq<Segment>, literals: seq<string>, parts: seq<string>)
    requires |segs| == |literals|
    requires forall i :: 0 <= i < |segs| ==> segs[i].slot < 0 && segs[i].literal == literals[i]
    ensures SegmentsMatch(Exact, segs, parts) <==> parts == literals
  {
  }

  // Which texts fold alike

  /** ASCII runes fold alike as the same letter, others by the case table; a rune and an ASCII one fold alike
      when the table has the letter in lower case, or the character itself, for it. */
  predicate RunesAlike(table: CaseTable, x: Rune, y: Rune) {
    if x < 0x80 && y < 0x80 then SameLetter(x as char, y as char)
    else if x < 0x80 then LetterFor(table(y), x)
    else if y < 0x80 then LetterFor(table(x), y)
    else table(x) == table(y)
  }

  predicate LetterFor(r: Rune, x: Rune)
    requires x < 0x80
  {
    r < 0x80 && !('A' <= r as char <= 'Z') && SameLetter(r as char, x as char)
  }

  predicate FoldAlike(table: CaseTable, a: string, b: string) {
    && |Runes(a)| == |Runes(b)|
    && forall i :: 0 <= i < |Runes(a)| ==> RunesAlike(table, Runes(a)[i], Runes(b)[i])
  }

  lemma FoldOfRunes(table: CaseTable, x: Rune, y: Rune)
    ensures FoldRune(table, x) == FoldRune(table, y) <==> RunesAlike(table, x, y)
  {
    assert FoldRune(table, x) == if x < 0x80 then (if 0x41 <= x <= 0x5A then x + 32 else x) else table(x);
    assert FoldRune(table, y) == if y < 0x80 then (if 0x41 <= y <= 0x5A then y + 32 else y) else table(y);
  }

  lemma KeysAlike(table: CaseTable, a: string, b: string)
    ensures FoldKey(table, a) == FoldKey(table, b) <==> FoldAlike(table, a, b)
  {
    hide Encode, Runes, FoldRune, RunesAlike;
    var (x, y) := (FoldRunes(table, Runes(a)), FoldRunes(table, Runes(b)));
    RunesEncode(x);
    RunesEncode(y);
    assert FoldKey(table, a) == FoldKey(table, b) <==> x == y;
    if |Runes(a)| == |Runes(b)| {
      forall i | 0 <= i < |Runes(a)|
        ensures x[i] == y[i] <==> RunesAlike(table, Runes(a)[i], Runes(b)[i])
      {
        FoldOfRunes(table, Runes(a)[i], Runes(b)[i]);
      }
    }
  }

  /** Without regard to case, a pattern without '*' and placeholders matches exactly the paths that are its own
      text rune by rune, up to case. */
  lemma MatchesAlike(table: CaseTable, raw: string, path: string)
    requires KeepsSlash(table) && Compile(raw).Exact()
    ensures Matches(Compile(raw).(fold := Folded(table)), path) <==> FoldAlike(table, path, raw)
  {
    hide FoldKey, Compile, Matches, FoldAlike;
    FoldKeyLookup(table, raw, path);
    KeysAlike(table, path, raw);
  }

  lemma {:induction false} AsciiRunes(s: string)
    requires IsAscii(s)
    ensures |Runes(s)| == |s| && forall i :: 0 <= i < |s| ==> Runes(s)[i] == s[i] as int
    decreases |s|
  {
    if s != "" {
      assert DecodeRune(s) == (s[0] as int, 1);
      AsciiRunes(s[1..]);
      forall i | 0 <= i < |s|
        ensures Runes(s)[i] == s[i] as int
      {
        if i > 0 {
          assert Runes(s)[i] == Runes(s[1..])[i - 1];
        }
      }
    }
  }

  /** ASCII texts are the same letters, in whatever case. */
  lemma AsciiAlike(table: CaseTable, a: string, b: string)
    requires IsAscii(a) && IsAscii(b)
    ensures FoldAlike(table, a, b) <==> CaseVariant(a, b)
  {
    hide Runes, SameLetter;
    AsciiRunes(a);
    AsciiRunes(b);
    if |a| == |b| {
      forall i | 0 <= i < |a|
        ensures RunesAlike(table, Runes(a)[i], Runes(b)[i]) <==> SameLetter(a[i], b[i])
      {
        assert Runes(a)[i] as char == a[i] && Runes(b)[i] as char == b[i];
      }
    }
  }
}
