/** Matching a path against a compiled pattern, and the values it captures. */
module Matching {
  import opened Paths
  import opened Folding
  import opened Utf8
  import opened Patterns

  /** How a path reads as an instance of a pattern: the text of every head segment, the text
      matched around the splat and the splat itself, and the text of every tail segment. */
  datatype Match = Match(head: seq<string>, lead: string, splat: string, trail: string, tail: seq<string>)

  predicate SegmentMatches(fold: Folding, seg: Segment, part: string) {
    seg.slot >= 0 || part == seg.literal || (fold.Folded? && FoldEqual(fold.table, part, seg.literal))
  }

  predicate SegmentsMatch(fold: Folding, segs: seq<Segment>, parts: seq<string>) {
    && |segs| == |parts|
    && forall i :: 0 <= i < |segs| ==> SegmentMatches(fold, segs[i], parts[i])
  }

  /** The reading of `path` by `p`, segment by segment, if there is one. */
  function Parse(p: Pattern, path: string): Option<Match> {
    var parts := Split(path);
    if !p.hasSplat then
      if SegmentsMatch(p.fold, p.head, parts) then Some(Match(parts, "", "", "", [])) else None
    else
      var h, t := |p.head|, |parts| - |p.tail|;
      if t <= h || !SegmentsMatch(p.fold, p.head, parts[..h]) || !SegmentsMatch(p.fold, p.tail, parts[t..]) then None
      else Around(p, parts[..h], Join(parts[h..t]), parts[t..])
  }

  function Around(p: Pattern, head: seq<string>, mid: string, tail: seq<string>): Option<Match> {
    match Affixes(p.fold, mid, p.before, p.after)
    case None => None
    case Some((b, a)) => Some(Match(head, mid[..b], mid[b..|mid| - a], mid[|mid| - a..], tail))
  }

  predicate Matches(p: Pattern, path: string) {
    Parse(p, path).Some?
  }

  // Captured values

  function Store(values: seq<string>, seg: Segment, part: string): (r: seq<string>)
    ensures |r| == |values|
  {
    if 0 <= seg.slot < |values| then values[seg.slot := part] else values
  }

  /** Storing segment values first to last. */
  function StoreForward(values: seq<string>, segs: seq<Segment>, parts: seq<string>): (r: seq<string>)
    requires |segs| == |parts|
    ensures |r| == |values|
  {
    if segs == [] then values
    else
      var n := |segs| - 1;
      Store(StoreForward(values, segs[..n], parts[..n]), segs[n], parts[n])
  }

  /** Storing segment values last to first. */
  function StoreBackward(values: seq<string>, segs: seq<Segment>, parts: seq<string>): (r: seq<string>)
    requires |segs| == |parts|
    ensures |r| == |values|
  {
    if segs == [] then values
    else Store(StoreBackward(values, segs[1..], parts[1..]), segs[0], parts[0])
  }

  function Captured(p: Pattern, m: Match, values: seq<string>): (r: seq<string>)
    requires |m.head| == |p.head| && |m.tail| == |p.tail|
    ensures |r| == |values|
  {
    StoreBackward(StoreForward(values, p.head, m.head), p.tail, m.tail)
  }

  predicate SlotsBelow(segs: seq<Segment>, n: nat) {
    forall i :: 0 <= i < |segs| ==> -1 <= segs[i].slot < n
  }

  /** `patternSegment.match` and `matchFold`. */
  method MatchSegment(fold: Folding, seg: Segment, part: string, values: array?<string>) returns (ok: bool)
    requires values != null ==> seg.slot < values.Length
    modifies values
    ensures ok == SegmentMatches(fold, seg, part)
    ensures values != null ==> values[..] == Store(old(values[..]), seg, part)
  {
    if seg.slot < 0 {
      return part == seg.literal || (fold.Folded? && FoldEqual(fold.table, part, seg.literal));
    }
    if values != null {
      values[seg.slot] := part;
    }
    return true;
  }

  /** The loop of `walk` for a pattern without a splat. */
  method MatchWhole(fold: Folding, segs: seq<Segment>, path: string, values: array?<string>) returns (ok: bool)
    requires segs != []
    requires values != null ==> SlotsBelow(segs, values.Length)
    modifies values
    ensures ok == SegmentsMatch(fold, segs, Split(path))
    ensures ok && values != null ==> values[..] == StoreForward(old(values[..]), segs, Split(path))
  {
    hide FoldEqual, Split, StoreForward, Store, IndexByte;
    ghost var parts := Split(path);
    var rest := path;
    StoreNone(if values == null then [] else values[..]);
    for i := 0 to |segs|
      invariant i <= |parts|
      invariant i < |segs| ==> parts[i..] == Split(rest)
      invariant i == |segs| ==> i == |parts|
      invariant SegmentsMatch(fold, segs[..i], parts[..i])
      invariant values != null ==> values[..] == StoreForward(old(values[..]), segs[..i], parts[..i])
    {
      var part, taken;
      part, rest, taken := TakePart(rest, i == |segs| - 1);
      if !taken {
        return false;
      }
      assert part == parts[i];
      var matched := MatchSegment(fold, segs[i], part, values);
      if !matched {
        return false;
      }
      StoreNext(if values == null then [] else old(values[..]), segs, parts, i);
    }
    assert segs[..|segs|] == segs && parts[..|parts|] == parts;
    return true;
  }

  /** The next part of a path of whole segments: up to the next slash, or all that is left when
      it has to be the last. */
  method TakePart(text: string, last: bool) returns (part: string, rest: string, ok: bool)
    ensures ok <==> (last <==> |Split(text)| == 1)
    ensures ok ==> part == Split(text)[0]
    ensures ok && !last ==> Split(rest) == Split(text)[1..]
  {
    hide Split, IndexByte;
    var j := IndexByte(text, '/');
    if j < 0 {
      SplitWhole(text);
      return text, text, last;
    }
    CutFirst(text, j);
    return text[..j], text[j + 1..], !last;
  }

  lemma StoreNone(values: seq<string>)
    ensures StoreForward(values, [], []) == values
  {
  }

  lemma StoreNext(values: seq<string>, segs: seq<Segment>, parts: seq<string>, i: nat)
    requires i < |segs| && i < |parts|
    ensures StoreForward(values, segs[..i + 1], parts[..i + 1]) ==
            Store(StoreForward(values, segs[..i], parts[..i]), segs[i], parts[i])
  {
    assert segs[..i + 1][..i] == segs[..i] && parts[..i + 1][..i] == parts[..i];
  }

  lemma CutFirst(s: string, j: nat)
    requires j == IndexByte(s, '/')
    ensures s == s[..j] + "/" + s[j + 1..]
    ensures Split(s) == [s[..j]] + Split(s[j + 1..])
  {
    hide IndexByte, Join, Split;
    assert s == s[..j] + "/" + s[j + 1..];
    SplitFirst(s[..j], s[j + 1..]);
  }

  lemma CutLast(s: string, j: nat)
    requires j == LastIndexByte(s, '/')
    ensures Split(s) == Split(s[..j]) + [s[j + 1..]]
  {
    assert s == s[..j] + "/" + s[j + 1..];
    SplitLast(s[..j], s[j + 1..]);
  }

  /** The loop of `walk` over the segments before the splat, from the start of the path. */
  method MatchHead(fold: Folding, segs: seq<Segment>, path: string, values: array?<string>)
    returns (rest: string, ok: bool)
    requires values != null ==> SlotsBelow(segs, values.Length)
    modifies values
    ensures ok <==> |segs| < |Split(path)| && SegmentsMatch(fold, segs, Split(path)[..|segs|])
    ensures ok ==> Split(rest) == Split(path)[|segs|..]
    ensures ok ==> HasSuffix(path, rest)
    ensures ok && values != null ==>
              values[..] == StoreForward(old(values[..]), segs, Split(path)[..|segs|])
  {
    hide FoldEqual, Split, StoreForward, Store, IndexByte;
    ghost var parts := Split(path);
    rest := path;
    StoreNone(if values == null then [] else values[..]);
    for i := 0 to |segs|
      invariant i < |parts|
      invariant parts[i..] == Split(rest)
      invariant HasSuffix(path, rest)
      invariant SegmentsMatch(fold, segs[..i], parts[..i])
      invariant values != null ==> values[..] == StoreForward(old(values[..]), segs[..i], parts[..i])
    {
      var j := IndexByte(rest, '/');
      if j < 0 {
        SplitWhole(rest);
        return "", false;
      }
      CutFirst(rest, j);
      assert rest[..j] == parts[i];
      var matched := MatchSegment(fold, segs[i], rest[..j], values);
      if !matched {
        return "", false;
      }
      StoreNext(if values == null then [] else old(values[..]), segs, parts, i);
      assert Split(rest)[1..] == Split(rest[j + 1..]);
      rest := rest[j + 1..];
    }
    assert segs[..|segs|] == segs;
    return rest, true;
  }

  lemma StoreNoneBack(values: seq<string>)
    ensures StoreBackward(values, [], []) == values
  {
  }

  function LastParts(parts: seq<string>, n: nat): (r: seq<string>)
    requires n <= |parts|
    ensures |r| == n
  {
    parts[|parts| - n..]
  }

  /** The loop of `walk` over the segments after the splat, from the end of what is left. */
  method MatchTail(fold: Folding, segs: seq<Segment>, text: string, values: array?<string>)
    returns (rest: string, ok: bool)
    requires values != null ==> SlotsBelow(segs, values.Length)
    modifies values
    ensures ok <==> |segs| < |Split(text)| && SegmentsMatch(fold, segs, LastParts(Split(text), |segs|))
    ensures ok ==> Split(rest) == Split(text)[..|Split(text)| - |segs|]
    ensures ok ==> HasPrefix(text, rest)
    ensures ok && values != null ==>
              values[..] == StoreBackward(old(values[..]), segs, LastParts(Split(text), |segs|))
  {
    hide FoldEqual, Split, StoreBackward, Store, LastIndexByte, SegmentMatches;
    ghost var parts := Split(text);
    rest := text;
    var i := |segs|;
    ghost var t := |parts| - |segs|;
    StoreNoneBack(if values == null then [] else values[..]);
    while i > 0
      invariant 0 <= i <= |segs| && 0 < t + i
      invariant Split(rest) == parts[..t + i]
      invariant HasPrefix(text, rest)
      invariant SegmentsMatch(fold, segs[i..], parts[t + i..])
      invariant values != null ==> values[..] == StoreBackward(old(values[..]), segs[i..], parts[t + i..])
    {
      var j := LastIndexByte(rest, '/');
      if j < 0 {
        SplitWhole(rest);
        return "", false;
      }
      CutLast(rest, j);
      i := i - 1;
      assert rest[j + 1..] == parts[t + i];
      var matched := MatchSegment(fold, segs[i], rest[j + 1..], values);
      if !matched {
        return "", false;
      }
      TailStep(if values == null then [] else old(values[..]), segs, parts, t, i);
      rest := rest[..j];
    }
    return rest, true;
  }

  lemma TailStep(values: seq<string>, segs: seq<Segment>, parts: seq<string>, t: int, i: nat)
    requires t + |segs| == |parts| && i < |segs| && 0 <= t + i
    ensures StoreBackward(values, segs[i..], parts[t + i..]) ==
            Store(StoreBackward(values, segs[i + 1..], parts[t + i + 1..]), segs[i], parts[t + i])
  {
    assert segs[i..][1..] == segs[i + 1..] && parts[t + i..][1..] == parts[t + i + 1..];
  }

  /** `foldAffixLens`. */
  method FoldAffixLens(table: CaseTable, s: string, prefix: string, suffix: string)
    returns (before: nat, after: nat, ok: bool)
    ensures ok <==> && PrefixLen(table, s, Runes(prefix)).Some? && SuffixLen(table, s, suffix).Some?
                    && PrefixLen(table, s, Runes(prefix)).value + SuffixLen(table, s, suffix).value <= |s|
    ensures ok ==> && before == PrefixLen(table, s, Runes(prefix)).value
                   && after == SuffixLen(table, s, suffix).value
  {
    var okPrefix, okSuffix;
    before, okPrefix := FoldPrefixLen(table, s, prefix);
    after, okSuffix := FoldSuffixLen(table, s, suffix);
    ok := okPrefix && okSuffix && before + after <= |s|;
  }

  predicate WellFormed(p: Pattern) {
    && (p.hasSplat || (p.head != [] && p.tail == []))
    && SlotsBelow(p.head, |p.names|)
    && SlotsBelow(p.tail, |p.names|)
  }

  lemma TailOfRest(p: Pattern, path: string, rest: string)
    requires |p.head| < |Split(path)| && Split(rest) == Split(path)[|p.head|..]
    ensures var (parts, n, h) := (Split(path), |p.tail|, |p.head|);
            var t := |parts| - n;
            && (n < |Split(rest)| <==> h < t)
            && (h < t ==> && LastParts(Split(rest), n) == parts[t..]
                          && Split(rest)[..|Split(rest)| - n] == parts[h..t])
  {
    hide Split, SlotsBelow;
    if |p.tail| < |Split(path)| - |p.head| {
      TailOfDrop(Split(path), |p.head|, |p.tail|);
    }
  }

  lemma TailOfDrop(parts: seq<string>, h: nat, n: nat)
    requires h < |parts|
    requires n < |parts| - h
    ensures LastParts(parts[h..], n) == parts[|parts| - n..]
    ensures parts[h..][..|parts| - h - n] == parts[h..|parts| - n]
  {
  }

  /** Text after the first `|xs|` segments starts right after them and their separator. */
  lemma StartOf(xs: seq<string>, ys: seq<string>)
    requires ys != []
    ensures |Join(xs + ys)| == |Join(xs + [""])| + |Join(ys)|
  {
    if xs == [] {
      assert xs + ys == ys && xs + [""] == [""];
    } else {
      JoinConcat(xs, ys);
      JoinConcat(xs, [""]);
    }
  }

  lemma JoinLast(xs: seq<string>, last: string)
    ensures |Join(xs + [last])| == |Join(xs + [""])| + |last|
  {
    StartOf(xs, [last]);
  }

  lemma SplatBounds(path: string, h: nat, rest: string, mid: string, before: nat, after: nat)
    requires h < |Split(path)| && Split(rest) == Split(path)[h..]
    requires HasSuffix(path, rest) && HasPrefix(rest, mid) && before + after <= |mid|
    ensures var start := |path| - |rest|;
            && start + |mid| <= |path|
            && |Join(Split(path)[..h] + [mid[..before]])| == start + before
            && path[start + before..start + |mid| - after] == mid[before..|mid| - after]
  {
    var parts := Split(path);
    StartOf(parts[..h], parts[h..]);
    assert parts[..h] + parts[h..] == parts;
    JoinLast(parts[..h], mid[..before]);
    CutInside(path, rest, mid, before, after);
  }

  lemma CutInside(path: string, rest: string, mid: string, before: nat, after: nat)
    requires HasSuffix(path, rest) && HasPrefix(rest, mid) && before + after <= |mid|
    ensures var start := |path| - |rest|;
            path[start + before..start + |mid| - after] == mid[before..|mid| - after]
  {
    var start := |path| - |rest|;
    assert path[start..] == rest && rest[..|mid|] == mid;
    SliceSlice(path, start, before, |mid| - after);
    SliceSlice(rest, 0, before, |mid| - after);
  }

  lemma SliceSlice(s: string, from: nat, i: nat, j: nat)
    requires i <= j && from + j <= |s|
    ensures s[from..][i..j] == s[from + i..from + j]
  {
  }

  /** The end of `walk`: the bytes that the text around the splat takes. */
  method CutAffixes(fold: Folding, s: string, prefix: string, suffix: string)
    returns (before: nat, after: nat, ok: bool)
    ensures ok == Affixes(fold, s, prefix, suffix).Some?
    ensures ok ==> Affixes(fold, s, prefix, suffix).value == (before, after)
  {
    AffixesAre(fold, s, prefix, suffix);
    hide Affixes, PrefixLen, SuffixLen;
    before, after := |prefix|, |suffix|;
    ok := |s| >= before + after && HasPrefix(s, prefix) && HasSuffix(s, suffix);
    if !ok && fold.Folded? {
      before, after, ok := FoldAffixLens(fold.table, s, prefix, suffix);
    }
  }

  /** `walk`: matches `path`, storing placeholder values when `values` is given, and returns the
      bounds of the splat within the path. */
  method Walk(p: Pattern, path: string, values: array?<string>) returns (start: int, end: int, ok: bool)
    requires WellFormed(p)
    requires values != null ==> values.Length == |p.names|
    modifies values
    ensures ok == Matches(p, path)
    ensures ok ==> var m := Parse(p, path).value;
                   && (p.hasSplat ==>
                       && start == |Join(m.head + [m.lead])|
                       && end == start + |m.splat| <= |path|
                       && path[start..end] == m.splat)
                   && (values != null ==> values[..] == Captured(p, m, old(values[..])))
  {
    hide Split, Affixes, StoreForward, StoreBackward, Join, SegmentsMatch, HasPrefix, HasSuffix, SlotsBelow;
    if !p.hasSplat {
      ok := MatchWhole(p.fold, p.head, path, values);
      ghost var stored := if values == null then [] else values[..];
      StoreNoneBack(stored);
      return 0, 0, ok;
    }
    var rest;
    rest, ok := MatchHead(p.fold, p.head, path, values);
    if !ok {
      return 0, 0, false;
    }
    start := |path| - |rest|;
    // Matching the tail only within what the head left keeps both apart.
    var mid;
    mid, ok := MatchTail(p.fold, p.tail, rest, values);
    TailOfRest(p, path, rest);
    if !ok {
      return 0, 0, false;
    }
    assert mid == Join(Split(path)[|p.head|..|Split(path)| - |p.tail|]);
    end := start + |mid|;
    var before, after;
    before, after, ok := CutAffixes(p.fold, mid, p.before, p.after);
    if !ok {
      return 0, 0, false;
    }
    SplatBounds(path, |p.head|, rest, mid, before, after);
    return start + before, end - after, true;
  }

  /** `match`. */
  method MatchPath(p: Pattern, path: string) returns (ok: bool)
    requires WellFormed(p)
    ensures ok == Matches(p, path)
  {
    var _, _, matched := Walk(p, path, null);
    return matched;
  }

  function CapturedValues(p: Pattern, m: Match): (values: seq<string>)
    requires |m.head| == |p.head| && |m.tail| == |p.tail|
    ensures |values| == |p.names|
  {
    Captured(p, m, seq(|p.names|, _ => ""))
  }

  /** `capture`: the placeholder values, indexed like the names, and the splat value. */
  method Capture(p: Pattern, path: string) returns (values: seq<string>, splat: string, ok: bool)
    requires WellFormed(p)
    ensures ok == Matches(p, path)
    ensures ok ==> values == CapturedValues(p, Parse(p, path).value)
    ensures ok ==> splat == Parse(p, path).value.splat
  {
    hide Parse, Captured;
    var slots := new string[|p.names|](_ => "");
    assert slots[..] == seq(|p.names|, _ => "");
    var start, end, matched := Walk(p, path, slots);
    if !matched {
      return [], "", false;
    }
    NoSplatNoText(p, path);
    splat := "";
    if p.hasSplat {
      splat := path[start..end];
    }
    return slots[..], splat, true;
  }

  lemma NoSplatNoText(p: Pattern, path: string)
    ensures Matches(p, path) && !p.hasSplat ==> Parse(p, path).value.splat == ""
  {
  }

  lemma ParsedLengths(p: Pattern, path: string)
    requires WellFormed(p) && Matches(p, path)
    ensures var m := Parse(p, path).value;
            |m.head| == |p.head| && |m.tail| == |p.tail|
  {
    hide Split, Affixes, SegmentMatches, Join, SlotsBelow;
  }
}
