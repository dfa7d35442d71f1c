/** What matching means: a path matches exactly when it is an instance of the pattern's text. */
module MatchingLaws {
  import opened Paths
  import opened Folding
  import opened Patterns
  import opened Matching

  // Matching reads the path as an instance of the compiled pattern

  /** `m` reads `path` as an instance of the compiled pattern `p`. */
  predicate Reads(p: Pattern, m: Match, path: string) {
    && SlashFree(m.head) && SlashFree(m.tail)
    && SegmentsMatch(Exact, p.head, m.head) && SegmentsMatch(Exact, p.tail, m.tail)
    && m.lead == p.before && m.trail == p.after
    && if p.hasSplat then path == Join(m.head + [m.lead + m.splat + m.trail] + m.tail)
       else m.splat == "" && path == Join(m.head)
  }

  /** A compiled pattern that compares literal text byte by byte. */
  predicate ByteWise(p: Pattern) {
    WellFormed(p) && p.fold.Exact? && (!p.hasSplat ==> p.before == "" && p.after == "")
  }

  lemma {:induction false} JoinNested(xs: seq<string>, ms: seq<string>, ys: seq<string>)
    requires ms != []
    ensures Join(xs + [Join(ms)] + ys) == Join(xs + ms + ys)
    decreases |xs|
  {
    if xs == [] {
      assert xs + [Join(ms)] + ys == [Join(ms)] + ys && xs + ms + ys == ms + ys;
      if ys == [] {
        assert [Join(ms)] + ys == [Join(ms)] && ms + ys == ms;
      } else {
        JoinConcat([Join(ms)], ys);
        JoinConcat(ms, ys);
      }
    } else {
      JoinNested([], ms, ys);
      assert [] + [Join(ms)] + ys == [Join(ms)] + ys && [] + ms + ys == ms + ys;
      JoinConcat(xs, [Join(ms)] + ys);
      JoinConcat(xs, ms + ys);
      assert xs + [Join(ms)] + ys == xs + ([Join(ms)] + ys);
      assert xs + ms + ys == xs + (ms + ys);
    }
  }

  /** `walk` is sound and complete, and the reading it finds is the only one. */
  lemma ParseIffReads(p: Pattern, path: string, m: Match)
    requires ByteWise(p)
    ensures Parse(p, path) == Some(m) <==> Reads(p, m, path)
  {
    if Parse(p, path) == Some(m) {
      ParseReads(p, path, m);
    }
    if Reads(p, m, path) {
      ReadsParse(p, path, m);
    }
  }

  lemma ParseReads(p: Pattern, path: string, m: Match)
    requires ByteWise(p) && Parse(p, path) == Some(m)
    ensures Reads(p, m, path)
  {
    hide Join, Split, SegmentMatches;
    var parts := Split(path);
    if p.hasSplat {
      var h, t := |p.head|, |parts| - |p.tail|;
      var mid := Join(parts[h..t]);
      assert mid == m.lead + m.splat + m.trail;
      JoinNested(parts[..h], parts[h..t], parts[t..]);
      assert parts[..h] + parts[h..t] + parts[t..] == parts;
    }
  }

  lemma ReadsParse(p: Pattern, path: string, m: Match)
    requires ByteWise(p) && Reads(p, m, path)
    ensures Parse(p, path) == Some(m)
  {
    hide Join, Split, SegmentMatches;
    if p.hasSplat {
      var mid := m.lead + m.splat + m.trail;
      SplitAround(m.head, mid, m.tail);
      CutThree(m.lead, m.splat, m.trail);
      assert Around(p, m.head, mid, m.tail) == Some(m) by {
        AffixesAre(Exact, mid, p.before, p.after);
      }
      SliceThree(m.head, Split(mid), m.tail);
    } else {
      SplitJoin(m.head);
    }
  }

  lemma SliceThree(a: seq<string>, b: seq<string>, c: seq<string>)
    ensures var s := a + b + c;
            var t := |s| - |c|;
            && s[..|a|] == a && s[|a|..t] == b && s[t..] == c
  {
  }

  // Instances of the pattern's text

  /** The part that holds the pattern's '*', or the number of parts if there is none. */
  function StarPart(parts: seq<string>): (k: nat)
    ensures k <= |parts|
  {
    if parts == [] || '*' in parts[0] then 0 else 1 + StarPart(parts[1..])
  }

  function FillStar(part: string, splat: string): string
    requires '*' in part
  {
    var j := IndexByte(part, '*');
    part[..j] + splat + part[j + 1..]
  }

  /** `filled` repeats `parts`, with some slash-free text for every placeholder. */
  predicate FilledBy(parts: seq<string>, filled: seq<string>) {
    && |filled| == |parts|
    && forall i :: 0 <= i < |parts| ==>
         if IsPlaceholder(parts[i]) then '/' !in filled[i] else filled[i] == parts[i]
  }

  /** `filled` instantiates the parts of a pattern: slash-free text for every placeholder, and
      `splat`, which may hold slashes, for the first '*'. */
  predicate Instantiates(parts: seq<string>, filled: seq<string>, splat: string) {
    var k := StarPart(parts);
    && |filled| == |parts|
    && FilledBy(parts[..k], filled[..k])
    && (k < |parts| ==>
          && '*' in parts[k]
          && filled[k] == FillStar(parts[k], splat)
          && FilledBy(parts[k + 1..], filled[k + 1..]))
  }

  lemma {:induction false} StarPartIs(front: seq<string>, star: string, back: seq<string>)
    requires forall i :: 0 <= i < |front| ==> '*' !in front[i]
    requires '*' in star
    ensures StarPart(front + [star] + back) == |front|
  {
    var parts := front + [star] + back;
    if front != [] {
      assert parts[1..] == front[1..] + [star] + back;
      StarPartIs(front[1..], star, back);
    }
  }

  lemma {:induction false} NoStarPart(parts: seq<string>)
    requires forall i :: 0 <= i < |parts| ==> '*' !in parts[i]
    ensures StarPart(parts) == |parts|
  {
    if parts != [] {
      NoStarPart(parts[1..]);
    }
  }

  lemma {:induction false} PartsWithout(s: string, c: char)
    requires c !in s
    ensures forall i :: 0 <= i < |Split(s)| ==> c !in Split(s)[i]
    decreases |s|
  {
    var j := IndexByte(s, '/');
    if j >= 0 {
      PartsWithout(s[j + 1..], c);
    }
  }

  lemma JoinPrefix(xs: seq<string>, b: string, c: string)
    ensures Join(xs + [b + c]) == Join(xs + [b]) + c
  {
    if xs == [] {
      assert xs + [b + c] == [b + c] && xs + [b] == [b];
    } else {
      JoinConcat(xs, [b + c]);
      JoinConcat(xs, [b]);
    }
  }

  lemma JoinSuffix(c: string, a: string, ys: seq<string>)
    ensures Join([c + a] + ys) == c + Join([a] + ys)
  {
    if ys == [] {
      assert [c + a] + ys == [c + a] && [a] + ys == [a];
    } else {
      JoinConcat([c + a], ys);
      JoinConcat([a], ys);
    }
  }

  /** A text glued into one part of a join stays where it is in the joined text. */
  lemma JoinGlue(xs: seq<string>, b: string, m: string, a: string, ys: seq<string>)
    ensures Join(xs + [b + m + a] + ys) == Join(xs + [b]) + m + Join([a] + ys)
  {
    hide Join;
    JoinSuffix(b + m, a, ys);
    JoinNested(xs, [b + m + a] + ys, []);
    assert xs + ([b + m + a] + ys) + [] == xs + [b + m + a] + ys;
    var w := Join([a] + ys);
    assert b + m + w == b + (m + w);
    assert xs + [b + m + w] + [] == xs + [b + (m + w)];
    JoinPrefix(xs, b, m + w);
  }

  lemma SplitGlued(front: seq<string>, before: string, after: string, back: seq<string>)
    requires SlashFree(front) && SlashFree(back) && '/' !in before && '/' !in after
    ensures Split(Join(front + [before]) + "*" + Join([after] + back)) == front + [before + "*" + after] + back
  {
    hide Split, Join;
    JoinGlue(front, before, "*", after, back);
    SplitJoin(front + [before + "*" + after] + back);
  }

  lemma StarParts(front: seq<string>, before: string, after: string, back: seq<string>)
    requires forall i :: 0 <= i < |front| ==> '*' !in front[i]
    requires '*' !in before
    ensures StarPart(front + [before + "*" + after] + back) == |front|
    ensures IndexByte(before + "*" + after, '*') == |before|
  {
    StarPartIs(front, before + "*" + after, back);
    assert (before + "*" + after)[..|before|] == before;
    IndexByteIs(before + "*" + after, '*', |before|);
  }

  /** The whole segments before the '*' of a pattern's text, the text around the '*' in its own
      segment, and the whole segments after it. */
  function Cut(raw: string): (c: (seq<string>, string, string, seq<string>))
    requires '*' in raw
    ensures SlashFree(c.0) && SlashFree(c.3)
  {
    var star := IndexByte(raw, '*');
    var hp, tp := Split(raw[..star]), Split(raw[star + 1..]);
    (hp[..|hp| - 1], hp[|hp| - 1], tp[0], tp[1..])
  }

  lemma CompiledFromCut(raw: string)
    requires '*' in raw
    ensures var (p, c) := (Compile(raw), Cut(raw));
            && p.hasSplat && p.before == c.1 && p.after == c.2
            && p.head == SegmentsFor(c.0, NamesAfter(c.0, []))
            && p.tail == SegmentsFor(c.3, NamesAfter(c.3, NamesAfter(c.0, [])))
  {
    hide Split, NamesAfter, SegmentsFor;
  }

  lemma PlainCompiled(raw: string)
    requires '*' !in raw
    ensures var p := Compile(raw);
            && p.head == SegmentsFor(Split(raw), NamesAfter(Split(raw), []))
            && p.tail == [] && p.before == "" && p.after == "" && !p.hasSplat
  {
  }

  lemma SplitAtStar(raw: string)
    requires '*' in raw
    ensures var (front, before, after, back) := Cut(raw);
            && Split(raw) == front + [before + "*" + after] + back
            && StarPart(Split(raw)) == |front|
            && IndexByte(before + "*" + after, '*') == |before|
  {
    hide Split, Join, StarPart, IndexByte, Cut;
    var (front, before, after, back) := Cut(raw);
    CutGlues(raw);
    SplitGlued(front, before, after, back);
    StarParts(front, before, after, back);
  }

  lemma CutGlues(raw: string)
    requires '*' in raw
    ensures var (front, before, after, back) := Cut(raw);
            && raw == Join(front + [before]) + "*" + Join([after] + back)
            && '/' !in before && '/' !in after && '*' !in before
            && forall i :: 0 <= i < |front| ==> '*' !in front[i]
  {
    hide Split, Join;
    var star := IndexByte(raw, '*');
    var hp, tp := Split(raw[..star]), Split(raw[star + 1..]);
    var (front, before, after, back) := Cut(raw);
    assert front + [before] == hp && [after] + back == tp;
    assert raw == raw[..star] + "*" + raw[star + 1..];
    PartsWithout(raw[..star], '*');
  }

  lemma {:induction false} SlotsGiven(parts: seq<string>, names: seq<string>)
    requires forall i :: 0 <= i < |parts| && IsPlaceholder(parts[i]) ==> parts[i][1..] in names
    ensures SlotsBelow(SegmentsFor(parts, names), |names|)
    ensures forall i :: 0 <= i < |parts| ==> (SegmentsFor(parts, names)[i].slot >= 0 <==> IsPlaceholder(parts[i]))
  {
  }

  lemma FilledIsMatched(parts: seq<string>, names: seq<string>, filled: seq<string>)
    requires SlashFree(parts)
    requires forall i :: 0 <= i < |parts| && IsPlaceholder(parts[i]) ==> parts[i][1..] in names
    ensures FilledBy(parts, filled) <==> SlashFree(filled) && SegmentsMatch(Exact, SegmentsFor(parts, names), filled)
  {
    SlotsGiven(parts, names);
  }

  lemma CompiledByteWise(raw: string)
    ensures ByteWise(Compile(raw))
  {
    hide Split, NamesAfter, SegmentsFor;
    if '*' !in raw {
      NamesCovered(Split(raw), []);
      SlotsGiven(Split(raw), NamesAfter(Split(raw), []));
    } else {
      var (front, _, _, back) := Cut(raw);
      var names := NamesAfter(front, []);
      NamesCovered(front, []);
      SlotsGiven(front, names);
      NamesCovered(back, names);
      SlotsGiven(back, NamesAfter(back, names));
    }
  }

  /** A path matches a compiled pattern exactly when it is the pattern's text with some
      slash-free text for every placeholder and some text for the '*'. */
  lemma MatchesIffInstance(raw: string, path: string)
    ensures Matches(Compile(raw), path) <==>
            exists filled, splat :: Instantiates(Split(raw), filled, splat) && Join(filled) == path
  {
    hide Compile, Parse, Reads, Instantiates, Split, Join;
    var p := Compile(raw);
    CompiledByteWise(raw);
    if Matches(p, path) {
      var m := Parse(p, path).value;
      ParseIffReads(p, path, m);
      InstanceOfMatch(raw, m, path);
      assert Instantiates(Split(raw), Filling(p, m), m.splat);
    }
    if filled, splat :| Instantiates(Split(raw), filled, splat) && Join(filled) == path {
      MatchOfInstance(raw, filled, splat);
      ParseIffReads(p, path, MatchFor(raw, filled, splat));
    }
  }

  /** The parts of the path that a match reads. */
  function Filling(p: Pattern, m: Match): seq<string> {
    if p.hasSplat then m.head + [m.lead + m.splat + m.trail] + m.tail else m.head
  }

  function MatchFor(raw: string, filled: seq<string>, splat: string): Match {
    var k := StarPart(Split(raw));
    if '*' in raw && k < |filled| then
      Match(filled[..k], Compile(raw).before, splat, Compile(raw).after, filled[k + 1..])
    else Match(filled, "", "", "", [])
  }

  lemma InstanceOfMatch(raw: string, m: Match, path: string)
    requires Reads(Compile(raw), m, path)
    ensures Instantiates(Split(raw), Filling(Compile(raw), m), m.splat)
    ensures Join(Filling(Compile(raw), m)) == path
  {
    hide NamesAfter, SegmentsFor, Split, Join, Compile;
    CompiledByteWise(raw);
    if '*' in raw {
      CompiledFromCut(raw);
      SplatInstanceIffRead(raw, m);
    } else {
      PlainInstanceIffRead(raw, m.head);
      assert Split(raw)[..|Split(raw)|] == Split(raw);
    }
  }

  lemma MatchOfInstance(raw: string, filled: seq<string>, splat: string)
    requires Instantiates(Split(raw), filled, splat)
    ensures Reads(Compile(raw), MatchFor(raw, filled, splat), Join(filled))
  {
    if '*' in raw {
      MatchOfSplatInstance(raw, filled, splat);
    } else {
      hide Compile, Split, Join, SegmentsMatch;
      CompiledByteWise(raw);
      PlainInstanceIffRead(raw, filled);
      assert Split(raw)[..|Split(raw)|] == Split(raw) && filled[..|filled|] == filled;
    }
  }

  lemma MatchOfSplatInstance(raw: string, filled: seq<string>, splat: string)
    requires '*' in raw && Instantiates(Split(raw), filled, splat)
    ensures Reads(Compile(raw), MatchFor(raw, filled, splat), Join(filled))
  {
    hide NamesAfter, SegmentsFor, Split, Join, SegmentsMatch, FilledBy, StarPart, Compile, Cut;
    var m := MatchFor(raw, filled, splat);
    CompiledFromCut(raw);
    SplitAtStar(raw);
    FillStarParts(m.lead, m.splat, m.trail);
    assert filled == Filling(Compile(raw), m);
    SplatInstanceIffRead(raw, m);
  }

  lemma FillStarParts(before: string, splat: string, after: string)
    requires IndexByte(before + "*" + after, '*') == |before|
    ensures FillStar(before + "*" + after, splat) == before + splat + after
  {
    var star := before + "*" + after;
    assert star[..|before|] == before && star[|before| + 1..] == after;
  }

  lemma PlainInstanceIffRead(raw: string, filled: seq<string>)
    requires '*' !in raw
    ensures StarPart(Split(raw)) == |Split(raw)|
    ensures FilledBy(Split(raw), filled) <==>
            SlashFree(filled) && SegmentsMatch(Exact, Compile(raw).head, filled)
    ensures !Compile(raw).hasSplat && Compile(raw).tail == []
  {
    hide NamesAfter, SegmentsFor, Split, SegmentsMatch, FilledBy;
    PartsWithout(raw, '*');
    NoStarPart(Split(raw));
    NamesCovered(Split(raw), []);
    FilledIsMatched(Split(raw), NamesAfter(Split(raw), []), filled);
  }

  lemma SplatInstanceIffRead(raw: string, m: Match)
    requires '*' in raw && m.lead == Compile(raw).before && m.trail == Compile(raw).after
    requires |m.head| == |Compile(raw).head| && |m.tail| == |Compile(raw).tail|
    ensures Compile(raw).hasSplat
    ensures Instantiates(Split(raw), Filling(Compile(raw), m), m.splat) <==>
            && SlashFree(m.head) && SegmentsMatch(Exact, Compile(raw).head, m.head)
            && SlashFree(m.tail) && SegmentsMatch(Exact, Compile(raw).tail, m.tail)
  {
    hide NamesAfter, SegmentsFor, Split, SegmentsMatch, FilledBy, StarPart, Instantiates, Compile, Cut;
    var (front, _, _, back) := Cut(raw);
    CompiledFromCut(raw);
    SplitAtStar(raw);
    HeadFilled(front, m.head);
    TailFilled(back, NamesAfter(front, []), m.tail);
    FilledAround(front, m.lead, m.trail, back, m);
  }

  lemma HeadFilled(front: seq<string>, filled: seq<string>)
    requires SlashFree(front)
    ensures FilledBy(front, filled) <==>
            SlashFree(filled) && SegmentsMatch(Exact, SegmentsFor(front, NamesAfter(front, [])), filled)
  {
    TailFilled(front, [], filled);
  }

  lemma TailFilled(back: seq<string>, names: seq<string>, filled: seq<string>)
    requires SlashFree(back)
    ensures FilledBy(back, filled) <==>
            SlashFree(filled) && SegmentsMatch(Exact, SegmentsFor(back, NamesAfter(back, names)), filled)
  {
    NamesCovered(back, names);
    FilledIsMatched(back, NamesAfter(back, names), filled);
  }

  lemma FilledAround(front: seq<string>, before: string, after: string, back: seq<string>, m: Match)
    requires m.lead == before && m.trail == after && |m.head| == |front| && |m.tail| == |back|
    requires StarPart(front + [before + "*" + after] + back) == |front|
    requires IndexByte(before + "*" + after, '*') == |before|
    ensures Instantiates(front + [before + "*" + after] + back, m.head + [before + m.splat + after] + m.tail, m.splat)
            <==> FilledBy(front, m.head) && FilledBy(back, m.tail)
  {
    hide StarPart, FilledBy;
    var star := before + "*" + after;
    var parts, filled := front + [star] + back, m.head + [before + m.splat + after] + m.tail;
    FillStarParts(before, m.splat, after);
    assert parts[..|front|] == front && parts[|front| + 1..] == back;
    assert filled[..|front|] == m.head && filled[|front| + 1..] == m.tail;
    assert star[|before|] == '*';
  }

  // Consequences the rule indexes rely on

  lemma LiteralMatch(segs: seq<Segment>, parts: seq<string>, filled: seq<string>, names: seq<string>)
    requires segs == SegmentsFor(parts, names)
    requires forall i :: 0 <= i < |segs| ==> segs[i].slot < 0
    ensures SegmentsMatch(Exact, segs, filled) <==> filled == parts
  {
  }

  lemma {:induction false} NoNamesNoSlots(parts: seq<string>, names: seq<string>)
    requires NamesAfter(parts, names) == []
    ensures names == [] && forall i :: 0 <= i < |parts| ==> !IsPlaceholder(parts[i])
  {
    NamesCovered(parts, names);
  }

  /** A pattern without '*' and placeholders only matches its own text. */
  lemma ExactMatchesItself(raw: string, path: string)
    requires Compile(raw).Exact()
    ensures Matches(Compile(raw), path) <==> path == raw
  {
    hide Split, NamesAfter, SegmentsFor, SegmentsMatch;
    NoNamesNoSlots(Split(raw), []);
    LiteralSegments(Split(raw));
    LiteralMatch(SegmentsFor(Split(raw), []), Split(raw), Split(path), []);
  }

  lemma LiteralSegments(parts: seq<string>)
    requires forall i :: 0 <= i < |parts| ==> !IsPlaceholder(parts[i])
    ensures forall i :: 0 <= i < |parts| ==> SegmentsFor(parts, [])[i].slot < 0
  {
  }

  /** `firstPathSegment`: the first segment of a path starting with '/'. */
  function FirstPathSegment(path: string): string
    requires path != ""
  {
    var rest := path[1..];
    var i := IndexByte(rest, '/');
    if i >= 0 then rest[..i] else rest
  }

  /** A pattern whose first segment is literal and followed by others fixes it. */
  lemma FirstSegmentFixed(segment: string, rest: string)
    requires '/' !in segment && '*' !in segment && !(|segment| >= 2 && segment[0] == ':')
    ensures Compile("/" + segment + "/" + rest).FirstSegment() == Some(segment)
  {
    hide Split, NamesAfter, PlaceholderChars, IndexByte;
    var raw := "/" + segment + "/" + rest;
    var star := IndexByte(raw, '*');
    if star < 0 {
      TwoSegments(segment, rest);
    } else {
      var front := |segment| + 2;
      assert forall i :: 0 <= i < front ==> raw[i] != '*' by {
        assert forall i :: 1 <= i < front - 1 ==> raw[i] == segment[i - 1];
      }
      TwoSegments(segment, rest[..star - front]);
      assert raw[..star] == "/" + segment + "/" + rest[..star - front];
    }
  }

  lemma TwoSegments(segment: string, rest: string)
    requires '/' !in segment
    ensures Split("/" + segment + "/" + rest) == ["", segment] + Split(rest)
  {
    hide Split;
    SplitFirst(segment, rest);
    SplitFirst("", segment + "/" + rest);
    assert "" + "/" + (segment + "/" + rest) == "/" + segment + "/" + rest;
    assert [""] + ([segment] + Split(rest)) == ["", segment] + Split(rest);
  }

  /** A path that matches has the first segment that the pattern fixes. */
  lemma FirstSegmentSound(p: Pattern, path: string)
    requires ByteWise(p) && p.FirstSegment().Some? && Matches(p, path)
    ensures path != "" && path[0] == '/' && FirstPathSegment(path) == p.FirstSegment().value
  {
    var m := Parse(p, path).value;
    ParseReads(p, path, m);
    var parts := Split(path);
    assert parts[0] == "" && parts[1] == p.head[1].literal by {
      hide Split, Join, Affixes;
      assert p.hasSplat ==> m.head == parts[..|p.head|];
      assert SegmentMatches(Exact, p.head[0], m.head[0]) && SegmentMatches(Exact, p.head[1], m.head[1]);
    }
    SecondPart(path);
  }

  lemma SecondPart(path: string)
    requires |Split(path)| >= 2 && Split(path)[0] == ""
    ensures path != "" && path[0] == '/' && FirstPathSegment(path) == Split(path)[1]
  {
    var j := IndexByte(path, '/');
    assert j == 0;
    assert Split(path) == [path[..0]] + Split(path[1..]);
    assert Split(path[1..])[0] == FirstPathSegment(path);
  }

  /** Without placeholders, a '*' matches whatever lies between the text before it and the text
      after it, as long as these do not overlap in the path. */
  lemma SplatMatchesAffixes(raw: string, path: string)
    requires '*' in raw && Compile(raw).names == []
    ensures var star := IndexByte(raw, '*');
            Matches(Compile(raw), path) <==> ByteAffixes(path, raw[..star], raw[star + 1..])
  {
    hide Split, Join, NamesAfter, SegmentsFor, SegmentsMatch, Compile, Cut, Parse;
    var (front, before, after, back) := Cut(raw);
    var star := IndexByte(raw, '*');
    var prefix, suffix := raw[..star], raw[star + 1..];
    SplatLiterals(raw);
    CompiledByteWise(raw);
    CompiledFromCut(raw);
    if Matches(Compile(raw), path) {
      var m := Parse(Compile(raw), path).value;
      ParseIffReads(Compile(raw), path, m);
      LiteralMatch(Compile(raw).head, front, m.head, []);
      LiteralMatch(Compile(raw).tail, back, m.tail, []);
      SplatText(raw, m.splat);
      AffixesOf(prefix, m.splat, suffix);
    }
    if ByteAffixes(path, prefix, suffix) {
      var splat := path[|prefix|..|path| - |suffix|];
      assert path == prefix + splat + suffix;
      var m := Match(front, before, splat, after, back);
      LiteralMatch(Compile(raw).head, front, m.head, []);
      LiteralMatch(Compile(raw).tail, back, m.tail, []);
      SplatText(raw, splat);
      ParseIffReads(Compile(raw), path, m);
    }
  }

  lemma AffixesOf(prefix: string, mid: string, suffix: string)
    ensures ByteAffixes(prefix + mid + suffix, prefix, suffix)
  {
    assert prefix + mid + suffix == prefix + (mid + suffix);
  }

  lemma SplatText(raw: string, splat: string)
    requires '*' in raw
    ensures var (front, before, after, back) := Cut(raw);
            var star := IndexByte(raw, '*');
            Join(front + [before + splat + after] + back) == raw[..star] + splat + raw[star + 1..]
  {
    hide Split, Join;
    var star := IndexByte(raw, '*');
    var hp, tp := Split(raw[..star]), Split(raw[star + 1..]);
    var (front, before, after, back) := Cut(raw);
    JoinGlue(front, before, splat, after, back);
    assert front + [before] == hp && [after] + back == tp;
  }

  lemma SplatLiterals(raw: string)
    requires '*' in raw && Compile(raw).names == []
    ensures var (front, _, _, back) := Cut(raw);
            && Compile(raw).head == SegmentsFor(front, []) && Compile(raw).tail == SegmentsFor(back, [])
            && (forall i :: 0 <= i < |front| ==> Compile(raw).head[i].slot < 0)
            && (forall i :: 0 <= i < |back| ==> Compile(raw).tail[i].slot < 0)
  {
    hide Split, NamesAfter;
    var (front, _, _, back) := Cut(raw);
    NoNamesNoSlots(back, NamesAfter(front, []));
    NoNamesNoSlots(front, []);
  }
}
