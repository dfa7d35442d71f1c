/** Which of two patterns is the more specific one, told from their texts. */
module Ranking {
  import opened Paths
  import opened Folding
  import opened Patterns
  import opened MatchingLaws
  import opened HeaderRules

  /** The characters of the segments that are no placeholders, the segment at `star` taken in any case. */
  function CharsOf(parts: seq<string>, star: int): nat {
    if parts == [] then 0
    else (if star != 0 && |parts[0]| >= 2 && parts[0][0] == ':' then 0 else |parts[0]|) + CharsOf(parts[1..], star - 1)
  }

  /** The characters of a pattern's text, slashes among them, without its placeholder segments and its '*'. */
  function LiteralChars(raw: string): int {
    var parts := Split(raw);
    CharsOf(parts, StarPart(parts)) + (|parts| - 1) - if '*' in raw then 1 else 0
  }

  /** The text has neither a '*' nor a placeholder segment. */
  predicate PlainText(raw: string) {
    '*' !in raw && forall i :: 0 <= i < |Split(raw)| ==> !(|Split(raw)[i]| >= 2 && Split(raw)[i][0] == ':')
  }

  /** A pattern without '*' and placeholders is the most specific; of the others, one with more literal
      characters is more specific and, of two with as many, one without a '*'. */
  predicate Outranks(raw: string, other: string) {
    !PlainText(other) &&
    (PlainText(raw)
     || LiteralChars(raw) > LiteralChars(other)
     || (LiteralChars(raw) == LiteralChars(other) && '*' !in raw && '*' in other))
  }

  lemma OutranksOneWay(raw: string, other: string)
    ensures !(Outranks(raw, other) && Outranks(other, raw))
  {
    hide LiteralChars, PlainText;
  }

  // The compiled literal length counts these characters

  function Total(parts: seq<string>): nat {
    if parts == [] then 0 else |parts[0]| + Total(parts[1..])
  }

  lemma {:induction false} JoinLength(parts: seq<string>)
    requires parts != []
    ensures |Join(parts)| == Total(parts) + |parts| - 1
  {
    if |parts| > 1 {
      JoinLength(parts[1..]);
    }
  }

  lemma {:induction false} TotalConcat(xs: seq<string>, ys: seq<string>)
    ensures Total(xs + ys) == Total(xs) + Total(ys)
  {
    if xs == [] {
      assert xs + ys == ys;
    } else {
      assert (xs + ys)[1..] == xs[1..] + ys;
      TotalConcat(xs[1..], ys);
    }
  }

  lemma {:induction false} CharsConcat(xs: seq<string>, ys: seq<string>, star: int)
    ensures CharsOf(xs + ys, star) == CharsOf(xs, star) + CharsOf(ys, star - |xs|)
  {
    if xs == [] {
      assert xs + ys == ys;
    } else {
      assert (xs + ys)[1..] == xs[1..] + ys;
      CharsConcat(xs[1..], ys, star - 1);
    }
  }

  lemma {:induction false} PlaceholdersLeftOut(parts: seq<string>, star: int)
    requires star < 0 || star >= |parts|
    ensures CharsOf(parts, star) + PlaceholderChars(parts) == Total(parts)
    decreases |parts|
  {
    if parts != [] {
      var n := |parts| - 1;
      var front := parts[..n];
      assert parts == front + [parts[n]];
      PlaceholdersLeftOut(front, star);
      CharsConcat(front, [parts[n]], star);
      TotalConcat(front, [parts[n]]);
      assert [parts[n]][1..] == [];
    }
  }

  /** `literalLen` counts the literal characters of the pattern's text. */
  lemma LiteralLenIs(raw: string)
    ensures Compile(raw).literalLen == LiteralChars(raw)
  {
    hide Split, Join, NamesAfter, SegmentsFor, CharsOf, PlaceholderChars, StarPart, Total;
    var parts := Split(raw);
    JoinLength(parts);
    if '*' in raw {
      StarCounts(raw);
    } else {
      PartsWithout(raw, '*');
      NoStarPart(parts);
      PlaceholdersLeftOut(parts, |parts|);
    }
  }

  lemma StarCounts(raw: string)
    requires '*' in raw
    ensures var (front, _, _, back) := Cut(raw);
            CharsOf(Split(raw), StarPart(Split(raw))) + PlaceholderChars(front) + PlaceholderChars(back) == Total(Split(raw))
  {
    hide Split, CharsOf, PlaceholderChars, StarPart, Total, Cut;
    var (front, before, after, back) := Cut(raw);
    var star := before + "*" + after;
    SplitAtStar(raw);
    var k := |front|;
    CharsConcat(front + [star], back, k);
    CharsConcat(front, [star], k);
    TotalConcat(front + [star], back);
    TotalConcat(front, [star]);
    PlaceholdersLeftOut(front, k);
    PlaceholdersLeftOut(back, -1);
    OneSegmentCounts(star);
  }

  lemma OneSegmentCounts(star: string)
    ensures CharsOf([star], 0) == |star| == Total([star])
  {
    assert [star][1..] == [];
  }

  lemma PlainIsExact(raw: string)
    ensures PlainText(raw) <==> Compile(raw).Exact()
    ensures Compile(raw).hasSplat <==> '*' in raw
  {
    hide Split, SegmentsFor, NamesAfter, PlaceholderChars;
    if '*' !in raw {
      if Compile(raw).Exact() {
        NoNamesNoSlots(Split(raw), []);
      } else if PlainText(raw) {
        NoPlaceholdersNoNames(Split(raw));
      }
    }
  }

  lemma {:induction false} NoPlaceholdersNoNames(parts: seq<string>)
    requires forall i :: 0 <= i < |parts| ==> !(|parts[i]| >= 2 && parts[i][0] == ':')
    ensures NamesAfter(parts, []) == []
  {
    if parts != [] {
      NoPlaceholdersNoNames(parts[..|parts| - 1]);
    }
  }

  /** The scores of two compiled patterns compare as their texts do, as long as scores stay below that of a
      pattern without '*' and placeholders. */
  lemma ScoresRank(raw: string, other: string, fold: Folding)
    requires |raw| < 0x3FFF_FFFF_FFFF_FFFF && |other| < 0x3FFF_FFFF_FFFF_FFFF
    ensures Specificity(Compile(raw).(fold := fold)) > Specificity(Compile(other).(fold := fold)) <==> Outranks(raw, other)
  {
    hide Compile, LiteralChars, PlainText;
    PlainIsExact(raw);
    PlainIsExact(other);
    LiteralLenIs(raw);
    LiteralLenIs(other);
    FewerThanAll(raw);
    FewerThanAll(other);
  }

  lemma FewerThanAll(raw: string)
    ensures Compile(raw).literalLen <= |raw|
  {
    hide Split, NamesAfter, SegmentsFor, IndexByte, PlaceholderChars;
  }
}
