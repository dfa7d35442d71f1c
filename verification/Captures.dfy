/** Which segment's text a placeholder ends up with when its name is used more than once. */
module Captures {
  import opened Paths
  import opened Folding
  import opened Patterns
  import opened Matching
  import opened MatchingLaws

  /** The first segment that stores into `slot`, or the number of segments. */
  function FirstWith(segs: seq<Segment>, slot: nat): (k: nat)
    ensures k <= |segs|
    ensures k < |segs| ==> segs[k].slot == slot
    ensures forall i :: 0 <= i < k ==> segs[i].slot != slot
  {
    if segs == [] || segs[0].slot == slot then 0 else 1 + FirstWith(segs[1..], slot)
  }

  /** The last segment that stores into `slot`, or -1. */
  function LastWith(segs: seq<Segment>, slot: nat): (k: int)
    ensures -1 <= k < |segs|
    ensures k >= 0 ==> segs[k].slot == slot
    ensures forall i :: k < i < |segs| ==> segs[i].slot != slot
  {
    if segs == [] then -1
    else if segs[|segs| - 1].slot == slot then |segs| - 1
    else LastWith(segs[..|segs| - 1], slot)
  }

  lemma {:induction false} ForwardKeepsLast(values: seq<string>, segs: seq<Segment>, parts: seq<string>, slot: nat)
    requires |segs| == |parts| && slot < |values|
    ensures var k := LastWith(segs, slot);
            StoreForward(values, segs, parts)[slot] == if k >= 0 then parts[k] else values[slot]
  {
    if segs != [] {
      var n := |segs| - 1;
      ForwardKeepsLast(values, segs[..n], parts[..n], slot);
    }
  }

  lemma {:induction false} BackwardKeepsFirst(values: seq<string>, segs: seq<Segment>, parts: seq<string>, slot: nat)
    requires |segs| == |parts| && slot < |values|
    ensures var k := FirstWith(segs, slot);
            StoreBackward(values, segs, parts)[slot] == if k < |segs| then parts[k] else values[slot]
  {
    if segs != [] {
      BackwardKeepsFirst(values, segs[1..], parts[1..], slot);
    }
  }

  /** A placeholder's value is the text of the leftmost tail segment with its name; if there is
      none, of the rightmost head segment. */
  lemma CapturedValue(p: Pattern, m: Match, slot: nat)
    requires |m.head| == |p.head| && |m.tail| == |p.tail| && slot < |p.names|
    ensures var (t, h) := (FirstWith(p.tail, slot), LastWith(p.head, slot));
            CapturedValues(p, m)[slot] ==
            if t < |p.tail| then m.tail[t] else if h >= 0 then m.head[h] else ""
  {
    var blank := seq(|p.names|, _ => "");
    ForwardKeepsLast(blank, p.head, m.head, slot);
    BackwardKeepsFirst(StoreForward(blank, p.head, m.head), p.tail, m.tail, slot);
  }

  /** The value by the rule that a later segment's value wins. */
  function LaterValue(p: Pattern, m: Match, slot: nat): string
    requires |m.head| == |p.head| && |m.tail| == |p.tail|
  {
    var t, h := LastWith(p.tail, slot), LastWith(p.head, slot);
    if t >= 0 then m.tail[t] else if h >= 0 then m.head[h] else ""
  }

  /** Every match captures by the rule that a later segment's value wins. */
  ghost predicate LaterWins(p: Pattern)
    requires WellFormed(p)
  {
    forall path, slot: nat | Matches(p, path) && slot < |p.names| ::
      ParsedBy(p, path, slot)
  }

  ghost predicate ParsedBy(p: Pattern, path: string, slot: nat)
    requires WellFormed(p) && Matches(p, path) && slot < |p.names|
  {
    var m := Parse(p, path).value;
    ParsedLengths(p, path);
    CapturedValues(p, m)[slot] == LaterValue(p, m, slot)
  }

  /** No placeholder name is used twice among the segments after the '*'. */
  predicate TailNamesDistinct(p: Pattern) {
    forall i, j :: 0 <= i < j < |p.tail| ==> p.tail[i].slot < 0 || p.tail[i].slot != p.tail[j].slot
  }

  predicate LiteralsSlashFree(p: Pattern) {
    && (forall i :: 0 <= i < |p.head| ==> '/' !in p.head[i].literal)
    && (forall i :: 0 <= i < |p.tail| ==> '/' !in p.tail[i].literal)
  }

  lemma CompiledLiteralsSlashFree(raw: string)
    ensures LiteralsSlashFree(Compile(raw))
  {
    hide Split, NamesAfter, Compile;
    if '*' in raw {
      CompiledFromCut(raw);
    } else {
      PlainCompiled(raw);
    }
  }

  /** The rule that a later segment's value wins holds for exactly the patterns that use no
      name twice after their '*'. */
  lemma LaterWinsIff(raw: string)
    ensures WellFormed(Compile(raw))
    ensures LaterWins(Compile(raw)) <==> TailNamesDistinct(Compile(raw))
  {
    hide Compile, Parse, Captured, LaterValue;
    var p := Compile(raw);
    CompiledByteWise(raw);
    CompiledLiteralsSlashFree(raw);
    if TailNamesDistinct(p) {
      forall path, slot: nat | Matches(p, path) && slot < |p.names|
        ensures ParsedBy(p, path, slot)
      {
        ParsedLengths(p, path);
        DistinctKeepsLater(p, Parse(p, path).value, slot);
      }
    } else {
      var i, j :| 0 <= i < j < |p.tail| && p.tail[i].slot >= 0 && p.tail[i].slot == p.tail[j].slot;
      var slot := p.tail[i].slot;
      var path := RepeatKeepsEarlier(p, i, j);
      assert !ParsedBy(p, path, slot);
    }
  }

  lemma DistinctKeepsLater(p: Pattern, m: Match, slot: nat)
    requires |m.head| == |p.head| && |m.tail| == |p.tail| && slot < |p.names|
    requires TailNamesDistinct(p)
    ensures CapturedValues(p, m)[slot] == LaterValue(p, m, slot)
  {
    hide CapturedValues;
    CapturedValue(p, m, slot);
    var i, j := FirstWith(p.tail, slot), LastWith(p.tail, slot);
    assert i < |p.tail| ==> i == j;
  }

  /** The text "a" for the first segment with a slot, and other text for every other placeholder. */
  function Telling(segs: seq<Segment>, first: int): (parts: seq<string>)
    ensures |parts| == |segs|
  {
    seq(|segs|, k requires 0 <= k < |segs| =>
      if segs[k].slot < 0 then segs[k].literal else if k == first then "a" else "b")
  }

  lemma TellingMatches(segs: seq<Segment>, first: int)
    requires forall i :: 0 <= i < |segs| ==> '/' !in segs[i].literal
    ensures SlashFree(Telling(segs, first)) && SegmentsMatch(Exact, segs, Telling(segs, first))
  {
  }

  /** A path on which a name used twice after the '*' does not get its later value. */
  lemma RepeatKeepsEarlier(p: Pattern, i: nat, j: nat) returns (path: string)
    requires ByteWise(p) && LiteralsSlashFree(p)
    requires i < j < |p.tail| && p.tail[i].slot >= 0 && p.tail[i].slot == p.tail[j].slot
    ensures Matches(p, path) && !ParsedBy(p, path, p.tail[i].slot)
  {
    hide Parse, Captured, Join;
    var slot := p.tail[i].slot;
    var first := FirstWith(p.tail, slot);
    TellingMatches(p.head, -1);
    TellingMatches(p.tail, first);
    var m := Match(Telling(p.head, -1), p.before, "", p.after, Telling(p.tail, first));
    path := Join(m.head + [m.lead + m.splat + m.trail] + m.tail);
    ParseIffReads(p, path, m);
    CapturedValue(p, m, slot);
    assert first < LastWith(p.tail, slot);
  }

  const REPEATED_IN_TAIL := Pattern("/*/:x/:x", true, ["x"], [Segment("", -1)],
                                    [Segment(":x", 0), Segment(":x", 0)], "", "", 3, Exact)

  lemma RepeatedInTailCompiles()
    ensures Compile("/*/:x/:x") == REPEATED_IN_TAIL
  {
    hide Split, Join, NamesAfter, PlaceholderChars;
    var raw := "/*/:x/:x";
    IndexByteIs(raw, '*', 1);
    ExampleParts(raw);
    ExampleChars();
    ExampleNames();
    assert SegmentsFor([""], []) == [Segment("", -1)];
    assert SegmentsFor([":x", ":x"], ["x"]) == [Segment(":x", 0), Segment(":x", 0)];
    assert ["", ""][..1] == [""] && ["", ":x", ":x"][1..] == [":x", ":x"];
  }

  lemma ExampleParts(raw: string)
    requires raw == "/*/:x/:x"
    ensures Split(raw[..1]) == ["", ""] && Split(raw[2..]) == ["", ":x", ":x"]
  {
    SplitJoin(["", ""]);
    SplitJoin(["", ":x", ":x"]);
    assert Join(["", ":x", ":x"]) == "/:x/:x" == raw[2..];
    assert Join(["", ""]) == "/" == raw[..1];
  }

  lemma ExampleChars()
    ensures PlaceholderChars([""]) == 0 && PlaceholderChars([":x", ":x"]) == 4
  {
    assert [":x", ":x"][..1] == [":x"] && [":x"][..0] == [] && [""][..0] == [];
  }

  lemma ExampleNames()
    ensures NamesAfter([""], []) == [] && NamesAfter([":x", ":x"], []) == ["x"]
    ensures SegmentFor(":x", ["x"]) == Segment(":x", 0) && SegmentFor("", []) == Segment("", -1)
  {
    assert [":x", ":x"][..1] == [":x"] && [":x"][..0] == [] && [""][..0] == [];
    assert ":x"[1..] == "x";
    SlotIs(["x"], "x", 0);
  }

  /** On /s/a/b, the pattern with the name x in both segments after its '*' captures "a". */
  lemma RepeatedInTailExample() returns (m: Match)
    ensures Parse(REPEATED_IN_TAIL, "/s/a/b") == Some(m)
    ensures m.head == [""] && m.splat == "s" && m.tail == ["a", "b"]
    ensures CapturedValues(REPEATED_IN_TAIL, m) == ["a"]
    ensures LaterValue(REPEATED_IN_TAIL, m, 0) == "b"
  {
    hide Parse, CapturedValues, Split;
    m := Match([""], "", "s", "", ["a", "b"]);
    assert "" + "s" + "" == "s";
    assert [""] + ["s"] + ["a", "b"] == ["", "s", "a", "b"];
    assert Join(["", "s", "a", "b"]) == "/s/a/b" by {
      assert Join(["a", "b"]) == "a/b" && Join(["s", "a", "b"]) == "s/a/b";
    }
    ParseIffReads(REPEATED_IN_TAIL, "/s/a/b", m);
    CapturedValue(REPEATED_IN_TAIL, m, 0);
  }
}
