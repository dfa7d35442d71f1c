/** URL path patterns: compiling the text of a pattern and matching a path against it. */
module Patterns {
  import opened Paths
  import opened Folding

  /** One '/'-separated part of a pattern: literal text (slot -1), or a `:name` placeholder,
      with the index of its captured value. */
  datatype Segment = Segment(literal: string, slot: int)

  /** A pattern compiled once, when the rules are loaded. */
  datatype Pattern = Pattern(
    raw: string,
    hasSplat: bool,
    names: seq<string>,
    head: seq<Segment>,
    tail: seq<Segment>,
    before: string,
    after: string,
    literalLen: int,
    fold: Folding)
  {
    predicate Exact() {
      !hasSplat && names == []
    }

    /** The literal first path segment that every match must have, if the pattern fixes one. */
    function FirstSegment(): Option<string> {
      if fold.Folded? || |head| < 2 || head[0].slot >= 0 || head[0].literal != "" || head[1].slot >= 0 then None
      else Some(head[1].literal)
    }
  }

  // Compiling

  predicate IsPlaceholder(part: string) {
    |part| >= 2 && part[0] == ':'
  }

  /** `slices.Index`. */
  function SlotOf(names: seq<string>, name: string): (slot: int)
    ensures -1 <= slot < |names|
    ensures slot < 0 ==> name !in names
    ensures slot >= 0 ==> names[slot] == name && name !in names[..slot]
  {
    if names == [] then -1
    else
      var n := |names| - 1;
      var slot := SlotOf(names[..n], name);
      assert names == names[..n] + [names[n]];
      if slot >= 0 then
        assert names[..slot] == names[..n][..slot];
        slot
      else if names[n] == name then n
      else -1
  }

  /** The placeholder names in order of first use, after those in `names`. */
  function NamesAfter(parts: seq<string>, names: seq<string>): seq<string> {
    if parts == [] then names
    else
      var n := |parts| - 1;
      var before := NamesAfter(parts[..n], names);
      if IsPlaceholder(parts[n]) && parts[n][1..] !in before then before + [parts[n][1..]] else before
  }

  function SegmentFor(part: string, names: seq<string>): Segment {
    Segment(part, if IsPlaceholder(part) then SlotOf(names, part[1..]) else -1)
  }

  function SegmentsFor(parts: seq<string>, names: seq<string>): (segs: seq<Segment>)
    ensures |segs| == |parts|
    ensures forall i :: 0 <= i < |parts| ==> segs[i] == SegmentFor(parts[i], names)
  {
    seq(|parts|, i requires 0 <= i < |parts| => SegmentFor(parts[i], names))
  }

  function PlaceholderChars(parts: seq<string>): nat {
    if parts == [] then 0
    else
      var n := |parts| - 1;
      PlaceholderChars(parts[..n]) + if IsPlaceholder(parts[n]) then |parts[n]| else 0
  }

  function Compile(raw: string): Pattern {
    var star := IndexByte(raw, '*');
    if star < 0 then
      var parts := Split(raw);
      var names := NamesAfter(parts, []);
      Pattern(raw, false, names, SegmentsFor(parts, names), [], "", "",
              |raw| - PlaceholderChars(parts), Exact)
    else
      var headParts, tailParts := Split(raw[..star]), Split(raw[star + 1..]);
      var front, back := headParts[..|headParts| - 1], tailParts[1..];
      var names := NamesAfter(front, []);
      var allNames := NamesAfter(back, names);
      Pattern(raw, true, allNames, SegmentsFor(front, names), SegmentsFor(back, allNames),
              headParts[|headParts| - 1], tailParts[0],
              |raw| - 1 - PlaceholderChars(front) - PlaceholderChars(back), Exact)
  }

  /** Names are only appended, so the slots given out so far stay. */
  lemma SlotsStay(parts: seq<string>, names: seq<string>, more: seq<string>)
    requires forall i :: 0 <= i < |parts| && IsPlaceholder(parts[i]) ==> parts[i][1..] in names
    ensures SegmentsFor(parts, names + more) == SegmentsFor(parts, names)
  {
    forall i | 0 <= i < |parts| && IsPlaceholder(parts[i])
      ensures SlotOf(names + more, parts[i][1..]) == SlotOf(names, parts[i][1..])
    {
      SlotStays(names, more, parts[i][1..]);
    }
  }

  lemma SlotStays(names: seq<string>, more: seq<string>, name: string)
    requires name in names
    ensures SlotOf(names + more, name) == SlotOf(names, name)
  {
    var slot := SlotOf(names, name);
    assert (names + more)[..slot] == names[..slot];
    SlotIs(names + more, name, slot);
  }

  lemma {:induction false} SlotIs(names: seq<string>, name: string, slot: nat)
    requires slot < |names| && names[slot] == name && name !in names[..slot]
    ensures SlotOf(names, name) == slot
    decreases |names|
  {
    var n := |names| - 1;
    if slot < n {
      assert names[..n][..slot] == names[..slot];
      SlotIs(names[..n], name, slot);
    }
  }

  lemma {:induction false} NamesCovered(parts: seq<string>, names: seq<string>)
    ensures names <= NamesAfter(parts, names)
    ensures forall i :: 0 <= i < |parts| && IsPlaceholder(parts[i]) ==> parts[i][1..] in NamesAfter(parts, names)
  {
    if parts != [] {
      var n := |parts| - 1;
      NamesCovered(parts[..n], names);
      assert forall i :: 0 <= i < n ==> parts[i] == parts[..n][i];
    }
  }

  /** `segments`: compiles whole path segments, registering placeholder names and taking their
      characters off the literal length. */
  method Segments(parts: seq<string>, names0: seq<string>, literalLen0: int)
    returns (segs: seq<Segment>, names: seq<string>, literalLen: int)
    ensures names == NamesAfter(parts, names0)
    ensures segs == SegmentsFor(parts, names)
    ensures literalLen == literalLen0 - PlaceholderChars(parts)
  {
    segs, names, literalLen := [], names0, literalLen0;
    for i := 0 to |parts|
      invariant names == NamesAfter(parts[..i], names0)
      invariant segs == SegmentsFor(parts[..i], names)
      invariant literalLen == literalLen0 - PlaceholderChars(parts[..i])
    {
      var part := parts[i];
      assert parts[..i + 1][..i] == parts[..i];
      var slot := -1;
      if IsPlaceholder(part) {
        var name := part[1..];
        slot := SlotOf(names, name);
        if slot < 0 {
          NamesCovered(parts[..i], names0);
          SlotsStay(parts[..i], names, [name]);
          LastSlot(names, name);
          slot := |names|;
          names := names + [name];
        }
        literalLen := literalLen - |part|;
      }
      segs := segs + [Segment(part, slot)];
      assert segs == SegmentsFor(parts[..i + 1], names);
    }
    assert parts[..|parts|] == parts;
  }

  lemma LastSlot(names: seq<string>, name: string)
    requires name !in names
    ensures SlotOf(names + [name], name) == |names|
  {
    assert (names + [name])[..|names|] == names;
    SlotIs(names + [name], name, |names|);
  }

  method CompilePattern(raw: string) returns (p: Pattern)
    ensures p == Compile(raw)
  {
    hide IndexByte, Split, NamesAfter, SegmentsFor, PlaceholderChars;
    var star := IndexByte(raw, '*');
    if star < 0 {
      var segs, names, literalLen := Segments(Split(raw), [], |raw|);
      return Pattern(raw, false, names, segs, [], "", "", literalLen, Exact);
    }
    var headParts, tailParts := Split(raw[..star]), Split(raw[star + 1..]);
    var front, back := headParts[..|headParts| - 1], tailParts[1..];
    var head, names, literalLen := Segments(front, [], |raw| - 1);
    var tail, allNames, literalLen' := Segments(back, names, literalLen);
    return Pattern(raw, true, allNames, head, tail, headParts[|headParts| - 1], tailParts[0], literalLen', Exact);
  }
}
