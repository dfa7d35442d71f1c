/** Requests that capture given values. */
module Requests {
  import opened Paths
  import opened Folding
  import opened Patterns
  import opened Matching
  import opened MatchingLaws
  import opened Captures

  /** The segments with the values of their placeholders. */
  function Filled(segs: seq<Segment>, values: seq<string>): (parts: seq<string>)
    ensures |parts| == |segs|
  {
    seq(|segs|, k requires 0 <= k < |segs| =>
      if 0 <= segs[k].slot < |values| then values[segs[k].slot] else segs[k].literal)
  }

  predicate AllSlashFree(segs: seq<Segment>) {
    forall i :: 0 <= i < |segs| ==> '/' !in segs[i].literal
  }

  lemma FilledMatches(fold: Folding, segs: seq<Segment>, values: seq<string>)
    requires AllSlashFree(segs) && SlashFree(values)
    ensures SlashFree(Filled(segs, values)) && SegmentsMatch(fold, segs, Filled(segs, values))
  {
  }

  /** The request path that fills the pattern with the values and the splat. */
  function PathFor(p: Pattern, values: seq<string>, splat: string): string {
    if p.hasSplat then Join(Filled(p.head, values) + [p.before + splat + p.after] + Filled(p.tail, values))
    else Join(Filled(p.head, values))
  }

  function Reading(p: Pattern, values: seq<string>, splat: string): Match {
    if p.hasSplat then Match(Filled(p.head, values), p.before, splat, p.after, Filled(p.tail, values))
    else Match(Filled(p.head, values), "", "", "", [])
  }

  lemma PathParses(p: Pattern, values: seq<string>, splat: string)
    requires WellFormed(p) && AllSlashFree(p.head) && AllSlashFree(p.tail) && SlashFree(values)
    ensures Parse(p, PathFor(p, values, splat)) == Some(Reading(p, values, splat))
  {
    hide Split, Join, SegmentMatches, Affixes, Filled;
    FilledMatches(p.fold, p.head, values);
    FilledMatches(p.fold, p.tail, values);
    var head, tail := Filled(p.head, values), Filled(p.tail, values);
    if p.hasSplat {
      var mid := p.before + splat + p.after;
      SplitAround(head, mid, tail);
      SliceThree(head, Split(mid), tail);
      CutThree(p.before, splat, p.after);
      AffixesOf(p.before, splat, p.after);
      AffixesAre(p.fold, mid, p.before, p.after);
    } else {
      SplitJoin(head);
    }
  }

  predicate SlotUsed(p: Pattern, slot: int) {
    (exists i :: 0 <= i < |p.head| && p.head[i].slot == slot) || (exists i :: 0 <= i < |p.tail| && p.tail[i].slot == slot)
  }

  lemma UsedSlot(p: Pattern, slot: nat)
    requires SlotUsed(p, slot)
    ensures FirstWith(p.tail, slot) < |p.tail| || LastWith(p.head, slot) >= 0
  {
  }

  // Every name of a compiled pattern names a segment

  predicate Distinct(names: seq<string>) {
    forall i, j :: 0 <= i < j < |names| ==> names[i] != names[j]
  }

  lemma {:induction false} NamesDistinct(parts: seq<string>, names: seq<string>)
    requires Distinct(names)
    ensures Distinct(NamesAfter(parts, names))
  {
    if parts != [] {
      NamesDistinct(parts[..|parts| - 1], names);
    }
  }

  /** A name that was not there before comes from a segment. */
  lemma {:induction false} NameFrom(parts: seq<string>, names: seq<string>, name: string)
    requires name in NamesAfter(parts, names) && name !in names
    ensures exists i :: 0 <= i < |parts| && IsPlaceholder(parts[i]) && parts[i][1..] == name
  {
    var n := |parts| - 1;
    if name in NamesAfter(parts[..n], names) {
      NameFrom(parts[..n], names, name);
      var i :| 0 <= i < n && IsPlaceholder(parts[..n][i]) && parts[..n][i][1..] == name;
      assert parts[i] == parts[..n][i];
    } else {
      assert IsPlaceholder(parts[n]) && parts[n][1..] == name;
    }
  }

  lemma SlotOfDistinct(names: seq<string>, slot: nat)
    requires Distinct(names) && slot < |names|
    ensures SlotOf(names, names[slot]) == slot
  {
    SlotIs(names, names[slot], slot);
  }

  /** A segment with the name stores into its slot. */
  lemma NameUsed(parts: seq<string>, before: seq<string>, names: seq<string>, slot: nat)
    requires Distinct(names) && slot < |names| && names[slot] in NamesAfter(parts, before) && names[slot] !in before
    ensures exists i :: 0 <= i < |parts| && SegmentsFor(parts, names)[i].slot == slot
  {
    hide NamesAfter, Distinct;
    NameFrom(parts, before, names[slot]);
    var i :| 0 <= i < |parts| && IsPlaceholder(parts[i]) && parts[i][1..] == names[slot];
    SlotOfDistinct(names, slot);
    assert SegmentsFor(parts, names)[i].slot == slot;
  }

  lemma SlotsUsed(raw: string, slot: nat)
    requires slot < |Patterns.Compile(raw).names|
    ensures SlotUsed(Patterns.Compile(raw), slot)
  {
    hide Split, NamesAfter, Distinct, PlaceholderChars;
    var star := IndexByte(raw, '*');
    NoNames();
    if star < 0 {
      NamesDistinct(Split(raw), []);
      NameUsed(Split(raw), [], NamesAfter(Split(raw), []), slot);
    } else {
      var hp, tp := Split(raw[..star]), Split(raw[star + 1..]);
      SplitUsed(Patterns.Compile(raw), hp[..|hp| - 1], tp[1..], slot);
    }
  }

  lemma NoNames()
    ensures Distinct([])
  {
  }

  lemma SplitUsed(p: Pattern, front: seq<string>, back: seq<string>, slot: nat)
    requires p.names == NamesAfter(back, NamesAfter(front, [])) && slot < |p.names|
    requires p.head == SegmentsFor(front, NamesAfter(front, [])) && p.tail == SegmentsFor(back, p.names)
    ensures SlotUsed(p, slot)
  {
    hide NamesAfter, Distinct;
    var names := NamesAfter(front, []);
    NoNames();
    NamesDistinct(front, []);
    NamesDistinct(back, names);
    NamesCovered(back, names);
    if slot < |names| {
      NameUsed(front, [], names, slot);
    } else {
      NewName(p.names, names, slot);
      NameUsed(back, names, p.names, slot);
    }
  }

  lemma NewName(names: seq<string>, before: seq<string>, slot: nat)
    requires Distinct(names) && before <= names && |before| <= slot < |names|
    ensures names[slot] !in before
  {
    assert forall i :: 0 <= i < |before| ==> before[i] == names[i];
  }

  lemma FilledCaptured(p: Pattern, values: seq<string>, splat: string, slot: nat)
    requires |values| == |p.names| && slot < |p.names| && SlotUsed(p, slot)
    ensures (p.hasSplat || p.tail == []) ==> CapturedValues(p, Reading(p, values, splat))[slot] == values[slot]
  {
    if p.hasSplat || p.tail == [] {
      CapturedValue(p, Reading(p, values, splat), slot);
      UsedSlot(p, slot);
    }
  }

  lemma StartsWithSlash(raw: string, values: seq<string>, splat: string)
    requires HasPrefix(raw, "/")
    ensures HasPrefix(PathFor(Patterns.Compile(raw), values, splat), "/")
  {
    hide Split, Join, NamesAfter, SegmentsFor, Filled;
    var p := Patterns.Compile(raw);
    FirstPartEmpty(raw);
    if '*' in raw {
      CompiledFromCut(raw);
      var (front, before, after, back) := Cut(raw);
      SplitAtStar(raw);
      FirstOfCut(front, before, after, back);
      FirstFilled(front, NamesAfter(front, []), values);
      var rest := Filled(p.head, values)[1..] + [p.before + splat + p.after] + Filled(p.tail, values);
      assert Filled(p.head, values) + [p.before + splat + p.after] + Filled(p.tail, values) == [""] + rest;
      JoinFromEmpty(rest);
    } else {
      PlainCompiled(raw);
      FirstFilled(Split(raw), NamesAfter(Split(raw), []), values);
      var parts := Filled(p.head, values);
      assert parts == [""] + parts[1..];
      JoinFromEmpty(parts[1..]);
    }
  }

  lemma FirstPartEmpty(raw: string)
    requires HasPrefix(raw, "/")
    ensures |Split(raw)| > 1 && Split(raw)[0] == ""
  {
    hide Split;
    assert raw == "" + "/" + raw[1..];
    SplitFirst("", raw[1..]);
  }

  lemma FirstOfCut(front: seq<string>, before: string, after: string, back: seq<string>)
    requires (front + [before + "*" + after] + back)[0] == ""
    ensures front != [] && front[0] == ""
  {
    assert |before + "*" + after| > 0;
  }

  lemma FirstFilled(parts: seq<string>, names: seq<string>, values: seq<string>)
    requires parts != [] && parts[0] == ""
    ensures |Filled(SegmentsFor(parts, names), values)| == |parts| && Filled(SegmentsFor(parts, names), values)[0] == ""
  {
  }

  lemma JoinFromEmpty(rest: seq<string>)
    requires rest != []
    ensures HasPrefix(Join([""] + rest), "/")
  {
    assert ([""] + rest)[1..] == rest;
  }

  /** For every choice of slash-free values and of a splat, some request captures exactly them. */
  lemma CapturesAny(raw: string, fold: Folding, values: seq<string>, splat: string) returns (path: string)
    requires |values| == |Patterns.Compile(raw).names| && SlashFree(values)
    ensures var p := Patterns.Compile(raw).(fold := fold);
            && WellFormed(p) && Matches(p, path)
            && var m := Parse(p, path).value;
               CapturedValues(p, m) == values && (p.hasSplat ==> m.splat == splat)
    ensures HasPrefix(raw, "/") ==> HasPrefix(path, "/")
  {
    hide Patterns.Compile, Parse, Captured, Join, Filled, SlotUsed, SegmentsMatch;
    var p := Patterns.Compile(raw).(fold := fold);
    CompiledIsWellFormed(raw);
    CompiledLiteralsSlashFree(raw);
    path := PathFor(p, values, splat);
    PathParses(p, values, splat);
    forall slot | 0 <= slot < |p.names|
      ensures CapturedValues(p, Reading(p, values, splat))[slot] == values[slot]
    {
      SlotsUsed(raw, slot);
      SameSlots(Patterns.Compile(raw), fold, slot);
      FilledCaptured(p, values, splat, slot);
    }
    if HasPrefix(raw, "/") {
      StartsWithSlash(raw, values, splat);
    }
  }

  lemma SameSlots(p: Pattern, fold: Folding, slot: int)
    ensures SlotUsed(p.(fold := fold), slot) <==> SlotUsed(p, slot)
  {
  }

  lemma CompiledIsWellFormed(raw: string)
    ensures WellFormed(Patterns.Compile(raw))
  {
    CompiledByteWise(raw);
  }
}
