/** Expanding templates, and what substituted values can and cannot do to the text around them. */
module Expansion {
  import opened Paths
  import opened Patterns
  import opened Escaping
  import opened Templates

  function Value(slot: int, values: seq<string>, splat: string): string {
    if slot == SPLAT_SLOT then splat
    else if 0 <= slot < |values| then values[slot]
    else ""
  }

  /** The escaped text that a reference is replaced with. */
  function Substitute(slot: int, query: bool, values: seq<string>, splat: string): string {
    var v := Value(slot, values, splat);
    if query then QueryEscape(v)
    else if slot == SPLAT_SLOT then SplatEscape(v)
    else PathEscape(v)
  }

  function ExpandPart(part: Part, values: seq<string>, splat: string): string {
    match part
    case Literal(text) => text
    case Reference(slot, query, _) => Substitute(slot, query, values, splat)
  }

  function ExpandParts(parts: seq<Part>, values: seq<string>, splat: string): string {
    if parts == [] then "" else ExpandPart(parts[0], values, splat) + ExpandParts(parts[1..], values, splat)
  }

  function ExpandTemplate(t: Template, values: seq<string>, splat: string): string {
    if t.parts == [] then t.raw else ExpandParts(t.parts, values, splat)
  }

  predicate SlotsKnown(parts: seq<Part>, n: nat) {
    forall i :: 0 <= i < |parts| && parts[i].Reference? ==> parts[i].slot == SPLAT_SLOT || 0 <= parts[i].slot < n
  }

  lemma {:induction false} ExpandConcat(xs: seq<Part>, ys: seq<Part>, values: seq<string>, splat: string)
    ensures ExpandParts(xs + ys, values, splat) == ExpandParts(xs, values, splat) + ExpandParts(ys, values, splat)
  {
    if xs == [] {
      assert xs + ys == ys;
    } else {
      assert (xs + ys)[1..] == xs[1..] + ys;
      ExpandConcat(xs[1..], ys, values, splat);
    }
  }

  /** `expand`: one pass over the parts. */
  method Expand(t: Template, values: seq<string>, splat: string) returns (r: string)
    requires SlotsKnown(t.parts, |values|)
    ensures r == ExpandTemplate(t, values, splat)
  {
    hide QueryEscape, PathEscape, SplatEscape;
    if t.parts == [] {
      return t.raw;
    }
    r := "";
    for i := 0 to |t.parts|
      invariant r == ExpandParts(t.parts[..i], values, splat)
    {
      var next := "";
      match t.parts[i] {
        case Literal(text) =>
          next := text;
        case Reference(slot, query, _) =>
          if query && slot == SPLAT_SLOT {
            next := QueryEscape(splat);
          } else if query {
            next := QueryEscape(values[slot]);
          } else if slot == SPLAT_SLOT {
            next := EscapeSplat(splat);
          } else {
            next := PathEscape(values[slot]);
          }
      }
      ExpandNext(t.parts, i, values, splat);
      r := r + next;
    }
    assert t.parts[..|t.parts|] == t.parts;
  }

  lemma ExpandNext(parts: seq<Part>, i: nat, values: seq<string>, splat: string)
    requires i < |parts|
    ensures ExpandParts(parts[..i + 1], values, splat) ==
            ExpandParts(parts[..i], values, splat) + ExpandPart(parts[i], values, splat)
  {
    hide ExpandPart;
    assert parts[..i + 1] == parts[..i] + [parts[i]];
    ExpandConcat(parts[..i], [parts[i]], values, splat);
  }

  // Joining

  /** `join`: `t` followed by `sep` and `u`, each keeping the escaping it was compiled with. */
  function JoinTemplates(t: Template, sep: string, u: Template): Template {
    Template(t.raw + sep + u.raw,
             if t.parts == [] && u.parts == [] then []
             else t.PartsOrLiteral() + [Literal(sep)] + u.PartsOrLiteral())
  }

  lemma ExpandPartsOrLiteral(t: Template, values: seq<string>, splat: string)
    ensures ExpandParts(t.PartsOrLiteral(), values, splat) == ExpandTemplate(t, values, splat)
  {
    assert [Literal(t.raw)][1..] == [];
  }

  /** Joining commutes with expanding. */
  lemma ExpandJoin(t: Template, sep: string, u: Template, values: seq<string>, splat: string)
    ensures ExpandTemplate(JoinTemplates(t, sep, u), values, splat) ==
            ExpandTemplate(t, values, splat) + sep + ExpandTemplate(u, values, splat)
  {
    hide ExpandPart;
    if t.Dynamic() || u.Dynamic() {
      var a, b := t.PartsOrLiteral(), u.PartsOrLiteral();
      ExpandConcat(a + [Literal(sep)], b, values, splat);
      ExpandConcat(a, [Literal(sep)], values, splat);
      ExpandPartsOrLiteral(Template(sep, []), values, splat);
      ExpandPartsOrLiteral(t, values, splat);
      ExpandPartsOrLiteral(u, values, splat);
    }
  }

  // The tokenisation is lossless and longest-match

  function TokenText(p: Pattern, slot: int): string {
    if slot == SPLAT_SLOT then ":splat" else if 0 <= slot < |p.names| then ":" + p.names[slot] else ""
  }

  function SourceText(p: Pattern, part: Part): string {
    match part
    case Literal(text) => text
    case Reference(slot, _, _) => TokenText(p, slot)
  }

  /** The text that parts were compiled from. */
  function Source(p: Pattern, parts: seq<Part>): string {
    if parts == [] then "" else SourceText(p, parts[0]) + Source(p, parts[1..])
  }

  /** The reference at the start of `s`: the longest that the pattern allows. */
  function ReferenceAt(p: Pattern, s: string): Option<Token> {
    LongestMatch(Tokens(p), s)
  }

  /** `parts` cut `raw` from `pos` on: every reference is the longest known one at its position,
      and literal text, never empty, starts no reference at any of its positions. */
  predicate Tokenises(p: Pattern, raw: string, pos: nat, parts: seq<Part>)
    decreases |parts|
  {
    if parts == [] then pos == |raw|
    else
      var end := pos + |SourceText(p, parts[0])|;
      && end <= |raw| && raw[pos..end] == SourceText(p, parts[0])
      && (match parts[0]
          case Literal(text) => text != "" && forall k :: pos <= k < end ==> ReferenceAt(p, raw[k..]) == None
          case Reference(slot, _, _) => ReferenceAt(p, raw[pos..]) == Some(Token(TokenText(p, slot), slot)))
      && Tokenises(p, raw, end, parts[1..])
  }

  lemma TokensBySlot(p: Pattern, tok: Token)
    requires tok in Tokens(p)
    ensures tok.text == TokenText(p, tok.slot) && tok.text != "" && tok.text[0] == ':'
  {
  }

  lemma NoColonNoReference(p: Pattern, s: string)
    requires s == "" || s[0] != ':'
    ensures ReferenceAt(p, s) == None
  {
    var t := ReferenceAt(p, s);
    if t.Some? {
      TokensBySlot(p, t.value);
    }
  }

  predicate NoReferenceIn(p: Pattern, raw: string, lit: nat, i: nat)
    requires i <= |raw|
  {
    forall k :: lit <= k < i ==> ReferenceAt(p, raw[k..]) == None
  }

  lemma {:induction false} ScanTokenises(p: Pattern, raw: string, hostStart: int, lit: nat, i: nat, place: Place, host: bool)
    requires lit <= i <= |raw| && NoReferenceIn(p, raw, lit, i)
    ensures Tokenises(p, raw, lit, Scan(raw, Tokens(p), hostStart, lit, i, place, host))
    decreases |raw| - i
  {
    hide Tokens, LongestMatch, Scan, Tokenises, NoReferenceIn;
    var parts := Scan(raw, Tokens(p), hostStart, lit, i, place, host);
    NoPartsYet(parts);
    TokensNonEmpty(p);
    var inHost := host || i == hostStart;
    if i == |raw| {
      ScanEnd([], raw, Tokens(p), hostStart, lit, place, host);
      TokenisesNothing(p, raw);
      TokenisesLiteral(p, raw, lit, i, []);
    } else if raw[i] == ':' && ReferenceAt(p, raw[i..]).Some? {
      var tok := ReferenceAt(p, raw[i..]).value;
      TokensBySlot(p, tok);
      var next := i + |tok.text|;
      NoReferenceInNothing(p, raw, next);
      ScanTokenises(p, raw, hostStart, next, next, place, inHost);
      TokenisesReference(p, raw, hostStart, lit, i, place, inHost);
      ScanReference([], raw, Tokens(p), hostStart, lit, i, place, host, tok);
    } else {
      if raw[i] != ':' {
        NoColonNoReference(p, raw[i..]);
      }
      NoReferenceInMore(p, raw, lit, i);
      ScanCharacter(raw, Tokens(p), hostStart, lit, i, place, host);
      ScanTokenises(p, raw, hostStart, lit, i + 1, Move(place, raw[i]), inHost && !EndsHost(raw[i]));
    }
  }

  lemma TokenisesNothing(p: Pattern, raw: string)
    ensures Tokenises(p, raw, |raw|, []) && Flush([], raw, |raw|, |raw|) == []
    ensures forall lit: nat | lit <= |raw| :: Flush([], raw, lit, |raw|) + [] == Flush([], raw, lit, |raw|)
  {
  }

  lemma NoReferenceInNothing(p: Pattern, raw: string, i: nat)
    requires i <= |raw|
    ensures NoReferenceIn(p, raw, i, i)
  {
  }

  lemma NoReferenceInMore(p: Pattern, raw: string, lit: nat, i: nat)
    requires lit <= i < |raw| && NoReferenceIn(p, raw, lit, i) && ReferenceAt(p, raw[i..]) == None
    ensures NoReferenceIn(p, raw, lit, i + 1)
  {
  }

  lemma TokenisesLiteral(p: Pattern, raw: string, lit: nat, i: nat, rest: seq<Part>)
    requires lit <= i <= |raw| && NoReferenceIn(p, raw, lit, i) && Tokenises(p, raw, i, rest)
    ensures Tokenises(p, raw, lit, Flush([], raw, lit, i) + rest)
  {
    hide ReferenceAt, TokenText, Tokenises, NoReferenceIn;
    if lit < i {
      TokenisesText(p, raw, lit, i, rest);
      assert Flush([], raw, lit, i) + rest == [Literal(raw[lit..i])] + rest;
    } else {
      assert Flush([], raw, lit, i) + rest == rest;
    }
  }

  lemma TokenisesText(p: Pattern, raw: string, lit: nat, i: nat, rest: seq<Part>)
    requires lit < i <= |raw| && NoReferenceIn(p, raw, lit, i) && Tokenises(p, raw, i, rest)
    ensures Tokenises(p, raw, lit, [Literal(raw[lit..i])] + rest)
  {
    hide ReferenceAt, TokenText;
    var parts := [Literal(raw[lit..i])] + rest;
    assert parts[1..] == rest;
  }

  lemma TokenisesReference(p: Pattern, raw: string, hostStart: int, lit: nat, i: nat, place: Place, inHost: bool)
    requires lit <= i < |raw| && NoReferenceIn(p, raw, lit, i) && ReferenceAt(p, raw[i..]).Some?
    requires var tok := ReferenceAt(p, raw[i..]).value;
             && tok.text == TokenText(p, tok.slot)
             && i + |tok.text| <= |raw|
             && Tokenises(p, raw, i + |tok.text|,
                          Scan(raw, Tokens(p), hostStart, i + |tok.text|, i + |tok.text|, place, inHost))
    ensures var tok := ReferenceAt(p, raw[i..]).value;
            Tokenises(p, raw, lit, Flush([], raw, lit, i) + [Reference(tok.slot, place.query, inHost)]
                      + Scan(raw, Tokens(p), hostStart, i + |tok.text|, i + |tok.text|, place, inHost))
  {
    hide Scan, Tokens, LongestMatch, Flush;
    var tok := ReferenceAt(p, raw[i..]).value;
    var rest := Scan(raw, Tokens(p), hostStart, i + |tok.text|, i + |tok.text|, place, inHost);
    var parts := [Reference(tok.slot, place.query, inHost)] + rest;
    assert parts[1..] == rest;
    assert raw[i..i + |tok.text|] == raw[i..][..|tok.text|];
    TokenisesLiteral(p, raw, lit, i, parts);
    AppendAssociates(Flush([], raw, lit, i), [Reference(tok.slot, place.query, inHost)], rest);
  }

  lemma {:induction false} TokenisesSource(p: Pattern, raw: string, pos: nat, parts: seq<Part>)
    requires pos <= |raw| && Tokenises(p, raw, pos, parts)
    ensures Source(p, parts) == raw[pos..]
    decreases |parts|
  {
    hide ReferenceAt, SourceText;
    if parts != [] {
      var end := pos + |SourceText(p, parts[0])|;
      TokenisesSource(p, raw, end, parts[1..]);
      assert raw[pos..] == raw[pos..end] + raw[end..];
    }
  }

  lemma {:induction false} TokenisesSlots(p: Pattern, raw: string, pos: nat, parts: seq<Part>)
    requires pos <= |raw| && Tokenises(p, raw, pos, parts)
    ensures SlotsKnown(parts, |p.names|)
    ensures forall i :: 0 <= i < |parts| && parts[i].Reference? && parts[i].slot == SPLAT_SLOT ==> p.hasSplat
    decreases |parts|
  {
    hide ReferenceAt, SourceText;
    if parts != [] {
      TokenisesSlots(p, raw, pos + |SourceText(p, parts[0])|, parts[1..]);
      if parts[0].Reference? {
        ReferenceSlot(p, raw, pos, parts[0]);
      }
      assert forall i :: 1 <= i < |parts| ==> parts[i] == parts[1..][i - 1];
    }
  }

  lemma {:induction false} TokenisesReferences(p: Pattern, raw: string, pos: nat, parts: seq<Part>)
    requires pos <= |raw| && Tokenises(p, raw, pos, parts)
    ensures HasReference(parts) <==> exists k :: pos <= k < |raw| && ReferenceAt(p, raw[k..]).Some?
    decreases |parts|
  {
    hide ReferenceAt, SourceText, HasReference;
    if parts == [] {
      NoPartsNoReference();
    } else {
      var end := pos + |SourceText(p, parts[0])|;
      TokenisesReferences(p, raw, end, parts[1..]);
      if parts[0].Reference? {
        ReferenceSlot(p, raw, pos, parts[0]);
      }
      HasReferenceStep(p, raw, pos, end, parts);
    }
  }

  lemma NoPartsNoReference()
    ensures !HasReference([])
  {
  }

  lemma ReferenceSlot(p: Pattern, raw: string, pos: nat, part: Part)
    requires pos <= |raw| && part.Reference?
    requires ReferenceAt(p, raw[pos..]) == Some(Token(TokenText(p, part.slot), part.slot))
    ensures part.slot == SPLAT_SLOT || 0 <= part.slot < |p.names|
    ensures SPLAT_SLOT == part.slot ==> p.hasSplat
    ensures pos < |raw|
  {
    TokensBySlot(p, Token(TokenText(p, part.slot), part.slot));
  }

  lemma HasReferenceStep(p: Pattern, raw: string, pos: nat, end: nat, parts: seq<Part>)
    requires parts != [] && pos <= end <= |raw| && (parts[0].Reference? ==> pos < |raw|)
    requires match parts[0]
             case Literal(text) => text != "" && forall k :: pos <= k < end ==> ReferenceAt(p, raw[k..]) == None
             case Reference(slot, _, _) => ReferenceAt(p, raw[pos..]).Some?
    requires HasReference(parts[1..]) <==> exists k :: end <= k < |raw| && ReferenceAt(p, raw[k..]).Some?
    ensures HasReference(parts) <==> exists k :: pos <= k < |raw| && ReferenceAt(p, raw[k..]).Some?
  {
    hide ReferenceAt;
    assert HasReference(parts) <==> parts[0].Reference? || HasReference(parts[1..]) by {
      assert forall i :: 1 <= i < |parts| ==> parts[i] == parts[1..][i - 1];
      assert forall i :: 0 <= i < |parts[1..]| ==> parts[1..][i] == parts[i + 1];
    }
  }

  /** A template refers to its pattern exactly when a reference starts somewhere in its text.
      Its parts then spell out that text, and cut it at the longest reference every time. */
  lemma CompileTemplateLossless(raw: string, p: Pattern)
    ensures var t := CompileTemplate(raw, p);
            && (t.Dynamic() <==> exists k :: 0 <= k < |raw| && ReferenceAt(p, raw[k..]).Some?)
            && (t.Dynamic() ==> Tokenises(p, raw, 0, t.parts) && Source(p, t.parts) == raw)
            && SlotsKnown(t.parts, |p.names|)
  {
    hide Scan, Tokens, ReferenceAt, Tokenises;
    var parts := Scan(raw, Tokens(p), HostStart(raw), 0, 0, OUTSIDE, false);
    NoReferenceInNothing(p, raw, 0);
    ScanTokenises(p, raw, HostStart(raw), 0, 0, OUTSIDE, false);
    TokenisesSource(p, raw, 0, parts);
    TokenisesSlots(p, raw, 0, parts);
    TokenisesReferences(p, raw, 0, parts);
    NoPartsNoReference();
    assert raw[0..] == raw;
  }
}
