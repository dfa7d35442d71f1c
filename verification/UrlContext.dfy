/** The place in a URL that a reference was compiled for is the place its value ends up in. */
module UrlContext {
  import opened Paths
  import opened Patterns
  import opened Escaping
  import opened Templates
  import opened Expansion

  function MoveAll(place: Place, s: string): Place
    decreases |s|
  {
    if s == "" then place else MoveAll(Move(place, s[0]), s[1..])
  }

  predicate StaysInHost(s: string) {
    forall i :: 0 <= i < |s| ==> !EndsHost(s[i])
  }

  /** The flags of every reference are those of a scanner that starts at `place`, in the
      authority if `host`, and reads the literal text before the reference. */
  predicate Flagged(parts: seq<Part>, place: Place, host: bool) {
    parts == [] ||
    match parts[0]
    case Literal(text) => Flagged(parts[1..], MoveAll(place, text), host && StaysInHost(text))
    case Reference(_, query, inHost) =>
      query == place.query && inHost == host && Flagged(parts[1..], place, host)
  }

  lemma {:induction false} MoveConcat(place: Place, a: string, b: string)
    ensures MoveAll(place, a + b) == MoveAll(MoveAll(place, a), b)
    decreases |a|
  {
    if a == "" {
      assert a + b == b;
    } else {
      assert (a + b)[1..] == a[1..] + b;
      MoveConcat(Move(place, a[0]), a[1..], b);
    }
  }

  lemma MoveSnoc(place: Place, raw: string, lit: nat, i: nat)
    requires lit <= i < |raw|
    ensures MoveAll(place, raw[lit..i + 1]) == Move(MoveAll(place, raw[lit..i]), raw[i])
    ensures StaysInHost(raw[lit..i + 1]) <==> StaysInHost(raw[lit..i]) && !EndsHost(raw[i])
  {
    var a := raw[lit..i];
    assert raw[lit..i + 1] == a + [raw[i]];
    MoveConcat(place, a, [raw[i]]);
    assert [raw[i]][1..] == "";
    assert forall k :: 0 <= k < |a| ==> raw[lit..i + 1][k] == a[k];
    assert raw[lit..i + 1][|a|] == raw[i];
  }

  lemma FlushFlagged(raw: string, lit: nat, i: nat, rest: seq<Part>, place: Place, host: bool)
    requires lit <= i <= |raw|
    requires Flagged(rest, MoveAll(place, raw[lit..i]), host && StaysInHost(raw[lit..i]))
    ensures Flagged(Flush([], raw, lit, i) + rest, place, host)
  {
    hide StaysInHost;
    if lit < i {
      assert Flush([], raw, lit, i) + rest == [Literal(raw[lit..i])] + rest;
      assert ([Literal(raw[lit..i])] + rest)[1..] == rest;
    } else {
      assert raw[lit..i] == "";
      NothingEndsHost();
      assert Flush([], raw, lit, i) + rest == rest;
    }
  }

  lemma NothingEndsHost()
    ensures StaysInHost("")
  {
  }

  lemma {:induction false} ScanFlagged(raw: string, tokens: seq<Token>, lit: nat, i: nat, place: Place, host: bool)
    requires lit <= i <= |raw| && NonEmptyTokens(tokens)
    ensures Flagged(Scan(raw, tokens, -1, lit, i, MoveAll(place, raw[lit..i]), host && StaysInHost(raw[lit..i])), place, host)
    decreases |raw| - i
  {
    hide Scan, LongestMatch, StaysInHost, MoveAll, Flush, Flagged, NonEmptyTokens;
    var here, inHost := MoveAll(place, raw[lit..i]), host && StaysInHost(raw[lit..i]);
    NoPartsYet(Scan(raw, tokens, -1, lit, i, here, inHost));
    if i == |raw| {
      ScanEnd([], raw, tokens, -1, lit, here, inHost);
      NothingFlagged(here, inHost);
      FlushFlagged(raw, lit, i, [], place, host);
      NoPartsAfter(Flush([], raw, lit, i));
    } else if raw[i] == ':' && LongestMatch(tokens, raw[i..]).Some? {
      var tok := LongestMatch(tokens, raw[i..]).value;
      LongestInTokens(tokens, raw[i..]);
      var next := i + |tok.text|;
      ScanReference([], raw, tokens, -1, lit, i, here, inHost, tok);
      ScanFlagged(raw, tokens, next, next, here, inHost);
      NothingMoves(raw, next, here);
      var rest := Scan(raw, tokens, -1, next, next, here, inHost);
      ReferenceFlagged(tok.slot, here, inHost, rest);
      FlushFlagged(raw, lit, i, [Reference(tok.slot, here.query, inHost)] + rest, place, host);
      AppendAssociates(Flush([], raw, lit, i), [Reference(tok.slot, here.query, inHost)], rest);
    } else {
      ScanCharacter(raw, tokens, -1, lit, i, here, inHost);
      MoveSnoc(place, raw, lit, i);
      ScanFlagged(raw, tokens, lit, i + 1, place, host);
    }
  }

  lemma NothingFlagged(place: Place, host: bool)
    ensures Flagged([], place, host)
  {
  }

  lemma NoPartsAfter(parts: seq<Part>)
    ensures parts + [] == parts
  {
  }

  lemma NothingMoves(raw: string, i: nat, place: Place)
    requires i <= |raw|
    ensures MoveAll(place, raw[i..i]) == place && StaysInHost(raw[i..i])
  {
  }

  lemma ReferenceFlagged(slot: int, place: Place, host: bool, rest: seq<Part>)
    requires Flagged(rest, place, host)
    ensures Flagged([Reference(slot, place.query, host)] + rest, place, host)
  {
    assert ([Reference(slot, place.query, host)] + rest)[1..] == rest;
  }

  // The scheme of an absolute URL

  predicate NamesSlashFree(p: Pattern) {
    forall i :: 0 <= i < |p.names| ==> p.names[i] != "" && p.names[i][0] != '/'
  }

  lemma {:induction false} NamesAfterSlashFree(parts: seq<string>, names: seq<string>)
    requires SlashFree(parts)
    requires forall i :: 0 <= i < |names| ==> names[i] != "" && names[i][0] != '/'
    ensures forall i :: 0 <= i < |NamesAfter(parts, names)| ==>
              NamesAfter(parts, names)[i] != "" && NamesAfter(parts, names)[i][0] != '/'
  {
    if parts != [] {
      var n := |parts| - 1;
      NamesAfterSlashFree(parts[..n], names);
      if IsPlaceholder(parts[n]) {
        assert parts[n][1] in parts[n];
      }
    }
  }

  lemma CompiledNamesSlashFree(raw: string)
    ensures NamesSlashFree(Patterns.Compile(raw))
  {
    hide Split, NamesAfter, SegmentsFor;
    var star := IndexByte(raw, '*');
    if star < 0 {
      NamesAfterSlashFree(Split(raw), []);
    } else {
      var hp, tp := Split(raw[..star]), Split(raw[star + 1..]);
      NamesAfterSlashFree(hp[..|hp| - 1], []);
      NamesAfterSlashFree(tp[1..], NamesAfter(hp[..|hp| - 1], []));
    }
  }

  /** Scanning past the position where the authority starts no longer looks for it. */
  lemma {:induction false} PastHostStart(raw: string, tokens: seq<Token>, hostStart: int, lit: nat, i: nat,
                                         place: Place, host: bool)
    requires lit <= i <= |raw| && hostStart < i && NonEmptyTokens(tokens)
    ensures Scan(raw, tokens, hostStart, lit, i, place, host) == Scan(raw, tokens, -1, lit, i, place, host)
    decreases |raw| - i
  {
    hide LongestMatch, EndsHost, Move;
    if i < |raw| {
      var m := LongestMatch(tokens, raw[i..]);
      LongestInTokens(tokens, raw[i..]);
      if raw[i] == ':' && m.Some? {
        PastHostStart(raw, tokens, hostStart, i + |m.value.text|, i + |m.value.text|, place, host);
      } else {
        PastHostStart(raw, tokens, hostStart, lit, i + 1, Move(place, raw[i]), host && !EndsHost(raw[i]));
      }
    }
  }

  lemma EnterHost(raw: string, tokens: seq<Token>, hostStart: nat, lit: nat, place: Place, host: bool)
    requires lit <= hostStart <= |raw| && NonEmptyTokens(tokens)
    ensures Scan(raw, tokens, hostStart, lit, hostStart, place, host) ==
            Scan(raw, tokens, -1, lit, hostStart, place, true)
  {
    hide LongestMatch, EndsHost, Move, NonEmptyTokens;
    var i := hostStart;
    if i < |raw| {
      var m := LongestMatch(tokens, raw[i..]);
      LongestInTokens(tokens, raw[i..]);
      if raw[i] == ':' && m.Some? {
        PastHostStart(raw, tokens, hostStart, i + |m.value.text|, i + |m.value.text|, place, true);
      } else {
        PastHostStart(raw, tokens, hostStart, lit, i + 1, Move(place, raw[i]), !EndsHost(raw[i]));
      }
    }
  }

  /** `pre` glued to the front of the first literal. */
  function WithPrefix(pre: string, parts: seq<Part>): seq<Part> {
    if parts != [] && parts[0].Literal? then [Literal(pre + parts[0].text)] + parts[1..]
    else [Literal(pre)] + parts
  }

  lemma {:induction false} LiteralFrom(raw: string, tokens: seq<Token>, lit: nat, l: nat, i: nat, place: Place, host: bool)
    requires lit < l <= i <= |raw| && NonEmptyTokens(tokens)
    ensures Scan(raw, tokens, -1, lit, i, place, host) == WithPrefix(raw[lit..l], Scan(raw, tokens, -1, l, i, place, host))
    decreases |raw| - i
  {
    hide LongestMatch, EndsHost, Move, Scan, Flush, WithPrefix, NonEmptyTokens;
    NoPartsYet(Scan(raw, tokens, -1, lit, i, place, host));
    NoPartsYet(Scan(raw, tokens, -1, l, i, place, host));
    if i == |raw| {
      ScanEnd([], raw, tokens, -1, lit, place, host);
      ScanEnd([], raw, tokens, -1, l, place, host);
      LiteralAtEnd(raw, lit, l);
    } else if raw[i] == ':' && LongestMatch(tokens, raw[i..]).Some? {
      var tok := LongestMatch(tokens, raw[i..]).value;
      LongestInTokens(tokens, raw[i..]);
      ScanReference([], raw, tokens, -1, lit, i, place, host, tok);
      ScanReference([], raw, tokens, -1, l, i, place, host, tok);
      LiteralBefore(raw, lit, l, i, Reference(tok.slot, place.query, host),
                    Scan(raw, tokens, -1, i + |tok.text|, i + |tok.text|, place, host));
    } else {
      ScanCharacter(raw, tokens, -1, lit, i, place, host);
      ScanCharacter(raw, tokens, -1, l, i, place, host);
      LiteralFrom(raw, tokens, lit, l, i + 1, Move(place, raw[i]), host && !EndsHost(raw[i]));
    }
  }

  lemma LiteralAtEnd(raw: string, lit: nat, l: nat)
    requires lit < l <= |raw|
    ensures Flush([], raw, lit, |raw|) == WithPrefix(raw[lit..l], Flush([], raw, l, |raw|))
  {
    assert raw[lit..|raw|] == raw[lit..l] + raw[l..|raw|];
  }

  lemma LiteralBefore(raw: string, lit: nat, l: nat, i: nat, ref: Part, rest: seq<Part>)
    requires lit < l <= i <= |raw| && ref.Reference?
    ensures Flush([], raw, lit, i) + [ref] + rest == WithPrefix(raw[lit..l], Flush([], raw, l, i) + [ref] + rest)
  {
    assert raw[lit..i] == raw[lit..l] + raw[l..i];
  }

  predicate Scheme(s: string) {
    s == "https://" || s == "http://"
  }

  /** No reference starts inside the scheme of an absolute URL, and it opens no query. */
  lemma {:induction false} SkipScheme(raw: string, p: Pattern, h: nat, i: nat)
    requires i <= h <= |raw| && Scheme(raw[..h]) && NamesSlashFree(p)
    ensures Scan(raw, Tokens(p), h, 0, i, OUTSIDE, false) == Scan(raw, Tokens(p), h, 0, h, OUTSIDE, false)
    decreases h - i
  {
    hide LongestMatch, Tokens, Scan;
    if i < h {
      SchemeCharacter(raw, p, h, i);
      TokensNonEmpty(p);
      ScanCharacter(raw, Tokens(p), h, 0, i, OUTSIDE, false);
      SkipScheme(raw, p, h, i + 1);
    }
  }

  lemma SchemeCharacter(raw: string, p: Pattern, h: nat, i: nat)
    requires i < h <= |raw| && Scheme(raw[..h]) && NamesSlashFree(p)
    ensures Move(OUTSIDE, raw[i]) == OUTSIDE
    ensures raw[i] == ':' ==> LongestMatch(Tokens(p), raw[i..]) == None
  {
    hide LongestMatch;
    assert raw[i] == raw[..h][i];
    if raw[i] == ':' {
      assert raw[i + 1] == raw[..h][i + 1] == '/';
      NoTokenBeforeSlash(p, raw[i..]);
    }
  }

  lemma NoTokenBeforeSlash(p: Pattern, s: string)
    requires |s| >= 2 && s[1] == '/' && NamesSlashFree(p)
    ensures LongestMatch(Tokens(p), s) == None
  {
    var t := LongestMatch(Tokens(p), s);
    if t.Some? {
      TokensBySlot(p, t.value);
      TokenSecond(p, t.value);
    }
  }

  lemma TokenSecond(p: Pattern, tok: Token)
    requires tok in Tokens(p) && NamesSlashFree(p)
    ensures |tok.text| >= 2 && tok.text[1] != '/'
  {
  }

  /** The parts of an absolute URL are its scheme followed by parts whose flags are those of a
      scanner that starts inside the authority. */
  lemma AbsoluteFlagged(raw: string, p: Pattern) returns (rest: seq<Part>)
    requires HostStart(raw) >= 0 && NamesSlashFree(p)
    ensures Scan(raw, Tokens(p), HostStart(raw), 0, 0, OUTSIDE, false) == WithPrefix(raw[..HostStart(raw)], rest)
    ensures Flagged(rest, OUTSIDE, true)
  {
    hide LongestMatch, Tokens, Scan, WithPrefix, Flagged;
    var h := HostStart(raw);
    assert Scheme(raw[..h]);
    TokensNonEmpty(p);
    SkipScheme(raw, p, h, 0);
    EnterHost(raw, Tokens(p), h, 0, OUTSIDE, false);
    LiteralFrom(raw, Tokens(p), 0, h, h, OUTSIDE, true);
    rest := Scan(raw, Tokens(p), -1, h, h, OUTSIDE, true);
    ScanFlagged(raw, Tokens(p), h, h, OUTSIDE, true);
    NothingMoves(raw, h, OUTSIDE);
  }

  // Where a browser starts to read the authority

  /** Browsers read '\\' as '/'. */
  predicate IsSlash(c: char) {
    c == '/' || c == '\\'
  }

  /** How many slashes and backslashes `s` starts with. */
  function SlashRun(s: string): (n: nat)
    ensures n <= |s| && (forall i :: 0 <= i < n ==> IsSlash(s[i])) && (n < |s| ==> !IsSlash(s[n]))
  {
    if s == "" || !IsSlash(s[0]) then 0 else 1 + SlashRun(s[1..])
  }

  /** Where the authority of a URL starts: after the scheme, or after the two slashes of a URL that leaves its
      scheme out (section 4.2 of RFC 3986). Browsers take backslashes for slashes there, and skip any
      further ones. */
  function AuthorityStart(url: string): (h: int)
    ensures -1 <= h <= |url| && HostStart(url) <= h
    ensures 0 <= h < |url| ==> !IsSlash(url[h])
  {
    if HostStart(url) >= 0 then HostStart(url) + SlashRun(url[HostStart(url)..])
    else if SlashRun(url) >= 2 then SlashRun(url)
    else -1
  }

  lemma {:induction false} SkipSlashes(raw: string, p: Pattern, lit: nat, i: nat, h: nat, host: bool)
    requires lit <= i <= h <= |raw| && forall k :: i <= k < h ==> IsSlash(raw[k])
    ensures Scan(raw, Tokens(p), -1, lit, i, OUTSIDE, host) == Scan(raw, Tokens(p), -1, lit, h, OUTSIDE, host && i == h)
    decreases h - i
  {
    hide Scan, LongestMatch, Tokens;
    if i < h {
      TokensNonEmpty(p);
      ScanCharacter(raw, Tokens(p), -1, lit, i, OUTSIDE, host);
      SkipSlashes(raw, p, lit, i + 1, h, false);
    }
  }

  /** The parts of a text from where its authority starts, for a browser. They are flagged like those of a
      scanner that starts there, inside the authority only if the scheme was not followed by more slashes. */
  lemma AuthorityFlagged(raw: string, p: Pattern) returns (rest: seq<Part>)
    requires AuthorityStart(raw) >= 0 && NamesSlashFree(p)
    ensures var h := AuthorityStart(raw);
            && Scan(raw, Tokens(p), HostStart(raw), 0, 0, OUTSIDE, false) == WithPrefix(raw[..h], rest)
            && rest == Scan(raw, Tokens(p), -1, h, h, OUTSIDE, h == HostStart(raw))
            && Flagged(rest, OUTSIDE, h == HostStart(raw))
  {
    hide Scan, LongestMatch, Tokens, WithPrefix, Flagged;
    var h, i := AuthorityStart(raw), HostStart(raw);
    TokensNonEmpty(p);
    NothingMoves(raw, h, OUTSIDE);
    ScanFlagged(raw, Tokens(p), h, h, OUTSIDE, h == i);
    rest := Scan(raw, Tokens(p), -1, h, h, OUTSIDE, h == i);
    if i >= 0 {
      assert Scheme(raw[..i]);
      SkipScheme(raw, p, i, 0);
      EnterHost(raw, Tokens(p), i, 0, OUTSIDE, false);
      SlashesAfterScheme(raw);
      SkipSlashes(raw, p, 0, i, h, true);
      LiteralFrom(raw, Tokens(p), 0, h, h, OUTSIDE, h == i);
    } else {
      SkipSlashes(raw, p, 0, 0, h, false);
      LiteralFrom(raw, Tokens(p), 0, h, h, OUTSIDE, false);
    }
  }

  lemma SlashesAfterScheme(raw: string)
    requires HostStart(raw) >= 0
    ensures forall k :: HostStart(raw) <= k < AuthorityStart(raw) ==> IsSlash(raw[k])
  {
    var i := HostStart(raw);
    forall k | i <= k < AuthorityStart(raw)
      ensures IsSlash(raw[k])
    {
      assert raw[k] == raw[i..][k - i];
    }
  }

  // The query flags survive substitution

  /** The query flag of every reference is that of a scanner that starts at `place`. */
  predicate QueryFlagged(parts: seq<Part>, place: Place) {
    parts == [] ||
    match parts[0]
    case Literal(text) => QueryFlagged(parts[1..], MoveAll(place, text))
    case Reference(_, query, _) => query == place.query && QueryFlagged(parts[1..], place)
  }

  lemma {:induction false} FlaggedQuery(parts: seq<Part>, place: Place, host: bool)
    requires Flagged(parts, place, host)
    ensures QueryFlagged(parts, place)
  {
    hide MoveAll, StaysInHost;
    if parts != [] {
      match parts[0]
      case Literal(text) => FlaggedQuery(parts[1..], MoveAll(place, text), host && StaysInHost(text));
      case Reference(_, _, _) => FlaggedQuery(parts[1..], place, host);
    }
  }

  lemma PrefixFlagged(pre: string, rest: seq<Part>, place: Place)
    requires QueryFlagged(rest, MoveAll(place, pre))
    ensures QueryFlagged(WithPrefix(pre, rest), place)
  {
    hide MoveAll;
    var parts := WithPrefix(pre, rest);
    if rest != [] && rest[0].Literal? {
      MoveConcat(place, pre, rest[0].text);
      assert parts[1..] == rest[1..];
    } else {
      assert parts[1..] == rest;
    }
  }

  lemma {:induction false} InertStays(place: Place, s: string)
    requires Inert(s, true)
    ensures MoveAll(place, s) == place
    decreases |s|
  {
    if s != "" {
      assert Move(place, s[0]) == place;
      assert forall i :: 0 <= i < |s[1..]| ==> s[1..][i] == s[i + 1];
      InertStays(place, s[1..]);
    }
  }

  lemma SubstituteInert(slot: int, query: bool, values: seq<string>, splat: string)
    ensures Inert(Substitute(slot, query, values, splat), true)
  {
    hide PathEscape, QueryEscape, SplatEscape, Structural;
    EscapedInert(Value(slot, values, splat));
    SplatEscapedInert(Value(slot, values, splat));
  }

  lemma SchemeStays(s: string)
    requires Scheme(s)
    ensures MoveAll(OUTSIDE, s) == OUTSIDE
  {
    forall i | 0 <= i < |s|
      ensures !Structural(s[i])
    {
    }
    InertStays(OUTSIDE, s);
  }

  /** The literal text of parts, references left out. */
  function LiteralText(parts: seq<Part>): string {
    if parts == [] then ""
    else (if parts[0].Literal? then parts[0].text else "") + LiteralText(parts[1..])
  }

  lemma {:induction false} StableFrom(parts: seq<Part>, place: Place, values: seq<string>, splat: string, k: nat)
    requires QueryFlagged(parts, place) && k <= |parts|
    ensures MoveAll(place, ExpandParts(parts[..k], values, splat)) == MoveAll(place, LiteralText(parts[..k]))
    ensures k < |parts| && parts[k].Reference? ==>
              parts[k].query == MoveAll(place, ExpandParts(parts[..k], values, splat)).query
    decreases |parts|
  {
    hide Substitute, MoveAll;
    if k == 0 {
      NothingMoves("", 0, place);
      assert parts[..0] == [];
    } else {
      var rest := parts[1..];
      assert parts[..k][1..] == rest[..k - 1];
      assert k < |parts| ==> parts[k] == rest[k - 1];
      var e := ExpandPart(parts[0], values, splat);
      MoveConcat(place, e, ExpandParts(rest[..k - 1], values, splat));
      if parts[0].Literal? {
        MoveConcat(place, parts[0].text, LiteralText(rest[..k - 1]));
        StableFrom(rest, MoveAll(place, parts[0].text), values, splat, k - 1);
      } else {
        SubstituteInert(parts[0].slot, parts[0].query, values, splat);
        InertStays(place, e);
        assert "" + LiteralText(rest[..k - 1]) == LiteralText(rest[..k - 1]);
        StableFrom(rest, place, values, splat, k - 1);
      }
    }
  }

  lemma CompiledQueryFlagged(raw: string, p: Pattern)
    requires NamesSlashFree(p)
    ensures QueryFlagged(CompileTemplate(raw, p).parts, OUTSIDE)
  {
    hide Scan, Tokens, MoveAll, HasReference, WithPrefix, Flagged;
    TokensNonEmpty(p);
    if HostStart(raw) >= 0 {
      var rest := AbsoluteFlagged(raw, p);
      FlaggedQuery(rest, OUTSIDE, true);
      SchemeStays(raw[..HostStart(raw)]);
      PrefixFlagged(raw[..HostStart(raw)], rest, OUTSIDE);
    } else {
      NothingMoves(raw, 0, OUTSIDE);
      ScanFlagged(raw, Tokens(p), 0, 0, OUTSIDE, false);
      FlaggedQuery(Scan(raw, Tokens(p), -1, 0, 0, OUTSIDE, false), OUTSIDE, false);
    }
  }

  /** Scanning the expanded text gives, before every part, the place that scanning the
      template's own text gives, and the flag that the reference was compiled with. */
  lemma ContextIsStable(raw: string, p: Pattern, values: seq<string>, splat: string, k: nat)
    requires NamesSlashFree(p) && k < |CompileTemplate(raw, p).parts|
    ensures var parts := CompileTemplate(raw, p).parts;
            var place := MoveAll(OUTSIDE, ExpandParts(parts[..k], values, splat));
            && place == MoveAll(OUTSIDE, LiteralText(parts[..k]))
            && (parts[k].Reference? ==> parts[k].query == place.query)
  {
    hide CompileTemplate, MoveAll, ExpandParts, LiteralText;
    CompiledQueryFlagged(raw, p);
    StableFrom(CompileTemplate(raw, p).parts, OUTSIDE, values, splat, k);
  }

  // The authority survives substitution of host labels

  /** The text of `s` up to the first character that ends an authority. */
  function UntilHostEnd(s: string): string {
    if s == "" || EndsHost(s[0]) then "" else [s[0]] + UntilHostEnd(s[1..])
  }

  /** An authority ends at the first '/', '\\', '?', '#', space, tab, double quote, '<' or '>'. */
  lemma {:induction false} HostEnds(s: string)
    ensures var (host, ends) := (UntilHostEnd(s), {'/', '\\', '?', '#', ' ', '\t', '"', '<', '>'});
            && host <= s && (forall i :: 0 <= i < |host| ==> host[i] !in ends)
            && (|host| < |s| ==> s[|host|] in ends)
  {
    if s != "" {
      HostEnds(s[1..]);
    }
  }

  /** The authority of a URL that has one, up to the first character that ends it. */
  function Authority(url: string): Option<string> {
    if AuthorityStart(url) >= 0 then Some(UntilHostEnd(url[AuthorityStart(url)..])) else None
  }

  /** It follows a scheme or at least two slashes, '\\' taken for '/', past any further ones. */
  lemma AuthorityIs(scheme: string, slashes: string, rest: string)
    requires scheme == "https://" || scheme == "http://" || (scheme == "" && |slashes| >= 2)
    requires (forall i :: 0 <= i < |slashes| ==> slashes[i] in {'/', '\\'}) && (rest != "" ==> rest[0] !in {'/', '\\'})
    ensures Authority(scheme + slashes + rest) == Some(UntilHostEnd(rest))
  {
    hide UntilHostEnd, SlashRun, HostStart;
    var url := scheme + slashes + rest;
    assert url == scheme + (slashes + rest) && url[|scheme|..] == slashes + rest;
    assert url[|scheme|..][|slashes|..] == rest && url[|scheme| + |slashes|..] == rest;
    StartsAfter(scheme, slashes + rest);
    RunOver(slashes, rest);
    if scheme == "" {
      assert url == slashes + rest;
      assert url[0] == slashes[0];
    }
  }

  lemma StartsAfter(scheme: string, more: string)
    requires scheme == "https://" || scheme == "http://" || (scheme == "" && more != "" && more[0] in {'/', '\\'})
    ensures HostStart(scheme + more) == if scheme == "" then -1 else |scheme|
  {
    var url := scheme + more;
    if scheme == "http://" {
      assert url[4] == ':' && url[..7] == "http://";
    } else if scheme == "https://" {
      assert url[..8] == "https://";
    } else {
      assert url[0] == more[0];
    }
  }

  lemma {:induction false} RunOver(slashes: string, rest: string)
    requires (forall i :: 0 <= i < |slashes| ==> slashes[i] in {'/', '\\'}) && (rest != "" ==> rest[0] !in {'/', '\\'})
    ensures SlashRun(slashes + rest) == |slashes|
  {
    if slashes == "" {
      assert slashes + rest == rest;
    } else {
      assert (slashes + rest)[0] == slashes[0] && (slashes + rest)[1..] == slashes[1..] + rest;
      RunOver(slashes[1..], rest);
    }
  }

  /** No other text has one. */
  lemma NoAuthorityIff(url: string)
    ensures Authority(url) == None <==>
              !("https://" <= url) && !("http://" <= url) && (|url| < 2 || url[0] !in {'/', '\\'} || url[1] !in {'/', '\\'})
  {
    hide UntilHostEnd;
  }

  /** The authority of a URL with a scheme as the template scanner delimits it. */
  function ScannedHost(url: string): Option<string> {
    if HostStart(url) >= 0 then Some(UntilHostEnd(url[HostStart(url)..])) else None
  }

  /** The authority that parts spell out, with the values themselves for the references. */
  function HostText(parts: seq<Part>, values: seq<string>, splat: string): string {
    if parts == [] then ""
    else match parts[0]
      case Literal(text) =>
        if StaysInHost(text) then text + HostText(parts[1..], values, splat) else UntilHostEnd(text)
      case Reference(slot, _, _) => Value(slot, values, splat) + HostText(parts[1..], values, splat)
  }

  predicate HostLabels(parts: seq<Part>, values: seq<string>, splat: string) {
    forall i :: 0 <= i < |parts| && parts[i].Reference? && parts[i].host ==>
      HostLabel(Value(parts[i].slot, values, splat))
  }

  /** Every reference that lies in the authority, for parts that start there, has a host label. */
  predicate LabelsFrom(parts: seq<Part>, values: seq<string>, splat: string) {
    parts == [] ||
    match parts[0]
    case Literal(text) => StaysInHost(text) ==> LabelsFrom(parts[1..], values, splat)
    case Reference(slot, _, _) => HostLabel(Value(slot, values, splat)) && LabelsFrom(parts[1..], values, splat)
  }

  /** The references flagged for the authority are exactly those that lie in it. */
  lemma {:induction false} FlagsAreAuthority(parts: seq<Part>, place: Place, host: bool, values: seq<string>, splat: string)
    requires Flagged(parts, place, host)
    ensures HostLabels(parts, values, splat) <==> !host || LabelsFrom(parts, values, splat)
  {
    hide StaysInHost, MoveAll, HostLabel, Value;
    if parts != [] {
      assert forall i :: 0 <= i < |parts[1..]| ==> parts[1..][i] == parts[i + 1];
      assert forall i :: 1 <= i < |parts| ==> parts[i] == parts[1..][i - 1];
      match parts[0]
      case Literal(text) => FlagsAreAuthority(parts[1..], MoveAll(place, text), host && StaysInHost(text), values, splat);
      case Reference(_, _, _) => FlagsAreAuthority(parts[1..], place, host, values, splat);
    }
  }

  lemma {:induction false} HostEndAfter(a: string, b: string)
    requires StaysInHost(a)
    ensures UntilHostEnd(a + b) == a + UntilHostEnd(b)
  {
    hide EndsHost;
    if a == "" {
      assert a + b == b && a + UntilHostEnd(b) == UntilHostEnd(b);
    } else {
      assert (a + b)[1..] == a[1..] + b;
      assert forall i :: 0 <= i < |a[1..]| ==> a[1..][i] == a[i + 1];
      HostEndAfter(a[1..], b);
    }
  }

  lemma {:induction false} HostEndWithin(a: string, b: string)
    requires !StaysInHost(a)
    ensures UntilHostEnd(a + b) == UntilHostEnd(a)
  {
    hide EndsHost;
    assert a != "";
    if !EndsHost(a[0]) {
      assert (a + b)[1..] == a[1..] + b;
      assert forall i :: 1 <= i < |a| ==> a[i] == a[1..][i - 1];
      HostEndWithin(a[1..], b);
    }
  }

  lemma {:induction false} StaysPut(place: Place, s: string)
    requires StaysInHost(s)
    ensures MoveAll(place, s) == place
    decreases |s|
  {
    if s != "" {
      assert !EndsHost(s[0]);
      assert forall i :: 0 <= i < |s[1..]| ==> s[1..][i] == s[i + 1];
      StaysPut(place, s[1..]);
    }
  }

  lemma LabelSubstitute(slot: int, values: seq<string>, splat: string)
    requires HostLabel(Value(slot, values, splat))
    ensures Substitute(slot, false, values, splat) == Value(slot, values, splat)
    ensures StaysInHost(Value(slot, values, splat))
  {
    hide PathEscape, SplatEscape;
    HostLabelVerbatim(Value(slot, values, splat));
  }

  /** Escaping leaves the values of all references in the authority as they are, and they do not end it. */
  predicate VerbatimFrom(parts: seq<Part>, values: seq<string>, splat: string) {
    parts == [] ||
    match parts[0]
    case Literal(text) => StaysInHost(text) ==> VerbatimFrom(parts[1..], values, splat)
    case Reference(slot, _, _) =>
      && Substitute(slot, false, values, splat) == Value(slot, values, splat) && StaysInHost(Value(slot, values, splat))
      && VerbatimFrom(parts[1..], values, splat)
  }

  lemma {:induction false} LabelsVerbatim(parts: seq<Part>, values: seq<string>, splat: string)
    requires LabelsFrom(parts, values, splat)
    ensures VerbatimFrom(parts, values, splat)
  {
    hide StaysInHost, Substitute, HostLabel, Value;
    if parts != [] {
      match parts[0]
      case Literal(text) =>
        if StaysInHost(text) {
          LabelsVerbatim(parts[1..], values, splat);
        }
      case Reference(slot, _, _) =>
        LabelSubstitute(slot, values, splat);
        LabelsVerbatim(parts[1..], values, splat);
    }
  }

  lemma {:induction false} ExpandedVerbatim(parts: seq<Part>, values: seq<string>, splat: string)
    requires QueryFlagged(parts, OUTSIDE) && VerbatimFrom(parts, values, splat)
    ensures UntilHostEnd(ExpandParts(parts, values, splat)) == HostText(parts, values, splat)
  {
    hide StaysInHost, MoveAll, Substitute, UntilHostEnd, Value;
    if parts == [] {
      NothingUntilHostEnd();
    } else {
      var rest := ExpandParts(parts[1..], values, splat);
      match parts[0]
      case Literal(text) =>
        if StaysInHost(text) {
          StaysPut(OUTSIDE, text);
          HostEndAfter(text, rest);
          ExpandedVerbatim(parts[1..], values, splat);
        } else {
          HostEndWithin(text, rest);
        }
      case Reference(slot, _, _) =>
        HostEndAfter(Value(slot, values, splat), rest);
        ExpandedVerbatim(parts[1..], values, splat);
    }
  }

  /** When every reference in the authority has a host label, expanding leaves the authority as it is
      written, with the labels in place of the references. */
  lemma ExpandedHost(parts: seq<Part>, values: seq<string>, splat: string)
    requires QueryFlagged(parts, OUTSIDE) && LabelsFrom(parts, values, splat)
    ensures UntilHostEnd(ExpandParts(parts, values, splat)) == HostText(parts, values, splat)
  {
    LabelsVerbatim(parts, values, splat);
    ExpandedVerbatim(parts, values, splat);
  }

  lemma NothingUntilHostEnd()
    ensures UntilHostEnd("") == ""
  {
  }
}
