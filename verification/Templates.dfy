/** Header values and redirect destinations whose references were resolved at load time. */
module Templates {
  import opened Paths
  import opened Patterns
  import opened Sorting

  const SPLAT_SLOT := -2

  /** Literal text, or a reference to a captured value, marked when it lies in the query string
      or in the authority of an absolute URL. */
  datatype Part =
    | Literal(text: string)
    | Reference(slot: int, query: bool, host: bool)

  /** `parts` is empty when `raw` has no references. */
  datatype Template = Template(raw: string, parts: seq<Part>) {
    predicate Dynamic() {
      parts != []
    }

    function PartsOrLiteral(): seq<Part> {
      if parts == [] then [Literal(raw)] else parts
    }
  }

  // References

  datatype Token = Token(text: string, slot: int)

  /** The references that a pattern's names and its '*' allow. */
  function Tokens(p: Pattern): seq<Token> {
    (if p.hasSplat then [Token(":splat", SPLAT_SLOT)] else [])
    + seq(|p.names|, i requires 0 <= i < |p.names| => Token(":" + p.names[i], i))
  }

  function Shortness(t: Token): int {
    -|t.text|
  }

  /** The tokens by falling length of their text, or `:id` would match inside `:idx`. */
  function LongestFirst(tokens: seq<Token>): seq<Token> {
    StableSort(tokens, Shortness)
  }

  /** The first of `tokens` that `s` starts with. */
  function FirstMatch(tokens: seq<Token>, s: string): Option<Token> {
    if tokens == [] then None
    else if HasPrefix(s, tokens[0].text) then Some(tokens[0])
    else FirstMatch(tokens[1..], s)
  }

  /** The longest of `tokens` that `s` starts with; of several, the first. */
  function LongestMatch(tokens: seq<Token>, s: string): (t: Option<Token>)
    ensures t.Some? ==> t.value in tokens && HasPrefix(s, t.value.text)
  {
    if tokens == [] then None
    else
      var n := |tokens| - 1;
      var best := LongestMatch(tokens[..n], s);
      if HasPrefix(s, tokens[n].text) && (best.None? || |tokens[n].text| > |best.value.text|) then Some(tokens[n])
      else best
  }

  lemma {:induction false} InsertFirstMatch(sorted: seq<Token>, t: Token, s: string)
    requires Sorted(sorted, Shortness)
    ensures var best := FirstMatch(sorted, s);
            FirstMatch(Insert(sorted, t, Shortness), s) ==
            if HasPrefix(s, t.text) && (best.None? || |t.text| > |best.value.text|) then Some(t) else best
  {
    if sorted != [] {
      FirstMatchBounded(sorted, s, |sorted[0].text|);
      if |sorted[0].text| >= |t.text| {
        InsertFirstMatch(sorted[1..], t, s);
      }
    }
  }

  lemma {:induction false} FirstMatchBounded(tokens: seq<Token>, s: string, n: nat)
    requires forall i :: 0 <= i < |tokens| ==> -Shortness(tokens[i]) <= n
    ensures FirstMatch(tokens, s).Some? ==> |FirstMatch(tokens, s).value.text| <= n
  {
    if tokens != [] {
      FirstMatchBounded(tokens[1..], s, n);
    }
  }

  /** Trying the tokens longest first finds the longest match. */
  lemma {:induction false} FirstIsLongest(tokens: seq<Token>, s: string)
    ensures FirstMatch(LongestFirst(tokens), s) == LongestMatch(tokens, s)
  {
    if tokens != [] {
      var n := |tokens| - 1;
      FirstIsLongest(tokens[..n], s);
      StableSortSorts(tokens[..n], Shortness);
      InsertFirstMatch(LongestFirst(tokens[..n]), tokens[n], s);
    }
  }

  // Scanning a URL

  /** Whether the scanner is inside a query string or a fragment. */
  datatype Place = Place(query: bool, fragment: bool)

  const OUTSIDE := Place(false, false)

  /** Characters that cannot appear in a URL. */
  predicate EndsUrl(c: char) {
    c == ' ' || c == '\t' || c == '"' || c == '<' || c == '>'
  }

  function Move(place: Place, c: char): Place {
    if c == '?' then Place(!place.fragment, place.fragment)
    else if c == '#' then Place(false, true)
    else if EndsUrl(c) then OUTSIDE
    else place
  }

  /** Characters that end the authority of an absolute URL. */
  predicate EndsHost(c: char) {
    c == '/' || c == '\\' || c == '?' || c == '#' || EndsUrl(c)
  }

  function HostStart(raw: string): int {
    if HasPrefix(raw, "https://") then 8
    else if HasPrefix(raw, "http://") then 7
    else -1
  }

  // Compiling

  /** The parts of `raw` from position `i` on, when text since `lit` is pending. */
  function Scan(raw: string, tokens: seq<Token>, hostStart: int, lit: nat, i: nat, place: Place, host: bool): (parts: seq<Part>)
    requires lit <= i <= |raw|
    decreases |raw| - i
  {
    if i == |raw| then
      if lit < i then [Literal(raw[lit..])] else []
    else
      var inHost := host || i == hostStart;
      var m := if raw[i] == ':' then LongestMatch(tokens, raw[i..]) else None;
      if m.Some? && m.value.text != "" then
        var next := i + |m.value.text|;
        (if lit < i then [Literal(raw[lit..i])] else [])
        + [Reference(m.value.slot, place.query, inHost)]
        + Scan(raw, tokens, hostStart, next, next, place, inHost)
      else
        Scan(raw, tokens, hostStart, lit, i + 1, Move(place, raw[i]), inHost && !EndsHost(raw[i]))
  }

  predicate HasReference(parts: seq<Part>) {
    exists i :: 0 <= i < |parts| && parts[i].Reference?
  }

  function CompileTemplate(raw: string, p: Pattern): Template {
    var parts := Scan(raw, Tokens(p), HostStart(raw), 0, 0, OUTSIDE, false);
    Template(raw, if HasReference(parts) then parts else [])
  }

  lemma {:induction false} NothingToRefer(raw: string, tokens: seq<Token>, hostStart: int, lit: nat, i: nat,
                                          place: Place, host: bool)
    requires lit <= i <= |raw| && (tokens == [] || ':' !in raw)
    ensures !HasReference(Scan(raw, tokens, hostStart, lit, i, place, host))
    decreases |raw| - i
  {
    if i < |raw| {
      NothingToRefer(raw, tokens, hostStart, lit, i + 1, Move(place, raw[i]),
                     (host || i == hostStart) && !EndsHost(raw[i]));
    }
  }

  /** The loop over the tokens at one position. */
  method FindToken(tokens: seq<Token>, s: string) returns (found: Option<Token>)
    ensures found == FirstMatch(tokens, s)
  {
    for i := 0 to |tokens|
      invariant FirstMatch(tokens, s) == FirstMatch(tokens[i..], s)
    {
      if HasPrefix(s, tokens[i].text) {
        return Some(tokens[i]);
      }
      assert tokens[i..][1..] == tokens[i + 1..];
    }
    return None;
  }

  predicate NonEmptyTokens(tokens: seq<Token>) {
    forall i :: 0 <= i < |tokens| ==> tokens[i].text != ""
  }

  lemma TokensNonEmpty(p: Pattern)
    ensures NonEmptyTokens(Tokens(p))
  {
  }

  /** The text emitted so far: what was scanned before, with the pending literal flushed. */
  function Flush(parts: seq<Part>, raw: string, lit: nat, i: nat): seq<Part>
    requires lit <= i <= |raw|
  {
    if lit < i then parts + [Literal(raw[lit..i])] else parts
  }

  lemma ScanReference(parts: seq<Part>, raw: string, tokens: seq<Token>, hostStart: int, lit: nat, i: nat,
                      place: Place, host: bool, tok: Token)
    requires lit <= i < |raw| && raw[i] == ':' && tok.text != ""
    requires LongestMatch(tokens, raw[i..]) == Some(tok)
    ensures i + |tok.text| <= |raw|
    ensures parts + Scan(raw, tokens, hostStart, lit, i, place, host) ==
            Flush(parts, raw, lit, i) + [Reference(tok.slot, place.query, host || i == hostStart)]
            + Scan(raw, tokens, hostStart, i + |tok.text|, i + |tok.text|, place, host || i == hostStart)
  {
  }

  lemma ScanCharacter(raw: string, tokens: seq<Token>, hostStart: int, lit: nat, i: nat, place: Place, host: bool)
    requires lit <= i < |raw| && NonEmptyTokens(tokens)
    requires raw[i] != ':' || LongestMatch(tokens, raw[i..]) == None
    ensures Scan(raw, tokens, hostStart, lit, i, place, host) ==
            Scan(raw, tokens, hostStart, lit, i + 1, Move(place, raw[i]), (host || i == hostStart) && !EndsHost(raw[i]))
  {
  }

  lemma ScanEnd(parts: seq<Part>, raw: string, tokens: seq<Token>, hostStart: int, lit: nat, place: Place, host: bool)
    requires lit <= |raw|
    ensures parts + Scan(raw, tokens, hostStart, lit, |raw|, place, host) == Flush(parts, raw, lit, |raw|)
  {
    assert raw[lit..] == raw[lit..|raw|];
  }

  /** `compileTemplate`: one pass over the text, resolving references and recording where each
      of them lies. */
  method Compile(raw: string, p: Pattern) returns (t: Template)
    ensures t == CompileTemplate(raw, p)
  {
    hide LongestMatch, FirstMatch, HasReference, Scan, LongestFirst, Tokens, HasPrefix;
    var tokens := Tokens(p);
    var hostStart := HostStart(raw);
    if ':' !in raw || tokens == [] {
      NothingToRefer(raw, tokens, hostStart, 0, 0, OUTSIDE, false);
      return Template(raw, []);
    }
    TokensNonEmpty(p);
    var sorted := LongestFirst(tokens);
    var parts: seq<Part> := [];
    var place, host := OUTSIDE, false;
    var lit: nat, i: nat := 0, 0;
    ghost var all := Scan(raw, tokens, hostStart, 0, 0, OUTSIDE, false);
    NoPartsYet(all);
    while i < |raw|
      invariant lit <= i <= |raw|
      invariant parts + Scan(raw, tokens, hostStart, lit, i, place, host) == all
      invariant if parts == [] then lit == 0 else HasReference(parts)
      decreases |raw| - i
    {
      var inHost := host || i == hostStart;
      var found := None;
      if raw[i] == ':' {
        FirstIsLongest(tokens, raw[i..]);
        found := FindToken(sorted, raw[i..]);
      }
      if found.Some? {
        LongestInTokens(tokens, raw[i..]);
        ScanReference(parts, raw, tokens, hostStart, lit, i, place, host, found.value);
        parts := Flush(parts, raw, lit, i) + [Reference(found.value.slot, place.query, inHost)];
        ReferenceAtEnd(parts);
        i := i + |found.value.text|;
        lit := i;
        host := inHost;
      } else {
        ScanCharacter(raw, tokens, hostStart, lit, i, place, host);
        place, host := Move(place, raw[i]), inHost && !EndsHost(raw[i]);
        i := i + 1;
      }
    }
    ScanEnd(parts, raw, tokens, hostStart, lit, place, host);
    if parts == [] {
      NoReferenceAlone(raw);
    } else {
      ReferenceStays(parts, raw, lit);
      parts := Flush(parts, raw, lit, |raw|);
    }
    return Template(raw, parts);
  }

  lemma NoPartsYet(all: seq<Part>)
    ensures [] + all == all
  {
  }

  lemma LongestInTokens(tokens: seq<Token>, s: string)
    requires NonEmptyTokens(tokens)
    ensures var t := LongestMatch(tokens, s);
            t.Some? ==> t.value.text != "" && |t.value.text| <= |s|
  {
  }

  lemma ReferenceAtEnd(parts: seq<Part>)
    requires parts != [] && parts[|parts| - 1].Reference?
    ensures HasReference(parts)
  {
  }

  lemma NoReferenceAlone(raw: string)
    ensures !HasReference(Flush([], raw, 0, |raw|))
  {
  }

  lemma ReferenceStays(parts: seq<Part>, raw: string, lit: nat)
    requires HasReference(parts) && lit <= |raw|
    ensures HasReference(Flush(parts, raw, lit, |raw|))
  {
    var i :| 0 <= i < |parts| && parts[i].Reference?;
    assert Flush(parts, raw, lit, |raw|)[i].Reference?;
  }
}
