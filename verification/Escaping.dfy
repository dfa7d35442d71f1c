/** Percent-encoding as Go's `net/url` does it (section 2.1 of RFC 3986). */
module Escaping {
  import opened Paths

  predicate Alphanumeric(c: char) {
    'a' <= c <= 'z' || 'A' <= c <= 'Z' || '0' <= c <= '9'
  }

  predicate Unreserved(c: char) {
    Alphanumeric(c) || c == '-' || c == '_' || c == '.' || c == '~'
  }

  /** Bytes that `url.PathEscape` leaves as they are. */
  predicate KeptInPath(c: char) {
    Unreserved(c) || c == '$' || c == '&' || c == '+' || c == '=' || c == ':' || c == '@'
  }

  function HexDigit(n: int): char
    requires 0 <= n < 16
  {
    if n < 10 then '0' + n as char else 'A' + (n - 10) as char
  }

  /** `%XX` for the byte `c`. */
  function PercentEncode(c: char): string {
    var b := c as int % 0x100;
    ['%', HexDigit(b / 16), HexDigit(b % 16)]
  }

  function PathEscapeByte(c: char): string {
    if KeptInPath(c) then [c] else PercentEncode(c)
  }

  function QueryEscapeByte(c: char): string {
    if c == ' ' then "+" else if Unreserved(c) then [c] else PercentEncode(c)
  }

  /** `url.PathEscape`. */
  function PathEscape(s: string): string {
    if s == "" then "" else PathEscapeByte(s[0]) + PathEscape(s[1..])
  }

  /** `url.QueryEscape`. */
  function QueryEscape(s: string): string {
    if s == "" then "" else QueryEscapeByte(s[0]) + QueryEscape(s[1..])
  }

  function PathEscapeAll(parts: seq<string>): (r: seq<string>)
    ensures |r| == |parts|
    ensures forall i :: 0 <= i < |parts| ==> r[i] == PathEscape(parts[i])
  {
    seq(|parts|, i requires 0 <= i < |parts| => PathEscape(parts[i]))
  }

  /** A splat value with every segment escaped and its separators kept. */
  function SplatEscape(splat: string): string {
    Join(PathEscapeAll(Split(splat)))
  }

  /** `escapeSplat`. */
  method EscapeSplat(splat: string) returns (escaped: string)
    ensures escaped == SplatEscape(splat)
  {
    hide PathEscape, Split, Join;
    ghost var parts := Split(splat);
    var segments := Split(splat);
    for i := 0 to |segments|
      invariant |segments| == |parts|
      invariant forall k :: 0 <= k < i ==> segments[k] == PathEscape(parts[k])
      invariant forall k :: i <= k < |parts| ==> segments[k] == parts[k]
    {
      segments := segments[i := PathEscape(segments[i])];
    }
    assert segments == PathEscapeAll(parts);
    return Join(segments);
  }

  /** Characters that start a query or a fragment, that separate attributes or list items, and that
      end a URL; '\\', which browsers read as '/', too. */
  predicate Structural(c: char) {
    || c == '\\' || c == '?' || c == '#' || c == ';' || c == ',' || c == ' ' || c == '\t'
    || c == '"' || c == '<' || c == '>'
  }

  /** `s` holds no structural character, and no '/' either unless `slash`. */
  predicate Inert(s: string, slash: bool) {
    forall i :: 0 <= i < |s| ==> !Structural(s[i]) && (slash || s[i] != '/')
  }

  lemma EscapedByteInert(c: char)
    ensures Inert(PathEscapeByte(c), false) && Inert(QueryEscapeByte(c), false)
  {
  }

  /** No escaped value holds a structural character or a '/'. The path escaping keeps '@' and ':'. */
  lemma {:induction false} EscapedInert(s: string)
    ensures Inert(PathEscape(s), false) && Inert(QueryEscape(s), false)
  {
    hide Structural, PathEscapeByte, QueryEscapeByte;
    if s != "" {
      EscapedByteInert(s[0]);
      EscapedInert(s[1..]);
    }
  }

  lemma {:induction false} JoinInert(parts: seq<string>)
    requires forall i :: 0 <= i < |parts| ==> Inert(parts[i], false)
    ensures Inert(Join(parts), true)
  {
    if |parts| > 1 {
      JoinInert(parts[1..]);
    }
  }

  lemma SplatEscapedInert(splat: string)
    ensures Inert(SplatEscape(splat), true)
  {
    hide Split, PathEscape, Join, Structural;
    var parts := PathEscapeAll(Split(splat));
    forall i | 0 <= i < |parts|
      ensures Inert(parts[i], false)
    {
      EscapedInert(Split(splat)[i]);
    }
    JoinInert(parts);
  }

  // Decoding gives the value back

  function HexValue(c: char): (n: int)
    ensures 0 <= n < 16
  {
    if '0' <= c <= '9' then c as int - '0' as int
    else if 'A' <= c <= 'F' then c as int - 'A' as int + 10
    else 0
  }

  /** Percent-decoding; in a query, '+' stands for a space. */
  function Unescape(s: string, query: bool): string
    decreases |s|
  {
    if s == "" then ""
    else if s[0] == '%' && |s| >= 3 then
      [(HexValue(s[1]) * 16 + HexValue(s[2])) as char] + Unescape(s[3..], query)
    else if query && s[0] == '+' then " " + Unescape(s[1..], query)
    else [s[0]] + Unescape(s[1..], query)
  }

  predicate IsBytes(s: string) {
    forall i :: 0 <= i < |s| ==> s[i] as int < 0x100
  }

  lemma UnescapeByte(c: char, rest: string)
    requires c as int < 0x100
    ensures Unescape(PathEscapeByte(c) + rest, false) == [c] + Unescape(rest, false)
    ensures Unescape(QueryEscapeByte(c) + rest, true) == [c] + Unescape(rest, true)
  {
    hide Unescape, PercentEncode;
    UnescapePercent(c, rest, false);
    UnescapePercent(c, rest, true);
    if KeptInPath(c) {
      UnescapeKept(c, rest, false);
    }
    if c == ' ' {
      UnescapePlus(rest);
    } else if Unreserved(c) {
      UnescapeKept(c, rest, true);
    }
  }

  lemma UnescapePlus(rest: string)
    ensures Unescape("+" + rest, true) == " " + Unescape(rest, true)
  {
    assert ("+" + rest)[1..] == rest;
  }

  lemma UnescapeKept(c: char, rest: string, query: bool)
    requires c != '%' && (query ==> c != '+')
    ensures Unescape([c] + rest, query) == [c] + Unescape(rest, query)
  {
    assert ([c] + rest)[1..] == rest;
  }

  lemma UnescapePercent(c: char, rest: string, query: bool)
    requires c as int < 0x100
    ensures Unescape(PercentEncode(c) + rest, query) == [c] + Unescape(rest, query)
  {
    hide HexDigit, HexValue;
    assert (PercentEncode(c) + rest)[3..] == rest;
    HexDigits(c as int);
  }

  lemma HexDigits(b: int)
    requires 0 <= b < 0x100
    ensures HexValue(HexDigit(b / 16)) * 16 + HexValue(HexDigit(b % 16)) == b
  {
  }

  /** A client that decodes an expanded value gets the captured value. */
  lemma {:induction false} EscapeRoundTrip(s: string)
    requires IsBytes(s)
    ensures Unescape(PathEscape(s), false) == s
    ensures Unescape(QueryEscape(s), true) == s
  {
    hide PathEscapeByte, QueryEscapeByte, Unescape;
    if s == "" {
      NothingToUnescape();
    } else {
      UnescapeByte(s[0], PathEscape(s[1..]));
      UnescapeByte(s[0], QueryEscape(s[1..]));
      EscapeRoundTrip(s[1..]);
    }
  }

  lemma NothingToUnescape()
    ensures Unescape("", false) == "" && Unescape("", true) == ""
  {
  }

  /** ASCII letters, digits and hyphens: a host label. */
  predicate HostLabel(s: string) {
    forall i :: 0 <= i < |s| ==> Alphanumeric(s[i]) || s[i] == '-'
  }

  /** Escaping leaves a host label as it is. */
  lemma {:induction false} HostLabelVerbatim(s: string)
    requires HostLabel(s)
    ensures PathEscape(s) == s && SplatEscape(s) == s
  {
    LabelPathEscape(s);
    SplitWhole(s);
    assert PathEscapeAll([s]) == [s];
  }

  lemma {:induction false} LabelPathEscape(s: string)
    requires HostLabel(s)
    ensures PathEscape(s) == s
  {
    if s != "" {
      LabelPathEscape(s[1..]);
    }
  }
}
