/** Which references lie in the query string of a URL, told from the text, and what that makes of their values. */
module QueryContext {
  import opened Paths
  import opened Patterns
  import opened Escaping
  import opened Templates
  import opened Expansion
  import opened UrlContext
  import opened Matching
  import opened Redirects
  import opened Destinations
  import opened Authorities

  /** Characters that cannot be in a URL. */
  predicate OutsideUrl(c: char) {
    c == ' ' || c == '\t' || c == '"' || c == '<' || c == '>'
  }

  /** The text ends in the fragment of a URL: after a '#' with no character since that cannot be in a URL. */
  ghost predicate InFragment(s: string) {
    exists j :: 0 <= j < |s| && s[j] == '#' && forall i :: j < i < |s| ==> !OutsideUrl(s[i])
  }

  /** The text ends in the query string of a URL: after a '?' that no '#' precedes within the same URL, with no
      '#' since and no character that cannot be in a URL. */
  ghost predicate InQuery(s: string) {
    exists q :: 0 <= q < |s| && s[q] == '?'
                && (forall i :: q < i < |s| ==> s[i] != '#' && !OutsideUrl(s[i]))
                && !InFragment(s[..q])
  }

  lemma FragmentSnoc(s: string, c: char)
    ensures InFragment(s + [c]) <==> c == '#' || (InFragment(s) && !OutsideUrl(c))
  {
    var t := s + [c];
    if c == '#' {
      assert t[|s|] == '#';
    } else {
      if InFragment(s) && !OutsideUrl(c) {
        var j :| 0 <= j < |s| && s[j] == '#' && forall i :: j < i < |s| ==> !OutsideUrl(s[i]);
        assert t[j] == '#';
      }
      if InFragment(t) {
        var j :| 0 <= j < |t| && t[j] == '#' && forall i :: j < i < |t| ==> !OutsideUrl(t[i]);
        assert t[|s|] == c && s[j] == '#';
        assert forall i :: j < i < |s| ==> t[i] == s[i];
      }
    }
  }

  lemma NotBothPlaces(s: string)
    ensures !(InQuery(s) && InFragment(s))
  {
    if InQuery(s) && InFragment(s) {
      var q :| 0 <= q < |s| && s[q] == '?' && (forall i :: q < i < |s| ==> s[i] != '#' && !OutsideUrl(s[i]))
               && !InFragment(s[..q]);
      var j :| 0 <= j < |s| && s[j] == '#' && forall i :: j < i < |s| ==> !OutsideUrl(s[i]);
      assert j < q && s[..q][j] == '#';
      assert InFragment(s[..q]);
    }
  }

  lemma QuerySnoc(s: string, c: char)
    ensures InQuery(s + [c]) <==>
            if c == '?' then !InFragment(s) else InQuery(s) && c != '#' && !OutsideUrl(c)
  {
    var t := s + [c];
    NotBothPlaces(s);
    if InQuery(s) && c != '#' && !OutsideUrl(c) {
      var q :| 0 <= q < |s| && s[q] == '?' && (forall i :: q < i < |s| ==> s[i] != '#' && !OutsideUrl(s[i]))
               && !InFragment(s[..q]);
      assert t[q] == '?' && t[..q] == s[..q];
    }
    if c == '?' && !InFragment(s) {
      assert t[|s|] == '?' && t[..|s|] == s;
    }
    if InQuery(t) {
      var q :| 0 <= q < |t| && t[q] == '?' && (forall i :: q < i < |t| ==> t[i] != '#' && !OutsideUrl(t[i]))
               && !InFragment(t[..q]);
      assert t[..q] == s[..q] && t[|s|] == c;
      if q < |s| {
        assert s[q] == '?' && forall i :: q < i < |s| ==> s[i] == t[i];
        assert InQuery(s);
      } else {
        assert s[..q] == s;
      }
    }
  }

  /** The scanner's state is where the text ends. */
  lemma {:induction false} PlaceIs(s: string)
    ensures MoveAll(OUTSIDE, s) == Place(InQuery(s), InFragment(s))
    decreases |s|
  {
    hide InQuery, InFragment, MoveAll;
    if s == "" {
      NowhereYet();
    } else {
      var n := |s| - 1;
      var front := s[..n];
      assert s == front + [s[n]];
      PlaceIs(front);
      MoveConcat(OUTSIDE, front, [s[n]]);
      MoveOne(MoveAll(OUTSIDE, front), s[n]);
      FragmentSnoc(front, s[n]);
      QuerySnoc(front, s[n]);
      NotBothPlaces(front);
    }
  }

  lemma NowhereYet()
    ensures MoveAll(OUTSIDE, "") == OUTSIDE && !InQuery("") && !InFragment("")
  {
  }

  lemma MoveOne(place: Place, c: char)
    ensures MoveAll(place, [c]) == Move(place, c)
  {
    assert [c][1..] == "";
  }

  /** A reference is flagged for the query string exactly when the literal text before it ends in one. */
  lemma QueryFlagMeans(raw: string, p: Pattern, k: nat)
    requires NamesSlashFree(p) && k < |CompileTemplate(raw, p).parts| && CompileTemplate(raw, p).parts[k].Reference?
    ensures var parts := CompileTemplate(raw, p).parts;
            parts[k].query <==> InQuery(LiteralText(parts[..k]))
  {
    hide CompileTemplate, MoveAll, ExpandParts, LiteralText, InQuery, InFragment;
    ContextIsStable(raw, p, [], "", k);
    PlaceIs(LiteralText(CompileTemplate(raw, p).parts[..k]));
  }

  // What the context makes of a value

  const HEX := "0123456789ABCDEF"

  /** What is written as it is: ASCII letters and digits, '-', '_', '.' and '~', outside a query string '$', '&',
      '+', '=', ':' and '@' too, and the slashes of a splat. */
  predicate Stays(c: char, query: bool, slash: bool) {
    var n := c as int;
    || 0x30 <= n <= 0x39 || 0x41 <= n <= 0x5A || 0x61 <= n <= 0x7A
    || c in {'-', '_', '.', '~'} || (!query && c in {'$', '&', '+', '=', ':', '@'})
    || (slash && c == '/')
  }

  /** A value as it is written: every other byte as '%' and two digits, but a space in a query string as '+'. */
  function Written(s: string, query: bool, slash: bool): string {
    if s == "" then ""
    else
      var b := s[0] as int % 0x100;
      (if Stays(s[0], query, slash) then [s[0]]
       else if query && s[0] == ' ' then "+"
       else ['%', HEX[b / 16], HEX[b % 16]])
      + Written(s[1..], query, slash)
  }

  lemma HexIs(n: nat)
    requires n < 16
    ensures HEX[n] == HexDigit(n)
  {
  }

  lemma {:induction false} EscapesWritten(s: string)
    ensures PathEscape(s) == Written(s, false, false)
    ensures QueryEscape(s) == Written(s, true, false)
  {
    if s != "" {
      hide HexDigit;
      var b := s[0] as int % 0x100;
      HexIs(b / 16);
      HexIs(b % 16);
      EscapesWritten(s[1..]);
    }
  }

  lemma {:induction false} WrittenConcat(a: string, b: string, query: bool, slash: bool)
    ensures Written(a + b, query, slash) == Written(a, query, slash) + Written(b, query, slash)
  {
    hide Stays;
    if a == "" {
      assert a + b == b;
    } else {
      assert (a + b)[1..] == a[1..] + b;
      WrittenConcat(a[1..], b, query, slash);
    }
  }

  lemma {:induction false} SlashFreeWritten(s: string, query: bool)
    requires '/' !in s
    ensures Written(s, query, true) == Written(s, query, false)
  {
    if s != "" {
      SlashFreeWritten(s[1..], query);
    }
  }

  lemma {:induction false} SplatWritten(splat: string)
    ensures SplatEscape(splat) == Written(splat, false, true)
    decreases |splat|
  {
    hide PathEscape, Written, Split;
    var j := IndexByte(splat, '/');
    if j < 0 {
      SplitWhole(splat);
      EscapesWritten(splat);
      SlashFreeWritten(splat, false);
      assert PathEscapeAll([splat]) == [PathEscape(splat)];
    } else {
      var a, b := splat[..j], splat[j + 1..];
      assert splat == a + "/" + b;
      SplitFirst(a, b);
      EscapesWritten(a);
      SlashFreeWritten(a, false);
      SplatWritten(b);
      WrittenConcat(a + "/", b, false, true);
      WrittenConcat(a, "/", false, true);
      SlashWritten();
      var parts := PathEscapeAll(Split(b));
      assert PathEscapeAll([a] + Split(b)) == [PathEscape(a)] + parts;
      assert ([PathEscape(a)] + parts)[1..] == parts;
    }
  }

  lemma SlashWritten()
    ensures Written("/", false, true) == "/"
  {
    assert "/"[1..] == "" && "/" + "" == "/";
  }

  /** The value of a reference after a '?' is written for a query string, any other one for a path. */
  lemma ReferenceWritten(raw: string, p: Pattern, k: nat, values: seq<string>, splat: string)
    requires NamesSlashFree(p) && k < |CompileTemplate(raw, p).parts| && CompileTemplate(raw, p).parts[k].Reference?
    ensures var parts := CompileTemplate(raw, p).parts;
            var slot, query := parts[k].slot, InQuery(LiteralText(parts[..k]));
            ExpandPart(parts[k], values, splat) == Written(Value(slot, values, splat), query, slot == SPLAT_SLOT && !query)
  {
    hide CompileTemplate, Written, InQuery, LiteralText, PathEscape, QueryEscape, SplatEscape;
    QueryFlagMeans(raw, p, k);
    var v := Value(CompileTemplate(raw, p).parts[k].slot, values, splat);
    EscapesWritten(v);
    SplatWritten(v);
  }

  /** So a value can neither add a parameter to a query string nor end it. */
  lemma {:induction false} NoSeparatorsWritten(s: string, slash: bool)
    ensures var w := Written(s, true, slash);
            '&' !in w && '=' !in w && '#' !in w && '?' !in w && ('+' in w ==> ' ' in s)
  {
    if s != "" {
      NoSeparatorsWritten(s[1..], slash);
      HexPlain(s[0] as int % 0x100 / 16);
      HexPlain(s[0] as int % 0x100 % 16);
    }
  }

  lemma HexPlain(n: nat)
    requires n < 16
    ensures HEX[n] !in {'&', '=', '#', '?', '+'}
  {
  }

  // A value in a query string

  const FIND_RULE := RedirectRule("/:x", "/find?q=:x", 301, 1)
  const FIND_PARTS := [Literal("/find?q="), Reference(0, true, false)]

  const IN_QUERY := Place(true, false)

  lemma FindQueryScanned(raw: string)
    requires raw == "/find?q=:x"
    ensures Scan(raw, [Token(":x", 0)], -1, 0, 5, OUTSIDE, false) == FIND_PARTS
  {
    hide Scan, LongestMatch;
    var tokens := [Token(":x", 0)];
    ScanCharacter(raw, tokens, -1, 0, 5, OUTSIDE, false);
    ScanCharacter(raw, tokens, -1, 0, 6, IN_QUERY, false);
    ScanCharacter(raw, tokens, -1, 0, 7, IN_QUERY, false);
    FindReferenceScanned(raw);
  }

  lemma FindReferenceScanned(raw: string)
    requires raw == "/find?q=:x"
    ensures Scan(raw, [Token(":x", 0)], -1, 0, 8, IN_QUERY, false) == FIND_PARTS
  {
    hide Scan, LongestMatch;
    var tokens := [Token(":x", 0)];
    assert raw[8..] == ":x" && raw[0..8] == "/find?q=";
    ExampleFound(raw[8..]);
    NoPartsYet(Scan(raw, tokens, -1, 0, 8, IN_QUERY, false));
    ScanReference([], raw, tokens, -1, 0, 8, IN_QUERY, false, tokens[0]);
    NoPartsYet(Scan(raw, tokens, -1, 10, 10, IN_QUERY, false));
    ScanEnd([], raw, tokens, -1, 10, IN_QUERY, false);
    assert [Literal("/find?q=")] + [Reference(0, true, false)] + [] == FIND_PARTS;
  }

  lemma FindScanned(raw: string)
    requires raw == "/find?q=:x"
    ensures Scan(raw, [Token(":x", 0)], -1, 0, 0, OUTSIDE, false) == FIND_PARTS
  {
    hide Scan, LongestMatch;
    var tokens := [Token(":x", 0)];
    ScanCharacter(raw, tokens, -1, 0, 0, OUTSIDE, false);
    ScanCharacter(raw, tokens, -1, 0, 1, OUTSIDE, false);
    ScanCharacter(raw, tokens, -1, 0, 2, OUTSIDE, false);
    ScanCharacter(raw, tokens, -1, 0, 3, OUTSIDE, false);
    ScanCharacter(raw, tokens, -1, 0, 4, OUTSIDE, false);
    FindQueryScanned(raw);
  }

  lemma FindTemplate()
    ensures NewCompiledRedirect(FIND_RULE) == CompiledRedirect(FIND_RULE, EXAMPLE_PATTERN, Template("/find?q=:x", FIND_PARTS))
  {
    hide Scan, Tokens, Patterns.Compile;
    ExampleCompiled();
    ExampleTokens();
    FindScanned("/find?q=:x");
    assert "/find?q=:x"[0] == '/' && FIND_PARTS[1].Reference?;
  }

  lemma AmpersandEscaped()
    ensures QueryEscape("a&b") == "a%26b"
  {
    assert "a&b"[1..] == "&b" && "&b"[1..] == "b" && "b"[1..] == "";
    assert QueryEscape("b") == "b" && QueryEscape("&b") == "%26" + "b" && QueryEscape("a&b") == "a" + "%26b";
  }

  lemma FindExpanded()
    ensures ExpandTemplate(Template("/find?q=:x", FIND_PARTS), ["a&b"], "") == "/find?q=a%26b"
  {
    hide QueryEscape, PathEscape, SplatEscape;
    var parts := FIND_PARTS;
    assert parts[1..] == [Reference(0, true, false)] && parts[1..][1..] == [];
    AmpersandEscaped();
    assert "a%26b" + "" == "a%26b" && "/find?q=" + "a%26b" == "/find?q=a%26b";
  }

  /** The '&' of the value does not start another parameter. */
  lemma FindExample()
    ensures var cr := NewCompiledRedirect(FIND_RULE);
            WellFormed(cr.pattern) && Destination(cr, "/a&b") == Some("/find?q=a%26b")
  {
    hide Parse, Captured, ExpandTemplate, Tokens, Patterns.Compile, NewCompiledRedirect, HostLabels, CompileTemplate;
    FindTemplate();
    assert "/" + "a&b" == "/a&b";
    ExampleRequest("a&b");
    NothingLabelled();
    FindExpanded();
    assert "/find?q=a%26b"[1] == 'f';
  }

  lemma NothingLabelled()
    ensures HostLabels(FIND_PARTS, ["a&b"], "")
  {
  }
}
