/** Where a redirect leads: what values from the request can do to an absolute destination and to a
    path. `Authorities` says for which destinations they cannot choose the host. */
module Destinations {
  import opened Paths
  import opened Patterns
  import opened Matching
  import opened MatchingLaws
  import opened Escaping
  import opened Templates
  import opened Expansion
  import opened UrlContext
  import opened Redirects

  method IsHostLabel(v: string) returns (ok: bool)
    ensures ok == HostLabel(v)
  {
    for i := 0 to |v|
      invariant HostLabel(v[..i])
    {
      if !(Alphanumeric(v[i]) || v[i] == '-') {
        return false;
      }
    }
    assert v[..|v|] == v;
    return true;
  }

  /** `hostValuesValid`: every value that goes into an authority is a host label. */
  method HostValuesValid(t: Template, values: seq<string>, splat: string) returns (ok: bool)
    requires SlotsKnown(t.parts, |values|)
    ensures ok == HostLabels(t.parts, values, splat)
  {
    hide HostLabel;
    for i := 0 to |t.parts|
      invariant HostLabels(t.parts[..i], values, splat)
    {
      var part := t.parts[i];
      if part.Reference? && part.host {
        var v := splat;
        if part.slot != SPLAT_SLOT {
          v := values[part.slot];
        }
        var isLabel := IsHostLabel(v);
        if !isLabel {
          return false;
        }
      }
    }
    assert t.parts[..|t.parts|] == t.parts;
    return true;
  }

  /** `strings.TrimLeft(s, "/")`. */
  function TrimSlashes(s: string): (r: string)
    ensures r == "" || r[0] != '/'
    ensures |r| <= |s| && r == s[|s| - |r|..]
  {
    if s != "" && s[0] == '/' then TrimSlashes(s[1..]) else s
  }

  /** Leading slashes that only expansion introduced collapse into one. */
  function Collapse(expanded: string, to: string): string {
    if HasPrefix(expanded, "//") && !HasPrefix(to, "//") then "/" + TrimSlashes(expanded) else expanded
  }

  /** The destination of a rule for a path, if it is safe to send. */
  function Destination(cr: CompiledRedirect, path: string): Option<string>
    requires WellFormed(cr.pattern)
  {
    if !cr.to.Dynamic() || !Matches(cr.pattern, path) then Some(cr.rule.to)
    else
      var m := Parse(cr.pattern, path).value;
      var values := (ParsedLengths(cr.pattern, path); CapturedValues(cr.pattern, m));
      if !HostLabels(cr.to.parts, values, m.splat) then None
      else Some(Collapse(ExpandTemplate(cr.to, values, m.splat), cr.rule.to))
  }

  /** `expand`: the destination for a path, or false when a value that is no host label would go
      into the host. */
  method ExpandRedirect(cr: CompiledRedirect, path: string) returns (to: string, ok: bool)
    requires cr == NewCompiledRedirect(cr.rule)
    ensures WellFormed(cr.pattern)
    ensures ok <==> Destination(cr, path).Some?
    ensures ok ==> to == Destination(cr, path).value
  {
    hide Patterns.Compile, CompileTemplate, Parse, HostLabels, ExpandTemplate, TrimSlashes, HasPrefix;
    CompiledByteWise(cr.rule.from);
    if !cr.to.Dynamic() {
      return cr.rule.to, true;
    }
    CompileTemplateLossless(cr.rule.to, cr.pattern);
    var values, splat, matched := Capture(cr.pattern, path);
    if !matched {
      return cr.rule.to, true;
    }
    ParsedLengths(cr.pattern, path);
    var valid := HostValuesValid(cr.to, values, splat);
    if !valid {
      return "", false;
    }
    to := Expand(cr.to, values, splat);
    if HasPrefix(to, "//") && !HasPrefix(cr.rule.to, "//") {
      to := "/" + TrimSlashes(to);
    }
    return to, true;
  }

  /** ASCII letters, digits and '-'. */
  predicate LabelByte(c: char) {
    var n := c as int;
    0x30 <= n <= 0x39 || 0x41 <= n <= 0x5A || 0x61 <= n <= 0x7A || c == '-'
  }

  /** A redirect is refused exactly when it matches and some value that goes into the host has another byte. */
  lemma RefusedIff(cr: CompiledRedirect, path: string)
    requires WellFormed(cr.pattern) && cr.to.Dynamic() && Matches(cr.pattern, path)
    ensures var m := Parse(cr.pattern, path).value;
            var values := (ParsedLengths(cr.pattern, path); CapturedValues(cr.pattern, m));
            Destination(cr, path).None? <==>
            exists k, i ::
              && 0 <= k < |cr.to.parts| && cr.to.parts[k].Reference? && cr.to.parts[k].host
              && var v := Value(cr.to.parts[k].slot, values, m.splat); 0 <= i < |v| && !LabelByte(v[i])
  {
    hide Parse, CapturedValues, Collapse, ExpandTemplate;
  }

  // Where the browser ends up

  /** The template's text without the first `h` characters, which are literal. */
  function DropLiteral(parts: seq<Part>, h: nat): seq<Part> {
    if parts != [] && parts[0].Literal? && h <= |parts[0].text| then [Literal(parts[0].text[h..])] + parts[1..]
    else parts
  }

  lemma HostTextOfRest(pre: string, rest: seq<Part>, values: seq<string>, splat: string)
    ensures HostText(DropLiteral(WithPrefix(pre, rest), |pre|), values, splat) == HostText(rest, values, splat)
  {
    hide StaysInHost, Value;
    NothingEndsHost();
    var parts := DropLiteral(WithPrefix(pre, rest), |pre|);
    if rest != [] && rest[0].Literal? {
      assert (pre + rest[0].text)[|pre|..] == rest[0].text;
      assert parts == [rest[0]] + rest[1..] == rest;
    } else {
      assert pre[|pre|..] == "";
      assert parts == [Literal("")] + rest;
      assert parts[1..] == rest;
      assert "" + HostText(rest, values, splat) == HostText(rest, values, splat);
    }
  }

  lemma ExpandWithPrefix(pre: string, rest: seq<Part>, values: seq<string>, splat: string)
    ensures ExpandParts(WithPrefix(pre, rest), values, splat) == pre + ExpandParts(rest, values, splat)
  {
    hide Substitute;
    var parts := WithPrefix(pre, rest);
    if rest != [] && rest[0].Literal? {
      assert parts[1..] == rest[1..];
    } else {
      assert parts[1..] == rest;
    }
  }

  lemma SlashRunConcat(a: string, b: string)
    requires forall i :: 0 <= i < |a| ==> IsSlash(a[i])
    ensures SlashRun(a + b) == |a| + SlashRun(b)
  {
    hide IsSlash;
    if a == "" {
      assert a + b == b;
    } else {
      assert (a + b)[1..] == a[1..] + b;
      SlashRunConcat(a[1..], b);
    }
  }

  lemma SlashRunWithin(a: string, b: string)
    requires SlashRun(a) < |a|
    ensures SlashRun(a + b) == SlashRun(a)
  {
    hide IsSlash;
    if SlashRun(a) > 0 {
      assert (a + b)[1..] == a[1..] + b;
      SlashRunWithin(a[1..], b);
    }
  }

  lemma HostStartStays(url: string, h: nat, more: string)
    requires AuthorityStart(url) == h
    ensures HostStart(url[..h] + more) == HostStart(url)
  {
    var e := url[..h] + more;
    var i := HostStart(url);
    if i >= 0 {
      assert e[..i] == url[..i];
      assert HasPrefix(url, "https://") <==> HasPrefix(e, "https://") by {
        assert url[4] == e[4];
      }
    } else {
      assert e[0] == url[0] && IsSlash(url[0]);
    }
  }

  /** Text after the start of an authority moves it only by the slashes that it starts with. */
  lemma StartStays(url: string, h: nat, more: string)
    requires AuthorityStart(url) == h
    ensures AuthorityStart(url[..h] + more) == h + SlashRun(more)
  {
    hide IsSlash, HostStart, SlashRun;
    var i := HostStart(url);
    HostStartStays(url, h, more);
    if i >= 0 {
      SlashesAfterScheme(url);
      DropFront(url, i, h, more);
      SlashRunConcat(url[i..h], more);
    } else {
      SlashRunConcat(url[..h], more);
    }
  }

  lemma DropFront(url: string, i: nat, h: nat, more: string)
    requires i <= h <= |url|
    ensures (url[..h] + more)[i..] == url[i..h] + more
  {
  }

  /** Literal text is never empty, and text that starts an authority starts with no slash. */
  predicate StartsOff(parts: seq<Part>) {
    && (forall i :: 0 <= i < |parts| && parts[i].Literal? ==> parts[i].text != "")
    && (parts != [] && parts[0].Literal? ==> !IsSlash(parts[0].text[0]))
  }

  lemma {:induction false} LiteralsNonEmpty(p: Pattern, raw: string, pos: nat, parts: seq<Part>)
    requires pos <= |raw| && Tokenises(p, raw, pos, parts)
    ensures forall i :: 0 <= i < |parts| && parts[i].Literal? ==> parts[i].text != ""
    ensures parts != [] && parts[0].Literal? ==> pos < |raw| && parts[0].text[0] == raw[pos]
    decreases |parts|
  {
    hide ReferenceAt, TokenText;
    if parts != [] {
      var end := pos + |SourceText(p, parts[0])|;
      LiteralsNonEmpty(p, raw, end, parts[1..]);
      assert forall i :: 1 <= i < |parts| ==> parts[i] == parts[1..][i - 1];
      if parts[0].Literal? {
        assert raw[pos] == raw[pos..end][0];
      }
    }
  }

  /** The parts of a destination that has an authority: the text before it, and parts whose query
      flags hold from there. */
  lemma AuthorityParts(raw: string, p: Pattern) returns (rest: seq<Part>)
    requires AuthorityStart(raw) >= 0 && NamesSlashFree(p) && CompileTemplate(raw, p).Dynamic()
    ensures CompileTemplate(raw, p).parts == WithPrefix(raw[..AuthorityStart(raw)], rest)
    ensures QueryFlagged(rest, OUTSIDE) && Flagged(rest, OUTSIDE, AuthorityStart(raw) == HostStart(raw))
    ensures Tokenises(p, raw, AuthorityStart(raw), rest) && StartsOff(rest)
  {
    hide Scan, Tokens, HasReference, Flagged, WithPrefix, Tokenises, IsSlash;
    var h := AuthorityStart(raw);
    rest := AuthorityFlagged(raw, p);
    FlaggedQuery(rest, OUTSIDE, h == HostStart(raw));
    NoReferenceInNothing(p, raw, h);
    ScanTokenises(p, raw, -1, h, h, OUTSIDE, h == HostStart(raw));
    LiteralsNonEmpty(p, raw, h, rest);
  }

  lemma LabelsOfRest(pre: string, rest: seq<Part>, values: seq<string>, splat: string)
    ensures LabelsFrom(DropLiteral(WithPrefix(pre, rest), |pre|), values, splat) <==> LabelsFrom(rest, values, splat)
  {
    hide StaysInHost, HostLabel;
    NothingEndsHost();
    var parts := DropLiteral(WithPrefix(pre, rest), |pre|);
    if rest != [] && rest[0].Literal? {
      assert (pre + rest[0].text)[|pre|..] == rest[0].text;
      assert parts == [rest[0]] + rest[1..] == rest;
    } else {
      assert pre[|pre|..] == "";
      assert parts == [Literal("")] + rest && parts[1..] == rest;
    }
  }

  /** From where the authority of a destination starts, expansion puts the values of its references there
      verbatim, when those that lie in it are host labels. This is then its authority, unless it is empty. */
  lemma AuthorityIsTemplates(raw: string, p: Pattern, values: seq<string>, splat: string)
    requires AuthorityStart(raw) >= 0 && NamesSlashFree(p)
    requires var t := CompileTemplate(raw, p);
             t.Dynamic() && LabelsFrom(DropLiteral(t.parts, AuthorityStart(raw)), values, splat)
    ensures var (t, h) := (CompileTemplate(raw, p), AuthorityStart(raw));
            var e, own := ExpandTemplate(t, values, splat), HostText(DropLiteral(t.parts, h), values, splat);
            && h <= |e| && e[..h] == raw[..h] && UntilHostEnd(e[h..]) == own
            && (own != "" ==> Authority(e) == Some(own))
  {
    hide CompileTemplate, Flagged, QueryFlagged, HostText, WithPrefix, UntilHostEnd, HostLabel, Value, DropLiteral, LabelsFrom,
         ExpandParts, Tokenises, SlashRun, StartsOff;
    var h := AuthorityStart(raw);
    var rest := AuthorityParts(raw, p);
    LabelsOfRest(raw[..h], rest, values, splat);
    ExpandWithPrefix(raw[..h], rest, values, splat);
    var more := ExpandParts(rest, values, splat);
    ExpandedHost(rest, values, splat);
    HostTextOfRest(raw[..h], rest, values, splat);
    AuthorityAfter(raw, h, more);
  }

  /** The authority of a text that goes on with `more` where the authority of `raw` starts. */
  lemma AuthorityAfter(raw: string, h: nat, more: string)
    requires AuthorityStart(raw) == h
    ensures var e := raw[..h] + more;
            && h <= |e| && e[..h] == raw[..h] && e[h..] == more
            && Authority(e) == Some(UntilHostEnd(more[SlashRun(more)..]))
            && (UntilHostEnd(more) != "" ==> SlashRun(more) == 0 && Authority(e) == Some(UntilHostEnd(more)))
  {
    hide AuthorityStart, SlashRun;
    var e := raw[..h] + more;
    StartStays(raw, h, more);
    assert e[h + SlashRun(more)..] == more[SlashRun(more)..];
    if UntilHostEnd(more) != "" {
      assert !EndsHost(more[0]) && !IsSlash(more[0]);
      assert more[0..] == more;
    }
  }

  /** The flags of an absolute destination stand for exactly its authority. */
  lemma AbsoluteLabels(raw: string, p: Pattern, values: seq<string>, splat: string) returns (rest: seq<Part>)
    requires HostStart(raw) >= 0 && NamesSlashFree(p) && CompileTemplate(raw, p).Dynamic()
    ensures CompileTemplate(raw, p).parts == WithPrefix(raw[..HostStart(raw)], rest) && QueryFlagged(rest, OUTSIDE)
    ensures var parts := CompileTemplate(raw, p).parts;
            && (HostLabels(parts, values, splat) <==> LabelsFrom(DropLiteral(parts, HostStart(raw)), values, splat))
            && (HostLabels(parts, values, splat) <==> LabelsFrom(rest, values, splat))
  {
    hide Scan, Tokens, Flagged, HostLabels, WithPrefix, DropLiteral, LabelsFrom, HasReference;
    var h := HostStart(raw);
    rest := AbsoluteFlagged(raw, p);
    FlaggedQuery(rest, OUTSIDE, true);
    LabelsOfRest(raw[..h], rest, values, splat);
    FlagsAreAuthority(rest, OUTSIDE, true, values, splat);
    RestLabels(raw[..h], rest, values, splat);
  }

  /** Where a rule with an absolute destination leads, the authority, as the template scanner delimits it, is
      the one written in the rule, with host labels in place of the references. */
  lemma AbsoluteKeepsHost(rule: RedirectRule, path: string)
    requires HasPrefix(rule.to, "https://") || HasPrefix(rule.to, "http://")
    ensures var cr := NewCompiledRedirect(rule);
            && WellFormed(cr.pattern)
            && (Destination(cr, path).Some? && cr.to.Dynamic() && Matches(cr.pattern, path) ==>
                  var m := Parse(cr.pattern, path).value;
                  var values := (ParsedLengths(cr.pattern, path); CapturedValues(cr.pattern, m));
                  var parts := DropLiteral(cr.to.parts, HostStart(rule.to));
                  && LabelsFrom(parts, values, m.splat)
                  && ScannedHost(Destination(cr, path).value) == Some(HostText(parts, values, m.splat)))
            && (Destination(cr, path).Some? && !(cr.to.Dynamic() && Matches(cr.pattern, path)) ==>
                  Destination(cr, path).value == rule.to)
  {
    hide Patterns.Compile, CompileTemplate, Parse, HostLabels, LabelsFrom, ExpandParts, TrimSlashes, HostText, DropLiteral,
         ScannedHost;
    var cr := NewCompiledRedirect(rule);
    CompiledByteWise(rule.from);
    if cr.to.Dynamic() && Matches(cr.pattern, path) {
      var m := Parse(cr.pattern, path).value;
      ParsedLengths(cr.pattern, path);
      var values := CapturedValues(cr.pattern, m);
      CompiledNamesSlashFree(rule.from);
      var rest := AbsoluteLabels(rule.to, cr.pattern, values, m.splat);
      if HostLabels(cr.to.parts, values, m.splat) {
        AbsoluteScanned(rule.to, cr.pattern, rest, values, m.splat);
        NotCollapsed(ExpandTemplate(cr.to, values, m.splat), rule.to);
      }
    }
  }

  lemma AbsoluteScanned(raw: string, p: Pattern, rest: seq<Part>, values: seq<string>, splat: string)
    requires HostStart(raw) >= 0 && CompileTemplate(raw, p).parts == WithPrefix(raw[..HostStart(raw)], rest)
    requires QueryFlagged(rest, OUTSIDE) && LabelsFrom(rest, values, splat) && CompileTemplate(raw, p).Dynamic()
    ensures var t := CompileTemplate(raw, p);
            var e := ExpandTemplate(t, values, splat);
            && ScannedHost(e) == Some(HostText(DropLiteral(t.parts, HostStart(raw)), values, splat))
            && !HasPrefix(e, "//")
  {
    hide CompileTemplate, QueryFlagged, WithPrefix, ExpandParts, HostText, DropLiteral, LabelsFrom, UntilHostEnd;
    var h := HostStart(raw);
    var more := ExpandParts(rest, values, splat);
    ExpandWithPrefix(raw[..h], rest, values, splat);
    ExpandedHost(rest, values, splat);
    HostTextOfRest(raw[..h], rest, values, splat);
    SchemeStaysFirst(raw, more);
  }

  lemma SchemeStaysFirst(raw: string, more: string)
    requires HostStart(raw) >= 0
    ensures var (e, h) := (raw[..HostStart(raw)] + more, HostStart(raw));
            HostStart(e) == h && e[h..] == more && !HasPrefix(e, "//")
  {
    var e := raw[..HostStart(raw)] + more;
    assert e[0] == raw[0] && e[4] == raw[4];
    assert HostStart(raw) == 8 ==> e[..8] == "https://";
    assert HostStart(raw) == 7 ==> e[..7] == "http://";
  }

  lemma NotCollapsed(expanded: string, to: string)
    requires !HasPrefix(expanded, "//") || HasPrefix(to, "//")
    ensures Collapse(expanded, to) == expanded
  {
  }

  lemma RestLabels(pre: string, rest: seq<Part>, values: seq<string>, splat: string)
    ensures HostLabels(WithPrefix(pre, rest), values, splat) <==> HostLabels(rest, values, splat)
  {
    hide HostLabel, Value;
    var parts := WithPrefix(pre, rest);
    if rest != [] && rest[0].Literal? {
      assert forall i :: 1 <= i < |rest| ==> rest[i] == parts[i];
      assert forall i :: 1 <= i < |parts| ==> parts[i] == rest[i];
    } else {
      assert forall i :: 0 <= i < |rest| ==> rest[i] == parts[i + 1];
      assert forall i :: 1 <= i < |parts| ==> parts[i] == rest[i - 1];
    }
  }

  /** The value of an expansion has no character that only escaped values could have brought. */
  lemma {:induction false} NoBackslashAdded(parts: seq<Part>, values: seq<string>, splat: string)
    requires forall i :: 0 <= i < |parts| && parts[i].Literal? ==> '\\' !in parts[i].text
    ensures '\\' !in ExpandParts(parts, values, splat)
  {
    hide Substitute;
    if parts != [] {
      if parts[0].Reference? {
        SubstituteInert(parts[0].slot, parts[0].query, values, splat);
        assert '\\' !in ExpandPart(parts[0], values, splat);
      }
      assert forall i :: 0 <= i < |parts[1..]| ==> parts[1..][i] == parts[i + 1];
      NoBackslashAdded(parts[1..], values, splat);
    }
  }

  lemma {:induction false} LiteralsWithin(p: Pattern, raw: string, pos: nat, parts: seq<Part>, c: char)
    requires pos <= |raw| && Tokenises(p, raw, pos, parts) && c !in raw
    ensures forall i :: 0 <= i < |parts| && parts[i].Literal? ==> c !in parts[i].text
    decreases |parts|
  {
    hide ReferenceAt, TokenText;
    if parts != [] {
      LiteralsWithin(p, raw, pos + |SourceText(p, parts[0])|, parts[1..], c);
      assert forall i :: 1 <= i < |parts| ==> parts[i] == parts[1..][i - 1];
    }
  }

  lemma TrimKeeps(s: string, c: char)
    ensures c !in s ==> c !in TrimSlashes(s)
  {
  }

  /** The first character past the slashes of a path, references left out, is a backslash: browsers take a
      path that expands to one slash and a backslash for a URL with an authority. */
  predicate LeadsToBackslash(parts: seq<Part>) {
    parts != [] &&
    match parts[0]
    case Literal(text) =>
      var past := TrimSlashes(text);
      if past == "" then LeadsToBackslash(parts[1..]) else past[0] == '\\'
    case Reference(_, _, _) => LeadsToBackslash(parts[1..])
  }

  lemma {:induction false} TrimConcat(a: string, b: string)
    ensures TrimSlashes(a + b) == if TrimSlashes(a) == "" then TrimSlashes(b) else TrimSlashes(a) + b
  {
    if a == "" {
      assert a + b == b;
    } else if a[0] == '/' {
      assert (a + b)[1..] == a[1..] + b;
      TrimConcat(a[1..], b);
    }
  }

  predicate BackslashFirst(s: string) {
    s != "" && s[0] == '\\'
  }

  lemma InertNoBackslash(s: string)
    requires Inert(s, true)
    ensures !BackslashFirst(TrimSlashes(s))
  {
    var past := TrimSlashes(s);
    assert past != "" ==> past[0] == s[|s| - |past|] != '\\';
  }

  lemma {:induction false} NoBackslashLeads(parts: seq<Part>, values: seq<string>, splat: string)
    requires !LeadsToBackslash(parts)
    ensures !BackslashFirst(TrimSlashes(ExpandParts(parts, values, splat)))
  {
    hide Substitute, TrimSlashes, Inert;
    if parts == [] {
      TrimNothing();
    } else {
      var e := ExpandPart(parts[0], values, splat);
      TrimConcat(e, ExpandParts(parts[1..], values, splat));
      if parts[0].Reference? {
        SubstituteInert(parts[0].slot, parts[0].query, values, splat);
        InertNoBackslash(e);
        NoBackslashLeads(parts[1..], values, splat);
      } else if TrimSlashes(e) == "" {
        NoBackslashLeads(parts[1..], values, splat);
      }
    }
  }

  lemma TrimNothing()
    ensures TrimSlashes("") == ""
  {
  }

  /** A destination that starts with a slash is sent with one. One whose second character is no slash either
      is sent without a second slash, so it gets no authority, unless its references can leave a
      backslash there; expansion itself adds no backslash. One that starts with two slashes, or with
      one and a backslash, keeps them, and with them an authority. */
  lemma PathStaysLocal(rule: RedirectRule, path: string)
    requires HasPrefix(rule.to, "/")
    ensures var cr := NewCompiledRedirect(rule);
            && WellFormed(cr.pattern)
            && (Destination(cr, path).Some? ==>
                  var u := Destination(cr, path).value;
                  && HasPrefix(u, "/")
                  && (HasPrefix(u, "//") <==> HasPrefix(rule.to, "//"))
                  && ('\\' in u ==> '\\' in rule.to)
                  && (AuthorityStart(rule.to) >= 0 ==> Authority(u).Some?)
                  && (AuthorityStart(rule.to) < 0 ==>
                        && (Authority(u).Some? <==> HasPrefix(u, "/\\"))
                        && (Authority(u).Some? ==> LeadsToBackslash(cr.to.parts))))
  {
    hide Patterns.Compile, CompileTemplate, Parse, HostLabels, ExpandParts, TrimSlashes, LeadsToBackslash;
    var cr := NewCompiledRedirect(rule);
    CompiledByteWise(rule.from);
    if cr.to.Dynamic() && Matches(cr.pattern, path) {
      var m := Parse(cr.pattern, path).value;
      ParsedLengths(cr.pattern, path);
      var values := CapturedValues(cr.pattern, m);
      CompiledNamesSlashFree(rule.from);
      ExpandedPath(rule.to, cr.pattern, values, m.splat);
      if AuthorityStart(rule.to) >= 0 {
        ExpandedRelative(rule.to, cr.pattern, values, m.splat);
        KeepsTwoSlashes(ExpandTemplate(cr.to, values, m.splat), rule.to);
      } else {
        if !LeadsToBackslash(cr.to.parts) {
          NoBackslashLeads(cr.to.parts, values, m.splat);
        }
        CollapsedAuthority(ExpandTemplate(cr.to, values, m.splat), rule.to);
      }
      CollapseLocal(ExpandTemplate(cr.to, values, m.splat), rule.to);
    } else {
      TemplateRaw(rule.to, cr.pattern);
      PathAuthority(rule.to);
    }
  }

  lemma PathAuthority(u: string)
    requires HasPrefix(u, "/")
    ensures Authority(u).Some? <==> HasPrefix(u, "//") || HasPrefix(u, "/\\")
    ensures AuthorityStart(u) >= 0 <==> Authority(u).Some?
  {
    assert u[0] == '/';
    assert SlashRun(u) == 1 + SlashRun(u[1..]);
  }

  /** An expansion that keeps the two slashes of its rule is sent as it is. */
  lemma KeepsTwoSlashes(expanded: string, to: string)
    requires HasPrefix(to, "/") && AuthorityStart(to) >= 0 && |expanded| >= 2 && expanded[..2] == to[..2]
    ensures Collapse(expanded, to) == expanded && Authority(expanded).Some?
    ensures HasPrefix(expanded, "//") <==> HasPrefix(to, "//")
  {
    hide TrimSlashes, UntilHostEnd;
    PathAuthority(to);
    assert to[0] == '/' && expanded[0] == to[0] && expanded[1] == to[1];
    PathAuthority(expanded);
  }

  /** What is left after collapsing has an authority exactly when the first character past the slashes is
      a backslash. */
  lemma CollapsedAuthority(expanded: string, to: string)
    requires HasPrefix(expanded, "/") && HasPrefix(to, "/") && AuthorityStart(to) < 0
    ensures var u := Collapse(expanded, to);
            && HasPrefix(u, "/") && !HasPrefix(u, "//")
            && (Authority(u).Some? <==> HasPrefix(u, "/\\"))
            && (HasPrefix(u, "/\\") <==> BackslashFirst(TrimSlashes(expanded)))
  {
    hide UntilHostEnd;
    PathAuthority(to);
    var u := Collapse(expanded, to);
    assert TrimSlashes(expanded) == TrimSlashes(expanded[1..]);
    if HasPrefix(expanded, "//") {
      assert u[1..] == TrimSlashes(expanded);
    } else if |expanded| >= 2 {
      assert expanded[1..][0] == expanded[1] != '/';
    }
    PathAuthority(u);
  }

  lemma ExpandedRelative(raw: string, p: Pattern, values: seq<string>, splat: string)
    requires HasPrefix(raw, "/") && AuthorityStart(raw) >= 0 && NamesSlashFree(p) && CompileTemplate(raw, p).Dynamic()
    ensures var e := ExpandTemplate(CompileTemplate(raw, p), values, splat);
            |raw| >= 2 && |e| >= 2 && e[..2] == raw[..2]
  {
    hide CompileTemplate, Flagged, QueryFlagged, WithPrefix, ExpandParts, Tokenises, StartsOff;
    var h := AuthorityStart(raw);
    var rest := AuthorityParts(raw, p);
    ExpandWithPrefix(raw[..h], rest, values, splat);
    assert raw[0] == '/' && h >= 2;
  }

  lemma TemplateRaw(raw: string, p: Pattern)
    ensures CompileTemplate(raw, p).raw == raw
  {
  }

  lemma CollapseLocal(expanded: string, to: string)
    requires HasPrefix(expanded, "/")
    ensures var u := Collapse(expanded, to);
            && HasPrefix(u, "/")
            && (HasPrefix(u, "//") <==> HasPrefix(expanded, "//") && HasPrefix(to, "//"))
            && ('\\' in u ==> '\\' in expanded)
  {
    hide TrimSlashes;
    TrimKeeps(expanded, '\\');
    var u := Collapse(expanded, to);
    assert u != expanded && |u| >= 2 ==> u[1] == TrimSlashes(expanded)[0];
  }

  lemma ExpandedPath(raw: string, p: Pattern, values: seq<string>, splat: string)
    requires HasPrefix(raw, "/") && CompileTemplate(raw, p).Dynamic()
    ensures var e := ExpandTemplate(CompileTemplate(raw, p), values, splat);
            HasPrefix(e, "/") && ('\\' in e ==> '\\' in raw)
  {
    hide CompileTemplate, Substitute, Tokenises;
    var parts := CompileTemplate(raw, p).parts;
    CompileTemplateLossless(raw, p);
    FirstIsLiteral(p, raw, parts);
    if '\\' !in raw {
      LiteralsWithin(p, raw, 0, parts, '\\');
      NoBackslashAdded(parts, values, splat);
    }
  }

  lemma FirstIsLiteral(p: Pattern, raw: string, parts: seq<Part>)
    requires HasPrefix(raw, "/") && parts != [] && Tokenises(p, raw, 0, parts)
    ensures parts[0].Literal? && HasPrefix(parts[0].text, "/")
  {
    hide ReferenceAt;
    assert raw[0..] == raw;
    NoColonNoReference(p, raw);
  }
}
