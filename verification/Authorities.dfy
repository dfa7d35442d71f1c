/** For which destinations a request cannot choose the host that a redirect leads to. */
module Authorities {
  import opened Paths
  import opened Folding
  import opened Patterns
  import opened Matching
  import opened Captures
  import opened Requests
  import opened Escaping
  import opened Templates
  import opened Expansion
  import opened UrlContext
  import opened Redirects
  import opened Destinations

  /** The destinations that the parser admits: paths and absolute URLs. */
  predicate Admitted(to: string) {
    HasPrefix(to, "/") || HasPrefix(to, "https://") || HasPrefix(to, "http://")
  }

  /** What is sent for the path has the authority that the rule spells out, and only host labels have
      gone into it. */
  ghost predicate SendsOwnHost(cr: CompiledRedirect, path: string)
    requires WellFormed(cr.pattern)
  {
    var sent := Destination(cr, path);
    sent.Some? ==>
      if !(cr.to.Dynamic() && Matches(cr.pattern, path)) then sent.value == cr.rule.to
      else if AuthorityStart(cr.rule.to) < 0 then Authority(sent.value) == None
      else
        var m := Parse(cr.pattern, path).value;
        var values := (ParsedLengths(cr.pattern, path); CapturedValues(cr.pattern, m));
        var parts := DropLiteral(cr.to.parts, AuthorityStart(cr.rule.to));
        && LabelsFrom(parts, values, m.splat)
        && Authority(sent.value) == Some(HostText(parts, values, m.splat))
  }

  // Rules whose text lets the host vary

  /** Some reference lies in the authority, for parts that start there. */
  predicate RefersFrom(parts: seq<Part>) {
    parts != [] && (parts[0].Reference? || (StaysInHost(parts[0].text) && RefersFrom(parts[1..])))
  }

  /** With empty values for the references in `slots`, the text goes on after some slashes with more that a
      browser takes for the authority. */
  predicate Shifts(parts: seq<Part>, slots: set<int>) {
    parts != [] &&
    match parts[0]
    case Reference(slot, _, _) => slot !in slots || Shifts(parts[1..], slots)
    case Literal(text) =>
      if SlashRun(text) == |text| then Shifts(parts[1..], slots) else !EndsHost(text[SlashRun(text)])
  }

  /** The authority consists of references only, and when these are all empty, which host labels may be,
      the slash that ends it lets a browser look for it further on. */
  predicate EmptyLabelsShift(parts: seq<Part>, slots: set<int>) {
    parts != [] &&
    match parts[0]
    case Reference(slot, _, _) => EmptyLabelsShift(parts[1..], slots + {slot})
    case Literal(text) =>
      if text == "" then EmptyLabelsShift(parts[1..], slots)
      else slots != {} && IsSlash(text[0]) && Shifts(parts, slots)
  }

  /** The rule's text lets a request change the host: a path can expand to one slash and a backslash; an
      authority that no flag marks, as it follows no scheme or further slashes, has a reference; or
      one that is flagged can become empty. */
  predicate HostVaries(to: string, parts: seq<Part>) {
    var h := AuthorityStart(to);
    if h < 0 then LeadsToBackslash(parts)
    else if h == HostStart(to) then EmptyLabelsShift(DropLiteral(parts, h), {})
    else RefersFrom(DropLiteral(parts, h))
  }

  lemma {:induction false} NoReferenceNoLabel(parts: seq<Part>, values: seq<string>, splat: string)
    requires !RefersFrom(parts)
    ensures LabelsFrom(parts, values, splat)
  {
    hide StaysInHost, HostLabel;
    if parts != [] && StaysInHost(parts[0].text) {
      NoReferenceNoLabel(parts[1..], values, splat);
    }
  }

  /** With values that are no host labels, a reference in the authority puts one there. */
  lemma {:induction false} ReferenceNoLabel(parts: seq<Part>, values: seq<string>, splat: string)
    requires RefersFrom(parts)
    requires forall i :: 0 <= i < |parts| && parts[i].Reference? ==> !HostLabel(Value(parts[i].slot, values, splat))
    ensures !LabelsFrom(parts, values, splat)
  {
    hide StaysInHost, HostLabel, Value;
    if parts[0].Literal? {
      assert forall i :: 0 <= i < |parts[1..]| ==> parts[1..][i] == parts[i + 1];
      ReferenceNoLabel(parts[1..], values, splat);
    }
  }

  lemma PrefixDropped(pre: string, rest: seq<Part>)
    ensures var parts := DropLiteral(WithPrefix(pre, rest), |pre|);
            && (RefersFrom(parts) <==> RefersFrom(rest))
            && (StartsOff(rest) ==> forall slots :: EmptyLabelsShift(parts, slots) <==> EmptyLabelsShift(rest, slots))
  {
    hide StaysInHost, Shifts;
    NothingEndsHost();
    var parts := DropLiteral(WithPrefix(pre, rest), |pre|);
    if rest != [] && rest[0].Literal? {
      assert (pre + rest[0].text)[|pre|..] == rest[0].text;
      assert parts == [rest[0]] + rest[1..] == rest;
    } else {
      assert pre[|pre|..] == "";
      assert parts == [Literal("")] + rest && parts[1..] == rest;
    }
  }

  // The good half

  /** The values of the references in `slots` are empty. */
  ghost predicate Blank(slots: set<int>, values: seq<string>, splat: string) {
    forall slot :: slot in slots ==> Value(slot, values, splat) == ""
  }

  lemma BlankSubstitute(slot: int, query: bool, values: seq<string>, splat: string)
    requires Value(slot, values, splat) == ""
    ensures Substitute(slot, query, values, splat) == ""
  {
    assert Split("") == [""] && PathEscapeAll([""]) == [""];
  }

  lemma {:induction false} NothingShifts(parts: seq<Part>, slots: set<int>, values: seq<string>, splat: string)
    requires !Shifts(parts, slots) && Blank(slots, values, splat)
    ensures var e := ExpandParts(parts, values, splat); UntilHostEnd(e[SlashRun(e)..]) == ""
  {
    hide Substitute, Value, IsSlash, EndsHost;
    if parts != [] {
      var rest := ExpandParts(parts[1..], values, splat);
      match parts[0]
      case Reference(slot, query, _) =>
        BlankSubstitute(slot, query, values, splat);
        NothingShifts(parts[1..], slots, values, splat);
        assert "" + rest == rest;
      case Literal(text) =>
        if SlashRun(text) == |text| {
          NothingShifts(parts[1..], slots, values, splat);
          AllSlashes(text, rest);
        } else {
          SlashesEnd(text, rest);
        }
    }
  }

  lemma LabelStartsHost(slot: int, query: bool, values: seq<string>, splat: string, rest: string)
    requires HostLabel(Value(slot, values, splat)) && Value(slot, values, splat) != "" && !query
    ensures SlashRun(Substitute(slot, query, values, splat) + rest) == 0
  {
    hide SplatEscape, PathEscape;
    LabelSubstitute(slot, values, splat);
    assert (Value(slot, values, splat) + rest)[0] == Value(slot, values, splat)[0];
    assert Value(slot, values, splat)[..1] == [Value(slot, values, splat)[0]];
  }

  /** An expansion in a flagged authority that starts with a slash has no authority there at all. */
  lemma {:induction false} LabelsStay(parts: seq<Part>, slots: set<int>, values: seq<string>, splat: string)
    requires !EmptyLabelsShift(parts, slots) && Blank(slots, values, splat)
    requires QueryFlagged(parts, OUTSIDE) && LabelsFrom(parts, values, splat)
    requires forall i :: 0 <= i < |parts| && parts[i].Literal? ==> parts[i].text != ""
    requires slots == {} ==> StartsOff(parts)
    ensures var e := ExpandParts(parts, values, splat);
            SlashRun(e) > 0 ==> UntilHostEnd(e[SlashRun(e)..]) == ""
  {
    hide Substitute, Value, HostLabel, StaysInHost, MoveAll, Shifts;
    if parts != [] {
      var rest := ExpandParts(parts[1..], values, splat);
      match parts[0]
      case Reference(slot, query, _) =>
        if Value(slot, values, splat) == "" {
          BlankSubstitute(slot, query, values, splat);
          assert forall i :: 0 <= i < |parts[1..]| ==> parts[1..][i] == parts[i + 1];
          LabelsStay(parts[1..], slots + {slot}, values, splat);
          assert "" + rest == rest;
        } else {
          LabelStartsHost(slot, query, values, splat, rest);
        }
      case Literal(text) =>
        if slots == {} || !IsSlash(text[0]) {
          assert (text + rest)[0] == text[0];
        } else {
          NothingShifts(parts, slots, values, splat);
        }
    }
  }

  /** The expansion of a destination that has an authority of its own. */
  lemma OwnAuthority(rule: RedirectRule, values: seq<string>, splat: string)
    requires Admitted(rule.to) && AuthorityStart(rule.to) >= 0 && NewCompiledRedirect(rule).to.Dynamic()
    requires !HostVaries(rule.to, NewCompiledRedirect(rule).to.parts)
    requires HostLabels(NewCompiledRedirect(rule).to.parts, values, splat)
    ensures var (t, h) := (NewCompiledRedirect(rule).to, AuthorityStart(rule.to));
            var e, parts := ExpandTemplate(t, values, splat), DropLiteral(t.parts, h);
            && Collapse(e, rule.to) == e
            && LabelsFrom(parts, values, splat) && Authority(e) == Some(HostText(parts, values, splat))
  {
    hide Patterns.Compile, CompileTemplate, LabelsFrom, RefersFrom, HostText, DropLiteral, ExpandParts, WithPrefix,
         EmptyLabelsShift, QueryFlagged, Flagged, Tokenises, HostLabels, SlashRun, UntilHostEnd;
    var cr := NewCompiledRedirect(rule);
    var h := AuthorityStart(rule.to);
    CompiledNamesSlashFree(rule.from);
    var rest := AuthorityParts(rule.to, cr.pattern);
    var more := ExpandParts(rest, values, splat);
    PrefixDropped(rule.to[..h], rest);
    LabelsOfRest(rule.to[..h], rest, values, splat);
    ExpandWithPrefix(rule.to[..h], rest, values, splat);
    HostTextOfRest(rule.to[..h], rest, values, splat);
    AuthorityAfter(rule.to, h, more);
    FlagsAreAuthority(rest, OUTSIDE, h == HostStart(rule.to), values, splat);
    RestLabels(rule.to[..h], rest, values, splat);
    if h == HostStart(rule.to) {
      NothingBlank(values, splat);
      LabelsStay(rest, {}, values, splat);
      ExpandedHost(rest, values, splat);
      NoSlashes(more);
    } else {
      NoReferenceNoLabel(rest, values, splat);
      ExpandedHost(rest, values, splat);
      LiteralStartsOff(rest, values, splat);
      NoSlashes(more);
    }
    NeverCollapsed(rule.to, h, more);
  }

  lemma NothingBlank(values: seq<string>, splat: string)
    ensures Blank({}, values, splat)
  {
  }

  lemma NoSlashes(more: string)
    ensures SlashRun(more) == 0 ==> more[SlashRun(more)..] == more
    ensures SlashRun(more) > 0 ==> UntilHostEnd(more) == ""
  {
  }

  lemma LiteralStartsOff(parts: seq<Part>, values: seq<string>, splat: string)
    requires StartsOff(parts) && !RefersFrom(parts)
    ensures SlashRun(ExpandParts(parts, values, splat)) == 0
  {
    hide Substitute;
    if parts != [] {
      assert ExpandParts(parts, values, splat)[0] == parts[0].text[0];
    }
  }

  lemma NeverCollapsed(to: string, h: nat, more: string)
    requires Admitted(to) && AuthorityStart(to) == h
    ensures Collapse(to[..h] + more, to) == to[..h] + more
  {
    var e := to[..h] + more;
    assert e[..h] == to[..h];
    if HostStart(to) >= 0 {
      SchemeStaysFirst(to, e[HostStart(to)..]);
      assert to[..HostStart(to)] + e[HostStart(to)..] == e;
    } else {
      assert e[0] == to[0] && e[1] == to[1];
      assert HasPrefix(e, "//") ==> HasPrefix(to, "//");
    }
    NotCollapsed(e, to);
  }

  /** The good half. */
  lemma OwnHostSent(rule: RedirectRule, path: string)
    requires Admitted(rule.to) && !HostVaries(rule.to, NewCompiledRedirect(rule).to.parts)
    ensures WellFormed(NewCompiledRedirect(rule).pattern)
    ensures SendsOwnHost(NewCompiledRedirect(rule), path)
  {
    hide Patterns.Compile, CompileTemplate, Parse, HostLabels, LabelsFrom, HostText, DropLiteral, Captured, Authority,
         UntilHostEnd, EmptyLabelsShift, RefersFrom, LeadsToBackslash, ExpandParts;
    var cr := NewCompiledRedirect(rule);
    CompiledIsWellFormed(rule.from);
    TemplateRaw(rule.to, cr.pattern);
    if AuthorityStart(rule.to) < 0 {
      PathStaysLocal(rule, path);
    } else if cr.to.Dynamic() && Matches(cr.pattern, path) {
      var m := Parse(cr.pattern, path).value;
      ParsedLengths(cr.pattern, path);
      var values := CapturedValues(cr.pattern, m);
      if HostLabels(cr.to.parts, values, m.splat) {
        OwnAuthority(rule, values, m.splat);
      }
    }
  }

  // The bad half

  /** No reference of a destination without a scheme is flagged for the authority. */
  lemma NothingFlagged(raw: string, p: Pattern, values: seq<string>, splat: string)
    requires HostStart(raw) < 0
    ensures HostLabels(CompileTemplate(raw, p).parts, values, splat)
  {
    hide Scan, Tokens, HostLabels, Flagged, HasReference;
    var parts := Scan(raw, Tokens(p), -1, 0, 0, OUTSIDE, false);
    TokensNonEmpty(p);
    NothingMoves(raw, 0, OUTSIDE);
    ScanFlagged(raw, Tokens(p), 0, 0, OUTSIDE, false);
    FlagsAreAuthority(parts, OUTSIDE, false, values, splat);
    NoneFlagged(values, splat);
  }

  lemma NoneFlagged(values: seq<string>, splat: string)
    ensures HostLabels([], values, splat)
  {
  }

  /** Values that the rule captures for some request. */
  lemma RuleCaptures(rule: RedirectRule, values: seq<string>, splat: string) returns (path: string)
    requires |values| == |NewCompiledRedirect(rule).pattern.names| && SlashFree(values)
    ensures var p := NewCompiledRedirect(rule).pattern;
            && WellFormed(p) && Matches(p, path)
            && var m := Parse(p, path).value;
               CapturedValues(p, m) == values && (p.hasSplat ==> m.splat == splat)
    ensures HasPrefix(rule.from, "/") ==> HasPrefix(path, "/")
  {
    hide Patterns.Compile, Parse, Captured, CompileTemplate;
    CompiledExact(rule.from);
    path := CapturesAny(rule.from, Exact, values, splat);
  }

  lemma CompiledExact(raw: string)
    ensures Patterns.Compile(raw).(fold := Exact) == Patterns.Compile(raw)
  {
  }

  function Filling(n: nat, slots: set<int>, v: string): (values: seq<string>)
    ensures |values| == n
  {
    seq(n, i requires 0 <= i < n => if i in slots then "" else v)
  }

  /** With empty values throughout, the backslash that the path leads to ends up behind its first slash. */
  lemma {:induction false} BlanksLead(parts: seq<Part>, values: seq<string>, splat: string)
    requires LeadsToBackslash(parts) && forall slot :: Value(slot, values, splat) == ""
    ensures BackslashFirst(TrimSlashes(ExpandParts(parts, values, splat)))
  {
    hide Substitute, TrimSlashes, Value;
    var e := ExpandPart(parts[0], values, splat);
    TrimConcat(e, ExpandParts(parts[1..], values, splat));
    if parts[0].Reference? {
      BlankSubstitute(parts[0].slot, parts[0].query, values, splat);
      TrimNothing();
      BlanksLead(parts[1..], values, splat);
    } else if TrimSlashes(e) == "" {
      BlanksLead(parts[1..], values, splat);
    }
  }

  lemma BackslashSent(rule: RedirectRule) returns (path: string)
    requires Admitted(rule.to) && AuthorityStart(rule.to) < 0 && LeadsToBackslash(NewCompiledRedirect(rule).to.parts)
    ensures WellFormed(NewCompiledRedirect(rule).pattern)
    ensures HasPrefix(rule.from, "/") ==> HasPrefix(path, "/")
    ensures var sent := Destination(NewCompiledRedirect(rule), path);
            sent.Some? && !SendsOwnHost(NewCompiledRedirect(rule), path) && HasPrefix(sent.value, "/\\")
  {
    hide Patterns.Compile, CompileTemplate, Parse, HostLabels, Captured, UntilHostEnd, ExpandParts, TrimSlashes,
         LeadsToBackslash, Value;
    var cr := NewCompiledRedirect(rule);
    var values := Filling(|cr.pattern.names|, {}, "");
    NoHostStart(rule.to);
    LeadingIsDynamic(cr.to.parts);
    path := RuleCaptures(rule, values, "");
    var splat := Parse(cr.pattern, path).value.splat;
    SplatOnlyIfAny(cr.pattern, path);
    NothingFlagged(rule.to, cr.pattern, values, splat);
    AllBlank(values, splat);
    BlanksLead(cr.to.parts, values, splat);
    ExpandedPath(rule.to, cr.pattern, values, splat);
    CollapsedAuthority(ExpandTemplate(cr.to, values, splat), rule.to);
  }

  lemma LeadingIsDynamic(parts: seq<Part>)
    requires LeadsToBackslash(parts)
    ensures parts != []
  {
  }

  lemma NoHostStart(to: string)
    requires AuthorityStart(to) < 0
    ensures HostStart(to) < 0
  {
  }

  lemma AllBlank(values: seq<string>, splat: string)
    requires splat == "" && forall i :: 0 <= i < |values| ==> values[i] == ""
    ensures forall slot :: Value(slot, values, splat) == ""
  {
  }

  /** A pattern without a '*' captures no splat. */
  lemma SplatOnlyIfAny(p: Pattern, path: string)
    requires WellFormed(p) && Matches(p, path)
    ensures !p.hasSplat ==> Parse(p, path).value.splat == ""
  {
    hide Split, SegmentsMatch;
  }

  /** A value that escaping leaves as it is. */
  predicate Kept(v: string) {
    v != "" && forall i :: 0 <= i < |v| ==> KeptInPath(v[i])
  }

  lemma {:induction false} KeptEscape(s: string)
    requires forall i :: 0 <= i < |s| ==> KeptInPath(s[i])
    ensures PathEscape(s) == s
  {
    hide KeptInPath;
    if s != "" {
      KeptEscape(s[1..]);
    }
  }

  lemma KeptSubstitute(slot: int, values: seq<string>, splat: string)
    requires Kept(Value(slot, values, splat))
    ensures Substitute(slot, false, values, splat) == Value(slot, values, splat)
    ensures StaysInHost(Value(slot, values, splat)) && '/' !in Value(slot, values, splat)
  {
    hide PathEscape, Split;
    var v := Value(slot, values, splat);
    KeptEscape(v);
    assert '/' !in v;
    SplitWhole(v);
    assert PathEscapeAll([v]) == [v];
  }

  /** A reference in the authority puts its value there, whatever it is. */
  lemma {:induction false} KeptInHost(parts: seq<Part>, values: seq<string>, splat: string, v: string)
    returns (a: string, b: string)
    requires RefersFrom(parts) && Kept(v)
    requires forall i :: 0 <= i < |parts| && parts[i].Reference? ==> Value(parts[i].slot, values, splat) == v
    ensures VerbatimFrom(parts, values, splat) && HostText(parts, values, splat) == a + v + b
  {
    hide StaysInHost, Value, Substitute, Kept;
    assert forall i :: 0 <= i < |parts[1..]| ==> parts[1..][i] == parts[i + 1];
    match parts[0]
    case Literal(text) =>
      var c;
      c, b := KeptInHost(parts[1..], values, splat, v);
      a := text + c;
      assert text + (c + v + b) == a + v + b;
    case Reference(slot, _, _) =>
      KeptSubstitute(slot, values, splat);
      KeptFrom(parts[1..], values, splat, v);
      a, b := "", HostText(parts[1..], values, splat);
      assert "" + v + b == v + b;
  }

  lemma {:induction false} KeptFrom(parts: seq<Part>, values: seq<string>, splat: string, v: string)
    requires Kept(v) && forall i :: 0 <= i < |parts| && parts[i].Reference? ==> Value(parts[i].slot, values, splat) == v
    ensures VerbatimFrom(parts, values, splat)
  {
    hide StaysInHost, Value, Substitute, Kept;
    if parts != [] {
      assert forall i :: 0 <= i < |parts[1..]| ==> parts[1..][i] == parts[i + 1];
      KeptFrom(parts[1..], values, splat, v);
      if parts[0].Reference? {
        KeptSubstitute(parts[0].slot, values, splat);
      }
    }
  }

  lemma KeptStartsHost(parts: seq<Part>, values: seq<string>, splat: string, v: string)
    requires RefersFrom(parts) && StartsOff(parts) && QueryFlagged(parts, OUTSIDE) && Kept(v)
    requires forall i :: 0 <= i < |parts| && parts[i].Reference? ==> Value(parts[i].slot, values, splat) == v
    ensures SlashRun(ExpandParts(parts, values, splat)) == 0
  {
    hide Value, Substitute;
    var e := ExpandPart(parts[0], values, splat);
    if parts[0].Reference? {
      KeptSubstitute(parts[0].slot, values, splat);
      assert KeptInPath(v[0]);
    }
    assert ExpandParts(parts, values, splat)[0] == e[0];
  }

  /** The values of all references are `v`, but for those in `slots`, which are empty. */
  lemma FilledValues(p: Pattern, raw: string, h: nat, parts: seq<Part>, slots: set<int>, v: string, splat: string)
    requires h <= |raw| && Tokenises(p, raw, h, parts)
    requires p.hasSplat ==> splat == if SPLAT_SLOT in slots then "" else v
    ensures var values := Filling(|p.names|, slots, v);
            forall i :: 0 <= i < |parts| && parts[i].Reference? ==>
              Value(parts[i].slot, values, splat) == if parts[i].slot in slots then "" else v
  {
    hide Tokenises;
    TokenisesSlots(p, raw, h, parts);
  }

  /** Whatever text of unreserved characters, '@' and ':' is asked for: when an authority that no flag marks
      has a reference, some request puts that text into the authority that is sent. */
  lemma AnyHostSent(rule: RedirectRule, v: string) returns (path: string, a: string, b: string)
    requires Admitted(rule.to) && AuthorityStart(rule.to) >= 0 && AuthorityStart(rule.to) != HostStart(rule.to)
    requires HostVaries(rule.to, NewCompiledRedirect(rule).to.parts) && Kept(v)
    ensures WellFormed(NewCompiledRedirect(rule).pattern)
    ensures HasPrefix(rule.from, "/") ==> HasPrefix(path, "/")
    ensures var sent := Destination(NewCompiledRedirect(rule), path);
            sent.Some? && Authority(sent.value) == Some(a + v + b)
    ensures !HostLabel(v) ==> !SendsOwnHost(NewCompiledRedirect(rule), path)
  {
    hide Patterns.Compile, CompileTemplate, Parse, HostLabels, LabelsFrom, HostText, DropLiteral, Captured, ExpandParts,
         RefersFrom, QueryFlagged, Flagged, WithPrefix, Tokenises, Kept, Value, StartsOff, VerbatimFrom, SlashRun, UntilHostEnd,
         HostLabel, Collapse;
    var cr := NewCompiledRedirect(rule);
    var h := AuthorityStart(rule.to);
    var values := Filling(|cr.pattern.names|, {}, v);
    CompiledNamesSlashFree(rule.from);
    CompiledIsWellFormed(rule.from);
    KeptSlashFree(v);
    path := RuleCaptures(rule, values, v);
    var splat := Parse(cr.pattern, path).value.splat;
    RefersDynamic(cr.to, h);
    var rest := AuthorityParts(rule.to, cr.pattern);
    FilledValues(cr.pattern, rule.to, h, rest, {}, v, splat);
    PrefixDropped(rule.to[..h], rest);
    a, b := KeptInHost(rest, values, splat, v);
    KeptStartsHost(rest, values, splat, v);
    var more := ExpandParts(rest, values, splat);
    ExpandedVerbatim(rest, values, splat);
    ExpandWithPrefix(rule.to[..h], rest, values, splat);
    AuthorityAfter(rule.to, h, more);
    NoSlashes(more);
    NeverCollapsed(rule.to, h, more);
    FlagsAreAuthority(rest, OUTSIDE, false, values, splat);
    RestLabels(rule.to[..h], rest, values, splat);
    if !HostLabel(v) {
      ReferenceNoLabel(rest, values, splat);
      LabelsOfRest(rule.to[..h], rest, values, splat);
      TemplateRaw(rule.to, cr.pattern);
    }
  }

  lemma KeptSlashFree(v: string)
    requires Kept(v)
    ensures '/' !in v
  {
  }

  lemma RefersDynamic(t: Template, h: nat)
    requires RefersFrom(DropLiteral(t.parts, h))
    ensures t.Dynamic()
  {
  }

  // A flagged authority that becomes empty

  const FILLER := "a"

  lemma FillerSubstitute(slot: int, query: bool, values: seq<string>, splat: string)
    requires Value(slot, values, splat) == FILLER
    ensures Substitute(slot, query, values, splat) == FILLER
  {
    hide Split;
    assert "a"[1..] == "" && PathEscape("a") == "a" && QueryEscape("a") == "a";
    SplitWhole("a");
    assert PathEscapeAll(["a"]) == ["a"];
  }

  lemma {:induction false} ShiftedHost(parts: seq<Part>, slots: set<int>, values: seq<string>, splat: string)
    requires Shifts(parts, slots)
    requires forall i :: 0 <= i < |parts| && parts[i].Reference? ==>
               Value(parts[i].slot, values, splat) == if parts[i].slot in slots then "" else FILLER
    ensures var e := ExpandParts(parts, values, splat); UntilHostEnd(e[SlashRun(e)..]) != ""
  {
    hide Substitute, Value, SlashRun, UntilHostEnd, EndsHost;
    var rest := ExpandParts(parts[1..], values, splat);
    assert forall i :: 0 <= i < |parts[1..]| ==> parts[1..][i] == parts[i + 1];
    match parts[0]
    case Reference(slot, query, _) =>
      if slot in slots {
        BlankSubstitute(slot, query, values, splat);
        ShiftedHost(parts[1..], slots, values, splat);
        assert "" + rest == rest;
      } else {
        FillerSubstitute(slot, query, values, splat);
        FillerHost(rest);
      }
    case Literal(text) =>
      if SlashRun(text) == |text| {
        ShiftedHost(parts[1..], slots, values, splat);
        AllSlashes(text, rest);
      } else {
        SlashesEnd(text, rest);
      }
  }

  lemma FillerHost(rest: string)
    ensures UntilHostEnd((FILLER + rest)[SlashRun(FILLER + rest)..]) != ""
  {
    assert (FILLER + rest)[0] == 'a' && (FILLER + rest)[0..] == FILLER + rest;
  }

  lemma AllSlashes(text: string, rest: string)
    requires SlashRun(text) == |text|
    ensures (text + rest)[SlashRun(text + rest)..] == rest[SlashRun(rest)..]
  {
    SlashRunConcat(text, rest);
  }

  lemma SlashesEnd(text: string, rest: string)
    requires SlashRun(text) < |text|
    ensures var past := (text + rest)[SlashRun(text + rest)..]; past != "" && past[0] == text[SlashRun(text)]
    ensures (UntilHostEnd((text + rest)[SlashRun(text + rest)..]) == "") <==> EndsHost(text[SlashRun(text)])
  {
    hide EndsHost;
    SlashRunWithin(text, rest);
  }

  /** The slots of the references that the parts start with. */
  function LeadingSlots(parts: seq<Part>): set<int> {
    if parts != [] && parts[0].Reference? then {parts[0].slot} + LeadingSlots(parts[1..]) else {}
  }

  lemma {:induction false} EmptyLabels(parts: seq<Part>, slots: set<int>, all: set<int>, values: seq<string>, splat: string)
    requires EmptyLabelsShift(parts, slots) && all == slots + LeadingSlots(parts)
    requires forall i :: 0 <= i < |parts| && parts[i].Literal? ==> parts[i].text != ""
    requires forall i :: 0 <= i < |parts| && parts[i].Reference? ==>
               Value(parts[i].slot, values, splat) == if parts[i].slot in all then "" else FILLER
    ensures LabelsFrom(parts, values, splat) && HostText(parts, values, splat) == ""
    ensures var e := ExpandParts(parts, values, splat); UntilHostEnd(e[SlashRun(e)..]) != ""
  {
    hide Substitute, Value, Shifts;
    assert forall i :: 0 <= i < |parts[1..]| ==> parts[1..][i] == parts[i + 1];
    match parts[0]
    case Reference(slot, query, _) =>
      var rest := ExpandParts(parts[1..], values, splat);
      BlankSubstitute(slot, query, values, splat);
      EmptyLabels(parts[1..], slots + {slot}, all, values, splat);
      assert "" + rest == rest;
    case Literal(text) =>
      assert EndsHost(text[0]);
      ShiftedHost(parts, slots, values, splat);
  }

  lemma EmptyLabelSent(rule: RedirectRule) returns (path: string)
    requires Admitted(rule.to) && AuthorityStart(rule.to) == HostStart(rule.to) >= 0
    requires HostVaries(rule.to, NewCompiledRedirect(rule).to.parts)
    ensures WellFormed(NewCompiledRedirect(rule).pattern)
    ensures HasPrefix(rule.from, "/") ==> HasPrefix(path, "/")
    ensures var sent := Destination(NewCompiledRedirect(rule), path);
            && sent.Some? && !SendsOwnHost(NewCompiledRedirect(rule), path)
            && ScannedHost(sent.value) == Some("") && Authority(sent.value).Some? && Authority(sent.value) != Some("")
  {
    hide Patterns.Compile, CompileTemplate, Parse, HostLabels, LabelsFrom, HostText, DropLiteral, Captured, ExpandParts,
         EmptyLabelsShift, QueryFlagged, Flagged, WithPrefix, Tokenises, Value, StartsOff, SlashRun, UntilHostEnd, Collapse,
         LeadingSlots;
    var cr := NewCompiledRedirect(rule);
    var h := AuthorityStart(rule.to);
    CompiledNamesSlashFree(rule.from);
    CompiledIsWellFormed(rule.from);
    ShiftDynamic(cr.to, h);
    var rest := AuthorityParts(rule.to, cr.pattern);
    var slots := LeadingSlots(rest);
    var values := Filling(|cr.pattern.names|, slots, FILLER);
    path := RuleCaptures(rule, values, if SPLAT_SLOT in slots then "" else FILLER);
    var splat := Parse(cr.pattern, path).value.splat;
    FilledValues(cr.pattern, rule.to, h, rest, slots, FILLER, splat);
    PrefixDropped(rule.to[..h], rest);
    TextsNonEmpty(rest);
    EmptyLabels(rest, {}, slots, values, splat);
    var more := ExpandParts(rest, values, splat);
    ExpandWithPrefix(rule.to[..h], rest, values, splat);
    ExpandedHost(rest, values, splat);
    AuthorityAfter(rule.to, h, more);
    SchemeStaysFirst(rule.to, more);
    NeverCollapsed(rule.to, h, more);
    FlagsAreAuthority(rest, OUTSIDE, true, values, splat);
    RestLabels(rule.to[..h], rest, values, splat);
    HostTextOfRest(rule.to[..h], rest, values, splat);
    TemplateRaw(rule.to, cr.pattern);
  }

  lemma TextsNonEmpty(parts: seq<Part>)
    requires StartsOff(parts)
    ensures forall i :: 0 <= i < |parts| && parts[i].Literal? ==> parts[i].text != ""
  {
  }

  lemma ShiftDynamic(t: Template, h: nat)
    requires EmptyLabelsShift(DropLiteral(t.parts, h), {})
    ensures t.Dynamic()
  {
  }

  // The rule's text decides

  /** The bad half: for some request the destination has another authority than the rule spells out. */
  lemma OtherHostSent(rule: RedirectRule) returns (path: string)
    requires Admitted(rule.to) && HostVaries(rule.to, NewCompiledRedirect(rule).to.parts)
    ensures WellFormed(NewCompiledRedirect(rule).pattern)
    ensures HasPrefix(rule.from, "/") ==> HasPrefix(path, "/")
    ensures Destination(NewCompiledRedirect(rule), path).Some? && !SendsOwnHost(NewCompiledRedirect(rule), path)
  {
    hide NewCompiledRedirect, SendsOwnHost, Destination, Authority, ScannedHost, DropLiteral, RefersFrom, EmptyLabelsShift,
         LeadsToBackslash;
    if AuthorityStart(rule.to) < 0 {
      path := BackslashSent(rule);
    } else if AuthorityStart(rule.to) == HostStart(rule.to) {
      path := EmptyLabelSent(rule);
    } else {
      var a, b;
      AtNoLabel();
      path, a, b := AnyHostSent(rule, "@");
    }
  }

  lemma AtNoLabel()
    ensures Kept("@") && !HostLabel("@")
  {
    assert !(Alphanumeric("@"[0]) || "@"[0] == '-');
  }

  /** For the destinations that the parser admits, the rule's text decides whether some request can change
      the host: exactly those for which `HostVaries` does not hold are always sent with the authority
      that the rule spells out, with host labels in it, or without one if it spells out none. */
  lemma OwnHostIff(rule: RedirectRule)
    requires Admitted(rule.to)
    ensures WellFormed(NewCompiledRedirect(rule).pattern)
    ensures (forall path :: SendsOwnHost(NewCompiledRedirect(rule), path)) <==>
            !HostVaries(rule.to, NewCompiledRedirect(rule).to.parts)
  {
    hide NewCompiledRedirect, SendsOwnHost, HostVaries;
    if HostVaries(rule.to, NewCompiledRedirect(rule).to.parts) {
      var path := OtherHostSent(rule);
    } else {
      OwnHostSent(rule, "");
      forall path
        ensures SendsOwnHost(NewCompiledRedirect(rule), path)
      {
        OwnHostSent(rule, path);
      }
    }
  }

  // Such destinations

  const EXAMPLE_PATTERN := Pattern("/:x", false, ["x"], [Segment("", -1), Segment(":x", 0)], [], "", "", 1, Exact)

  lemma ExampleCompiled()
    ensures Patterns.Compile("/:x") == EXAMPLE_PATTERN
  {
    hide IndexByte, Split, Join, NamesAfter, PlaceholderChars;
    var raw := "/:x";
    ExamplePatternParts(raw);
    ExampleNames();
    assert SegmentsFor(["", ":x"], ["x"]) == [Segment("", -1), Segment(":x", 0)];
  }

  lemma ExamplePatternParts(raw: string)
    requires raw == "/:x"
    ensures Split(raw) == ["", ":x"] && IndexByte(raw, '*') < 0
  {
    hide IndexByte, Split;
    SplitJoin(["", ":x"]);
    assert Join(["", ":x"]) == "/:x";
    assert '*' !in raw;
  }

  lemma ExampleNames()
    ensures NamesAfter(["", ":x"], []) == ["x"] && PlaceholderChars(["", ":x"]) == 2
    ensures SegmentFor(":x", ["x"]) == Segment(":x", 0) && SegmentFor("", ["x"]) == Segment("", -1)
  {
    var parts := ["", ":x"];
    assert parts[..1] == [""] && [""][..0] == [];
    assert ":x"[1..] == "x";
    SlotIs(["x"], "x", 0);
  }

  lemma ExampleTokens()
    ensures Tokens(EXAMPLE_PATTERN) == [Token(":x", 0)]
  {
    assert ":" + "x" == ":x";
  }

  /** The rule that sends `/:x` to the given text, `:x` and a slash. */
  function ExampleRule(front: string): RedirectRule {
    RedirectRule("/:x", front + ":x/", 301, 1)
  }

  function ExampleParts(front: string): seq<Part> {
    [Literal(front), Reference(0, false, false), Literal("/")]
  }

  /** Text that the scanner passes over. */
  predicate PlainText(front: string) {
    front != "" && front[0] == '/' && ':' !in front && '?' !in front && '#' !in front
    && forall k :: 0 <= k < |front| ==> !EndsUrl(front[k])
  }

  lemma {:induction false} ExampleScanned(raw: string, front: string, i: nat)
    requires i <= |front| && raw == front + ":x/" && PlainText(front)
    ensures Scan(raw, [Token(":x", 0)], -1, 0, i, OUTSIDE, false) == ExampleParts(front)
    decreases |front| - i
  {
    hide LongestMatch, Scan;
    var tokens := [Token(":x", 0)];
    if i < |front| {
      assert raw[i] == front[i];
      ScanCharacter(raw, tokens, -1, 0, i, OUTSIDE, false);
      ExampleScanned(raw, front, i + 1);
    } else {
      ExampleFound(raw[i..]);
      NoPartsYet(Scan(raw, tokens, -1, 0, i, OUTSIDE, false));
      ScanReference([], raw, tokens, -1, 0, i, OUTSIDE, false, tokens[0]);
      ScanCharacter(raw, tokens, -1, i + 2, i + 2, OUTSIDE, false);
      NoPartsYet(Scan(raw, tokens, -1, i + 2, i + 3, OUTSIDE, false));
      ScanEnd([], raw, tokens, -1, i + 2, OUTSIDE, false);
      assert raw[i + 2..i + 3] == "/" && raw[..|front|] == front;
    }
  }

  lemma ExampleFound(s: string)
    requires HasPrefix(s, ":x")
    ensures LongestMatch([Token(":x", 0)], s) == Some(Token(":x", 0))
  {
    var tokens := [Token(":x", 0)];
    assert tokens[..0] == [] && LongestMatch([], s) == None;
  }

  lemma ExampleTemplate(front: string)
    requires PlainText(front)
    ensures var (rule, raw) := (ExampleRule(front), front + ":x/");
            && CompileTemplate(raw, EXAMPLE_PATTERN) == Template(raw, ExampleParts(front))
            && NewCompiledRedirect(rule) == CompiledRedirect(rule, EXAMPLE_PATTERN, Template(raw, ExampleParts(front)))
  {
    hide Scan, Tokens, Patterns.Compile, LongestMatch;
    var raw := front + ":x/";
    ExampleCompiled();
    ExampleTokens();
    ExampleScanned(raw, front, 0);
    assert raw[0] == '/';
    assert ExampleParts(front)[1].Reference?;
  }

  lemma ExampleRequest(value: string)
    requires '/' !in value
    ensures WellFormed(EXAMPLE_PATTERN)
    ensures Parse(EXAMPLE_PATTERN, "/" + value) == Some(Match(["", value], "", "", "", []))
    ensures CapturedValues(EXAMPLE_PATTERN, Match(["", value], "", "", "", [])) == [value]
  {
    hide Split, Join, Captured;
    var m := Match(["", value], "", "", "", []);
    ExamplePathParts(value);
    CapturedValue(EXAMPLE_PATTERN, m, 0);
    assert LastWith(EXAMPLE_PATTERN.head, 0) == 1 && FirstWith(EXAMPLE_PATTERN.tail, 0) == 0;
  }

  lemma ExamplePathParts(value: string)
    requires '/' !in value
    ensures Split("/" + value) == ["", value]
  {
    hide Split;
    SplitJoin(["", value]);
    assert ["", value][1..] == [value] && Join([value]) == value;
    assert "" + "/" + value == "/" + value;
  }

  lemma ExampleExpanded(front: string, value: string)
    requires Kept(value)
    ensures ExpandTemplate(Template(front + ":x/", ExampleParts(front)), [value], "") == front + value + "/"
  {
    hide PathEscape;
    var parts := ExampleParts(front);
    KeptEscape(value);
    assert parts[1..] == [Reference(0, false, false), Literal("/")] && parts[1..][1..] == [Literal("/")];
    assert [Literal("/")][1..] == [] && "/" + "" == "/";
    assert ExpandParts([Literal("/")], [value], "") == "/";
    assert ExpandParts(parts[1..], [value], "") == value + "/";
    assert front + (value + "/") == front + value + "/";
  }

  lemma ExampleSent(front: string, value: string)
    requires PlainText(front) && AuthorityStart(front + ":x/") >= 0 && |front| >= 2 && Kept(value)
    ensures var cr := NewCompiledRedirect(ExampleRule(front));
            && WellFormed(cr.pattern) && Admitted(cr.rule.to)
            && Destination(cr, "/" + value) == Some(front + value + "/")
  {
    hide Scan, Tokens, Split, Patterns.Compile, ExpandTemplate, CompileTemplate, HostLabels, UntilHostEnd, Parse, Captured,
         NewCompiledRedirect, Kept, PlainText, TrimSlashes;
    PlainStart(front);
    KeptSlashFree(value);
    ExampleTemplate(front);
    ExampleRequest(value);
    NothingFlagged(front + ":x/", EXAMPLE_PATTERN, [value], "");
    ExampleExpanded(front, value);
    var to, sent := front + ":x/", front + value + "/";
    assert sent[..2] == front[..2] == to[..2];
    KeepsTwoSlashes(sent, to);
  }

  lemma PlainStart(front: string)
    requires PlainText(front)
    ensures HasPrefix(front + ":x/", "/") && HostStart(front + ":x/") < 0
  {
    assert (front + ":x/")[0] == '/';
  }

  /** The value of the request becomes the host, and the host that the rule names becomes user
      information. */
  lemma RelativeExample()
    ensures var cr := NewCompiledRedirect(RedirectRule("/:x", "//a:x/", 301, 1));
            && WellFormed(cr.pattern) && Admitted("//a:x/")
            && Destination(cr, "/@b") == Some("//a@b/")
            && Authority("//a@b/") == Some("a@b")
  {
    hide NewCompiledRedirect, Destination, UntilHostEnd, SlashRun;
    assert "//a" + ":x/" == "//a:x/" && "/" + "@b" == "/@b" && "//a" + "@b" + "/" == "//a@b/";
    TwoSlashes("//a:x/");
    TwoSlashes("//a@b/");
    ExampleSent("//a", "@b");
    HostUpTo("a@b");
    assert "//a@b/"[2..] == "a@b" + "/";
  }

  /** Browsers read the backslash as a slash, so what follows it is the host, all of it from the request. */
  lemma BackslashExample()
    ensures var cr := NewCompiledRedirect(RedirectRule("/:x", "/\\:x/", 301, 1));
            && WellFormed(cr.pattern) && Admitted("/\\:x/")
            && Destination(cr, "/b.c") == Some("/\\b.c/")
            && Authority("/\\b.c/") == Some("b.c")
  {
    hide NewCompiledRedirect, Destination, UntilHostEnd, SlashRun;
    assert "/\\" + ":x/" == "/\\:x/" && "/" + "b.c" == "/b.c" && "/\\" + "b.c" + "/" == "/\\b.c/";
    TwoSlashes("/\\:x/");
    TwoSlashes("/\\b.c/");
    ExampleSent("/\\", "b.c");
    HostUpTo("b.c");
    assert "/\\b.c/"[2..] == "b.c" + "/";
  }

  lemma TwoSlashes(url: string)
    requires |url| > 2 && url[0] == '/' && IsSlash(url[1]) && !IsSlash(url[2])
    ensures AuthorityStart(url) == 2 && SlashRun(url) == 2 && HostStart(url) < 0
  {
    assert SlashRun(url) == 1 + SlashRun(url[1..]) && SlashRun(url[1..]) == 1 + SlashRun(url[1..][1..]);
  }

  lemma HostUpTo(host: string)
    requires StaysInHost(host)
    ensures UntilHostEnd(host + "/") == host
  {
    HostEndAfter(host, "/");
    assert UntilHostEnd("/") == "" && host + "" == host;
  }

  /** A host label may be empty. Then the authority that the template scanner sees is empty, and a browser takes
      the next segment for it. */
  lemma EmptyLabelExample()
    ensures var cr := NewCompiledRedirect(RedirectRule("/:x", "https://:x/b", 301, 1));
            && WellFormed(cr.pattern) && Admitted("https://:x/b")
            && Destination(cr, "/") == Some("https:///b")
            && ScannedHost("https:///b") == Some("") && Authority("https:///b") == Some("b")
  {
    hide Scan, Tokens, Split, Patterns.Compile, UntilHostEnd, Parse, Captured, SlashRun;
    var to := "https://:x/b";
    var rule := RedirectRule("/:x", to, 301, 1);
    ExampleCompiled();
    AbsoluteTemplate();
    ExampleRequest("");
    assert "/" + "" == "/";
    AbsoluteSent();
    EmptyHost();
  }

  const ABSOLUTE_PARTS := [Literal("https://"), Reference(0, false, true), Literal("/b")]

  lemma AbsoluteRest(raw: string)
    requires raw == "https://:x/b"
    ensures Scan(raw, [Token(":x", 0)], -1, 10, 10, OUTSIDE, true) == [Literal("/b")]
  {
    hide Scan, LongestMatch;
    var tokens := [Token(":x", 0)];
    ScanCharacter(raw, tokens, -1, 10, 10, OUTSIDE, true);
    ScanCharacter(raw, tokens, -1, 10, 11, OUTSIDE, false);
    NoPartsYet(Scan(raw, tokens, -1, 10, 12, OUTSIDE, false));
    ScanEnd([], raw, tokens, -1, 10, OUTSIDE, false);
    assert raw[10..12] == "/b";
  }

  lemma AbsoluteScan(raw: string)
    requires raw == "https://:x/b"
    ensures Scan(raw, [Token(":x", 0)], 8, 0, 0, OUTSIDE, false) == ABSOLUTE_PARTS
  {
    hide Scan, LongestMatch, Tokens;
    var tokens := [Token(":x", 0)];
    ExampleTokens();
    assert raw[8..] == ":x/b" && raw[..8] == "https://";
    SkipScheme(raw, EXAMPLE_PATTERN, 8, 0);
    EnterHost(raw, tokens, 8, 0, OUTSIDE, false);
    ExampleFound(raw[8..]);
    NoPartsYet(Scan(raw, tokens, -1, 0, 8, OUTSIDE, true));
    ScanReference([], raw, tokens, -1, 0, 8, OUTSIDE, true, tokens[0]);
    AbsoluteRest(raw);
    assert Flush([], raw, 0, 8) == [Literal("https://")];
    assert [Literal("https://")] + [Reference(0, false, true)] + [Literal("/b")] == ABSOLUTE_PARTS;
  }

  lemma AbsoluteTemplate()
    ensures CompileTemplate("https://:x/b", EXAMPLE_PATTERN) == Template("https://:x/b", ABSOLUTE_PARTS)
  {
    hide Scan, Tokens;
    var raw := "https://:x/b";
    ExampleTokens();
    assert raw[..8] == "https://" && HostStart(raw) == 8;
    AbsoluteScan(raw);
    assert ABSOLUTE_PARTS[1].Reference?;
  }

  lemma AbsoluteSent()
    ensures ExpandTemplate(Template("https://:x/b", ABSOLUTE_PARTS), [""], "") == "https:///b"
    ensures HostLabels(ABSOLUTE_PARTS, [""], "")
  {
    var parts := ABSOLUTE_PARTS;
    assert parts[1..] == [Reference(0, false, true), Literal("/b")] && parts[1..][1..] == [Literal("/b")];
    assert [Literal("/b")][1..] == [] && PathEscape("") == "";
    assert "/b" + "" == "/b" && "" + "/b" == "/b" && "https://" + "/b" == "https:///b";
  }

  lemma EmptyHost()
    ensures ScannedHost("https:///b") == Some("") && Authority("https:///b") == Some("b")
  {
    var url := "https:///b";
    assert url[8..] == "/b" && "/b"[1..] == "b" && "b"[1..] == "" && "b" + "" == "b";
    assert SlashRun("/b") == 1 && url[9..] == "b";
    assert UntilHostEnd("b") == "b";
  }
}
