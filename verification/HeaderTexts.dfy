/** What the text of a header rule says about all the requests that it decides. */
module HeaderTexts {
  import opened Paths
  import opened Folding
  import opened Patterns
  import opened Matching
  import opened MatchingLaws
  import opened Requests
  import opened Escaping
  import opened Templates
  import opened Expansion
  import opened HeaderOps
  import opened HeaderApply
  import opened MergeLaws
  import opened HeaderRules
  import opened HeaderMatching
  import opened Dedup
  import opened Ranking

  // Where the last run of a header starts

  /** The operation that starts the last run of values of a header, or -1. */
  function RunStart(ops: seq<HeaderOp>, name: string): (i: int)
    ensures -1 <= i < |ops|
  {
    if ops == [] then -1
    else
      var n := |ops| - 1;
      if ops[n].name != name then RunStart(ops[..n], name)
      else if ops[n].mode == Remove then -1
      else if RunStart(ops[..n], name) >= 0 then RunStart(ops[..n], name)
      else n
  }

  function RunLength(ops: seq<HeaderOp>, name: string): nat {
    if ops == [] then 0
    else
      var n := |ops| - 1;
      if ops[n].name != name then RunLength(ops[..n], name)
      else if ops[n].mode == Remove then 0
      else RunLength(ops[..n], name) + 1
  }

  lemma {:induction false} RunIs(ops: seq<HeaderOp>, name: string)
    ensures |LastRun(ops, name)| == RunLength(ops, name)
    ensures RunStart(ops, name) < 0 <==> RunLength(ops, name) == 0
    ensures RunStart(ops, name) >= 0 ==> LastRun(ops, name)[0] == ops[RunStart(ops, name)].value
    ensures RunLength(ops, name) > 0 ==> Mentions(ops, name)
  {
    if ops != [] {
      RunIs(ops[..|ops| - 1], name);
      MentionsStep(ops, name);
    }
  }

  lemma {:induction false} ShapeRuns(xs: seq<HeaderOp>, ys: seq<HeaderOp>, name: string)
    requires SameShape(xs, ys)
    ensures RunStart(xs, name) == RunStart(ys, name) && RunLength(xs, name) == RunLength(ys, name)
  {
    if xs != [] {
      ShapeRuns(xs[..|xs| - 1], ys[..|ys| - 1], name);
    }
  }

  // Which values can be empty

  /** A value whose text is empty or nothing but references. */
  predicate CanVanish(t: Template) {
    if t.Dynamic() then forall i :: 0 <= i < |t.parts| ==> t.parts[i].Reference? else t.raw == ""
  }

  lemma {:induction false} LiteralShows(parts: seq<Part>, i: nat, values: seq<string>, splat: string)
    requires i < |parts| && parts[i].Literal? && parts[i].text != ""
    ensures ExpandParts(parts, values, splat) != ""
  {
    hide Substitute;
    if i > 0 {
      LiteralShows(parts[1..], i - 1, values, splat);
    }
  }

  lemma {:induction false} ReferencesVanish(parts: seq<Part>, values: seq<string>)
    requires forall i :: 0 <= i < |parts| ==> parts[i].Reference?
    requires forall i :: 0 <= i < |values| ==> values[i] == ""
    ensures ExpandParts(parts, values, "") == ""
  {
    if parts != [] {
      ReferencesVanish(parts[1..], values);
      assert Split("") == [""] && PathEscapeAll([""]) == [""];
    }
  }

  lemma {:induction false} TextsShow(p: Pattern, raw: string, pos: nat, parts: seq<Part>)
    requires pos <= |raw| && Tokenises(p, raw, pos, parts)
    ensures forall i :: 0 <= i < |parts| && parts[i].Literal? ==> parts[i].text != ""
    decreases |parts|
  {
    hide ReferenceAt, TokenText;
    if parts != [] {
      TextsShow(p, raw, pos + |SourceText(p, parts[0])|, parts[1..]);
      assert forall i :: 1 <= i < |parts| ==> parts[i] == parts[1..][i - 1];
    }
  }

  /** A value with some text of its own is never empty; the others are for requests that capture nothing. */
  lemma VanishesIff(raw: string, p: Pattern, values: seq<string>, splat: string)
    ensures var t := CompileTemplate(raw, p);
            && (!CanVanish(t) ==> ExpandTemplate(t, values, splat) != "")
            && (CanVanish(t) && splat == "" && (forall i :: 0 <= i < |values| ==> values[i] == "") ==>
                  ExpandTemplate(t, values, splat) == "")
  {
    hide CompileTemplate, Tokenises, ExpandParts;
    var t := CompileTemplate(raw, p);
    StaticTemplate(raw, p);
    CompileTemplateLossless(raw, p);
    if t.Dynamic() {
      TextsShow(p, raw, 0, t.parts);
      if CanVanish(t) {
        if splat == "" && forall i :: 0 <= i < |values| ==> values[i] == "" {
          ReferencesVanish(t.parts, values);
        }
      } else {
        var i :| 0 <= i < |t.parts| && t.parts[i].Literal?;
        LiteralShows(t.parts, i, values, splat);
      }
    }
  }

  // The rule's text decides

  /** The rule's last run of values for the header does not go on, or its first value has some text of its
      own. */
  predicate StartsSolid(rule: Rule, p: Pattern, name: string) {
    || NoCommaJoin(name) || RunLength(rule.ops, name) < 2 || RunStart(rule.ops, name) < 0
    || !CanVanish(CompileTemplate(rule.ops[RunStart(rule.ops, name)].value, p))
  }

  lemma ExpandedValue(cr: CompiledRule, fold: Folding, i: nat, values: seq<string>, splat: string)
    requires CompiledFrom(cr, cr.rule, fold) && i < |cr.rule.ops|
    ensures |Expanded(cr.ops, values, splat)| == |cr.rule.ops|
    ensures Expanded(cr.ops, values, splat)[i].value ==
            ExpandTemplate(CompileTemplate(cr.rule.ops[i].value, cr.pattern), values, splat)
  {
    hide Patterns.Compile, CompileTemplate, ExpandTemplate, Merge;
    assert Templated(cr.ops)[i] == MapValues(cr.rule.ops, CompileValue(cr.pattern))[i];
  }

  /** The last run of the rule's expanded operations starts present exactly when its first value is not empty,
      or need not be. */
  lemma ExpandedStarts(cr: CompiledRule, fold: Folding, name: string, values: seq<string>, splat: string)
    requires CompiledFrom(cr, cr.rule, fold)
    ensures var ops := Expanded(cr.ops, values, splat);
            && (StartsSolid(cr.rule, cr.pattern, name) ==> StartsPresent(name, LastRun(ops, name)))
            && (!StartsSolid(cr.rule, cr.pattern, name) && splat == "" && (forall i :: 0 <= i < |values| ==> values[i] == "")
                ==> !StartsPresent(name, LastRun(ops, name)))
  {
    hide Patterns.Compile, CompileTemplate, ExpandTemplate, Merge, MapValues, Templated, CanVanish, Expanded, LastRun,
         SameShape, NoCommaJoin;
    var ops := Expanded(cr.ops, values, splat);
    RunIs(ops, name);
    ExpandedShape(cr.ops, values, splat);
    ShapeRuns(cr.rule.ops, ops, name);
    var i := RunStart(ops, name);
    if i >= 0 {
      ExpandedValue(cr, fold, i, values, splat);
      VanishesIff(cr.rule.ops[i].value, cr.pattern, values, splat);
    }
  }

  /** For every request that the rule wins in a file, applying the file's rules gives the header what the
      winning rule gives it alone. */
  ghost predicate WonAlone(crs: seq<CompiledRule>, fold: Folding, r: Request, h: Lines, name: string, w: nat) {
    AllCompiled(crs, fold) && ParsedRules(crs) && ScoresFit(crs) && Separates(fold) && Wins(crs, r, name, w) ==>
      LinesOf(Apply(h, OrderedOps(Order(crs, fold, r.path), r), true), name) ==
      LinesOf(Apply(map[], OpsFor(crs[w], r), false), name)
  }

  lemma SolidWins(crs: seq<CompiledRule>, fold: Folding, r: Request, h: Lines, name: string, w: nat)
    requires w < |crs| && StartsSolid(crs[w].rule, crs[w].pattern, name)
    ensures WonAlone(crs, fold, r, h, name, w)
  {
    hide ParsedRules, ScoresFit, Separates, OrderedOps, Order, Apply, StartsPresent, LastRun, StartsSolid, Mentions, Parse,
         Captured, Expanded, CompiledFrom;
    if AllCompiled(crs, fold) && ParsedRules(crs) && ScoresFit(crs) && Separates(fold) && Wins(crs, r, name, w) {
      MostSpecificWins(crs, fold, r, h, name, w);
      ParsedLengths(crs[w].pattern, r.path);
      var m := Parse(crs[w].pattern, r.path).value;
      WellFormedOps(crs[w], fold);
      ExpandedStarts(crs[w], fold, name, CapturedValues(crs[w].pattern, m), m.splat);
    }
  }

  lemma WellFormedOps(cr: CompiledRule, fold: Folding)
    requires CompiledFrom(cr, cr.rule, fold)
    ensures cr.ops.WellFormed() && cr.ops.ops == cr.rule.ops
    ensures cr.pattern == Patterns.Compile(cr.rule.path).(fold := fold)
  {
    hide Patterns.Compile;
  }

  /** A request that captures nothing, to a file of the one rule. */
  lemma VanishingRequest(cr: CompiledRule, fold: Folding, name: string) returns (r: Request)
    requires CompiledFrom(cr, cr.rule, fold) && Parsed(cr.rule.ops) && ScoresFit([cr]) && Separates(fold)
    requires !StartsSolid(cr.rule, cr.pattern, name)
    ensures HasPrefix(cr.rule.path, "/") ==> HasPrefix(r.path, "/")
    ensures !WonAlone([cr], fold, r, map[], name, 0)
  {
    hide Patterns.Compile, Separates, OrderedOps, Order, Apply, StartsPresent, LastRun, StartsSolid, Parse, Captured, Expanded,
         CompiledFrom, Split, Filled;
    WellFormedOps(cr, fold);
    var blank := seq(|cr.pattern.names|, _ => "");
    var path := CapturesAny(cr.rule.path, fold, blank, "");
    r := Request(path, "", (a, b) => true);
    RunIs(cr.rule.ops, name);
    SolidUnlessRun(cr, name);
    var m := Parse(cr.pattern, path).value;
    NoSplat(cr.pattern, path);
    ExpandedStarts(cr, fold, name, blank, m.splat);
    OneRule(cr, r, name);
    assert AllCompiled([cr], fold) && ParsedRules([cr]);
    MostSpecificWins([cr], fold, r, map[], name, 0);
  }

  lemma SolidUnlessRun(cr: CompiledRule, name: string)
    requires !StartsSolid(cr.rule, cr.pattern, name)
    ensures RunLength(cr.rule.ops, name) > 0
  {
  }

  lemma NoSplat(p: Pattern, path: string)
    requires WellFormed(p) && Matches(p, path)
    ensures !p.hasSplat ==> Parse(p, path).value.splat == ""
  {
    hide Split, SegmentsMatch;
  }

  lemma OneRule(cr: CompiledRule, r: Request, name: string)
    requires Applies(cr, r) && Mentions(cr.rule.ops, name)
    ensures Wins([cr], r, name, 0)
  {
    hide Mentions, Applies;
    assert [cr][0] == cr;
  }

  /** Whichever file the rule is in, whichever other rules match, and whatever the response held: the header
      holds what the rule gives it alone for all requests that the rule wins exactly when its text does
      not let the first value of a continued last run be empty. */
  lemma WonAloneIff(cr: CompiledRule, fold: Folding, name: string)
    requires CompiledFrom(cr, cr.rule, fold) && Parsed(cr.rule.ops) && ScoresFit([cr]) && Separates(fold)
    ensures (forall crs, r, h, w :: 0 <= w < |crs| && crs[w] == cr ==> WonAlone(crs, fold, r, h, name, w)) <==>
            StartsSolid(cr.rule, cr.pattern, name)
  {
    hide WonAlone, StartsSolid, CompiledFrom, Parsed, ScoresFit, Separates;
    if StartsSolid(cr.rule, cr.pattern, name) {
      forall crs, r, h, w: nat | w < |crs| && crs[w] == cr
        ensures WonAlone(crs, fold, r, h, name, w)
      {
        SolidWins(crs, fold, r, h, name, w);
      }
    } else {
      var r := VanishingRequest(cr, fold, name);
      assert [cr][0] == cr;
    }
  }

  // Two rules with as many literal characters

  const SLUG_RULE := Rule("/blog/:slug", "", [Op("X", "a", Set)])
  const BLOG_RULE := Rule("/blog/*", "", [Op("X", "b", Set)])

  lemma BlogParts()
    ensures Split("/blog/:slug") == ["", "blog", ":slug"] && Split("/blog/*") == ["", "blog", "*"]
    ensures Join(["", "blog", "x"]) == "/blog/x"
  {
    hide Split;
    var a, b := ["", "blog", ":slug"], ["", "blog", "*"];
    assert a[1..] == ["blog", ":slug"] && a[1..][1..] == [":slug"] && b[1..] == ["blog", "*"] && b[1..][1..] == ["*"];
    assert Join([":slug"]) == ":slug" && Join(["*"]) == "*";
    assert Join(["blog", ":slug"]) == "blog/:slug" && Join(["blog", "*"]) == "blog/*";
    assert Join(a) == "/blog/:slug" && Join(b) == "/blog/*";
    SplitJoin(a);
    SplitJoin(b);
    var c := ["", "blog", "x"];
    assert c[1..] == ["blog", "x"] && c[1..][1..] == ["x"];
    assert Join(["x"]) == "x" && Join(["blog", "x"]) == "blog/x";
  }

  lemma BlogMatches()
    ensures Matches(Patterns.Compile("/blog/:slug"), "/blog/x") && Matches(Patterns.Compile("/blog/*"), "/blog/x")
  {
    hide Patterns.Compile, Parse, Split, Join;
    BlogParts();
    var a, b, c := ["", "blog", ":slug"], ["", "blog", "*"], ["", "blog", "x"];
    NoStarPart(a);
    assert a[..3] == a && c[..3] == c;
    assert Instantiates(a, c, "");
    MatchesIffInstance("/blog/:slug", "/blog/x");
    StarPartIs(["", "blog"], "*", []);
    assert b == ["", "blog"] + ["*"] + [];
    assert IndexByte("*", '*') == 0 && FillStar("*", "x") == "x";
    assert b[..2] == c[..2] == ["", "blog"] && b[3..] == c[3..] == [];
    assert Instantiates(b, c, "x");
    MatchesIffInstance("/blog/*", "/blog/x");
  }

  /** A placeholder segment and a '*' leave the same literal characters; the placeholder is the more specific. */
  lemma SlugOutranks()
    ensures Outranks("/blog/:slug", "/blog/*")
  {
    hide Split;
    BlogParts();
    var a, b := ["", "blog", ":slug"], ["", "blog", "*"];
    assert a[1..] == ["blog", ":slug"] && a[1..][1..] == [":slug"] && b[1..] == ["blog", "*"] && b[1..][1..] == ["*"];
    assert [":slug"][1..] == [] && ["*"][1..] == [];
    NoStarPart(a);
    StarPartIs(["", "blog"], "*", []);
    assert b == ["", "blog"] + ["*"] + [];
    assert CharsOf([":slug"], 1) == 0 && CharsOf(["blog", ":slug"], 2) == 4 && CharsOf(a, 3) == 4;
    assert CharsOf(["*"], 0) == 1 && CharsOf(["blog", "*"], 1) == 5 && CharsOf(b, 2) == 5;
    assert "/blog/*"[6] == '*';
  }

  lemma PlainValue(cr: CompiledRule, rule: Rule, v: string, r: Request)
    requires CompiledFrom(cr, rule, Exact) && rule.ops == [Op("X", v, Set)] && ':' !in v && Applies(cr, r)
    ensures OpsFor(cr, r) == [Op("X", v, Set)]
  {
    hide Patterns.Compile, Parse, Captured, CompileTemplate, Merge, Tokenises;
    CompileTemplateLossless(v, cr.pattern);
    forall k | 0 <= k < |v|
      ensures ReferenceAt(cr.pattern, v[k..]) == None
    {
      NoColonNoReference(cr.pattern, v[k..]);
    }
    ParsedLengths(cr.pattern, r.path);
    var m := Parse(cr.pattern, r.path).value;
    StaticExpanded(cr.ops, CapturedValues(cr.pattern, m), m.splat);
  }

  lemma SingleOp(v: string)
    ensures Parsed([Op("X", v, Set)]) && Mentions([Op("X", v, Set)], "X") && LastRun([Op("X", v, Set)], "X") == [v]
    ensures LinesOf(Apply(map[], [Op("X", v, Set)], false), "X") == [v]
  {
    var ops := [Op("X", v, Set)];
    assert ops[..0] == [] && ops[0].name == "X";
    OneLine(map[], ops, "X");
  }

  /** In dedup mode `/blog/x` gets the value of the rule for `/blog/:slug`, although the rule with the '*' comes later. */
  lemma BlogExample(crs: seq<CompiledRule>, host: string, hostMatch: HostMatch, h: Lines)
    requires |crs| == 2 && CompiledFrom(crs[0], SLUG_RULE, Exact) && CompiledFrom(crs[1], BLOG_RULE, Exact)
    ensures var r := Request("/blog/x", host, hostMatch);
            LinesOf(Apply(h, OrderedOps(Order(crs, Exact, r.path), r), true), "X") == ["a"]
  {
    hide Patterns.Compile, Parse, CompiledFrom, OrderedOps, Order, Apply, Outranks, Mentions, OpsFor, LastRun, Separates;
    var r := Request("/blog/x", host, hostMatch);
    BlogMatches();
    SlugOutranks();
    OutranksOneWay("/blog/:slug", "/blog/:slug");
    SingleOp("a");
    SingleOp("b");
    FromRule(crs[0], SLUG_RULE);
    FromRule(crs[1], BLOG_RULE);
    assert Contends(crs, r, "X", 0) && Wins(crs, r, "X", 0);
    PlainValue(crs[0], SLUG_RULE, "a", r);
    ExactSeparates();
    MostSpecificWins(crs, Exact, r, h, "X", 0);
  }

  lemma FromRule(cr: CompiledRule, rule: Rule)
    requires CompiledFrom(cr, rule, Exact)
    ensures cr.rule == rule && cr.pattern == Patterns.Compile(rule.path) && WellFormed(cr.pattern)
  {
    hide Patterns.Compile;
    CompiledIsWellFormed(rule.path);
    CompiledFacts(rule.path);
  }

  lemma ExactSeparates()
    ensures Separates(Exact)
  {
  }
}
