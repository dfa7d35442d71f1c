/** The header operations of all rules that match a request, in file order. */
module HeaderMatching {
  import opened Paths
  import opened Folding
  import opened Patterns
  import opened Matching
  import opened MatchingLaws
  import opened FoldedMatching
  import opened Templates
  import opened Expansion
  import opened HeaderOps
  import opened RuleIndex
  import opened HeaderRules

  /** Whether a rule's host pattern matches a request's host. */
  type HostMatch = (string, string) -> bool

  /** A request as the rules see it. */
  datatype Request = Request(path: string, host: string, hostMatch: HostMatch)

  predicate HostMatches(cr: CompiledRule, r: Request) {
    cr.rule.host == "" || r.hostMatch(cr.rule.host, r.host)
  }

  predicate Applies(cr: CompiledRule, r: Request) {
    HostMatches(cr, r) && WellFormed(cr.pattern) && Matches(cr.pattern, r.path)
  }

  /** What a rule that matches the path contributes: its operations, expanded. */
  function MatchedOps(cr: CompiledRule, ops: CompiledOps, path: string): seq<HeaderOp>
    requires WellFormed(cr.pattern) && Matches(cr.pattern, path) && ops.WellFormed()
  {
    var m := Parse(cr.pattern, path).value;
    var values := (ParsedLengths(cr.pattern, path); CapturedValues(cr.pattern, m));
    Expanded(ops, values, m.splat)
  }

  /** What a rule contributes to a request, with its operations as written. */
  function OpsFor(cr: CompiledRule, r: Request): seq<HeaderOp> {
    if Applies(cr, r) && cr.ops.WellFormed() then MatchedOps(cr, cr.ops, r.path) else []
  }

  /** The slow specification: the operations of every rule that matches, in file order. */
  function AllOps(crs: seq<CompiledRule>, r: Request): seq<HeaderOp> {
    if crs == [] then [] else AllOps(crs[..|crs| - 1], r) + OpsFor(crs[|crs| - 1], r)
  }

  ghost predicate AllCompiled(crs: seq<CompiledRule>, fold: Folding) {
    forall i :: 0 <= i < |crs| ==> CompiledFrom(crs[i], crs[i].rule, fold)
  }

  /** Matching regardless of case keeps '/' apart. */
  ghost predicate Separates(fold: Folding) {
    fold.Folded? ==> KeepsSlash(fold.table)
  }

  // Exact rules

  lemma CompiledFacts(raw: string)
    ensures Patterns.Compile(raw).raw == raw && Patterns.Compile(raw).fold == Exact
  {
  }

  lemma CompiledPattern(cr: CompiledRule, fold: Folding)
    requires CompiledFrom(cr, cr.rule, fold)
    ensures WellFormed(cr.pattern) && cr.pattern.raw == cr.rule.path
  {
    hide Patterns.Compile;
    CompiledByteWise(cr.rule.path);
    CompiledFacts(cr.rule.path);
  }

  /** The exact rules found under a path's key are the exact rules that match it. */
  lemma ExactLookup(cr: CompiledRule, fold: Folding, path: string)
    requires CompiledFrom(cr, cr.rule, fold)
    requires Separates(fold)
    ensures IsExactFor(fold, Key(fold, path))(cr) <==> cr.pattern.Exact() && Matches(cr.pattern, path)
  {
    hide Patterns.Compile, Parse, FoldKey;
    CompiledPattern(cr, fold);
    CompiledFacts(cr.rule.path);
    if cr.pattern.Exact() {
      if fold.Folded? {
        FoldKeyLookup(fold.table, cr.rule.path, path);
      } else {
        assert cr.pattern == Patterns.Compile(cr.rule.path);
        ExactMatchesItself(cr.rule.path, path);
      }
    }
  }

  /** A value of an exact pattern references nothing. */
  lemma ExactStatic(cr: CompiledRule, fold: Folding)
    requires CompiledFrom(cr, cr.rule, fold) && cr.pattern.Exact()
    ensures !cr.ops.dynamic && !cr.dedupOps.dynamic
  {
    hide Patterns.Compile, MapValues, Templated, Merge, Scan, HasReference;
    forall i | 0 <= i < |cr.rule.ops|
      ensures !CompileTemplate(cr.rule.ops[i].value, cr.pattern).Dynamic()
    {
      var raw := cr.rule.ops[i].value;
      assert Tokens(cr.pattern) == [];
      NothingToRefer(raw, [], HostStart(raw), 0, 0, OUTSIDE, false);
    }
  }

  lemma ExactOps(cr: CompiledRule, fold: Folding, r: Request)
    requires CompiledFrom(cr, cr.rule, fold) && cr.pattern.Exact() && Matches(cr.pattern, r.path)
    ensures OpsFor(cr, r) == if HostMatches(cr, r) then cr.ops.ops else []
  {
    hide Patterns.Compile, MapValues, Templated, Merge, Parse, Captured, Expanded;
    CompiledPattern(cr, fold);
    ExactStatic(cr, fold);
    ParsedLengths(cr.pattern, r.path);
    var m := Parse(cr.pattern, r.path).value;
    StaticExpanded(cr.ops, CapturedValues(cr.pattern, m), m.splat);
  }

  // Expanding a rule's operations

  ghost predicate AllSlotsKnown(c: CompiledOps, n: nat) {
    forall i :: 0 <= i < |c.values| ==> SlotsKnown(c.values[i].parts, n)
  }

  lemma ValueSlotsKnown(ops: seq<HeaderOp>, p: Pattern, i: nat)
    requires i < |ops|
    ensures SlotsKnown(MapValues(ops, CompileValue(p))[i].value.parts, |p.names|)
  {
    CompileTemplateLossless(ops[i].value, p);
  }

  /** Merged values only have slots that some value had. */
  lemma {:induction false} MergedSlotsKnown(ops: seq<Op<Template>>, n: nat)
    requires forall i :: 0 <= i < |ops| ==> SlotsKnown(ops[i].value.parts, n)
    ensures forall i :: 0 <= i < |Merge(ops, JoinComma()).ops| ==> SlotsKnown(Merge(ops, JoinComma()).ops[i].value.parts, n)
  {
    hide SlotsKnown, JoinTemplates, NoCommaJoin;
    if ops != [] {
      var k := |ops| - 1;
      MergedSlotsKnown(ops[..k], n);
      var m := Merge(ops[..k], JoinComma());
      if ops[k].name in m.current && m.current[ops[k].name] < |m.ops| {
        JoinSlotsKnown(m.ops[m.current[ops[k].name]].value, ops[k].value, n);
      }
    }
  }

  lemma JoinSlotsKnown(t: Template, u: Template, n: nat)
    requires SlotsKnown(t.parts, n) && SlotsKnown(u.parts, n)
    ensures SlotsKnown(JoinTemplates(t, ", ", u).parts, n)
  {
  }

  lemma CompiledSlotsKnown(cr: CompiledRule, fold: Folding)
    requires CompiledFrom(cr, cr.rule, fold)
    ensures AllSlotsKnown(cr.ops, |cr.pattern.names|) && AllSlotsKnown(cr.dedupOps, |cr.pattern.names|)
  {
    hide Patterns.Compile, CompileValue, Merge, SlotsKnown;
    var n := |cr.pattern.names|;
    forall i | 0 <= i < |cr.rule.ops|
      ensures SlotsKnown(Templated(cr.ops)[i].value.parts, n)
    {
      ValueSlotsKnown(cr.rule.ops, cr.pattern, i);
    }
    MergedSlotsKnown(Templated(cr.ops), n);
    TemplatedSlots(cr.ops, n);
    TemplatedSlots(cr.dedupOps, n);
  }

  lemma TemplatedSlots(c: CompiledOps, n: nat)
    requires c.WellFormed()
    requires forall i :: 0 <= i < |c.ops| ==> SlotsKnown(Templated(c)[i].value.parts, n)
    ensures AllSlotsKnown(c, n)
  {
    hide SlotsKnown;
    forall i | 0 <= i < |c.values|
      ensures SlotsKnown(c.values[i].parts, n)
    {
      assert Templated(c)[i].value == c.values[i];
    }
  }

  /** `expandOps`. */
  method ExpandOps(cr: CompiledRule, ops: CompiledOps, path: string) returns (expanded: seq<HeaderOp>)
    requires WellFormed(cr.pattern) && Matches(cr.pattern, path)
    requires ops.WellFormed() && AllSlotsKnown(ops, |cr.pattern.names|)
    ensures expanded == MatchedOps(cr, ops, path)
  {
    hide Parse, Captured, ExpandTemplate, SlotsKnown;
    ParsedLengths(cr.pattern, path);
    if !ops.dynamic {
      var m := Parse(cr.pattern, path).value;
      StaticExpanded(ops, CapturedValues(cr.pattern, m), m.splat);
      return ops.ops;
    }
    var values, splat, _ := Capture(cr.pattern, path);
    expanded := [];
    for i := 0 to |ops.ops|
      invariant |expanded| == i
      invariant forall k :: 0 <= k < i ==>
                  expanded[k] == ops.ops[k].(value := ExpandTemplate(ops.values[k], values, splat))
    {
      var value := Expand(ops.values[i], values, splat);
      expanded := expanded + [ops.ops[i].(value := value)];
    }
    assert expanded == Expanded(ops, values, splat);
  }

  // File order

  /** No rule from `from` to `until` contributes anything. */
  ghost predicate Silent(crs: seq<CompiledRule>, r: Request, from: nat, until: nat) {
    forall i :: from <= i < until && i < |crs| ==> OpsFor(crs[i], r) == []
  }

  lemma {:induction false} SkipSilent(crs: seq<CompiledRule>, r: Request, from: nat, until: nat)
    requires from <= until <= |crs| && Silent(crs, r, from, until)
    ensures AllOps(crs[..until], r) == AllOps(crs[..from], r)
    decreases until
  {
    hide OpsFor;
    if from < until {
      SkipSilent(crs, r, from, until - 1);
      AllOpsNext(crs, r, until - 1);
    }
  }

  lemma AllOpsNext(crs: seq<CompiledRule>, r: Request, i: nat)
    requires i < |crs|
    ensures AllOps(crs[..i + 1], r) == AllOps(crs[..i], r) + OpsFor(crs[i], r)
  {
    hide OpsFor;
    assert crs[..i + 1][..i] == crs[..i];
  }

  /** The rules that are for a host: those that name none, and those whose host the test accepts. */
  function ForHost(crs: seq<CompiledRule>, host: string, hostMatch: HostMatch): seq<CompiledRule> {
    if crs == [] then []
    else
      var n := |crs| - 1;
      ForHost(crs[..n], host, hostMatch) + if crs[n].rule.host == "" || hostMatch(crs[n].rule.host, host) then [crs[n]] else []
  }

  function AnyHost(): HostMatch {
    (_, _) => true
  }

  /** The host chooses among the rules and does nothing else. */
  lemma {:induction false} HostChooses(crs: seq<CompiledRule>, r: Request)
    ensures AllOps(crs, r) == AllOps(ForHost(crs, r.host, r.hostMatch), r.(hostMatch := AnyHost()))
  {
    hide MatchedOps, Matches;
    if crs != [] {
      var n := |crs| - 1;
      var rest := ForHost(crs[..n], r.host, r.hostMatch);
      HostChooses(crs[..n], r);
      if crs[n].rule.host == "" || r.hostMatch(crs[n].rule.host, r.host) {
        assert (rest + [crs[n]])[..|rest|] == rest;
      } else {
        assert rest + [] == rest && OpsFor(crs[n], r) == [];
        assert AllOps(crs[..n], r) + [] == AllOps(crs[..n], r);
      }
    }
  }

  /** What is left of the exact and the wildcard rules holds everything from `n` on. */
  ghost predicate Ahead(exact: seq<Indexed<CompiledRule>>, wild: seq<Indexed<CompiledRule>>,
                        crs: seq<CompiledRule>, fold: Folding, path: string, n: nat) {
    && Holds(exact, crs, IsExactFor(fold, Key(fold, path)), n)
    && Holds(wild, crs, IsWildcardRule(), n)
  }

  lemma AheadAtStart(crs: seq<CompiledRule>, fold: Folding, path: string)
    ensures Ahead(Select(crs, IsExactFor(fold, Key(fold, path))), Select(crs, IsWildcardRule()), crs, fold, path, 0)
  {
    hide Key;
    SelectHolds(crs, IsExactFor(fold, Key(fold, path)));
    SelectHolds(crs, IsWildcardRule());
  }

  /** The lower of the two next positions, or the end of the rules. */
  function NextIndex(exact: seq<Indexed<CompiledRule>>, wild: seq<Indexed<CompiledRule>>, end: nat): nat {
    if exact == [] && wild == [] then end
    else if wild == [] || (exact != [] && exact[0].index < wild[0].index) then exact[0].index
    else wild[0].index
  }

  lemma HoldsLater(bucket: seq<Indexed<CompiledRule>>, crs: seq<CompiledRule>, keep: CompiledRule -> bool, n: nat, i: nat)
    requires Holds(bucket, crs, keep, n) && n <= i
    requires bucket != [] ==> i <= bucket[0].index
    ensures Holds(bucket, crs, keep, i)
  {
  }

  /** Rules before the next candidate contribute nothing. */
  lemma SilentUntilNext(exact: seq<Indexed<CompiledRule>>, wild: seq<Indexed<CompiledRule>>,
                        crs: seq<CompiledRule>, fold: Folding, r: Request, n: nat)
    requires AllCompiled(crs, fold) && Separates(fold)
    requires Ahead(exact, wild, crs, fold, r.path, n)
    ensures Silent(crs, r, n, NextIndex(exact, wild, |crs|))
  {
    hide Key, IsExactFor, Matches, Patterns.Compile, CompiledFrom, MatchedOps, Holds;
    var keep := IsExactFor(fold, Key(fold, r.path));
    HoldsFirst(exact, crs, keep, n);
    HoldsFirst(wild, crs, IsWildcardRule(), n);
    forall i | n <= i < NextIndex(exact, wild, |crs|) && i < |crs|
      ensures OpsFor(crs[i], r) == []
    {
      ExactLookup(crs[i], fold, r.path);
    }
  }

  /** The next candidate's operations follow those collected so far. */
  lemma NextOps(exact: seq<Indexed<CompiledRule>>, wild: seq<Indexed<CompiledRule>>,
                crs: seq<CompiledRule>, fold: Folding, r: Request, n: nat)
    requires AllCompiled(crs, fold) && Separates(fold) && n <= |crs|
    requires Ahead(exact, wild, crs, fold, r.path, n) && (exact != [] || wild != [])
    ensures var i := NextIndex(exact, wild, |crs|);
            n <= i < |crs| && AllOps(crs[..i + 1], r) == AllOps(crs[..n], r) + OpsFor(crs[i], r)
  {
    hide Key, IsExactFor, AllCompiled, Separates, OpsFor, AllOps, Silent;
    var i := NextIndex(exact, wild, |crs|);
    SilentUntilNext(exact, wild, crs, fold, r, n);
    NextInRange(exact, wild, crs, IsExactFor(fold, Key(fold, r.path)), n);
    SkipSilent(crs, r, n, i);
    AllOpsNext(crs, r, i);
  }

  lemma ExactAhead(exact: seq<Indexed<CompiledRule>>, wild: seq<Indexed<CompiledRule>>,
                   crs: seq<CompiledRule>, fold: Folding, path: string, n: nat)
    requires AllCompiled(crs, fold) && Separates(fold)
    requires Ahead(exact, wild, crs, fold, path, n)
    requires exact != [] && (wild == [] || exact[0].index < wild[0].index)
    ensures var i := exact[0].index;
            && i < |crs| && exact[0].rule == crs[i]
            && crs[i].pattern.Exact() && Matches(crs[i].pattern, path)
            && Ahead(exact[1..], wild, crs, fold, path, i + 1)
  {
    hide Key, IsExactFor, Matches, Patterns.Compile, CompiledFrom;
    var keep := IsExactFor(fold, Key(fold, path));
    HoldsFirst(exact, crs, keep, n);
    HoldsLater(wild, crs, IsWildcardRule(), n, exact[0].index + 1);
    ExactLookup(crs[exact[0].index], fold, path);
  }

  lemma WildAhead(exact: seq<Indexed<CompiledRule>>, wild: seq<Indexed<CompiledRule>>,
                  crs: seq<CompiledRule>, fold: Folding, path: string, n: nat)
    requires Ahead(exact, wild, crs, fold, path, n)
    requires wild != [] && (exact == [] || wild[0].index <= exact[0].index)
    ensures var i := wild[0].index;
            && i < |crs| && wild[0].rule == crs[i]
            && Ahead(exact, wild[1..], crs, fold, path, i + 1)
  {
    hide Key, IsExactFor, IsWildcardRule;
    HoldsFirst(wild, crs, IsWildcardRule(), n);
    NotBoth(exact, wild, crs, fold, path, n);
    HoldsLater(exact, crs, IsExactFor(fold, Key(fold, path)), n, wild[0].index + 1);
  }

  lemma NextInRange(exact: seq<Indexed<CompiledRule>>, wild: seq<Indexed<CompiledRule>>,
                    crs: seq<CompiledRule>, keep: CompiledRule -> bool, n: nat)
    requires Holds(exact, crs, keep, n) && Holds(wild, crs, IsWildcardRule(), n)
    requires exact != [] || wild != []
    ensures n <= NextIndex(exact, wild, |crs|) < |crs|
  {
  }

  /** A rule is not in both buckets. */
  lemma NotBoth(exact: seq<Indexed<CompiledRule>>, wild: seq<Indexed<CompiledRule>>,
                crs: seq<CompiledRule>, fold: Folding, path: string, n: nat)
    requires Ahead(exact, wild, crs, fold, path, n)
    ensures exact != [] && wild != [] ==> exact[0].index != wild[0].index
  {
    hide Key;
    if exact != [] && wild != [] {
      assert IsExactFor(fold, Key(fold, path))(exact[0].rule) && IsWildcardRule()(wild[0].rule);
    }
  }

  lemma MergeEnd(crs: seq<CompiledRule>, fold: Folding, r: Request, n: nat)
    requires AllCompiled(crs, fold) && Separates(fold) && n <= |crs|
    requires Ahead([], [], crs, fold, r.path, n)
    ensures AllOps(crs, r) == AllOps(crs[..n], r)
  {
    hide Key, OpsFor, AllOps, Silent;
    SilentUntilNext([], [], crs, fold, r, n);
    SkipSilent(crs, r, n, |crs|);
    assert crs[..|crs|] == crs;
  }

  /** The operations of the rules before `n` are collected; the rest of both buckets is ahead. */
  ghost predicate Progress(exact: seq<Indexed<CompiledRule>>, wild: seq<Indexed<CompiledRule>>,
                           crs: seq<CompiledRule>, fold: Folding, r: Request, n: nat, ops: seq<HeaderOp>) {
    && n <= |crs|
    && Ahead(exact, wild, crs, fold, r.path, n)
    && ops == AllOps(crs[..n], r)
  }

  lemma TakeExact(exact: seq<Indexed<CompiledRule>>, ei: nat, wild: seq<Indexed<CompiledRule>>,
                  crs: seq<CompiledRule>, fold: Folding, r: Request, n: nat, ops: seq<HeaderOp>)
    requires AllCompiled(crs, fold) && Separates(fold)
    requires ei < |exact| && (wild == [] || exact[ei].index < wild[0].index)
    requires Progress(exact[ei..], wild, crs, fold, r, n, ops)
    ensures var ir := exact[ei];
            Progress(exact[ei + 1..], wild, crs, fold, r, ir.index + 1,
                     ops + if HostMatches(ir.rule, r) then ir.rule.ops.ops else [])
  {
    hide Key, IsExactFor, Matches, CompiledFrom, OpsFor, AllOps, HostMatches, Ahead, Separates;
    var i := exact[ei].index;
    assert exact[ei..][1..] == exact[ei + 1..];
    NextOps(exact[ei..], wild, crs, fold, r, n);
    ExactAhead(exact[ei..], wild, crs, fold, r.path, n);
    ExactOps(crs[i], fold, r);
  }

  lemma TakeWild(exact: seq<Indexed<CompiledRule>>, wild: seq<Indexed<CompiledRule>>, wi: nat,
                 crs: seq<CompiledRule>, fold: Folding, r: Request, n: nat, ops: seq<HeaderOp>)
    requires AllCompiled(crs, fold) && Separates(fold)
    requires wi < |wild| && (exact == [] || wild[wi].index <= exact[0].index)
    requires Progress(exact, wild[wi..], crs, fold, r, n, ops)
    ensures var ir := wild[wi];
            && Progress(exact, wild[wi + 1..], crs, fold, r, ir.index + 1, ops + OpsFor(ir.rule, r))
            && ExpandsItsOps(ir.rule)
  {
    hide Key, IsExactFor, Matches, CompiledFrom, OpsFor, AllOps, HostMatches, Ahead, Separates, ExpandsItsOps;
    assert wild[wi..][1..] == wild[wi + 1..];
    NextOps(exact, wild[wi..], crs, fold, r, n);
    WildAhead(exact, wild[wi..], crs, fold, r.path, n);
    CompiledExpands(crs[wild[wi].index], fold);
  }

  ghost predicate ExpandsItsOps(cr: CompiledRule) {
    && WellFormed(cr.pattern)
    && cr.ops.WellFormed() && AllSlotsKnown(cr.ops, |cr.pattern.names|)
    && cr.dedupOps.WellFormed() && AllSlotsKnown(cr.dedupOps, |cr.pattern.names|)
  }

  lemma CompiledExpands(cr: CompiledRule, fold: Folding)
    requires CompiledFrom(cr, cr.rule, fold)
    ensures ExpandsItsOps(cr)
  {
    hide Patterns.Compile, CompileTemplate, AllSlotsKnown, Merge, MapValues;
    CompiledPattern(cr, fold);
    CompiledSlotsKnown(cr, fold);
  }

  /** One candidate of the wildcard bucket. */
  method WildcardOps(cr: CompiledRule, r: Request) returns (ops: seq<HeaderOp>)
    requires ExpandsItsOps(cr)
    ensures ops == OpsFor(cr, r)
  {
    hide Matches, AllSlotsKnown, MatchedOps;
    if cr.rule.host != "" && !r.hostMatch(cr.rule.host, r.host) {
      return [];
    }
    var ok := MatchPath(cr.pattern, r.path);
    if !ok {
      return [];
    }
    ops := ExpandOps(cr, cr.ops, r.path);
  }

  method MatchExactOnly(exact: seq<Indexed<CompiledRule>>, r: Request, ghost crs: seq<CompiledRule>, ghost fold: Folding)
    returns (ops: seq<HeaderOp>)
    requires AllCompiled(crs, fold) && Separates(fold)
    requires Progress(exact, [], crs, fold, r, 0, [])
    ensures ops == AllOps(crs, r)
  {
    hide Progress, AllCompiled, Separates, OpsFor, AllOps;
    ops := [];
    ghost var n: nat := 0;
    for ei := 0 to |exact|
      invariant Progress(exact[ei..], [], crs, fold, r, n, ops)
    {
      var ir := exact[ei];
      TakeExact(exact, ei, [], crs, fold, r, n, ops);
      n := ir.index + 1;
      if ir.rule.rule.host != "" && !r.hostMatch(ir.rule.rule.host, r.host) {
        assert ops + [] == ops;
        continue;
      }
      ops := ops + ir.rule.ops.ops;
    }
    assert exact[|exact|..] == [];
    Collected(crs, fold, r, n, ops);
  }

  method MatchWildcardOnly(wild: seq<Indexed<CompiledRule>>, r: Request, ghost crs: seq<CompiledRule>, ghost fold: Folding)
    returns (ops: seq<HeaderOp>)
    requires AllCompiled(crs, fold) && Separates(fold)
    requires Progress([], wild, crs, fold, r, 0, [])
    ensures ops == AllOps(crs, r)
  {
    hide Progress, AllCompiled, Separates, OpsFor, AllOps, ExpandsItsOps;
    ops := [];
    ghost var n: nat := 0;
    for wi := 0 to |wild|
      invariant Progress([], wild[wi..], crs, fold, r, n, ops)
    {
      var ir := wild[wi];
      TakeWild([], wild, wi, crs, fold, r, n, ops);
      n := ir.index + 1;
      var more := WildcardOps(ir.rule, r);
      ops := ops + more;
    }
    assert wild[|wild|..] == [];
    Collected(crs, fold, r, n, ops);
  }

  lemma Collected(crs: seq<CompiledRule>, fold: Folding, r: Request, n: nat, ops: seq<HeaderOp>)
    requires AllCompiled(crs, fold) && Separates(fold)
    requires Progress([], [], crs, fold, r, n, ops)
    ensures ops == AllOps(crs, r)
  {
    hide AllCompiled, Separates, OpsFor, AllOps, Ahead;
    MergeEnd(crs, fold, r, n);
  }

  /** The two-pointer merge of both buckets by file position. */
  method MatchMerged(exact: seq<Indexed<CompiledRule>>, wild: seq<Indexed<CompiledRule>>, r: Request,
                     ghost crs: seq<CompiledRule>, ghost fold: Folding)
    returns (ops: seq<HeaderOp>)
    requires AllCompiled(crs, fold) && Separates(fold)
    requires Progress(exact, wild, crs, fold, r, 0, [])
    ensures ops == AllOps(crs, r)
  {
    hide Progress, AllCompiled, Separates, OpsFor, AllOps, ExpandsItsOps;
    ops := [];
    var ei, wi := 0, 0;
    ghost var n: nat := 0;
    while ei < |exact| || wi < |wild|
      invariant ei <= |exact| && wi <= |wild|
      invariant Progress(exact[ei..], wild[wi..], crs, fold, r, n, ops)
      decreases |exact| - ei + |wild| - wi
    {
      var useExact := ei < |exact| && (wi >= |wild| || exact[ei].index < wild[wi].index);
      if useExact {
        var ir := exact[ei];
        TakeExact(exact, ei, wild[wi..], crs, fold, r, n, ops);
        n := ir.index + 1;
        ei := ei + 1;
        if ir.rule.rule.host != "" && !r.hostMatch(ir.rule.rule.host, r.host) {
          assert ops + [] == ops;
          continue;
        }
        ops := ops + ir.rule.ops.ops;
      } else {
        var ir := wild[wi];
        TakeWild(exact[ei..], wild, wi, crs, fold, r, n, ops);
        n := ir.index + 1;
        wi := wi + 1;
        var more := WildcardOps(ir.rule, r);
        ops := ops + more;
      }
    }
    assert exact[|exact|..] == [] && wild[|wild|..] == [];
    Collected(crs, fold, r, n, ops);
  }

  /** `MatchOrdered`: all three ways find the operations of every rule that matches, in file order. */
  method MatchOrdered(c: Compiled, requestPath: string, host: string, hostMatch: HostMatch, ghost crs: seq<CompiledRule>)
    returns (ops: seq<HeaderOp>)
    requires Indexes(c, crs) && AllCompiled(crs, c.fold)
    requires Separates(c.fold)
    ensures ops == AllOps(crs, Request(NormalizePath(requestPath), host, hostMatch))
  {
    hide Key, AllCompiled, Separates, Ahead, NormalizePath, IsExactFor, IsWildcardRule, Select;
    var r := Request(NormalizePath(requestPath), host, hostMatch);
    var exact := Lookup(c.exactPaths, Key(c.fold, r.path));
    AheadAtStart(crs, c.fold, r.path);
    assert Progress(exact, c.wildcards, crs, c.fold, r, 0, []);
    if |c.wildcards| == 0 {
      ops := MatchExactOnly(exact, r, crs, c.fold);
    } else if |exact| == 0 {
      ops := MatchWildcardOnly(c.wildcards, r, crs, c.fold);
    } else {
      ops := MatchMerged(exact, c.wildcards, r, crs, c.fold);
    }
  }
}
