/** Dedup mode: of the matching rules that mention a header, the most specific one decides it. */
module Dedup {
  import opened Paths
  import opened Folding
  import opened Patterns
  import opened Matching
  import opened Expansion
  import opened HeaderOps
  import opened HeaderApply
  import opened MergeLaws
  import opened RuleIndex
  import opened Sorting
  import opened HeaderRules
  import opened HeaderMatching
  import opened Ranking

  /** What a rule contributes to a request, with its repeated headers merged ahead of time. */
  function DedupOpsFor(cr: CompiledRule, r: Request): seq<HeaderOp> {
    if Applies(cr, r) && cr.dedupOps.WellFormed() then MatchedOps(cr, cr.dedupOps, r.path) else []
  }

  /** Wildcard rules by specificity, then the exact rules for the path. */
  function Order(crs: seq<CompiledRule>, fold: Folding, path: string): seq<Indexed<CompiledRule>> {
    StableSort(Select(crs, IsWildcardRule()), BySpecificity) + Select(crs, IsExactFor(fold, Key(fold, path)))
  }

  function OrderedOps(order: seq<Indexed<CompiledRule>>, r: Request): seq<HeaderOp> {
    if order == [] then []
    else OrderedOps(order[..|order| - 1], r) + DedupOpsFor(order[|order| - 1].rule, r)
  }

  lemma OrderedOpsNext(order: seq<Indexed<CompiledRule>>, r: Request, i: nat)
    requires i < |order|
    ensures OrderedOps(order[..i + 1], r) == OrderedOps(order[..i], r) + DedupOpsFor(order[i].rule, r)
  {
    assert order[..i + 1][..i] == order[..i];
  }

  // The order of the rules

  function Position(): Indexed<CompiledRule> -> int {
    (ir: Indexed<CompiledRule>) => ir.index
  }

  ghost predicate FromRules(order: seq<Indexed<CompiledRule>>, crs: seq<CompiledRule>) {
    forall k :: 0 <= k < |order| ==> order[k].index < |crs| && order[k].rule == crs[order[k].index]
  }

  lemma WildcardsOrdered(crs: seq<CompiledRule>)
    ensures var wild, sorted := Select(crs, IsWildcardRule()), StableSort(Select(crs, IsWildcardRule()), BySpecificity);
            && Ordered(sorted, BySpecificity, Position())
            && (forall ir :: ir in sorted <==> ir in wild)
  {
    hide Select, StableSort, IsWildcardRule;
    var wild := Select(crs, IsWildcardRule());
    SelectHolds(crs, IsWildcardRule());
    StableSortOrders(wild, BySpecificity, Position());
    SameElements(StableSort(wild, BySpecificity), wild);
  }

  /** An entry of either part comes from the rules and is of its kind. */
  lemma SortedEntry(crs: seq<CompiledRule>, k: nat)
    requires k < |StableSort(Select(crs, IsWildcardRule()), BySpecificity)|
    ensures var ir := StableSort(Select(crs, IsWildcardRule()), BySpecificity)[k];
            ir.index < |crs| && ir.rule == crs[ir.index] && !ir.rule.pattern.Exact()
  {
    hide Select, StableSort;
    WildcardsOrdered(crs);
    SelectHolds(crs, IsWildcardRule());
    var wild := Select(crs, IsWildcardRule());
    var ir := StableSort(wild, BySpecificity)[k];
    assert ir in wild;
    var j :| 0 <= j < |wild| && wild[j] == ir;
    assert IsWildcardRule()(wild[j].rule);
  }

  /** Every specificity fits in an `int`, so no score reaches that of an exact pattern. */
  ghost predicate ScoresFit(crs: seq<CompiledRule>) {
    forall i :: 0 <= i < |crs| ==> |crs[i].rule.path| < 0x3FFF_FFFF_FFFF_FFFF
  }

  lemma WildcardScore(cr: CompiledRule, fold: Folding)
    requires CompiledFrom(cr, cr.rule, fold) && 2 * |cr.rule.path| + 1 < MAX_INT
    ensures if cr.pattern.Exact() then cr.specificity == MAX_INT else cr.specificity < MAX_INT
  {
    hide MapValues, Templated, Merge, Split, NamesAfter, SegmentsFor, IndexByte;
  }

  lemma OrderFromRules(crs: seq<CompiledRule>, fold: Folding, path: string)
    ensures FromRules(Order(crs, fold, path), crs)
  {
    hide Select, StableSort, Key, IsExactFor, IsWildcardRule;
    SelectHolds(crs, IsExactFor(fold, Key(fold, path)));
    forall k | 0 <= k < |StableSort(Select(crs, IsWildcardRule()), BySpecificity)| {
      SortedEntry(crs, k);
    }
  }

  /** The scores of compiled rules compare as the texts of their patterns do. */
  lemma RulesRank(a: CompiledRule, b: CompiledRule, fold: Folding)
    requires CompiledFrom(a, a.rule, fold) && CompiledFrom(b, b.rule, fold)
    requires 2 * |a.rule.path| + 1 < MAX_INT && 2 * |b.rule.path| + 1 < MAX_INT
    ensures a.specificity > b.specificity <==> Outranks(a.rule.path, b.rule.path)
  {
    hide Patterns.Compile, MapValues, Templated, Merge, Specificity, Outranks;
    ScoresRank(a.rule.path, b.rule.path, fold);
  }

  /** No entry has a more specific pattern than a later one, and where neither is more specific, the later one
      is later in the file. */
  lemma OrderOrdered(crs: seq<CompiledRule>, fold: Folding, path: string)
    requires AllCompiled(crs, fold) && ScoresFit(crs)
    ensures Ordered(Order(crs, fold, path), BySpecificity, Position())
    ensures var order := Order(crs, fold, path);
            forall i, j :: 0 <= i < j < |order| ==>
              var (a, b) := (order[i].rule.rule.path, order[j].rule.rule.path);
              Outranks(b, a) || (!Outranks(a, b) && order[i].index < order[j].index)
  {
    hide Select, StableSort, Order, CompiledFrom, Outranks;
    OrderByScore(crs, fold, path);
    OrderFromRules(crs, fold, path);
    var order := Order(crs, fold, path);
    forall i, j | 0 <= i < j < |order|
      ensures Outranks(order[j].rule.rule.path, order[i].rule.rule.path)
              || (!Outranks(order[i].rule.rule.path, order[j].rule.rule.path) && order[i].index < order[j].index)
    {
      assert Before(order[i], order[j], BySpecificity, Position());
      assert order[i].rule == crs[order[i].index] && order[j].rule == crs[order[j].index];
      RulesRank(order[i].rule, order[j].rule, fold);
      RulesRank(order[j].rule, order[i].rule, fold);
    }
  }

  lemma OrderByScore(crs: seq<CompiledRule>, fold: Folding, path: string)
    requires AllCompiled(crs, fold) && ScoresFit(crs)
    ensures Ordered(Order(crs, fold, path), BySpecificity, Position())
  {
    hide Select, StableSort, Key, IsExactFor, IsWildcardRule, CompiledFrom;
    var sorted := StableSort(Select(crs, IsWildcardRule()), BySpecificity);
    var exact := Select(crs, IsExactFor(fold, Key(fold, path)));
    WildcardsOrdered(crs);
    forall k | 0 <= k < |sorted|
      ensures sorted[k].rule.specificity < MAX_INT
    {
      SortedEntry(crs, k);
      WildcardScore(sorted[k].rule, fold);
    }
    SelectHolds(crs, IsExactFor(fold, Key(fold, path)));
    forall k | 0 <= k < |exact|
      ensures exact[k].rule.specificity == MAX_INT
    {
      KeepMeaning(exact[k].rule, fold);
      assert exact[k].rule == crs[exact[k].index];
      WildcardScore(exact[k].rule, fold);
    }
    PartsOrdered(sorted, exact);
  }

  lemma PartsOrdered(sorted: seq<Indexed<CompiledRule>>, exact: seq<Indexed<CompiledRule>>)
    requires Ordered(sorted, BySpecificity, Position()) && InFileOrder(exact)
    requires forall k :: 0 <= k < |sorted| ==> sorted[k].rule.specificity < MAX_INT
    requires forall k :: 0 <= k < |exact| ==> exact[k].rule.specificity == MAX_INT
    ensures Ordered(sorted + exact, BySpecificity, Position())
  {
    var order := sorted + exact;
    forall i, j | 0 <= i < j < |order|
      ensures Before(order[i], order[j], BySpecificity, Position())
    {
      if j < |sorted| {
        assert Before(sorted[i], sorted[j], BySpecificity, Position());
      } else if i >= |sorted| {
        assert exact[i - |sorted|].index < exact[j - |sorted|].index;
      }
    }
  }

  /** Every rule that matches has its place in the order. */
  lemma OrderComplete(crs: seq<CompiledRule>, fold: Folding, r: Request, i: nat)
    requires AllCompiled(crs, fold) && Separates(fold)
    requires i < |crs| && Applies(crs[i], r)
    ensures Indexed(i, crs[i]) in Order(crs, fold, r.path)
  {
    hide Select, StableSort, Key, IsExactFor, IsWildcardRule, CompiledFrom, Matches, HostMatches;
    var keep := IsExactFor(fold, Key(fold, r.path));
    SelectHolds(crs, keep);
    SelectHolds(crs, IsWildcardRule());
    WildcardsOrdered(crs);
    KeepMeaning(crs[i], fold);
    if crs[i].pattern.Exact() {
      ExactLookup(crs[i], fold, r.path);
      var k :| 0 <= k < |Select(crs, keep)| && Select(crs, keep)[k].index == i;
      assert Select(crs, keep)[k] == Indexed(i, crs[i]);
    } else {
      var k :| 0 <= k < |Select(crs, IsWildcardRule())| && Select(crs, IsWildcardRule())[k].index == i;
      assert Select(crs, IsWildcardRule())[k] == Indexed(i, crs[i]);
    }
  }

  // Collecting the operations

  /** One candidate of the wildcard bucket. */
  method WildcardDedupOps(cr: CompiledRule, r: Request) returns (ops: seq<HeaderOp>)
    requires ExpandsItsOps(cr)
    ensures ops == DedupOpsFor(cr, r)
  {
    hide Matches, AllSlotsKnown, MatchedOps;
    if cr.rule.host != "" && !r.hostMatch(cr.rule.host, r.host) {
      return [];
    }
    var ok := MatchPath(cr.pattern, r.path);
    if !ok {
      return [];
    }
    ops := ExpandOps(cr, cr.dedupOps, r.path);
  }

  lemma ExactDedupOps(cr: CompiledRule, fold: Folding, r: Request)
    requires CompiledFrom(cr, cr.rule, fold) && cr.pattern.Exact() && Matches(cr.pattern, r.path)
    ensures DedupOpsFor(cr, r) == if HostMatches(cr, r) then cr.dedupOps.ops else []
  {
    hide Patterns.Compile, MapValues, Templated, Merge, Parse, Captured, Expanded;
    CompiledPattern(cr, fold);
    ExactStatic(cr, fold);
    ParsedLengths(cr.pattern, r.path);
    var m := Parse(cr.pattern, r.path).value;
    StaticExpanded(cr.dedupOps, CapturedValues(cr.pattern, m), m.splat);
  }

  lemma ExactEntry(crs: seq<CompiledRule>, fold: Folding, r: Request, k: nat)
    requires AllCompiled(crs, fold) && Separates(fold)
    requires k < |Select(crs, IsExactFor(fold, Key(fold, r.path)))|
    ensures var cr := Select(crs, IsExactFor(fold, Key(fold, r.path)))[k].rule;
            DedupOpsFor(cr, r) == if HostMatches(cr, r) then cr.dedupOps.ops else []
  {
    hide Select, Key, IsExactFor, CompiledFrom, Matches, HostMatches, DedupOpsFor;
    var keep := IsExactFor(fold, Key(fold, r.path));
    SelectHolds(crs, keep);
    var ir := Select(crs, keep)[k];
    assert ir.rule == crs[ir.index];
    ExactLookup(ir.rule, fold, r.path);
    ExactDedupOps(ir.rule, fold, r);
  }

  /** `MatchBySpecificity`. */
  method MatchBySpecificity(c: Compiled, requestPath: string, host: string, hostMatch: HostMatch, ghost crs: seq<CompiledRule>)
    returns (ops: seq<HeaderOp>)
    requires Indexes(c, crs) && AllCompiled(crs, c.fold)
    requires Separates(c.fold)
    ensures var r := Request(NormalizePath(requestPath), host, hostMatch);
            ops == OrderedOps(Order(crs, c.fold, r.path), r)
  {
    hide Key, AllCompiled, Separates, NormalizePath, IsExactFor, IsWildcardRule, Select, StableSort, CompiledFrom,
         OrderedOps, DedupOpsFor, ExpandsItsOps;
    var r := Request(NormalizePath(requestPath), host, hostMatch);
    ghost var order := Order(crs, c.fold, r.path);
    ops := [];
    NothingOrdered(order, r);
    for i := 0 to |c.bySpecificity|
      invariant ops == OrderedOps(order[..i], r)
    {
      var cr := c.bySpecificity[i].rule;
      assert order[i] == c.bySpecificity[i];
      SortedExpands(crs, c.fold, i);
      OrderedOpsNext(order, r, i);
      var more := WildcardDedupOps(cr, r);
      ops := ops + more;
    }
    var n := |c.bySpecificity|;
    var exact := Lookup(c.exactPaths, Key(c.fold, r.path));
    for i := 0 to |exact|
      invariant ops == OrderedOps(order[..n + i], r)
    {
      var cr := exact[i].rule;
      assert order[n + i] == exact[i];
      ExactEntry(crs, c.fold, r, i);
      OrderedOpsNext(order, r, n + i);
      if cr.rule.host != "" && !r.hostMatch(cr.rule.host, r.host) {
        assert ops + [] == ops;
        continue;
      }
      ops := ops + cr.dedupOps.ops;
    }
    assert order[..n + |exact|] == order;
  }

  lemma NothingOrdered(order: seq<Indexed<CompiledRule>>, r: Request)
    ensures OrderedOps(order[..0], r) == []
  {
  }

  lemma SortedExpands(crs: seq<CompiledRule>, fold: Folding, k: nat)
    requires AllCompiled(crs, fold)
    requires k < |StableSort(Select(crs, IsWildcardRule()), BySpecificity)|
    ensures ExpandsItsOps(StableSort(Select(crs, IsWildcardRule()), BySpecificity)[k].rule)
  {
    hide Select, StableSort, IsWildcardRule, CompiledFrom, ExpandsItsOps;
    SortedEntry(crs, k);
    CompiledExpands(StableSort(Select(crs, IsWildcardRule()), BySpecificity)[k].rule, fold);
  }

  // Whose value wins

  /** The operations of each rule in turn, each rule's merged. */
  function MergedBlocks(blocks: seq<seq<HeaderOp>>): seq<HeaderOp> {
    if blocks == [] then []
    else MergedBlocks(blocks[..|blocks| - 1]) + Merge(blocks[|blocks| - 1], CommaJoin()).ops
  }

  ghost predicate AllParsed(blocks: seq<seq<HeaderOp>>) {
    forall k :: 0 <= k < |blocks| ==> Parsed(blocks[k])
  }

  /** Without a block that mentions a header after it, a block decides the header. */
  lemma {:induction false} LastBlockWins(h: Lines, blocks: seq<seq<HeaderOp>>, k: nat, name: string)
    requires AllParsed(blocks) && k < |blocks| && Mentions(blocks[k], name)
    requires forall j :: k < j < |blocks| ==> !Mentions(blocks[j], name)
    ensures LinesOf(Apply(h, MergedBlocks(blocks), true), name) == LinesOf(Apply(map[], blocks[k], false), name)
       <==> StartsPresent(name, LastRun(blocks[k], name))
  {
    hide Apply, Merge, Mentions, LastRun, Parsed, StartsPresent;
    var n := |blocks| - 1;
    var before := MergedBlocks(blocks[..n]);
    ApplyConcat(h, before, Merge(blocks[n], CommaJoin()).ops, true);
    MergedRuleAlone(Apply(h, before, true), blocks[n], name);
    if k < n {
      LastBlockWins(h, blocks[..n], k, name);
    }
  }

  lemma {:induction false} NoBlockMentions(h: Lines, blocks: seq<seq<HeaderOp>>, name: string)
    requires AllParsed(blocks)
    requires forall j :: 0 <= j < |blocks| ==> !Mentions(blocks[j], name)
    ensures LinesOf(Apply(h, MergedBlocks(blocks), true), name) == LinesOf(h, name)
  {
    hide Merge, Mentions, Parsed;
    if blocks != [] {
      var n := |blocks| - 1;
      var before := MergedBlocks(blocks[..n]);
      ApplyConcat(h, before, Merge(blocks[n], CommaJoin()).ops, true);
      MergedRuleAlone(Apply(h, before, true), blocks[n], name);
      NoBlockMentions(h, blocks[..n], name);
    }
  }

  function Blocks(order: seq<Indexed<CompiledRule>>, r: Request): (blocks: seq<seq<HeaderOp>>)
    ensures |blocks| == |order|
    ensures forall k :: 0 <= k < |order| ==> blocks[k] == OpsFor(order[k].rule, r)
  {
    seq(|order|, k requires 0 <= k < |order| => OpsFor(order[k].rule, r))
  }

  lemma DedupIsMerged(cr: CompiledRule, fold: Folding, r: Request)
    requires CompiledFrom(cr, cr.rule, fold)
    ensures DedupOpsFor(cr, r) == Merge(OpsFor(cr, r), CommaJoin()).ops
  {
    hide Patterns.Compile, MapValues, Templated, Merge, Parse, Captured, Expanded;
    if Applies(cr, r) {
      var m := Parse(cr.pattern, r.path).value;
      ParsedLengths(cr.pattern, r.path);
      MergeCommutesWithExpansion(cr.ops, cr.dedupOps, CapturedValues(cr.pattern, m), m.splat);
    } else {
      NothingToMerge();
    }
  }

  lemma NothingToMerge()
    ensures Merge<string>([], CommaJoin()).ops == []
  {
  }

  lemma {:induction false} OrderedOpsMerged(order: seq<Indexed<CompiledRule>>, fold: Folding, r: Request)
    requires forall k :: 0 <= k < |order| ==> CompiledFrom(order[k].rule, order[k].rule.rule, fold)
    ensures OrderedOps(order, r) == MergedBlocks(Blocks(order, r))
  {
    hide CompiledFrom, DedupOpsFor, OpsFor, Merge;
    if order != [] {
      var n := |order| - 1;
      OrderedOpsMerged(order[..n], fold, r);
      DedupIsMerged(order[n].rule, fold, r);
      assert Blocks(order, r)[..n] == Blocks(order[..n], r);
    }
  }

  /** A rule that matches and mentions the header. */
  ghost predicate Contends(crs: seq<CompiledRule>, r: Request, name: string, i: int) {
    0 <= i < |crs| && Applies(crs[i], r) && Mentions(crs[i].rule.ops, name)
  }

  /** Of the rules that match and mention a header, the one with the most specific pattern and, where no
      pattern is more specific, the last in the file. */
  ghost predicate Wins(crs: seq<CompiledRule>, r: Request, name: string, w: int) {
    && Contends(crs, r, name, w)
    && forall i :: Contends(crs, r, name, i) ==>
         var (a, b) := (crs[w].rule.path, crs[i].rule.path);
         Outranks(a, b) || (!Outranks(b, a) && i <= w)
  }

  /** The same names and modes. */
  ghost predicate SameShape(xs: seq<HeaderOp>, ys: seq<HeaderOp>) {
    |xs| == |ys| && forall i :: 0 <= i < |xs| ==> xs[i].name == ys[i].name && xs[i].mode == ys[i].mode
  }

  lemma ShapeDecides(xs: seq<HeaderOp>, ys: seq<HeaderOp>, name: string)
    requires SameShape(xs, ys)
    ensures Parsed(xs) ==> Parsed(ys)
    ensures Mentions(xs, name) <==> Mentions(ys, name)
  {
    if i :| 0 <= i < |xs| && xs[i].name == name {
      assert ys[i].name == name;
    }
    if i :| 0 <= i < |ys| && ys[i].name == name {
      assert xs[i].name == name;
    }
  }

  lemma ExpandedShape(c: CompiledOps, values: seq<string>, splat: string)
    requires c.WellFormed()
    ensures SameShape(c.ops, Expanded(c, values, splat))
  {
    hide ExpandTemplate;
  }

  /** Expanding keeps names and modes. */
  lemma OpsForMentions(cr: CompiledRule, fold: Folding, r: Request, name: string)
    requires CompiledFrom(cr, cr.rule, fold) && Parsed(cr.rule.ops)
    ensures Parsed(OpsFor(cr, r))
    ensures Mentions(OpsFor(cr, r), name) <==> Applies(cr, r) && Mentions(cr.rule.ops, name)
  {
    hide Patterns.Compile, Merge, MapValues, Templated, Parse, Captured, Expanded, SameShape;
    if Applies(cr, r) {
      ParsedLengths(cr.pattern, r.path);
      var m := Parse(cr.pattern, r.path).value;
      ExpandedShape(cr.ops, CapturedValues(cr.pattern, m), m.splat);
      ShapeDecides(cr.rule.ops, OpsFor(cr, r), name);
    }
  }

  ghost predicate ParsedRules(crs: seq<CompiledRule>) {
    forall i :: 0 <= i < |crs| ==> Parsed(crs[i].rule.ops)
  }

  /** The operations in order of specificity, as the blocks of the rules they come from. */
  lemma OrderFacts(crs: seq<CompiledRule>, fold: Folding, r: Request, name: string)
    requires AllCompiled(crs, fold) && ParsedRules(crs)
    ensures var order := Order(crs, fold, r.path);
            && FromRules(order, crs)
            && OrderedOps(order, r) == MergedBlocks(Blocks(order, r))
            && AllParsed(Blocks(order, r))
            && (forall k :: 0 <= k < |order| ==>
                  (Mentions(Blocks(order, r)[k], name) <==> Contends(crs, r, name, order[k].index)))
  {
    hide CompiledFrom, OpsFor, OrderedOps, MergedBlocks, Order, Mentions, Parsed, Applies;
    var order := Order(crs, fold, r.path);
    OrderFromRules(crs, fold, r.path);
    OrderedOpsMerged(order, fold, r);
    forall k | 0 <= k < |order| {
      OpsForMentions(order[k].rule, fold, r, name);
    }
  }

  /** After dedup matching and applying, a header holds what the winning rule's operations, applied
      alone and one by one to an empty response, give it: exactly unless that rule's last run of
      values for the header starts with "" and goes on. */
  lemma MostSpecificWins(crs: seq<CompiledRule>, fold: Folding, r: Request, h: Lines, name: string, w: nat)
    requires AllCompiled(crs, fold) && ParsedRules(crs) && ScoresFit(crs) && Separates(fold)
    requires Wins(crs, r, name, w)
    ensures var after := Apply(h, OrderedOps(Order(crs, fold, r.path), r), true);
            var alone := Apply(map[], OpsFor(crs[w], r), false);
            LinesOf(after, name) == LinesOf(alone, name) <==> StartsPresent(name, LastRun(OpsFor(crs[w], r), name))
  {
    hide AllCompiled, ParsedRules, ScoresFit, Separates, OpsFor, OrderedOps, MergedBlocks, Order, Mentions, Apply,
         StartsPresent, LastRun, Applies, Outranks, Ordered;
    var order := Order(crs, fold, r.path);
    OrderFacts(crs, fold, r, name);
    OrderOrdered(crs, fold, r.path);
    OrderComplete(crs, fold, r, w);
    var k :| 0 <= k < |order| && order[k] == Indexed(w, crs[w]);
    forall j | k < j < |order|
      ensures !Contends(crs, r, name, order[j].index)
    {
      assert order[j].rule == crs[order[j].index];
      OutranksOneWay(crs[w].rule.path, order[j].rule.rule.path);
    }
    LastBlockWins(h, Blocks(order, r), k, name);
  }

  /** Headers that no matching rule mentions stay as they are. */
  lemma UnmentionedStay(crs: seq<CompiledRule>, fold: Folding, r: Request, h: Lines, name: string)
    requires AllCompiled(crs, fold) && ParsedRules(crs)
    requires forall i :: !Contends(crs, r, name, i)
    ensures LinesOf(Apply(h, OrderedOps(Order(crs, fold, r.path), r), true), name) == LinesOf(h, name)
  {
    hide AllCompiled, ParsedRules, OpsFor, OrderedOps, MergedBlocks, Order, Mentions, Apply, Applies;
    OrderFacts(crs, fold, r, name);
    NoBlockMentions(h, Blocks(Order(crs, fold, r.path), r), name);
  }

  /** Some rule wins every header that a matching rule mentions. */
  lemma {:induction false} SomeRuleWins(crs: seq<CompiledRule>, r: Request, name: string, i: int)
    returns (w: nat)
    requires Contends(crs, r, name, i)
    ensures Wins(crs, r, name, w)
  {
    hide Mentions, Applies, LiteralChars, PlainText;
    w := i;
    for k := 0 to |crs|
      invariant Contends(crs, r, name, w)
      invariant forall j :: 0 <= j < k && Contends(crs, r, name, j) ==>
                  Outranks(crs[w].rule.path, crs[j].rule.path) || (!Outranks(crs[j].rule.path, crs[w].rule.path) && j <= w)
    {
      var (a, b) := (crs[k].rule.path, crs[w].rule.path);
      if Contends(crs, r, name, k) && (Outranks(a, b) || (!Outranks(b, a) && k > w)) {
        w := k;
      }
    }
  }

  /** Setting a response's headers as the handler does it. */
  method SetHeaders(c: Compiled, headers: Header, path: string, host: string, hostMatch: HostMatch, dedup: bool,
                    ghost crs: seq<CompiledRule>)
    requires Indexes(c, crs) && AllCompiled(crs, c.fold)
    requires Separates(c.fold)
    modifies headers
    ensures var r := Request(NormalizePath(path), host, hostMatch);
            if dedup then headers.lines == Apply(old(headers.lines), OrderedOps(Order(crs, c.fold, r.path), r), true)
            else headers.lines == Apply(old(headers.lines), AllOps(crs, r), false)
  {
    hide Indexes, AllCompiled, Separates, NormalizePath, Order, OrderedOps, AllOps, Apply;
    var ops;
    if dedup {
      ops := MatchBySpecificity(c, path, host, hostMatch, crs);
    } else {
      ops := MatchOrdered(c, path, host, hostMatch, crs);
    }
    ApplyHeaders(headers, ops, dedup);
  }
}
