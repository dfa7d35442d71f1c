/** Header rules: compiling a file's rules into indexes and finding the operations for a path. */
module HeaderRules {
  import opened Folding
  import opened Patterns
  import opened Templates
  import opened HeaderOps
  import opened RuleIndex
  import opened Sorting

  /** A parsed rule; its pattern is already split into the path part and, for an absolute URL,
      the host part. */
  datatype Rule = Rule(path: string, host: string, ops: seq<HeaderOp>)

  datatype CompiledRule = CompiledRule(
    rule: Rule,
    pattern: Pattern,
    ops: CompiledOps,
    dedupOps: CompiledOps,
    specificity: int)

  /** `math.MaxInt` on a 64-bit platform. */
  const MAX_INT := 0x7FFF_FFFF_FFFF_FFFF

  function Specificity(p: Pattern): int {
    if p.Exact() then MAX_INT
    else p.literalLen * 2 + if p.hasSplat then 0 else 1
  }

  /** `cr` is `rule` compiled, with patterns comparing as `fold` says. */
  ghost predicate CompiledFrom(cr: CompiledRule, rule: Rule, fold: Folding) {
    && cr.rule == rule
    && cr.pattern == Patterns.Compile(rule.path).(fold := fold)
    && cr.ops.WellFormed() && cr.ops.ops == rule.ops
    && Templated(cr.ops) == MapValues(rule.ops, CompileValue(cr.pattern))
    && (cr.ops.dynamic <==> exists i :: 0 <= i < |rule.ops| && CompileTemplate(rule.ops[i].value, cr.pattern).Dynamic())
    && cr.dedupOps.WellFormed() && cr.dedupOps.dynamic == cr.ops.dynamic
    && Templated(cr.dedupOps) == Merge(Templated(cr.ops), JoinComma()).ops
    && cr.specificity == Specificity(cr.pattern)
  }

  ghost predicate AllCompiledFrom(crs: seq<CompiledRule>, rules: seq<Rule>, fold: Folding) {
    |crs| == |rules| && forall i :: 0 <= i < |crs| ==> CompiledFrom(crs[i], rules[i], fold)
  }

  /** The rules of a file, indexed: exact paths by key, the others in definition order and by
      specificity. */
  datatype Compiled = Compiled(
    fold: Folding,
    exactPaths: map<string, seq<Indexed<CompiledRule>>>,
    wildcards: seq<Indexed<CompiledRule>>,
    bySpecificity: seq<Indexed<CompiledRule>>)

  /** The key of a path in `exactPaths`. */
  function Key(fold: Folding, path: string): string {
    if fold.Folded? then FoldKey(fold.table, path) else path
  }

  function IsExactFor(fold: Folding, key: string): CompiledRule -> bool {
    (cr: CompiledRule) => cr.pattern.Exact() && Key(fold, cr.pattern.raw) == key
  }

  function IsWildcardRule(): CompiledRule -> bool {
    (cr: CompiledRule) => !cr.pattern.Exact()
  }

  function BySpecificity(ir: Indexed<CompiledRule>): int {
    ir.rule.specificity
  }

  ghost predicate Indexes(c: Compiled, crs: seq<CompiledRule>) {
    && (forall key :: Lookup(c.exactPaths, key) == Select(crs, IsExactFor(c.fold, key)))
    && c.wildcards == Select(crs, IsWildcardRule())
    && c.bySpecificity == StableSort(c.wildcards, BySpecificity)
  }

  lemma SelectNext(crs: seq<CompiledRule>, cr: CompiledRule, keep: CompiledRule -> bool)
    ensures Select(crs + [cr], keep) == Select(crs, keep) + if keep(cr) then [Indexed(|crs|, cr)] else []
  {
    assert (crs + [cr])[..|crs|] == crs;
  }

  method CompileRule(rule: Rule, fold: Folding) returns (cr: CompiledRule)
    ensures CompiledFrom(cr, rule, fold)
  {
    hide Patterns.Compile, CompileTemplate, Templated, MapValues, Merge;
    var p := CompilePattern(rule.path);
    p := p.(fold := fold);
    var ops := CompileOps(rule.ops, p);
    var merged := MergeRepeated(ops);
    return CompiledRule(rule, p, ops, merged, Specificity(p));
  }

  /** `compileRules`. */
  method CompileRules(rules: seq<Rule>, fold: Folding) returns (c: Compiled, ghost crs: seq<CompiledRule>)
    ensures AllCompiledFrom(crs, rules, fold)
    ensures c.fold == fold && Indexes(c, crs)
  {
    hide Select, IsExactFor, IsWildcardRule, CompiledFrom, Key;
    var exact: map<string, seq<Indexed<CompiledRule>>> := map[];
    var wildcards: seq<Indexed<CompiledRule>> := [];
    crs := [];
    NothingSelected();
    for i := 0 to |rules|
      invariant AllCompiledFrom(crs, rules[..i], fold)
      invariant forall key :: Lookup(exact, key) == Select(crs, IsExactFor(fold, key))
      invariant wildcards == Select(crs, IsWildcardRule())
    {
      var cr := CompileRule(rules[i], fold);
      var ir := Indexed(i, cr);
      SelectNext(crs, cr, IsWildcardRule());
      SelectExactNext(exact, crs, cr, fold);
      KeepMeaning(cr, fold);
      if cr.pattern.Exact() {
        exact := AddTo(exact, Key(fold, cr.pattern.raw), ir);
      } else {
        wildcards := wildcards + [ir];
      }
      crs := crs + [cr];
    }
    assert rules[..|rules|] == rules;
    c := Compiled(fold, exact, wildcards, StableSort(wildcards, BySpecificity));
  }

  lemma NothingSelected()
    ensures forall keep: CompiledRule -> bool :: Select([], keep) == []
  {
  }

  lemma KeepMeaning(cr: CompiledRule, fold: Folding)
    ensures IsWildcardRule()(cr) <==> !cr.pattern.Exact()
    ensures forall key :: IsExactFor(fold, key)(cr) <==> cr.pattern.Exact() && Key(fold, cr.pattern.raw) == key
  {
  }

  lemma SelectExactNext(exact: map<string, seq<Indexed<CompiledRule>>>, crs: seq<CompiledRule>, cr: CompiledRule, fold: Folding)
    requires forall key :: Lookup(exact, key) == Select(crs, IsExactFor(fold, key))
    ensures forall key :: Select(crs + [cr], IsExactFor(fold, key)) ==
                          Lookup(exact, key) + if IsExactFor(fold, key)(cr) then [Indexed(|crs|, cr)] else []
  {
    hide Select, IsExactFor, Lookup;
    forall key
      ensures Select(crs + [cr], IsExactFor(fold, key)) ==
              Lookup(exact, key) + if IsExactFor(fold, key)(cr) then [Indexed(|crs|, cr)] else []
    {
      SelectNext(crs, cr, IsExactFor(fold, key));
    }
  }
}
