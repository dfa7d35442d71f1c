/** Redirect rules: finding the first that matches a path, and its destination. */
module Redirects {
  import opened Paths
  import opened Patterns
  import opened Matching
  import opened MatchingLaws
  import opened Templates
  import opened RuleIndex

  datatype RedirectRule = RedirectRule(from: string, to: string, status: int, line: nat)

  /** A redirect rule with its compiled source pattern and destination. */
  datatype CompiledRedirect = CompiledRedirect(rule: RedirectRule, pattern: Pattern, to: Template)

  /** `newCompiledRedirect`. */
  function NewCompiledRedirect(rule: RedirectRule): CompiledRedirect {
    var p := Patterns.Compile(rule.from);
    CompiledRedirect(rule, p, CompileTemplate(rule.to, p))
  }

  /** Redirect rules indexed for first-match lookup. */
  datatype CompiledRedirects = CompiledRedirects(
    exactRedirects: map<string, seq<Indexed<CompiledRedirect>>>,
    wildcards: seq<Indexed<CompiledRedirect>>,
    byFirstSegment: map<string, seq<Indexed<CompiledRedirect>>>,
    anyFirstSegment: seq<Indexed<CompiledRedirect>>)

  // The index

  function IsExact(path: string): CompiledRedirect -> bool {
    (r: CompiledRedirect) => r.pattern.Exact() && r.pattern.raw == path
  }

  function IsWildcard(): CompiledRedirect -> bool {
    (r: CompiledRedirect) => !r.pattern.Exact()
  }

  function StartsWith(segment: string): CompiledRedirect -> bool {
    (r: CompiledRedirect) => !r.pattern.Exact() && r.pattern.FirstSegment() == Some(segment)
  }

  function StartsAnyhow(): CompiledRedirect -> bool {
    (r: CompiledRedirect) => !r.pattern.Exact() && r.pattern.FirstSegment() == None
  }

  ghost predicate Indexes(cr: CompiledRedirects, rules: seq<CompiledRedirect>) {
    && (forall path :: Lookup(cr.exactRedirects, path) == Select(rules, IsExact(path)))
    && cr.wildcards == Select(rules, IsWildcard())
    && (forall segment :: Lookup(cr.byFirstSegment, segment) == Select(rules, StartsWith(segment)))
    && cr.anyFirstSegment == Select(rules, StartsAnyhow())
  }

  /** `compileRedirects`: fills the buckets in definition order. */
  method CompileRedirects(rules: seq<CompiledRedirect>) returns (cr: CompiledRedirects)
    ensures Indexes(cr, rules)
  {
    hide Lookup, Select, IsExact, StartsWith, IsWildcard, StartsAnyhow;
    var exact: map<string, seq<Indexed<CompiledRedirect>>> := map[];
    var byFirst: map<string, seq<Indexed<CompiledRedirect>>> := map[];
    var wildcards: seq<Indexed<CompiledRedirect>> := [];
    var anyFirst: seq<Indexed<CompiledRedirect>> := [];
    NothingIndexed();
    for i := 0 to |rules|
      invariant Indexes(CompiledRedirects(exact, wildcards, byFirst, anyFirst), rules[..i])
    {
      var r := rules[i];
      var ir := Indexed(i, r);
      ghost var before := CompiledRedirects(exact, wildcards, byFirst, anyFirst);
      if r.pattern.Exact() {
        exact := AddTo(exact, r.pattern.raw, ir);
      } else {
        wildcards := wildcards + [ir];
        var first := r.pattern.FirstSegment();
        if first.Some? {
          byFirst := AddTo(byFirst, first.value, ir);
        } else {
          anyFirst := anyFirst + [ir];
        }
      }
      IndexNext(before, CompiledRedirects(exact, wildcards, byFirst, anyFirst), rules, i);
    }
    assert rules[..|rules|] == rules;
    return CompiledRedirects(exact, wildcards, byFirst, anyFirst);
  }

  lemma NothingIndexed()
    ensures Indexes(CompiledRedirects(map[], [], map[], []), [])
  {
  }

  lemma IndexNext(before: CompiledRedirects, after: CompiledRedirects, rules: seq<CompiledRedirect>, i: nat)
    requires i < |rules| && Indexes(before, rules[..i])
    requires var (r, first) := (rules[i], rules[i].pattern.FirstSegment());
             var (ir, exact) := (Indexed(i, r), rules[i].pattern.Exact());
             && (forall k :: Lookup(after.exactRedirects, k) ==
                             Lookup(before.exactRedirects, k) + if exact && k == r.pattern.raw then [ir] else [])
             && after.wildcards == before.wildcards + (if exact then [] else [ir])
             && (forall k :: Lookup(after.byFirstSegment, k) ==
                             Lookup(before.byFirstSegment, k) + if !exact && first == Some(k) then [ir] else [])
             && after.anyFirstSegment == before.anyFirstSegment + if !exact && first == None then [ir] else []
    ensures Indexes(after, rules[..i + 1])
  {
    hide Lookup, Select;
    forall k
      ensures Lookup(after.exactRedirects, k) == Select(rules[..i + 1], IsExact(k))
    {
      SelectPrefix(rules, i, IsExact(k));
    }
    forall k
      ensures Lookup(after.byFirstSegment, k) == Select(rules[..i + 1], StartsWith(k))
    {
      SelectPrefix(rules, i, StartsWith(k));
    }
    SelectPrefix(rules, i, IsWildcard());
    SelectPrefix(rules, i, StartsAnyhow());
  }

  // The first match

  /** The slow specification: the first rule, in file order, whose pattern matches. */
  function FirstMatching(rules: seq<CompiledRedirect>, path: string): Option<CompiledRedirect> {
    if rules == [] then None
    else if Matches(rules[0].pattern, path) then Some(rules[0])
    else FirstMatching(rules[1..], path)
  }

  ghost predicate NoMatchBelow(rules: seq<CompiledRedirect>, path: string, n: nat) {
    forall i :: 0 <= i < n && i < |rules| ==> !Matches(rules[i].pattern, path)
  }

  lemma {:induction false} FirstMatchingIs(rules: seq<CompiledRedirect>, path: string, i: nat)
    requires NoMatchBelow(rules, path, i)
    requires i < |rules| ==> Matches(rules[i].pattern, path)
    ensures FirstMatching(rules, path) == if i < |rules| then Some(rules[i]) else None
  {
    if rules != [] && i > 0 {
      assert forall j :: 0 <= j < |rules[1..]| ==> rules[1..][j] == rules[j + 1];
      FirstMatchingIs(rules[1..], path, i - 1);
    }
  }

  /** Every pattern was compiled from its rule's text. */
  ghost predicate AllCompiled(rules: seq<CompiledRedirect>) {
    forall i :: 0 <= i < |rules| ==> rules[i].pattern == Patterns.Compile(rules[i].rule.from)
  }

  /** No kept rule below `n` matches. */
  ghost predicate NoneBelow(rules: seq<CompiledRedirect>, keep: CompiledRedirect -> bool, path: string, n: nat) {
    forall i :: 0 <= i < n && i < |rules| && keep(rules[i]) ==> !Matches(rules[i].pattern, path)
  }

  /** A rule that matches is exact for the path, or starts with its first segment, or anyhow. */
  lemma MatchingBucket(rules: seq<CompiledRedirect>, i: nat, path: string)
    requires AllCompiled(rules) && i < |rules| && path != "" && Matches(rules[i].pattern, path)
    ensures IsExact(path)(rules[i]) || StartsWith(FirstPathSegment(path))(rules[i]) || StartsAnyhow()(rules[i])
  {
    hide Matches, Patterns.Compile, FirstPathSegment;
    var from := rules[i].rule.from;
    var p := rules[i].pattern;
    CompiledByteWise(from);
    CompiledRaw(from);
    if p.Exact() {
      ExactMatchesItself(from, path);
    } else if p.FirstSegment().Some? {
      FirstSegmentSound(p, path);
    }
  }

  lemma CompiledRaw(raw: string)
    ensures Patterns.Compile(raw).raw == raw
  {
  }

  lemma ExactMatches(rules: seq<CompiledRedirect>, i: nat, path: string)
    requires AllCompiled(rules) && i < |rules| && IsExact(path)(rules[i])
    ensures Matches(rules[i].pattern, path)
  {
    hide Matches, Patterns.Compile;
    CompiledRaw(rules[i].rule.from);
    ExactMatchesItself(rules[i].rule.from, path);
  }

  /** When neither bucket has a match below `n`, nor an exact rule lies there, nothing matches there. */
  lemma NothingBelow(rules: seq<CompiledRedirect>, path: string, n: nat)
    requires AllCompiled(rules) && path != ""
    requires NoneBelow(rules, StartsWith(FirstPathSegment(path)), path, n)
    requires NoneBelow(rules, StartsAnyhow(), path, n)
    requires forall i :: 0 <= i < n && i < |rules| ==> !IsExact(path)(rules[i])
    ensures NoMatchBelow(rules, path, n)
  {
    hide Matches, Patterns.Compile, FirstPathSegment, IsExact, StartsWith, StartsAnyhow;
    forall i | 0 <= i < n && i < |rules|
      ensures !Matches(rules[i].pattern, path)
    {
      if Matches(rules[i].pattern, path) {
        MatchingBucket(rules, i, path);
      }
    }
  }

  /** One of the two candidate buckets while it is consumed: what is left of it holds every kept
      rule from `from` on, and no kept rule below matches. */
  ghost predicate Remaining(bucket: seq<Indexed<CompiledRedirect>>, rules: seq<CompiledRedirect>,
                            keep: CompiledRedirect -> bool, path: string, from: nat) {
    Holds(bucket, rules, keep, from) && NoneBelow(rules, keep, path, from)
  }

  lemma RemainingFirst(bucket: seq<Indexed<CompiledRedirect>>, rules: seq<CompiledRedirect>,
                       keep: CompiledRedirect -> bool, path: string, from: nat)
    requires Remaining(bucket, rules, keep, path, from)
    ensures bucket == [] ==> NoneBelow(rules, keep, path, |rules|)
    ensures bucket != [] ==>
              && bucket[0].index < |rules| && bucket[0].rule == rules[bucket[0].index]
              && NoneBelow(rules, keep, path, bucket[0].index)
              && (!Matches(bucket[0].rule.pattern, path) ==>
                    Remaining(bucket[1..], rules, keep, path, bucket[0].index + 1))
  {
    hide Matches;
    HoldsFirst(bucket, rules, keep, from);
  }

  /** The first exact candidate is the first rule that is exact for the path. */
  lemma FirstExact(candidates: seq<Indexed<CompiledRedirect>>, rules: seq<CompiledRedirect>, path: string)
    requires candidates == Select(rules, IsExact(path)) && AllCompiled(rules)
    ensures candidates == [] ==> forall i :: 0 <= i < |rules| ==> !IsExact(path)(rules[i])
    ensures candidates != [] ==>
              && candidates[0].index < |rules| && candidates[0].rule == rules[candidates[0].index]
              && Matches(candidates[0].rule.pattern, path)
              && forall i :: 0 <= i < candidates[0].index ==> !IsExact(path)(rules[i])
  {
    hide Matches, IsExact, Select;
    SelectHolds(rules, IsExact(path));
    HoldsFirst(candidates, rules, IsExact(path), 0);
    if candidates != [] {
      ExactMatches(rules, candidates[0].index, path);
    }
  }

  /** Takes the rule with the lower index off the front of its bucket. */
  method TakeLower(a: seq<Indexed<CompiledRedirect>>, b: seq<Indexed<CompiledRedirect>>,
                   ghost rules: seq<CompiledRedirect>, ghost keepA: CompiledRedirect -> bool,
                   ghost keepB: CompiledRedirect -> bool, ghost path: string, ghost fa: nat, ghost fb: nat)
    returns (ir: Indexed<CompiledRedirect>, a': seq<Indexed<CompiledRedirect>>, b': seq<Indexed<CompiledRedirect>>,
             ghost fa': nat, ghost fb': nat)
    requires a != [] || b != []
    requires Remaining(a, rules, keepA, path, fa) && Remaining(b, rules, keepB, path, fb)
    ensures ir.index < |rules| && ir.rule == rules[ir.index]
    ensures NoneBelow(rules, keepA, path, ir.index) && NoneBelow(rules, keepB, path, ir.index)
    ensures !Matches(ir.rule.pattern, path) ==>
              Remaining(a', rules, keepA, path, fa') && Remaining(b', rules, keepB, path, fb')
    ensures |a'| + |b'| < |a| + |b|
  {
    hide Matches, Remaining, NoneBelow;
    a', b', fa', fb' := a, b, fa, fb;
    RemainingFirst(a, rules, keepA, path, fa);
    RemainingFirst(b, rules, keepB, path, fb);
    if b == [] || (a != [] && a[0].index < b[0].index) {
      ir, a', fa' := a[0], a[1..], a[0].index + 1;
    } else {
      ir, b', fb' := b[0], b[1..], b[0].index + 1;
    }
    NoneBelowLess(rules, keepA, path, ir.index);
    NoneBelowLess(rules, keepB, path, ir.index);
  }

  /** `MatchFirst`: merges the two candidate buckets in definition order, looking for a match
      with a lower index than the best exact one. */
  method MatchFirst(cr: CompiledRedirects, requestPath: string, ghost rules: seq<CompiledRedirect>)
    returns (found: Option<CompiledRedirect>)
    requires Indexes(cr, rules) && AllCompiled(rules)
    ensures found == FirstMatching(rules, NormalizePath(requestPath))
  {
    hide Matches, IsExact, StartsWith, StartsAnyhow, Select, FirstPathSegment, FirstMatching, Lookup, NoneBelow, Remaining;
    var path := NormalizePath(requestPath);
    var candidates := Lookup(cr.exactRedirects, path);
    FirstExact(candidates, rules, path);
    var a := Lookup(cr.byFirstSegment, FirstPathSegment(path));
    var b := cr.anyFirstSegment;
    ghost var keepA, keepB := StartsWith(FirstPathSegment(path)), StartsAnyhow();
    StartRemaining(rules, keepA, path);
    StartRemaining(rules, keepB, path);
    ghost var fa: nat, fb: nat := 0, 0;
    while a != [] || b != []
      invariant Remaining(a, rules, keepA, path, fa)
      invariant Remaining(b, rules, keepB, path, fb)
      decreases |a| + |b|
    {
      var ir;
      ir, a, b, fa, fb := TakeLower(a, b, rules, keepA, keepB, path, fa, fb);
      // No wildcard can beat an exact match that comes before it.
      if candidates != [] && ir.index > candidates[0].index {
        NoneBelowLess(rules, keepA, path, candidates[0].index);
        NoneBelowLess(rules, keepB, path, candidates[0].index);
        FoundExact(rules, candidates, path);
        return Some(candidates[0].rule);
      }
      CompiledRuleWellFormed(rules, ir.index);
      var matched := MatchPath(ir.rule.pattern, path);
      if matched {
        FoundWildcard(rules, candidates, path, ir.index);
        return Some(ir.rule);
      }
    }
    RemainingFirst(a, rules, keepA, path, fa);
    RemainingFirst(b, rules, keepB, path, fb);
    if candidates != [] {
      NoneBelowLess(rules, keepA, path, candidates[0].index);
      NoneBelowLess(rules, keepB, path, candidates[0].index);
    }
    FoundExact(rules, candidates, path);
    if candidates != [] {
      return Some(candidates[0].rule);
    }
    return None;
  }

  lemma StartRemaining(rules: seq<CompiledRedirect>, keep: CompiledRedirect -> bool, path: string)
    ensures Remaining(Select(rules, keep), rules, keep, path, 0)
  {
    SelectHolds(rules, keep);
  }

  lemma NoneBelowLess(rules: seq<CompiledRedirect>, keep: CompiledRedirect -> bool, path: string, m: nat)
    ensures forall n: nat | (m <= n || |rules| <= n) && NoneBelow(rules, keep, path, n) :: NoneBelow(rules, keep, path, m)
  {
    hide Matches;
  }

  lemma CompiledRuleWellFormed(rules: seq<CompiledRedirect>, i: nat)
    requires AllCompiled(rules) && i < |rules|
    ensures WellFormed(rules[i].pattern)
  {
    CompiledByteWise(rules[i].rule.from);
  }

  lemma FoundWildcard(rules: seq<CompiledRedirect>, candidates: seq<Indexed<CompiledRedirect>>, path: string, n: nat)
    requires AllCompiled(rules) && path != "" && candidates == Select(rules, IsExact(path))
    requires n < |rules| && Matches(rules[n].pattern, path)
    requires candidates != [] ==> n <= candidates[0].index
    requires NoneBelow(rules, StartsWith(FirstPathSegment(path)), path, n) && NoneBelow(rules, StartsAnyhow(), path, n)
    ensures FirstMatching(rules, path) == Some(rules[n])
  {
    hide Matches, IsExact, Select, FirstMatching, NoneBelow, FirstPathSegment;
    FirstExact(candidates, rules, path);
    NothingBelow(rules, path, n);
    FirstMatchingIs(rules, path, n);
  }

  lemma FoundExact(rules: seq<CompiledRedirect>, candidates: seq<Indexed<CompiledRedirect>>, path: string)
    requires AllCompiled(rules) && path != "" && candidates == Select(rules, IsExact(path))
    requires var n := if candidates == [] then |rules| else candidates[0].index;
             NoneBelow(rules, StartsWith(FirstPathSegment(path)), path, n) && NoneBelow(rules, StartsAnyhow(), path, n)
    ensures FirstMatching(rules, path) == if candidates == [] then None else Some(candidates[0].rule)
  {
    hide Matches, IsExact, Select, FirstMatching, NoneBelow, FirstPathSegment;
    FirstExact(candidates, rules, path);
    var n := if candidates == [] then |rules| else candidates[0].index;
    NothingBelow(rules, path, n);
    FirstMatchingIs(rules, path, n);
  }
}
