/** Header operations of one rule: compiling their values, merging repeated headers, expanding. */
module HeaderOps {
  import opened Patterns
  import opened Templates
  import opened Expansion

  datatype OpMode = Set | Remove | Append

  /** A header operation, with a plain value or a template. */
  datatype Op<+V> = Op(name: string, value: V, mode: OpMode)

  type HeaderOp = Op<string>

  /** Headers whose repeated values must be sent as separate lines (section 5.3 of RFC 9110). */
  predicate NoCommaJoin(name: string) {
    name == "Set-Cookie"
  }

  /** Operations with their values compiled; `values` is parallel to `ops` when some value
      references the pattern, and empty otherwise. */
  datatype CompiledOps = CompiledOps(ops: seq<HeaderOp>, values: seq<Template>, dynamic: bool) {
    predicate WellFormed() {
      if dynamic then
        && |values| == |ops|
        && forall i :: 0 <= i < |ops| ==> values[i].raw == ops[i].value
      else values == []
    }
  }

  /** The operations with a template for every value. */
  function Templated(c: CompiledOps): (r: seq<Op<Template>>)
    requires c.WellFormed()
    ensures |r| == |c.ops|
  {
    seq(|c.ops|, i requires 0 <= i < |c.ops| =>
      Op(c.ops[i].name, if c.dynamic then c.values[i] else Template(c.ops[i].value, []), c.ops[i].mode))
  }

  function MapValues<V, W>(ops: seq<Op<V>>, f: V -> W): (r: seq<Op<W>>)
    ensures |r| == |ops|
    ensures forall i :: 0 <= i < |ops| ==> r[i] == Op(ops[i].name, f(ops[i].value), ops[i].mode)
  {
    seq(|ops|, i requires 0 <= i < |ops| => Op(ops[i].name, f(ops[i].value), ops[i].mode))
  }

  // Compiling

  function CompileValue(p: Pattern): string -> Template {
    value => CompileTemplate(value, p)
  }

  /** `compileOps`: allocates templates only once a value references the pattern. */
  method CompileOps(ops: seq<HeaderOp>, p: Pattern) returns (c: CompiledOps)
    ensures c.WellFormed() && c.ops == ops
    ensures Templated(c) == MapValues(ops, CompileValue(p))
    ensures c.dynamic <==> exists i :: 0 <= i < |ops| && CompileTemplate(ops[i].value, p).Dynamic()
  {
    hide CompileTemplate;
    var values: seq<Template> := [];
    for i := 0 to |ops|
      invariant values != [] ==>
                  && |values| == |ops|
                  && (forall j :: 0 <= j < i ==> values[j] == CompileTemplate(ops[j].value, p))
                  && (forall j :: i <= j < |ops| ==> values[j] == Template(ops[j].value, []))
      invariant values != [] <==> exists j :: 0 <= j < i && CompileTemplate(ops[j].value, p).Dynamic()
    {
      var t := Templates.Compile(ops[i].value, p);
      StaticTemplate(ops[i].value, p);
      if t.Dynamic() {
        if values == [] {
          values := seq(|ops|, j requires 0 <= j < |ops| => Template(ops[j].value, []));
          StaticSoFar(ops, p, i);
        }
        values := values[i := t];
      }
    }
    c := CompiledOps(ops, values, values != []);
    RawKept(ops, p);
    StaticSoFar(ops, p, |ops|);
  }

  lemma StaticTemplate(raw: string, p: Pattern)
    ensures var t := CompileTemplate(raw, p);
            t.raw == raw && (!t.Dynamic() ==> t == Template(raw, []))
  {
  }

  lemma StaticSoFar(ops: seq<HeaderOp>, p: Pattern, n: nat)
    requires n <= |ops|
    ensures forall j :: 0 <= j < n && !CompileTemplate(ops[j].value, p).Dynamic() ==>
              CompileTemplate(ops[j].value, p) == Template(ops[j].value, [])
  {
    hide CompileTemplate;
    forall j | 0 <= j < n {
      StaticTemplate(ops[j].value, p);
    }
  }

  lemma RawKept(ops: seq<HeaderOp>, p: Pattern)
    ensures forall j :: 0 <= j < |ops| ==> CompileTemplate(ops[j].value, p).raw == ops[j].value
  {
  }

  // Expanding

  function Expander(values: seq<string>, splat: string): Template -> string {
    t => ExpandTemplate(t, values, splat)
  }

  /** The operations with captured values substituted. */
  function Expanded(c: CompiledOps, values: seq<string>, splat: string): seq<HeaderOp>
    requires c.WellFormed()
  {
    MapValues(Templated(c), Expander(values, splat))
  }

  lemma StaticExpanded(c: CompiledOps, values: seq<string>, splat: string)
    requires c.WellFormed() && !c.dynamic
    ensures Expanded(c, values, splat) == c.ops
  {
  }

  // Merging

  /** Merged operations, with the index of the set that later sets of a header join. */
  datatype Merged<V> = Merged(ops: seq<Op<V>>, current: map<string, nat>)

  function MergeOp<V>(m: Merged<V>, op: Op<V>, join: (V, V) -> V): Merged<V> {
    if op.mode == Remove then
      Merged(m.ops + [op], m.current - {op.name})
    else if op.name in m.current && m.current[op.name] < |m.ops| then
      var j := m.current[op.name];
      if NoCommaJoin(op.name) then Merged(m.ops + [op.(mode := Append)], m.current)
      else Merged(m.ops[j := m.ops[j].(value := join(m.ops[j].value, op.value))], m.current)
    else
      Merged(m.ops + [op], m.current[op.name := |m.ops|])
  }

  function Merge<V>(ops: seq<Op<V>>, join: (V, V) -> V): Merged<V> {
    if ops == [] then Merged([], map[])
    else MergeOp(Merge(ops[..|ops| - 1], join), ops[|ops| - 1], join)
  }

  ghost predicate CurrentInRange<V>(m: Merged<V>) {
    forall name :: name in m.current ==> m.current[name] < |m.ops|
  }

  lemma {:induction false} MergeInRange<V>(ops: seq<Op<V>>, join: (V, V) -> V)
    ensures CurrentInRange(Merge(ops, join))
  {
    if ops != [] {
      MergeInRange(ops[..|ops| - 1], join);
    }
  }

  function JoinComma(): (Template, Template) -> Template {
    (t, u) => JoinTemplates(t, ", ", u)
  }

  function CommaJoin(): (string, string) -> string {
    (a, b) => a + ", " + b
  }

  lemma MergeNext<V>(ops: seq<Op<V>>, i: nat, join: (V, V) -> V)
    requires i < |ops|
    ensures Merge(ops[..i + 1], join) == MergeOp(Merge(ops[..i], join), ops[i], join)
  {
    assert ops[..i + 1][..i] == ops[..i];
  }

  /** The compiled value of the operation at `i`. */
  function ValueAt(c: CompiledOps, i: nat): Template
    requires c.WellFormed() && i < |c.ops|
  {
    if c.dynamic then c.values[i] else Template(c.ops[i].value, [])
  }

  function AddOp(c: CompiledOps, op: HeaderOp, value: Template): CompiledOps {
    CompiledOps(c.ops + [op], if c.dynamic then c.values + [value] else [], c.dynamic)
  }

  lemma AddMerged(c: CompiledOps, op: HeaderOp, value: Template)
    requires c.WellFormed() && value.raw == op.value && (!c.dynamic ==> value.parts == [])
    ensures AddOp(c, op, value).WellFormed() && AddOp(c, op, value).dynamic == c.dynamic
    ensures Templated(AddOp(c, op, value)) == Templated(c) + [Op(op.name, value, op.mode)]
  {
  }

  function JoinOp(c: CompiledOps, j: nat, value: Template): CompiledOps
    requires c.WellFormed() && j < |c.ops|
  {
    CompiledOps(c.ops[j := c.ops[j].(value := c.ops[j].value + ", " + value.raw)],
                if c.dynamic then c.values[j := JoinTemplates(c.values[j], ", ", value)] else [], c.dynamic)
  }

  lemma JoinMerged(c: CompiledOps, j: nat, value: Template)
    requires c.WellFormed() && j < |c.ops| && (!c.dynamic ==> value.parts == [])
    ensures JoinOp(c, j, value).WellFormed() && JoinOp(c, j, value).dynamic == c.dynamic
    ensures Templated(JoinOp(c, j, value)) ==
            Templated(c)[j := Templated(c)[j].(value := JoinTemplates(Templated(c)[j].value, ", ", value))]
  {
  }

  /** `mergeRepeated`: comma-joins repeated sets of a header within the rule, joining the compiled
      values along with the raw ones. */
  method MergeRepeated(c: CompiledOps) returns (merged: CompiledOps)
    requires c.WellFormed()
    ensures merged.WellFormed() && merged.dynamic == c.dynamic
    ensures Templated(merged) == Merge(Templated(c), JoinComma()).ops
  {
    hide Merge, Templated, NoCommaJoin, JoinTemplates, AddOp, JoinOp;
    ghost var all := Templated(c);
    merged := CompiledOps([], [], c.dynamic);
    var current: map<string, nat> := map[];
    NothingMerged(c.dynamic);
    for i := 0 to |c.ops|
      invariant merged.WellFormed() && merged.dynamic == c.dynamic
      invariant Merge(all[..i], JoinComma()) == Merged(Templated(merged), current)
    {
      var op, value := c.ops[i], ValueAt(c, i);
      MergeInRange(all[..i], JoinComma());
      MergeNext(all, i, JoinComma());
      TemplatedAt(c, i);
      if op.mode == Remove {
        current := current - {op.name};
        AddMerged(merged, op, value);
        merged := AddOp(merged, op, value);
      } else if op.name in current {
        if NoCommaJoin(op.name) {
          AddMerged(merged, op.(mode := Append), value);
          merged := AddOp(merged, op.(mode := Append), value);
        } else {
          JoinMerged(merged, current[op.name], value);
          merged := JoinOp(merged, current[op.name], value);
        }
      } else {
        current := current[op.name := |merged.ops|];
        AddMerged(merged, op, value);
        merged := AddOp(merged, op, value);
      }
    }
    assert all[..|c.ops|] == all;
  }

  lemma NothingMerged(dynamic: bool)
    ensures CompiledOps([], [], dynamic).WellFormed() && Templated(CompiledOps([], [], dynamic)) == []
    ensures Merge([], JoinComma()) == Merged([], map[])
  {
  }

  lemma TemplatedAt(c: CompiledOps, i: nat)
    requires c.WellFormed() && i < |c.ops|
    ensures Templated(c)[i] == Op(c.ops[i].name, ValueAt(c, i), c.ops[i].mode)
    ensures ValueAt(c, i).raw == c.ops[i].value && (!c.dynamic ==> ValueAt(c, i).parts == [])
  {
  }

  // Merging commutes with expanding

  ghost predicate Homomorphism<V(!new), W>(f: V -> W, joinV: (V, V) -> V, joinW: (W, W) -> W) {
    forall a, b :: f(joinV(a, b)) == joinW(f(a), f(b))
  }

  lemma {:induction false} MergeMap<V(!new), W>(ops: seq<Op<V>>, f: V -> W, joinV: (V, V) -> V, joinW: (W, W) -> W)
    requires Homomorphism(f, joinV, joinW)
    ensures var m := Merge(ops, joinV);
            Merge(MapValues(ops, f), joinW) == Merged(MapValues(m.ops, f), m.current)
  {
    if ops == [] {
      assert MapValues(ops, f) == [];
    } else {
      var n := |ops| - 1;
      MergeMap(ops[..n], f, joinV, joinW);
      assert MapValues(ops, f)[..n] == MapValues(ops[..n], f);
      MergeOpMap(Merge(ops[..n], joinV), ops[n], f, joinV, joinW);
    }
  }

  lemma MergeOpMap<V(!new), W>(m: Merged<V>, op: Op<V>, f: V -> W, joinV: (V, V) -> V, joinW: (W, W) -> W)
    requires Homomorphism(f, joinV, joinW)
    ensures var r := MergeOp(m, op, joinV);
            MergeOp(Merged(MapValues(m.ops, f), m.current), Op(op.name, f(op.value), op.mode), joinW) ==
            Merged(MapValues(r.ops, f), r.current)
  {
    hide NoCommaJoin;
    MapValuesAdd(m.ops, op, f);
    MapValuesAdd(m.ops, op.(mode := Append), f);
    if op.name in m.current && m.current[op.name] < |m.ops| {
      var j := m.current[op.name];
      MapValuesUpdate(m.ops, j, joinV(m.ops[j].value, op.value), f);
    }
  }

  lemma MapValuesAdd<V, W>(ops: seq<Op<V>>, op: Op<V>, f: V -> W)
    ensures MapValues(ops + [op], f) == MapValues(ops, f) + [Op(op.name, f(op.value), op.mode)]
  {
  }

  lemma MapValuesUpdate<V, W>(ops: seq<Op<V>>, j: nat, value: V, f: V -> W)
    requires j < |ops|
    ensures MapValues(ops[j := ops[j].(value := value)], f) ==
            MapValues(ops, f)[j := MapValues(ops, f)[j].(value := f(value))]
  {
  }

  lemma ExpanderJoins(values: seq<string>, splat: string)
    ensures Homomorphism(Expander(values, splat), JoinComma(), CommaJoin())
  {
    hide ExpandTemplate, JoinTemplates;
    var f, joinV, joinW := Expander(values, splat), JoinComma(), CommaJoin();
    forall t, u
      ensures f(joinV(t, u)) == joinW(f(t), f(u))
    {
      ExpandJoin(t, ", ", u, values, splat);
    }
  }

  /** Expanding merged operations gives what merging the expanded operations gives. */
  lemma MergeCommutesWithExpansion(c: CompiledOps, merged: CompiledOps, values: seq<string>, splat: string)
    requires c.WellFormed() && merged.WellFormed()
    requires Templated(merged) == Merge(Templated(c), JoinComma()).ops
    ensures Expanded(merged, values, splat) == Merge(Expanded(c, values, splat), CommaJoin()).ops
  {
    hide Merge, Templated, Expander;
    ExpanderJoins(values, splat);
    MergeMap(Templated(c), Expander(values, splat), JoinComma(), CommaJoin());
  }
}
