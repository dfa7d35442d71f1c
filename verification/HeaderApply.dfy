/** Applying header operations to a response, and what merging does to the outcome. */
module HeaderApply {
  import opened HeaderOps

  /** Header lines by canonical name; a name without lines is absent. */
  type Lines = map<string, seq<string>>

  function LinesOf(h: Lines, name: string): seq<string> {
    if name in h then h[name] else []
  }

  /** `http.Header`. */
  class Header {
    var lines: Lines

    constructor ()
      ensures lines == map[]
    {
      lines := map[];
    }

    /** The first line of a header, or "". */
    function Get(name: string): string
      reads this
    {
      var values := LinesOf(lines, name);
      if values == [] then "" else values[0]
    }

    method Put(name: string, value: string)
      modifies this
      ensures lines == old(lines)[name := [value]]
    {
      lines := lines[name := [value]];
    }

    method Add(name: string, value: string)
      modifies this
      ensures lines == old(lines)[name := LinesOf(old(lines), name) + [value]]
    {
      lines := lines[name := LinesOf(lines, name) + [value]];
    }

    method Del(name: string)
      modifies this
      ensures lines == old(lines) - {name}
    {
      lines := lines - {name};
    }
  }

  /** The lines of the operation's own header after it. */
  function LinesAfter(values: seq<string>, op: HeaderOp, dedup: bool): seq<string> {
    match op.mode
    case Remove => []
    case Append => values + [op.value]
    case Set =>
      if dedup then [op.value]
      else if NoCommaJoin(op.name) then values + [op.value]
      else if values == [] || values[0] == "" then [op.value]
      else [values[0] + ", " + op.value]
  }

  function ApplyOp(h: Lines, op: HeaderOp, dedup: bool): Lines {
    if op.mode == Remove then h - {op.name}
    else h[op.name := LinesAfter(LinesOf(h, op.name), op, dedup)]
  }

  function Apply(h: Lines, ops: seq<HeaderOp>, dedup: bool): Lines {
    if ops == [] then h
    else ApplyOp(Apply(h, ops[..|ops| - 1], dedup), ops[|ops| - 1], dedup)
  }

  /** `applyHeaders`. */
  method ApplyHeaders(headers: Header, ops: seq<HeaderOp>, dedup: bool)
    modifies headers
    ensures headers.lines == Apply(old(headers.lines), ops, dedup)
  {
    for i := 0 to |ops|
      invariant headers.lines == Apply(old(headers.lines), ops[..i], dedup)
    {
      var op := ops[i];
      assert ops[..i + 1][..i] == ops[..i];
      match op.mode {
        case Set =>
          if dedup {
            headers.Put(op.name, op.value);
          } else if NoCommaJoin(op.name) {
            headers.Add(op.name, op.value);
          } else {
            var existing := headers.Get(op.name);
            if existing == "" {
              headers.Put(op.name, op.value);
            } else {
              headers.Put(op.name, existing + ", " + op.value);
            }
          }
        case Remove =>
          headers.Del(op.name);
        case Append =>
          headers.Add(op.name, op.value);
      }
    }
    assert ops[..|ops|] == ops;
  }

  // One rule at a time

  predicate Mentions(ops: seq<HeaderOp>, name: string) {
    exists i :: 0 <= i < |ops| && ops[i].name == name
  }

  /** The values that the operations set for a header since they last removed it. */
  function LastRun(ops: seq<HeaderOp>, name: string): seq<string> {
    if ops == [] then []
    else
      var n := |ops| - 1;
      if ops[n].name != name then LastRun(ops[..n], name)
      else if ops[n].mode == Remove then []
      else LastRun(ops[..n], name) + [ops[n].value]
  }

  function JoinAll(values: seq<string>): string {
    if values == [] then ""
    else if |values| == 1 then values[0]
    else JoinAll(values[..|values| - 1]) + ", " + values[|values| - 1]
  }

  /** The lines that a run of values gives a header. */
  function RunLines(name: string, run: seq<string>): seq<string> {
    if NoCommaJoin(name) || run == [] then run else [JoinAll(run)]
  }

  /** What the parser produces: sets and removals. */
  predicate Parsed(ops: seq<HeaderOp>) {
    forall i :: 0 <= i < |ops| ==> ops[i].mode != Append
  }

  /** Joining a run starts with a value that the response would show as present. */
  predicate StartsPresent(name: string, run: seq<string>) {
    NoCommaJoin(name) || |run| < 2 || run[0] != ""
  }

  lemma {:induction false} ApplyOthers(h: Lines, ops: seq<HeaderOp>, dedup: bool, name: string)
    requires !Mentions(ops, name)
    ensures LinesOf(Apply(h, ops, dedup), name) == LinesOf(h, name)
    ensures name in Apply(h, ops, dedup) <==> name in h
  {
    if ops != [] {
      var n := |ops| - 1;
      assert ops[n].name != name;
      assert forall i :: 0 <= i < n ==> ops[..n][i] == ops[i];
      ApplyOthers(h, ops[..n], dedup, name);
    }
  }

  lemma {:induction false} ApplyConcat(h: Lines, xs: seq<HeaderOp>, ys: seq<HeaderOp>, dedup: bool)
    ensures Apply(h, xs + ys, dedup) == Apply(Apply(h, xs, dedup), ys, dedup)
  {
    if ys == [] {
      assert xs + ys == xs;
    } else {
      var n := |ys| - 1;
      assert (xs + ys)[..|xs| + n] == xs + ys[..n];
      ApplyConcat(h, xs, ys[..n], dedup);
    }
  }
}
