/** Merging a rule's repeated headers ahead of time gives the lines that applying its operations
    one by one gives. */
module MergeLaws {
  import opened HeaderOps
  import opened HeaderApply

  // Applying a rule's operations one by one to an empty response

  /** A run of values joined the way a response does it: a first line "" counts as absent. */
  function JoinPresent(run: seq<string>): string {
    if run == [] then ""
    else
      var n := |run| - 1;
      var existing := JoinPresent(run[..n]);
      if existing == "" then run[n] else existing + ", " + run[n]
  }

  function PlainLines(name: string, run: seq<string>): seq<string> {
    if NoCommaJoin(name) || run == [] then run else [JoinPresent(run)]
  }

  lemma {:induction false} ApplyPlain(ops: seq<HeaderOp>, name: string)
    requires Parsed(ops)
    ensures LinesOf(Apply(map[], ops, false), name) == PlainLines(name, LastRun(ops, name))
    ensures name in Apply(map[], ops, false) <==> LastRun(ops, name) != []
  {
    if ops != [] {
      var n := |ops| - 1;
      ApplyPlain(ops[..n], name);
      if ops[n].name == name && ops[n].mode == Set {
        PlainStep(LastRun(ops[..n], name), ops[n]);
      }
    }
  }

  lemma PlainStep(run: seq<string>, op: HeaderOp)
    requires op.mode == Set
    ensures LinesAfter(PlainLines(op.name, run), op, false) == PlainLines(op.name, run + [op.value])
  {
    assert (run + [op.value])[..|run|] == run;
  }

  /** Both ways of joining agree exactly when the run does not start with an empty value that a
      later one follows. */
  lemma {:induction false} JoinsAgree(run: seq<string>)
    ensures run != [] && run[0] != "" ==> JoinPresent(run) == JoinAll(run) != ""
    ensures |run| < 2 ==> JoinPresent(run) == JoinAll(run)
    ensures |run| >= 2 && run[0] == "" ==> |JoinPresent(run)| < |JoinAll(run)|
  {
    if run != [] {
      JoinsAgree(run[..|run| - 1]);
    }
  }

  // Applying merged operations

  lemma {:induction false} LastSetWins(h: Lines, ops: seq<HeaderOp>, j: nat, name: string)
    requires j < |ops| && ops[j].name == name && ops[j].mode == Set
    requires forall k :: j < k < |ops| ==> ops[k].name != name
    ensures LinesOf(Apply(h, ops, true), name) == [ops[j].value]
  {
    var n := |ops| - 1;
    if j < n {
      LastSetWins(h, ops[..n], j, name);
    }
  }

  lemma {:induction false} UpdateOther(h: Lines, ops: seq<HeaderOp>, j: nat, value: string, name: string)
    requires j < |ops| && ops[j].name != name
    ensures LinesOf(Apply(h, ops[j := ops[j].(value := value)], true), name) == LinesOf(Apply(h, ops, true), name)
  {
    var n := |ops| - 1;
    var updated := ops[j := ops[j].(value := value)];
    if j < n {
      UpdateOther(h, ops[..n], j, value, name);
      assert updated[..n] == ops[..n][j := ops[j].(value := value)];
    } else {
      assert updated[..n] == ops[..n];
    }
  }

  lemma ApplyLast(h: Lines, ops: seq<HeaderOp>, op: HeaderOp)
    ensures Apply(h, ops + [op], true) == ApplyOp(Apply(h, ops, true), op, true)
  {
    assert (ops + [op])[..|ops|] == ops;
  }

  /** What merging has made of the operations on `name` whose run so far is `run`. */
  ghost predicate Tracks(m: Merged<string>, name: string, run: seq<string>) {
    && CurrentInRange(m)
    && (name in m.current <==> run != [])
    && (run != [] && !NoCommaJoin(name) ==>
          var j := m.current[name];
          && m.ops[j] == Op(name, JoinAll(run), Set)
          && forall k :: j < k < |m.ops| ==> m.ops[k].name != name)
    && forall other :: other in m.current ==> m.ops[m.current[other]].name == other
  }

  lemma {:induction false} MergedTracks(h: Lines, ops: seq<HeaderOp>, name: string)
    requires Parsed(ops)
    ensures var m, run := Merge(ops, CommaJoin()), LastRun(ops, name);
            && Tracks(m, name, run)
            && (Mentions(ops, name) ==> LinesOf(Apply(h, m.ops, true), name) == RunLines(name, run))
            && (!Mentions(ops, name) ==> LinesOf(Apply(h, m.ops, true), name) == LinesOf(h, name) && run == [])
  {
    hide ApplyOp, NoCommaJoin, RunLines;
    if ops != [] {
      var n := |ops| - 1;
      MergedTracks(h, ops[..n], name);
      MentionsStep(ops, name);
      var m, run := Merge(ops[..n], CommaJoin()), LastRun(ops[..n], name);
      if ops[n].name != name {
        OtherStep(h, m, ops[n], name, run);
      } else if ops[n].mode == Remove {
        RemoveStep(h, m, ops[n], run);
      } else {
        SetStep(h, m, ops[n], run);
      }
    } else {
      NoRun(name);
    }
  }

  lemma NoRun(name: string)
    ensures RunLines(name, []) == []
  {
  }

  lemma MentionsStep(ops: seq<HeaderOp>, name: string)
    requires ops != []
    ensures Mentions(ops, name) <==> Mentions(ops[..|ops| - 1], name) || ops[|ops| - 1].name == name
  {
    var n := |ops| - 1;
    assert forall i :: 0 <= i < n ==> ops[..n][i] == ops[i];
  }

  lemma OtherTracks(m: Merged<string>, op: HeaderOp, name: string, run: seq<string>)
    requires Tracks(m, name, run) && op.name != name
    ensures Tracks(MergeOp(m, op, CommaJoin()), name, run)
  {
    hide NoCommaJoin, JoinAll;
  }

  lemma OtherStep(h: Lines, m: Merged<string>, op: HeaderOp, name: string, run: seq<string>)
    requires Tracks(m, name, run) && op.name != name
    ensures var r := MergeOp(m, op, CommaJoin());
            Tracks(r, name, run) && LinesOf(Apply(h, r.ops, true), name) == LinesOf(Apply(h, m.ops, true), name)
  {
    hide Apply, NoCommaJoin, JoinAll, Tracks;
    OtherTracks(m, op, name, run);
    ApplyLast(h, m.ops, op);
    ApplyLast(h, m.ops, op.(mode := Append));
    OwnCurrent(m, op, name, run);
    if op.name in m.current {
      var j := m.current[op.name];
      UpdateOther(h, m.ops, j, m.ops[j].value + ", " + op.value, name);
    }
  }

  lemma OwnCurrent(m: Merged<string>, op: HeaderOp, name: string, run: seq<string>)
    requires Tracks(m, name, run)
    ensures op.name in m.current ==> m.current[op.name] < |m.ops| && m.ops[m.current[op.name]].name == op.name
  {
  }

  lemma RemoveStep(h: Lines, m: Merged<string>, op: HeaderOp, run: seq<string>)
    requires Tracks(m, op.name, run) && op.mode == Remove
    ensures var r := MergeOp(m, op, CommaJoin());
            Tracks(r, op.name, []) && LinesOf(Apply(h, r.ops, true), op.name) == RunLines(op.name, [])
  {
    hide Apply, NoCommaJoin, JoinAll;
    ApplyLast(h, m.ops, op);
  }

  lemma SetStep(h: Lines, m: Merged<string>, op: HeaderOp, run: seq<string>)
    requires Tracks(m, op.name, run) && op.mode == Set
    requires run != [] ==> LinesOf(Apply(h, m.ops, true), op.name) == RunLines(op.name, run)
    ensures var r := MergeOp(m, op, CommaJoin());
            && Tracks(r, op.name, run + [op.value])
            && LinesOf(Apply(h, r.ops, true), op.name) == RunLines(op.name, run + [op.value])
  {
    hide Apply;
    var r := MergeOp(m, op, CommaJoin());
    assert (run + [op.value])[..|run|] == run;
    if run == [] {
      ApplyLast(h, m.ops, op);
    } else if NoCommaJoin(op.name) {
      ApplyLast(h, m.ops, op.(mode := Append));
    } else {
      LastSetWins(h, r.ops, m.current[op.name], op.name);
    }
  }

  /** Overwriting with a rule's merged operations, whatever the response held before, gives the
      lines of every header the rule mentions exactly as its operations give them one by one in
      an empty response, unless its last run of values starts with "" and goes on. Other headers
      stay as they are. */
  lemma MergedRuleAlone(h: Lines, ops: seq<HeaderOp>, name: string)
    requires Parsed(ops)
    ensures var after, alone := Apply(h, Merge(ops, CommaJoin()).ops, true), Apply(map[], ops, false);
            && (!Mentions(ops, name) ==> LinesOf(after, name) == LinesOf(h, name))
            && (Mentions(ops, name) ==>
                  (LinesOf(after, name) == LinesOf(alone, name) <==> StartsPresent(name, LastRun(ops, name))))
  {
    hide Apply, Merge, LastRun;
    MergedTracks(h, ops, name);
    ApplyPlain(ops, name);
    JoinsAgree(LastRun(ops, name));
  }

  // Which header has lines of its own

  /** Cookies are never joined: the response has one line for every value set since the last removal,
      whether the operations are applied one by one or merged ahead of time. */
  lemma CookieLines(h: Lines, ops: seq<HeaderOp>)
    requires Parsed(ops)
    ensures LinesOf(Apply(map[], ops, false), "Set-Cookie") == LastRun(ops, "Set-Cookie")
    ensures Mentions(ops, "Set-Cookie") ==>
              LinesOf(Apply(h, Merge(ops, CommaJoin()).ops, true), "Set-Cookie") == LastRun(ops, "Set-Cookie")
  {
    hide Apply, Merge, LastRun;
    ApplyPlain(ops, "Set-Cookie");
    MergedTracks(h, ops, "Set-Cookie");
  }

  /** Values with ", " between them. */
  function CommaList(values: seq<string>): string {
    if values == [] then "" else if |values| == 1 then values[0] else values[0] + ", " + CommaList(values[1..])
  }

  /** Every other header has at most one line, the values set since the last removal with commas between
      them; where the operations are applied one by one, empty values in front leave no trace. */
  lemma OneLine(h: Lines, ops: seq<HeaderOp>, name: string)
    requires Parsed(ops) && name != "Set-Cookie"
    ensures var (run, alone, merged) := (LastRun(ops, name), LinesOf(Apply(map[], ops, false), name),
                                         LinesOf(Apply(h, Merge(ops, CommaJoin()).ops, true), name));
            && alone == (if run == [] then [] else [CommaList(WithoutBlanks(run))])
            && (Mentions(ops, name) ==> merged == if run == [] then [] else [CommaList(run)])
  {
    hide Apply, Merge, LastRun;
    ApplyPlain(ops, name);
    MergedTracks(h, ops, name);
    ListsAre(LastRun(ops, name));
  }

  /** The values without the empty ones that others follow at the start. */
  function WithoutBlanks(run: seq<string>): seq<string> {
    if |run| >= 2 && run[0] == "" then WithoutBlanks(run[1..]) else run
  }

  lemma {:induction false} ListSnoc(run: seq<string>, v: string)
    requires run != []
    ensures CommaList(run + [v]) == CommaList(run) + ", " + v
  {
    assert (run + [v])[1..] == run[1..] + [v];
    if |run| > 1 {
      ListSnoc(run[1..], v);
      assert run[0] + ", " + (CommaList(run[1..]) + ", " + v) == run[0] + ", " + CommaList(run[1..]) + ", " + v;
    } else {
      assert run[1..] + [v] == [v];
    }
  }

  lemma {:induction false} BlanksSnoc(run: seq<string>, v: string)
    requires run != []
    ensures WithoutBlanks(run) != []
    ensures WithoutBlanks(run + [v]) == if WithoutBlanks(run) == [""] then [v] else WithoutBlanks(run) + [v]
  {
    assert (run + [v])[1..] == run[1..] + [v];
    if |run| >= 2 && run[0] == "" {
      BlanksSnoc(run[1..], v);
    } else if |run| == 1 {
      assert run[1..] + [v] == [v];
    }
  }

  lemma {:induction false} PresentUnlessBlank(run: seq<string>)
    ensures run != [] ==> WithoutBlanks(run) != [] && (CommaList(WithoutBlanks(run)) == "" <==> WithoutBlanks(run) == [""])
  {
    if |run| >= 2 && run[0] == "" {
      PresentUnlessBlank(run[1..]);
    }
  }

  lemma {:induction false} ListsAre(run: seq<string>)
    ensures run != [] ==> JoinAll(run) == CommaList(run) && JoinPresent(run) == CommaList(WithoutBlanks(run))
  {
    if |run| > 1 {
      var n := |run| - 1;
      var front := run[..n];
      assert run == front + [run[n]];
      ListsAre(front);
      ListSnoc(front, run[n]);
      BlanksSnoc(front, run[n]);
      PresentUnlessBlank(front);
      if WithoutBlanks(front) != [""] {
        ListSnoc(WithoutBlanks(front), run[n]);
      }
    } else if |run| == 1 {
      assert run[..0] == [];
    }
  }

  const EMPTY_FIRST: seq<HeaderOp> := [Op("X", "", Set), Op("X", "a", Set)]

  /** A header set to "" and then to "a": alone, the response has the line "a"; merged, ", a". */
  lemma EmptyFirstExample()
    ensures Parsed(EMPTY_FIRST) && Mentions(EMPTY_FIRST, "X") && !StartsPresent("X", LastRun(EMPTY_FIRST, "X"))
    ensures LinesOf(Apply(map[], EMPTY_FIRST, false), "X") == ["a"]
    ensures LinesOf(Apply(map[], Merge(EMPTY_FIRST, CommaJoin()).ops, true), "X") == [", a"]
  {
    hide Apply, Merge, LastRun;
    EmptyFirstRun();
    EmptyFirstMerged();
    ApplyPlain(EMPTY_FIRST, "X");
    assert EMPTY_FIRST[0].name == "X";
    assert |"X"| != |"Set-Cookie"|;
    assert ["", "a"][..1] == [""] && [""][..0] == [];
    LastSetWins(map[], [Op("X", ", a", Set)], 0, "X");
  }

  lemma EmptyFirstRun()
    ensures LastRun(EMPTY_FIRST, "X") == ["", "a"]
  {
    var first := EMPTY_FIRST[..1];
    assert first == [EMPTY_FIRST[0]] && first[..0] == [];
    assert LastRun(first, "X") == [""];
  }

  lemma EmptyMergedFirst()
    ensures Merge(EMPTY_FIRST[..1], CommaJoin()) == Merged([Op("X", "", Set)], map["X" := 0])
  {
    hide Merge;
    assert Merge(EMPTY_FIRST[..0], CommaJoin()) == Merged([], map[]) by { JoinNothing(); }
    MergeNext(EMPTY_FIRST, 0, CommaJoin());
  }

  lemma JoinNothing()
    ensures EMPTY_FIRST[..0] == [] && Merge<string>([], CommaJoin()) == Merged([], map[])
  {
  }

  lemma EmptyFirstMerged()
    ensures Merge(EMPTY_FIRST, CommaJoin()).ops == [Op("X", ", a", Set)]
  {
    hide Merge;
    EmptyMergedFirst();
    MergeNext(EMPTY_FIRST, 1, CommaJoin());
    assert EMPTY_FIRST[..2] == EMPTY_FIRST;
    assert |"X"| != |"Set-Cookie"|;
    assert "" + ", " + "a" == ", a";
    assert [EMPTY_FIRST[0]][0 := Op("X", ", a", Set)] == [Op("X", ", a", Set)];
  }
}
