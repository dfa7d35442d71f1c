/** Reloading a file that may be written at any moment: stat, load, stat again. */
module Reload {
  import opened Paths

  /** What distinguishes versions of a file: its identity, size and modification time. */
  datatype Version = Version(identity: nat, size: nat, mtime: int)

  /** The compiled rules of a file. */
  type Rules = string

  /** The rules that loading each version gives: a file with the same stamp has the same content. */
  type RulesOf = Version -> Rules

  /** The file at the path; `Unreadable` when it cannot be inspected for another reason than that
      it does not exist. */
  datatype File = Missing | Unreadable | Present(version: Version)

  /** What a load read: a version from start to end, or text that changed under it. */
  datatype Origin = Whole(version: Version) | Disturbed

  /** Where a check of the file stands; it holds the handler's lock. */
  datatype Stage =
    | Idle
    | Statted(info: Version, force: bool)
    | Loading(info: Version, dirty: bool)
    | Loaded(info: Version, data: Rules, origin: Origin)

  /** The cached file and the file itself; `origin` is what the load of the cached rules read. */
  datatype State = State(
    data: Option<Rules>,
    loaded: Option<Version>,
    lastErr: string,
    stage: Stage,
    file: File,
    origin: Origin)

  datatype Outcome = Failed(error: string) | Read(data: Rules)

  /** A write changes the file to anything, also back to a version that it had before. */
  datatype Step =
    | Write(file: File)
    | Stat(force: bool, error: string)
    | Decide
    | FinishLoad(outcome: Outcome)
    | Confirm

  ghost predicate Initial(s: State) {
    s.data.None? && s.loaded.None? && s.lastErr == "" && s.stage.Idle?
  }

  /** `fileChanged`. */
  predicate FileChanged(loaded: Option<Version>, info: Version) {
    || loaded.None?
    || loaded.value.identity != info.identity
    || loaded.value.size != info.size
    || loaded.value.mtime != info.mtime
  }

  /** A load that no write disturbs fails or reads the file as it is; another may read anything. */
  ghost predicate CanStep(s: State, step: Step, rules: RulesOf) {
    match step
    case Write(_) => true
    case Stat(_, _) => s.stage.Idle?
    case Decide => s.stage.Statted?
    case FinishLoad(outcome) =>
      s.stage.Loading? &&
      (!s.stage.dirty && outcome.Read? ==> s.file.Present? && outcome.data == rules(s.file.version))
    case Confirm => s.stage.Loaded?
  }

  /** `logLoadErrorLocked`. */
  function LogError(s: State, error: string): State {
    if error == s.lastErr then s else s.(lastErr := error)
  }

  /** Whether a check leaves the cached rules as they are. */
  predicate Skips(s: State, info: Version, force: bool) {
    !force && s.data.Some? && s.lastErr == "" && !FileChanged(s.loaded, info)
  }

  function OriginNow(s: State): Origin {
    if s.stage.Loading? && !s.stage.dirty && s.file.Present? then Whole(s.file.version) else Disturbed
  }

  ghost function After(s: State, step: Step, rules: RulesOf): State
    requires CanStep(s, step, rules)
  {
    match step
    case Write(file) =>
      s.(file := file, stage := if s.stage.Loading? then s.stage.(dirty := true) else s.stage)
    case Stat(force, error) => (
      match s.file
      case Missing => s.(data := None, lastErr := "")
      case Unreadable => LogError(s, error)
      case Present(info) => s.(stage := Statted(info, force)))
    case Decide =>
      if Skips(s, s.stage.info, s.stage.force) then s.(stage := Idle)
      else s.(stage := Loading(s.stage.info, false))
    case FinishLoad(Failed(error)) => LogError(s, error).(stage := Idle)
    case FinishLoad(Read(data)) => s.(stage := Loaded(s.stage.info, data, OriginNow(s)))
    case Confirm =>
      if !s.file.Present? || FileChanged(Some(s.stage.info), s.file.version) then
        if s.data.None? then
          s.(data := Some(s.stage.data), lastErr := "", origin := s.stage.origin, stage := Idle)
        else s.(stage := Idle)
      else
        s.(data := Some(s.stage.data), loaded := Some(s.stage.info), lastErr := "", origin := s.stage.origin, stage := Idle)
  }

  ghost predicate CanRun(s: State, steps: seq<Step>, rules: RulesOf)
    decreases |steps|
  {
    steps == [] || (CanStep(s, steps[0], rules) && CanRun(After(s, steps[0], rules), steps[1..], rules))
  }

  ghost function Run(s: State, steps: seq<Step>, rules: RulesOf): State
    requires CanRun(s, steps, rules)
    decreases |steps|
  {
    if steps == [] then s else Run(After(s, steps[0], rules), steps[1..], rules)
  }

  // Over every run

  /** Rules that come from a whole version are that version's. */
  ghost predicate Faithful(data: Rules, origin: Origin, rules: RulesOf) {
    origin.Whole? ==> data == rules(origin.version)
  }

  ghost predicate Inv(s: State, rules: RulesOf) {
    && (s.data.Some? ==> Faithful(s.data.value, s.origin, rules))
    && (s.stage.Loaded? ==> Faithful(s.stage.data, s.stage.origin, rules))
  }

  lemma StepKeeps(s: State, step: Step, rules: RulesOf)
    requires Inv(s, rules) && CanStep(s, step, rules)
    ensures Inv(After(s, step, rules), rules)
  {
  }

  lemma {:induction false} RunKeeps(s: State, steps: seq<Step>, rules: RulesOf)
    requires Inv(s, rules) && CanRun(s, steps, rules)
    ensures Inv(Run(s, steps, rules), rules)
    decreases |steps|
  {
    hide CanStep, After, Inv;
    if steps != [] {
      StepKeeps(s, steps[0], rules);
      RunKeeps(After(s, steps[0], rules), steps[1..], rules);
    }
  }

  ghost predicate Reachable(s: State, rules: RulesOf) {
    exists s0, steps :: Initial(s0) && CanRun(s0, steps, rules) && s == Run(s0, steps, rules)
  }

  lemma ReachableSound(s: State, rules: RulesOf)
    requires Reachable(s, rules)
    ensures Inv(s, rules)
  {
    hide CanRun, Run;
    var s0, steps :| Initial(s0) && CanRun(s0, steps, rules) && s == Run(s0, steps, rules);
    RunKeeps(s0, steps, rules);
  }

  ghost predicate OnlyWrites(steps: seq<Step>) {
    forall i :: 0 <= i < |steps| ==> steps[i].Write?
  }

  /** `t` is `s` after the file has been written some times. */
  ghost predicate Drifted(s: State, t: State) {
    && CachedIn(t) == CachedIn(s) && t.origin == s.origin
    && t.stage == if s.stage.Loading? then Loading(s.stage.info, t.stage.Loading? && t.stage.dirty) else s.stage
  }

  lemma {:induction false} WritesDrift(s: State, writes: seq<Step>, rules: RulesOf)
    requires OnlyWrites(writes) && CanRun(s, writes, rules)
    ensures Drifted(s, Run(s, writes, rules))
    decreases |writes|
  {
    if writes != [] {
      assert forall i :: 0 <= i < |writes[1..]| ==> writes[1..][i] == writes[i + 1];
      WritesDrift(After(s, writes[0], rules), writes[1..], rules);
    }
  }

  /** The load of the cached rules read the recorded version, and nothing but it. */
  predicate CleanlyLoaded(s: State) {
    s.loaded.Some? && s.origin == Whole(s.loaded.value)
  }

  /** In every run, whatever is written and whatever stamps come back: when the cached rules were
      cleanly loaded, a check that skips loading leaves exactly the rules of the version it found,
      whatever was written since; they are the file's current ones if nothing was. */
  lemma SkipServesCurrent(s: State, v: Version, error: string, writes: seq<Step>, rules: RulesOf)
    requires Reachable(s, rules) && s.stage.Idle? && s.file == Present(v) && CleanlyLoaded(s)
    requires OnlyWrites(writes) && CanRun(After(s, Stat(false, error), rules), writes, rules)
    ensures var t := Run(After(s, Stat(false, error), rules), writes, rules);
            && t.stage == Statted(v, false)
            && (Skips(t, v, false) ==>
                  && After(t, Decide, rules).data == Some(rules(v))
                  && (t.file == Present(v) ==> After(t, Decide, rules).data == Some(rules(t.file.version))))
  {
    hide Reachable, CanRun, Run;
    ReachableSound(s, rules);
    WritesDrift(After(s, Stat(false, error), rules), writes, rules);
  }

  /** A check during which the file neither changes nor fails to load ends with its rules, cleanly
      loaded, unless it skips loading. A forced check never skips. */
  lemma StableCheckLoads(s: State, v: Version, force: bool, error: string, outcome: Outcome, rules: RulesOf)
    requires Reachable(s, rules) && s.stage.Idle? && s.file == Present(v)
    ensures var decided := After(After(s, Stat(force, error), rules), Decide, rules);
            && (force ==> decided.stage.Loading?)
            && (decided.stage.Idle? ==> (CleanlyLoaded(s) ==> decided.data == Some(rules(v))) && decided == s && s.lastErr == "")
            && (decided.stage.Loading? && outcome.Read? && CanStep(decided, FinishLoad(outcome), rules) ==>
                  var done := After(After(decided, FinishLoad(outcome), rules), Confirm, rules);
                  && done.stage.Idle? && done.data == Some(rules(v)) && done.loaded == Some(v) && done.lastErr == ""
                  && CleanlyLoaded(done))
  {
    hide Reachable;
    ReachableSound(s, rules);
  }

  /** A failure to inspect or to load the file leaves the rules that are served, and the next check that finds the
      file loads it, whether it has changed or not. */
  lemma FailuresRetried(s: State, step: Step, v: Version, force: bool, error: string, rules: RulesOf)
    requires CanStep(s, step, rules)
    requires || (step.Stat? && s.file.Unreadable? && step.error != "")
             || (step.FinishLoad? && step.outcome.Failed? && step.outcome.error != "")
    ensures var r := After(s, step, rules);
            && r.data == s.data && r.loaded == s.loaded && r.origin == s.origin && r.stage.Idle?
            && After(After(r.(file := Present(v)), Stat(force, error), rules), Decide, rules).stage.Loading?
  {
  }

  /** Once a load has succeeded there are rules to serve: those that were there, or the ones read, and these
      always if there were none. */
  lemma LoadServes(s: State, rules: RulesOf)
    requires CanStep(s, Confirm, rules)
    ensures var r := After(s, Confirm, rules);
            && r.data.Some? && (r.data == s.data || r.data == Some(s.stage.data))
            && (s.data.None? ==> r.data == Some(s.stage.data) && r.lastErr == "")
  {
  }

  /** Cached rules are only ever dropped when the file is found missing, and only ever replaced when
      the check found the same version before and after its load; they are the file's when the load
      was clean. */
  lemma RulesKept(s: State, step: Step, rules: RulesOf)
    requires Reachable(s, rules) && CanStep(s, step, rules) && s.data.Some?
    ensures var r := After(s, step, rules);
            && (r.data.None? ==> step.Stat? && s.file.Missing?)
            && (r.data.Some? && r.data != s.data ==>
                  && step.Confirm? && s.file == Present(s.stage.info) && r.loaded == Some(s.stage.info)
                  && (CleanlyLoaded(r) ==> r.data == Some(rules(s.file.version))))
  {
    hide Reachable;
    ReachableSound(s, rules);
  }

  /** Rules that disappear in the course of a run were dropped by a check that found no file. */
  lemma {:induction false} DroppedOnlyWhenMissing(s: State, steps: seq<Step>, rules: RulesOf) returns (i: nat)
    requires CanRun(s, steps, rules) && s.data.Some? && Run(s, steps, rules).data.None?
    ensures i < |steps| && steps[i].Stat?
    ensures CanRun(s, steps[..i], rules) && Run(s, steps[..i], rules).file.Missing?
    decreases |steps|
  {
    var next := After(s, steps[0], rules);
    if next.data.None? {
      i := 0;
    } else {
      var j := DroppedOnlyWhenMissing(next, steps[1..], rules);
      i := j + 1;
      assert steps[..i][1..] == steps[1..][..j];
    }
  }

  // When the condition holds

  /** Every write gives the file a version that is not in `seen` and that no other write gives it. */
  ghost predicate NeverRecurs(steps: seq<Step>, seen: set<Version>)
    decreases |steps|
  {
    steps == [] ||
    if steps[0].Write? && steps[0].file.Present? then
      steps[0].file.version !in seen && NeverRecurs(steps[1..], seen + {steps[0].file.version})
    else NeverRecurs(steps[1..], seen)
  }

  /** A version that the file had and that it does not have now. */
  ghost predicate Gone(s: State, v: Version, seen: set<Version>) {
    v in seen && s.file != Present(v)
  }

  /** With stamps that never recur: what is recorded was cleanly loaded, or is gone for good. */
  ghost predicate FreshInv(s: State, seen: set<Version>) {
    && (s.file.Present? ==> s.file.version in seen)
    && (s.loaded.Some? ==> s.loaded.value in seen && ((s.data.Some? && CleanlyLoaded(s)) || Gone(s, s.loaded.value, seen)))
    && match s.stage
       case Idle => true
       case Statted(info, _) => info in seen && (s.loaded == Some(info) && s.data.Some? ==> CleanlyLoaded(s))
       case Loading(info, dirty) => info in seen && (s.file == Present(info) ==> !dirty)
       case Loaded(info, _, origin) => info in seen && (s.file == Present(info) ==> origin == Whole(info))
  }

  function SeenAfter(step: Step, seen: set<Version>): set<Version> {
    if step.Write? && step.file.Present? then seen + {step.file.version} else seen
  }

  lemma FreshStep(s: State, step: Step, seen: set<Version>, rules: RulesOf)
    requires FreshInv(s, seen) && CanStep(s, step, rules)
    requires step.Write? && step.file.Present? ==> step.file.version !in seen
    ensures FreshInv(After(s, step, rules), SeenAfter(step, seen))
  {
  }

  lemma {:induction false} FreshRun(s: State, steps: seq<Step>, seen: set<Version>, rules: RulesOf) returns (now: set<Version>)
    requires FreshInv(s, seen) && CanRun(s, steps, rules) && NeverRecurs(steps, seen)
    ensures FreshInv(Run(s, steps, rules), now)
    decreases |steps|
  {
    hide CanStep, After, FreshInv;
    now := seen;
    if steps != [] {
      FreshStep(s, steps[0], seen, rules);
      now := FreshRun(After(s, steps[0], rules), steps[1..], SeenAfter(steps[0], seen), rules);
    }
  }

  /** In a run in which no stamp recurs, whenever a check finds the recorded version, the cached rules
      were cleanly loaded. */
  lemma FreshRunsAreClean(s0: State, steps: seq<Step>, seen: set<Version>, rules: RulesOf)
    requires Initial(s0) && (s0.file.Present? ==> s0.file.version in seen)
    requires CanRun(s0, steps, rules) && NeverRecurs(steps, seen)
    ensures var s := Run(s0, steps, rules);
            s.stage.Idle? && s.data.Some? && s.file.Present? && s.loaded == Some(s.file.version) ==> CleanlyLoaded(s)
  {
    hide CanRun, Run;
    var now := FreshRun(s0, steps, seen, rules);
  }

  /** No write happens while a check is under way. */
  ghost predicate Undisturbed(s: State, steps: seq<Step>, rules: RulesOf)
    requires CanRun(s, steps, rules)
    decreases |steps|
  {
    steps == [] || ((steps[0].Write? ==> s.stage.Idle?) && Undisturbed(After(s, steps[0], rules), steps[1..], rules))
  }

  ghost predicate CalmInv(s: State) {
    && (s.data.Some? ==> CleanlyLoaded(s))
    && match s.stage
       case Idle => true
       case Statted(info, _) => s.file == Present(info)
       case Loading(info, dirty) => s.file == Present(info) && !dirty
       case Loaded(info, _, origin) => s.file == Present(info) && origin == Whole(info)
  }

  /** In a run in which no write falls into a check, the cached rules are always cleanly loaded, also
      when stamps recur: a file that is renamed away and back is fine. */
  lemma {:induction false} CalmRunsAreClean(s: State, steps: seq<Step>, rules: RulesOf)
    requires CalmInv(s) && CanRun(s, steps, rules) && Undisturbed(s, steps, rules)
    ensures CalmInv(Run(s, steps, rules))
    decreases |steps|
  {
    if steps != [] {
      CalmRunsAreClean(After(s, steps[0], rules), steps[1..], rules);
    }
  }

  // Exactly when a skip is right

  /** The run with other contents of the file's versions: undisturbed loads read those, disturbed ones
      read `other`. */
  ghost function Replay(s: State, steps: seq<Step>, rules: RulesOf, contents: RulesOf, other: Rules): (r: seq<Step>)
    requires CanRun(s, steps, rules)
    ensures |r| == |steps|
    decreases |steps|
  {
    if steps == [] then []
    else [ReplayStep(s, steps[0], contents, other)] + Replay(After(s, steps[0], rules), steps[1..], rules, contents, other)
  }

  ghost function ReplayStep(s: State, step: Step, contents: RulesOf, other: Rules): Step {
    if step.FinishLoad? && step.outcome.Read? then FinishLoad(Read(Content(OriginNow(s), contents, other))) else step
  }

  function Content(origin: Origin, contents: RulesOf, other: Rules): Rules {
    if origin.Whole? then contents(origin.version) else other
  }

  /** `t` is `s` with those contents: everything but the rules themselves is the same. */
  ghost predicate Mirrors(s: State, t: State, contents: RulesOf, other: Rules) {
    && t == s.(data := t.data, stage := t.stage)
    && (s.data.Some? <==> t.data.Some?) && (t.data.Some? ==> t.data.value == Content(s.origin, contents, other))
    && if s.stage.Loaded? then t.stage == s.stage.(data := Content(s.stage.origin, contents, other)) else t.stage == s.stage
  }

  lemma MirrorStep(s: State, t: State, step: Step, rules: RulesOf, contents: RulesOf, other: Rules)
    requires CanStep(s, step, rules) && Mirrors(s, t, contents, other)
    ensures var replayed := ReplayStep(s, step, contents, other);
            CanStep(t, replayed, contents) && Mirrors(After(s, step, rules), After(t, replayed, contents), contents, other)
  {
  }

  lemma {:induction false} MirrorRun(s: State, t: State, steps: seq<Step>, rules: RulesOf, contents: RulesOf, other: Rules)
    requires CanRun(s, steps, rules) && Mirrors(s, t, contents, other)
    ensures var replayed := Replay(s, steps, rules, contents, other);
            && CanRun(t, replayed, contents)
            && Mirrors(Run(s, steps, rules), Run(t, replayed, contents), contents, other)
    decreases |steps|
  {
    hide CanStep, After, ReplayStep, Mirrors;
    if steps != [] {
      var next, step := After(s, steps[0], rules), ReplayStep(s, steps[0], contents, other);
      MirrorStep(s, t, steps[0], rules, contents, other);
      MirrorRun(next, After(t, step, contents), steps[1..], rules, contents, other);
      var rest := Replay(next, steps[1..], rules, contents, other);
      assert Replay(s, steps, rules, contents, other) == [step] + rest;
      assert ([step] + rest)[1..] == rest;
    }
  }

  /** What the run would leave cached under the given contents. */
  ghost function CachedUnder(s0: State, steps: seq<Step>, rules: RulesOf, contents: RulesOf, other: Rules): Option<Rules>
    requires Initial(s0) && CanRun(s0, steps, rules)
  {
    MirrorRun(s0, s0, steps, rules, contents, other);
    Run(s0, Replay(s0, steps, rules, contents, other), contents).data
  }

  /** After any run with rules cached for version `v`: a check that finds `v` is right to skip loading,
      whatever the file's versions contain and whatever disturbed loads read, exactly when the cached
      rules were cleanly loaded. */
  lemma SkipRightIff(s0: State, steps: seq<Step>, rules: RulesOf, v: Version)
    requires Initial(s0) && CanRun(s0, steps, rules)
    requires var s := Run(s0, steps, rules); s.data.Some? && s.loaded == Some(v)
    ensures CleanlyLoaded(Run(s0, steps, rules)) <==>
            forall contents: RulesOf, other ::
              CachedUnder(s0, steps, rules, contents, other) == Some(contents(v))
  {
    hide CanRun, Run, Replay;
    var s := Run(s0, steps, rules);
    forall contents: RulesOf, other
      ensures CachedUnder(s0, steps, rules, contents, other) == Some(Content(s.origin, contents, other))
    {
      MirrorRun(s0, s0, steps, rules, contents, other);
    }
    if !CleanlyLoaded(s) {
      var contents: RulesOf := w => if w == v then "a" else "b";
      assert CachedUnder(s0, steps, rules, contents, "b") == Some("b") != Some(contents(v));
    }
  }

  /** And when they were not, some contents and one more write make the next check keep rules that are
      not the file's: the file gets the recorded version back, the check finds it and skips loading. */
  lemma WrongSkipFollows(s0: State, steps: seq<Step>, rules: RulesOf, v: Version)
    returns (contents: RulesOf, other: Rules, run: seq<Step>)
    requires Initial(s0) && CanRun(s0, steps, rules)
    requires var s := Run(s0, steps, rules);
             s.stage.Idle? && s.data.Some? && s.lastErr == "" && s.loaded == Some(v) && !CleanlyLoaded(s)
    ensures run == Replay(s0, steps, rules, contents, other) + [Write(Present(v)), Stat(false, ""), Decide]
    ensures CanRun(s0, run, contents)
    ensures var t := Run(s0, run, contents);
            t.stage.Idle? && t.file == Present(v) && t.data.Some? && t.data != Some(contents(v))
  {
    hide CanRun, Run, Replay, CanStep, After;
    contents, other := w => if w == v then "a" else "b", "b";
    var replayed := Replay(s0, steps, rules, contents, other);
    MirrorRun(s0, s0, steps, rules, contents, other);
    run := ThenSkip(s0, replayed, v, contents);
  }

  lemma ThenSkip(s0: State, steps: seq<Step>, v: Version, rules: RulesOf) returns (run: seq<Step>)
    requires CanRun(s0, steps, rules)
    requires var s := Run(s0, steps, rules); s.stage.Idle? && s.data.Some? && s.lastErr == "" && s.loaded == Some(v)
    ensures run == steps + [Write(Present(v)), Stat(false, ""), Decide] && CanRun(s0, run, rules)
    ensures Run(s0, run, rules) == Run(s0, steps, rules).(file := Present(v))
  {
    hide CanRun, Run;
    run := steps + [Write(Present(v))];
    RunOneMore(s0, steps, Write(Present(v)), rules);
    RunOneMore(s0, run, Stat(false, ""), rules);
    run := run + [Stat(false, "")];
    RunOneMore(s0, run, Decide, rules);
    run := run + [Decide];
    assert run == steps + [Write(Present(v)), Stat(false, ""), Decide];
  }

  lemma {:induction false} RunOneMore(s: State, steps: seq<Step>, step: Step, rules: RulesOf)
    requires CanRun(s, steps, rules) && CanStep(Run(s, steps, rules), step, rules)
    ensures CanRun(s, steps + [step], rules)
    ensures Run(s, steps + [step], rules) == After(Run(s, steps, rules), step, rules)
    decreases |steps|
  {
    hide CanStep, After;
    if steps == [] {
      assert [step][1..] == [];
    } else {
      RunOneMore(After(s, steps[0], rules), steps[1..], step, rules);
      assert (steps + [step])[1..] == steps[1..] + [step];
    }
  }

  lemma Next(s: State, step: Step, rules: RulesOf) returns (r: State)
    requires Reachable(s, rules) && CanStep(s, step, rules)
    ensures r == After(s, step, rules) && Reachable(r, rules)
  {
    hide CanRun, Run, After, CanStep;
    r := After(s, step, rules);
    var s0, steps :| Initial(s0) && CanRun(s0, steps, rules) && s == Run(s0, steps, rules);
    RunOneMore(s0, steps, step, rules);
  }

  lemma StartsReachable(s: State, rules: RulesOf)
    requires Initial(s)
    ensures Reachable(s, rules)
  {
    assert CanRun(s, [], rules) && s == Run(s, [], rules);
  }

  /** A run that ends in a wrong skip: the version of the last load stays recorded while the file is
      missing and when it changes during the next load, whose text is kept; then the file gets the
      recorded version back, and a check that finds it leaves that text as its rules. */
  lemma RecurringStampFools(rules: RulesOf, other: Rules) returns (s: State)
    requires other != rules(Version(1, 1, 1))
    ensures Reachable(s, rules) && s.stage.Idle? && s.file == Present(Version(1, 1, 1))
    ensures s.data == Some(other) && s.loaded == Some(Version(1, 1, 1)) && s.lastErr == ""
  {
    hide Reachable;
    var v, u, w := Version(1, 1, 1), Version(2, 2, 2), Version(3, 3, 3);
    s := State(None, None, "", Idle, Present(v), Disturbed);
    StartsReachable(s, rules);
    s := Next(s, Stat(false, ""), rules);
    s := Next(s, Decide, rules);
    s := Next(s, FinishLoad(Read(rules(v))), rules);
    s := Next(s, Confirm, rules);
    s := Next(s, Write(Missing), rules);
    s := Next(s, Stat(false, ""), rules);
    s := Next(s, Write(Present(u)), rules);
    s := Next(s, Stat(false, ""), rules);
    s := Next(s, Decide, rules);
    s := Next(s, Write(Present(w)), rules);
    s := Next(s, FinishLoad(Read(other)), rules);
    s := Next(s, Confirm, rules);
    s := Next(s, Write(Present(v)), rules);
    s := Next(s, Stat(false, ""), rules);
    assert Skips(s, v, false);
    s := Next(s, Decide, rules);
  }

  // The code of a check, and the steps that it takes

  /** The part of the state that a check updates. */
  datatype Cached = Cached(data: Option<Rules>, loaded: Option<Version>, lastErr: string)

  function CachedIn(s: State): Cached {
    Cached(s.data, s.loaded, s.lastErr)
  }

  /** What a check makes of the cached file, given what the two inspections and the load found. */
  function Checked(c: Cached, force: bool, found: File, error: string, outcome: Outcome, after: File): Cached {
    match found
    case Missing => c.(data := None, lastErr := "")
    case Unreadable => c.(lastErr := error)
    case Present(info) =>
      if !force && c.data.Some? && c.lastErr == "" && !FileChanged(c.loaded, info) then c
      else if outcome.Failed? then c.(lastErr := outcome.error)
      else if after.Present? && !FileChanged(Some(info), after.version) then Cached(Some(outcome.data), Some(info), "")
      else if c.data.None? then c.(data := Some(outcome.data), lastErr := "")
      else c
  }

  /** `cachedFile`, without the times of checks. */
  class CachedFile {
    var data: Option<Rules>
    var loaded: Option<Version>
    var lastErr: string

    constructor ()
      ensures data.None? && loaded.None? && lastErr == ""
    {
      data, loaded, lastErr := None, None, "";
    }

    ghost function Value(): Cached
      reads this
    {
      Cached(data, loaded, lastErr)
    }

    method LogLoadError(error: string)
      modifies this`lastErr
      ensures lastErr == error
    {
      if error == lastErr {
        return;
      }
      lastErr := error;
    }

    /** `refreshLocked`. */
    method Refresh(force: bool, found: File, error: string, outcome: Outcome, after: File)
      modifies this
      ensures Value() == Checked(old(Value()), force, found, error, outcome, after)
    {
      if found.Missing? {
        data := None;
        lastErr := "";
        return;
      }
      if found.Unreadable? {
        LogLoadError(error);
        return;
      }
      var info := found.version;
      if !force && data.Some? && lastErr == "" && !FileChanged(loaded, info) {
        return;
      }
      if outcome.Failed? {
        LogLoadError(outcome.error);
        return;
      }
      if !after.Present? || FileChanged(Some(info), after.version) {
        if data.None? {
          data := Some(outcome.data);
          lastErr := "";
        }
        return;
      }
      data := Some(outcome.data);
      loaded := Some(info);
      lastErr := "";
    }
  }

  /** The steps of a check, with writes anywhere between them, do what its code does: `a`, `b`, `c`
      and `d` are the states in which it inspects the file, decides, has loaded, and inspects the
      file again. */
  lemma CheckTakesSteps(a: State, force: bool, error: string, b: State, c: State, outcome: Outcome, d: State, rules: RulesOf)
    requires a.stage.Idle? && CanStep(a, Stat(force, error), rules)
    requires var a' := After(a, Stat(force, error), rules);
             a'.stage.Statted? ==>
               && Drifted(a', b)
               && var b' := After(b, Decide, rules);
                  b'.stage.Loading? ==>
                    && Drifted(b', c) && CanStep(c, FinishLoad(outcome), rules)
                    && (outcome.Read? ==> Drifted(After(c, FinishLoad(outcome), rules), d))
    ensures var a' := After(a, Stat(force, error), rules);
            if !a'.stage.Statted? then
              a'.stage.Idle? && CachedIn(a') == Checked(CachedIn(a), force, a.file, error, outcome, d.file)
            else
              var b' := After(b, Decide, rules);
              var done := if !b'.stage.Loading? then b'
                          else if outcome.Failed? then After(c, FinishLoad(outcome), rules)
                          else After(d, Confirm, rules);
              done.stage.Idle? && CachedIn(done) == Checked(CachedIn(a), force, a.file, error, outcome, d.file)
  {
  }
}
