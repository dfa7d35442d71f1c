/** From a write to the rules that are served: the entry of a file in the cache, events, debouncing and
    reloading together. What is served is the file's own rules once everything is quiet, unless a
    callback came to look the file up while the entry was being added and had been overtaken by a write. */
module Freshness {
  import opened Paths
  import D = Debounce
  import R = Reload

  /** The cache entry of the file: none, one that the request holding the lock is adding, which has made
      its first check or not, or a published one. */
  datatype Entry = Absent | Adding(checked: bool) | Published

  /** One file of a handler. `cached` is the entry's content and the file itself, `entryId` tells the
      entry from earlier ones, and `found` gives the entry that a callback has looked up. `queued` says
      that an event for the file is on its way to the handler. `failedOn` is the file that the last
      failing check met, if it did not change meanwhile. `missed` records that a callback has found no
      published entry while the entry being added had been overtaken, and no check has caught up since. */
  datatype State = State(
    handler: D.State,
    cached: R.State,
    entry: Entry,
    entryId: nat,
    found: map<D.TimerId, nat>,
    queued: bool,
    failedOn: Option<R.File>,
    missed: bool)

  /** While the file's directory is subscribed, that is from before the entry's first check until it is
      evicted, a write queues an event. Delivering an event may leave others in the queue. */
  datatype Step =
    | Write(file: R.File, noticed: bool)
    | Deliver(timer: D.TimerId, more: bool)
    | OtherEvent(path: string, timer: D.TimerId)
    | Timers(step: D.Step)
    | Lookup(timer: D.TimerId)
    | Reload(timer: D.TimerId, error: string)
    | Add
    | Check(check: R.Step)
    | Publish
    | Evict

  /** Errors have a text. */
  predicate Telling(step: R.Step) {
    (step.Stat? ==> step.error != "") && (step.FinishLoad? && step.outcome.Failed? ==> step.outcome.error != "")
  }

  /** The entry that the callback has looked up is still the published one. */
  predicate LookedUp(s: State, t: D.TimerId) {
    s.entry.Published? && t in s.found && s.found[t] == s.entryId
  }

  /** Steps of timers of other paths, and those of the file's own that touch no cache entry. */
  ghost predicate TimerStep(s: State, d: D.Step, path: string) {
    && D.CanStep(s.handler, d) && !d.Schedule?
    && (d.Lookup? || d.Reload? ==> s.handler.timers[d.timer].path != path)
  }

  ghost predicate CanStep(s: State, step: Step, path: string, rules: R.RulesOf) {
    match step
    case Write(_, noticed) => !s.entry.Absent? && !s.handler.closed ==> noticed
    case Deliver(t, _) => s.queued && D.CanStep(s.handler, D.Schedule(path, t))
    case OtherEvent(p, t) => p != path && D.CanStep(s.handler, D.Schedule(p, t))
    case Timers(d) => TimerStep(s, d, path)
    case Lookup(t) => D.CanStep(s.handler, D.Lookup(t, s.entry.Published?)) && s.handler.timers[t].path == path
    case Reload(t, error) =>
      && D.CanStep(s.handler, D.Reload(t)) && s.handler.timers[t].path == path
      && s.cached.stage.Idle? && !s.entry.Adding? && error != ""
    case Add => s.entry.Absent? && s.cached.stage.Idle?
    case Check(r) =>
      && !r.Write? && Telling(r) && R.CanStep(s.cached, r, rules)
      && (r.Stat? ==> !r.force && (s.entry == Adding(false) || s.entry.Published?))
    case Publish => s.entry == Adding(true) && s.cached.stage.Idle?
    case Evict => s.entry.Published? && s.cached.stage.Idle?
  }

  /** What a check has failed on, if it has failed. */
  ghost function FailedOn(s: State, r: R.Step): Option<R.File> {
    if r.Stat? && s.cached.file.Unreadable? then Some(s.cached.file)
    else if r.FinishLoad? && r.outcome.Failed? && s.cached.stage.Loading? then
      if s.cached.stage.dirty then None else Some(s.cached.file)
    else s.failedOn
  }

  ghost function AfterCheck(s: State, r: R.Step, rules: R.RulesOf): (t: State)
    requires R.CanStep(s.cached, r, rules)
    ensures t == s.(cached := t.cached, failedOn := t.failedOn)
  {
    s.(cached := R.After(s.cached, r, rules), failedOn := FailedOn(s, r))
  }

  /** The step, but for the record of what has been missed. */
  ghost function Moved(s: State, step: Step, path: string, rules: R.RulesOf): State
    requires CanStep(s, step, path, rules)
  {
    match step
    case Write(file, noticed) => s.(cached := R.After(s.cached, R.Write(file), rules), queued := s.queued || noticed)
    case Deliver(t, more) => s.(handler := D.After(s.handler, D.Schedule(path, t)), queued := more)
    case OtherEvent(p, t) => s.(handler := D.After(s.handler, D.Schedule(p, t)))
    case Timers(d) => s.(handler := D.After(s.handler, d))
    case Lookup(t) =>
      s.(handler := D.After(s.handler, D.Lookup(t, s.entry.Published?)),
         found := if s.entry.Published? then s.found[t := s.entryId] else s.found)
    case Reload(t, error) =>
      var taken := s.(handler := D.After(s.handler, D.Reload(t)));
      if LookedUp(s, t) then AfterCheck(taken, R.Stat(true, error), rules) else taken
    case Add =>
      s.(entry := Adding(false), entryId := s.entryId + 1, failedOn := None,
         cached := R.State(None, None, "", R.Idle, s.cached.file, R.Disturbed))
    case Check(r) => AfterCheck(s, r, rules).(entry := if r.Stat? && s.entry.Adding? then Adding(true) else s.entry)
    case Publish => s.(entry := Published)
    case Evict => s.(entry := Absent)
  }

  /** A callback finds no published entry while the one being added has been overtaken. */
  predicate Misses(s: State, step: Step) {
    step.Lookup? && s.entry.Adding? && !CaughtUp(s)
  }

  ghost function After(s: State, step: Step, path: string, rules: R.RulesOf): State
    requires CanStep(s, step, path, rules)
  {
    var r := Moved(s, step, path, rules);
    r.(missed := (s.missed || Misses(s, step)) && !CaughtUp(r))
  }

  ghost predicate CanRun(s: State, steps: seq<Step>, path: string, rules: R.RulesOf)
    decreases |steps|
  {
    steps == [] ||
    (CanStep(s, steps[0], path, rules) && CanRun(After(s, steps[0], path, rules), steps[1..], path, rules))
  }

  ghost function Run(s: State, steps: seq<Step>, path: string, rules: R.RulesOf): State
    requires CanRun(s, steps, path, rules)
    decreases |steps|
  {
    if steps == [] then s else Run(After(s, steps[0], path, rules), steps[1..], path, rules)
  }

  ghost predicate Initial(s: State) {
    s.handler == D.INITIAL && s.cached.stage.Idle? && s.cached.data.None? && s.entry.Absent? && !s.queued && !s.missed
  }

  // What is served

  /** The rules that are served come from the file as it is: none for a missing file, those of its
      version for a present one; or the last check failed on this file and said so. */
  predicate Current(c: R.State, failedOn: Option<R.File>) {
    match c.file
    case Missing => c.data.None?
    case Unreadable => c.lastErr != "" && failedOn == Some(c.file)
    case Present(v) => (c.lastErr != "" && failedOn == Some(c.file)) || (c.data.Some? && c.origin == R.Whole(v))
  }

  /** The check in progress will end with the file as it is, unless it is written again. */
  predicate Settles(c: R.State, failedOn: Option<R.File>) {
    match c.stage
    case Idle => Current(c, failedOn)
    case Statted(info, force) =>
      c.data.None? || (c.file == R.Present(info) && (R.Skips(c, info, force) ==> c.origin == R.Whole(info)))
    case Loading(info, dirty) => !dirty && (c.data.None? || c.file == R.Present(info))
    case Loaded(info, _, origin) =>
      c.file.Present? && origin == R.Whole(c.file.version) && (c.data.None? || c.file == R.Present(info))
  }

  /** The entry, if there is one, is not overtaken by a write. */
  predicate CaughtUp(s: State) {
    s.entry.Absent? || s.entry == Adding(false) || Settles(s.cached, s.failedOn)
  }

  lemma CheckSettles(s: State, r: R.Step, rules: R.RulesOf)
    requires R.CanStep(s.cached, r, rules) && !r.Write? && Telling(r) && Settles(s.cached, s.failedOn)
    ensures var t := AfterCheck(s, r, rules); Settles(t.cached, t.failedOn)
  {
  }

  lemma FirstCheckSettles(s: State, error: string, rules: R.RulesOf)
    requires s.cached.stage.Idle? && s.cached.data.None? && error != ""
    ensures var t := AfterCheck(s, R.Stat(false, error), rules); Settles(t.cached, t.failedOn)
  {
  }

  lemma ForcedCheckSettles(s: State, error: string, rules: R.RulesOf)
    requires s.cached.stage.Idle? && error != ""
    ensures var t := AfterCheck(s, R.Stat(true, error), rules); Settles(t.cached, t.failedOn)
  {
  }

  // The invariant

  /** A timer of the file or its callback will still look the published entry up, or has done so and
      will reload it. */
  ghost predicate Coming(s: State, path: string, t: D.TimerId) {
    && D.Underway(s.handler, t) && s.handler.timers[t].path == path
    && (s.handler.timers[t].status.Reloading? ==> LookedUp(s, t))
  }

  ghost predicate SomeComing(s: State, path: string) {
    exists t :: Coming(s, path, t)
  }

  ghost predicate Inv(s: State, path: string, rules: R.RulesOf) {
    && D.Inv(s.handler) && R.Inv(s.cached, rules)
    && (!s.entry.Published? && s.entry != Adding(true) ==> s.cached.stage.Idle?)
    && (s.entry == Adding(false) ==> s.cached.data.None?)
    && (!CaughtUp(s) && !s.handler.closed ==> s.queued || SomeComing(s, path) || s.missed)
    && (s.missed ==> !CaughtUp(s))
  }

  lemma InitialHolds(s: State, path: string, rules: R.RulesOf)
    requires Initial(s)
    ensures Inv(s, path, rules)
  {
  }

  /** The handler's part of a step. */
  ghost function HandlerStep(s: State, step: Step, path: string): Option<D.Step> {
    match step
    case Deliver(t, _) => Some(D.Schedule(path, t))
    case OtherEvent(p, t) => Some(D.Schedule(p, t))
    case Timers(d) => Some(d)
    case Lookup(t) => Some(D.Lookup(t, s.entry.Published?))
    case Reload(t, _) => Some(D.Reload(t))
    case _ => None
  }

  lemma HandlerMoves(s: State, step: Step, path: string, rules: R.RulesOf)
    requires CanStep(s, step, path, rules) && D.Inv(s.handler)
    ensures var (d, r) := (HandlerStep(s, step, path), After(s, step, path, rules));
            && D.Inv(r.handler)
            && (d.None? ==> r.handler == s.handler)
            && (d.Some? ==> D.CanStep(s.handler, d.value) && r.handler == D.After(s.handler, d.value))
            && (s.handler.closed ==> r.handler.closed)
  {
    hide D.Inv, CaughtUp, AfterCheck, LookedUp;
    var d := HandlerStep(s, step, path);
    if d.Some? {
      D.StepKeeps(s.handler, d.value);
    }
  }

  lemma CacheMoves(s: State, step: Step, path: string, rules: R.RulesOf)
    requires CanStep(s, step, path, rules) && R.Inv(s.cached, rules)
    requires !s.entry.Published? && s.entry != Adding(true) ==> s.cached.stage.Idle?
    requires s.entry == Adding(false) ==> s.cached.data.None?
    ensures var r := After(s, step, path, rules);
            && R.Inv(r.cached, rules)
            && (!r.entry.Published? && r.entry != Adding(true) ==> r.cached.stage.Idle?)
            && (r.entry == Adding(false) ==> r.cached.data.None?)
  {
    hide D.After, D.CanStep, CaughtUp;
  }

  /** Only writes overtake an entry. */
  lemma StaysCaughtUp(s: State, step: Step, path: string, rules: R.RulesOf)
    requires CanStep(s, step, path, rules) && CaughtUp(s) && !step.Write?
    requires s.entry == Adding(false) ==> s.cached.stage.Idle? && s.cached.data.None?
    ensures CaughtUp(After(s, step, path, rules))
  {
    hide D.After, D.CanStep, Settles, R.CanStep, R.After;
    match step
    case Check(r) =>
      if s.entry == Adding(false) {
        assert r.Stat? by { OnlyStatWhenIdle(s.cached, r, rules); }
        FirstCheckSettles(s, r.error, rules);
      } else if !s.entry.Absent? {
        CheckSettles(s, r, rules);
      }
    case Reload(t, error) =>
      if LookedUp(s, t) {
        ForcedCheckSettles(s, error, rules);
      }
    case _ =>
  }

  lemma OnlyStatWhenIdle(c: R.State, r: R.Step, rules: R.RulesOf)
    requires c.stage.Idle? && R.CanStep(c, r, rules) && !r.Write?
    ensures r.Stat?
  {
  }

  /** What is coming keeps coming until it reloads, unless it finds no published entry. */
  lemma ComingKept(s: State, step: Step, path: string, rules: R.RulesOf, t: D.TimerId)
    requires Inv(s, path, rules) && CanStep(s, step, path, rules) && Coming(s, path, t)
    requires var r := After(s, step, path, rules); !r.handler.closed && !CaughtUp(r) && !CaughtUp(s)
    requires step == Lookup(t) ==> s.entry.Published?
    requires !step.Deliver?
    ensures Coming(After(s, step, path, rules), path, t)
  {
    hide D.Inv, R.Inv, Settles, D.After, R.After, R.CanStep;
    HandlerMoves(s, step, path, rules);
    var d := HandlerStep(s, step, path);
    if step.Reload? && LookedUp(s, step.timer) {
      ForcedCheckSettles(s, step.error, rules);
      assert false;
    }
    if d.Some? {
      D.UnderwayKept(s.handler, d.value, t);
      StatusKept(s.handler, d.value, t);
    }
  }

  /** A callback starts its reload only by looking the file up. */
  lemma StatusKept(h: D.State, d: D.Step, t: D.TimerId)
    requires D.CanStep(h, d) && D.Underway(h, t) && D.Underway(D.After(h, d), t)
    ensures D.After(h, d).timers[t].status.Reloading? ==> h.timers[t].status.Reloading? || d == D.Lookup(t, true)
  {
  }

  lemma StepKeeps(s: State, step: Step, path: string, rules: R.RulesOf)
    requires Inv(s, path, rules) && CanStep(s, step, path, rules)
    ensures Inv(After(s, step, path, rules), path, rules)
  {
    hide D.Inv, R.Inv, D.After, D.CanStep, R.After, R.CanStep, Settles;
    var r := After(s, step, path, rules);
    HandlerMoves(s, step, path, rules);
    CacheMoves(s, step, path, rules);
    if !CaughtUp(r) && !r.handler.closed && !step.Write? {
      if CaughtUp(s) {
        StaysCaughtUp(s, step, path, rules);
      }
      OvertakenKept(s, step, path, rules);
    }
  }

  lemma NewTimer(h: D.State, path: string, t: D.TimerId)
    requires D.CanStep(h, D.Schedule(path, t)) && !h.closed
    ensures var r := D.After(h, D.Schedule(path, t)); t in r.timers && r.timers[t] == D.Timer(path, D.Pending)
  {
  }

  lemma OvertakenKept(s: State, step: Step, path: string, rules: R.RulesOf)
    requires Inv(s, path, rules) && CanStep(s, step, path, rules) && !step.Write?
    requires var r := After(s, step, path, rules); !r.handler.closed && !CaughtUp(r) && !CaughtUp(s)
    ensures var r := After(s, step, path, rules); r.queued || SomeComing(r, path) || r.missed
  {
    hide D.Inv, R.Inv, R.After, R.CanStep, Settles;
    var r := After(s, step, path, rules);
    HandlerMoves(s, step, path, rules);
    if step.Deliver? {
      NewTimer(s.handler, path, step.timer);
      assert Coming(r, path, step.timer);
    } else if !s.queued && !s.missed {
      var t :| Coming(s, path, t);
      if step != Lookup(t) || s.entry.Published? {
        ComingKept(s, step, path, rules, t);
      }
    }
  }

  lemma {:induction false} RunKeeps(s: State, steps: seq<Step>, path: string, rules: R.RulesOf)
    requires Inv(s, path, rules) && CanRun(s, steps, path, rules)
    ensures Inv(Run(s, steps, path, rules), path, rules)
    decreases |steps|
  {
    hide CanStep, After, Inv;
    if steps != [] {
      StepKeeps(s, steps[0], path, rules);
      RunKeeps(After(s, steps[0], path, rules), steps[1..], path, rules);
    }
  }

  // Quiet means current, exactly when no callback came too early

  /** Nothing is on its way or under way for the file. */
  ghost predicate Quiet(s: State, path: string) {
    && !s.queued && s.cached.stage.Idle?
    && forall t :: D.Underway(s.handler, t) ==> s.handler.timers[t].path != path
  }

  /** No check catches up with the last write in the run. */
  ghost predicate StaysBehind(s: State, steps: seq<Step>, path: string, rules: R.RulesOf)
    requires CanRun(s, steps, path, rules)
    decreases |steps|
  {
    !CaughtUp(s) && (steps == [] || StaysBehind(After(s, steps[0], path, rules), steps[1..], path, rules))
  }

  /** In the run, a callback of the file looks it up while its entry is being added and has been overtaken by a
      write, and no check catches up afterwards. */
  ghost predicate LeftBehind(s: State, steps: seq<Step>, path: string, rules: R.RulesOf)
    requires CanRun(s, steps, path, rules)
    decreases |steps|
  {
    steps != [] &&
    var next := After(s, steps[0], path, rules);
    (Misses(s, steps[0]) && StaysBehind(next, steps[1..], path, rules)) || LeftBehind(next, steps[1..], path, rules)
  }

  lemma AfterMissed(s: State, step: Step, path: string, rules: R.RulesOf)
    requires CanStep(s, step, path, rules)
    ensures var r := After(s, step, path, rules);
            r.missed <==> (s.missed || Misses(s, step)) && !CaughtUp(r)
  {
    hide CanStep, Moved, Misses;
  }

  lemma {:induction false} MissedMeans(s: State, steps: seq<Step>, path: string, rules: R.RulesOf)
    requires CanRun(s, steps, path, rules) && (s.missed ==> !CaughtUp(s))
    ensures Run(s, steps, path, rules).missed <==>
            (s.missed && StaysBehind(s, steps, path, rules)) || LeftBehind(s, steps, path, rules)
    decreases |steps|
  {
    hide CanStep, After, CaughtUp, Misses;
    if steps != [] {
      AfterMissed(s, steps[0], path, rules);
      MissedMeans(After(s, steps[0], path, rules), steps[1..], path, rules);
    }
  }

  /** In every run, whatever is written, whichever stamps come back, and however often the file is evicted
      and added again: as long as the handler is open, once everything is quiet, what is served comes from
      the file as it is exactly when no callback looked the file up too early. */
  lemma QuietCurrentIff(s0: State, steps: seq<Step>, path: string, rules: R.RulesOf)
    requires Initial(s0) && CanRun(s0, steps, path, rules)
    ensures var s := Run(s0, steps, path, rules);
            s.entry.Published? && !s.handler.closed && Quiet(s, path) ==>
              (Current(s.cached, s.failedOn) <==> !LeftBehind(s0, steps, path, rules))
  {
    hide CanRun, Run, LeftBehind, StaysBehind, Inv, Current;
    InitialHolds(s0, path, rules);
    RunKeeps(s0, steps, path, rules);
    MissedMeans(s0, steps, path, rules);
    var s := Run(s0, steps, path, rules);
    if s.entry.Published? && !s.handler.closed && Quiet(s, path) {
      QuietMissed(s, path, rules);
    }
  }

  lemma QuietMissed(s: State, path: string, rules: R.RulesOf)
    requires Inv(s, path, rules) && s.entry.Published? && !s.handler.closed && Quiet(s, path)
    ensures Current(s.cached, s.failedOn) <==> !s.missed
  {
    hide D.Inv, R.Inv, Current;
    assert CaughtUp(s) <==> Current(s.cached, s.failedOn);
  }

  /** Nothing is served for a missing file, and its rules for a present one, unless the last check
      failed on this very file and said so. */
  lemma CurrentServes(s: State, path: string, rules: R.RulesOf)
    requires Inv(s, path, rules) && Current(s.cached, s.failedOn)
    ensures match s.cached.file
            case Missing => s.cached.data.None?
            case Unreadable => s.cached.lastErr != ""
            case Present(v) => s.cached.data == Some(rules(v)) || (s.cached.lastErr != "" && s.failedOn == Some(s.cached.file))
  {
    hide D.Inv, CaughtUp;
  }

  /** No callback of the file looks it up while its entry is being added. */
  ghost predicate NoneTooEarly(s: State, steps: seq<Step>, path: string, rules: R.RulesOf)
    requires CanRun(s, steps, path, rules)
    decreases |steps|
  {
    steps == [] ||
    (!(steps[0].Lookup? && s.entry.Adding?) && NoneTooEarly(After(s, steps[0], path, rules), steps[1..], path, rules))
  }

  lemma {:induction false} NoneLeftBehind(s: State, steps: seq<Step>, path: string, rules: R.RulesOf)
    requires CanRun(s, steps, path, rules) && NoneTooEarly(s, steps, path, rules)
    ensures !LeftBehind(s, steps, path, rules)
    decreases |steps|
  {
    hide CanStep, After, CaughtUp;
    if steps != [] {
      NoneLeftBehind(After(s, steps[0], path, rules), steps[1..], path, rules);
    }
  }

  /** So a run in which no callback comes that early ends with the file's own rules. */
  lemma QuietMeansCurrent(s0: State, steps: seq<Step>, path: string, rules: R.RulesOf)
    requires Initial(s0) && CanRun(s0, steps, path, rules) && NoneTooEarly(s0, steps, path, rules)
    ensures var s := Run(s0, steps, path, rules);
            s.entry.Published? && !s.handler.closed && Quiet(s, path) ==>
              match s.cached.file
              case Missing => s.cached.data.None?
              case Unreadable => s.cached.lastErr != ""
              case Present(v) =>
                s.cached.data == Some(rules(v)) || (s.cached.lastErr != "" && s.failedOn == Some(s.cached.file))
  {
    hide CanRun, Run, LeftBehind, NoneTooEarly, Inv, Quiet, Current;
    QuietCurrentIff(s0, steps, path, rules);
    NoneLeftBehind(s0, steps, path, rules);
    InitialHolds(s0, path, rules);
    RunKeeps(s0, steps, path, rules);
    var s := Run(s0, steps, path, rules);
    if Current(s.cached, s.failedOn) {
      CurrentServes(s, path, rules);
    }
  }

  // A callback that comes too early

  ghost predicate Reachable(s: State, path: string, rules: R.RulesOf) {
    exists s0, steps :: Initial(s0) && CanRun(s0, steps, path, rules) && s == Run(s0, steps, path, rules)
  }

  lemma {:induction false} RunOneMore(s: State, steps: seq<Step>, step: Step, path: string, rules: R.RulesOf)
    requires CanRun(s, steps, path, rules) && CanStep(Run(s, steps, path, rules), step, path, rules)
    ensures CanRun(s, steps + [step], path, rules)
    ensures Run(s, steps + [step], path, rules) == After(Run(s, steps, path, rules), step, path, rules)
    decreases |steps|
  {
    hide CanStep, After;
    if steps == [] {
      assert [step][1..] == [];
    } else {
      RunOneMore(After(s, steps[0], path, rules), steps[1..], step, path, rules);
      assert (steps + [step])[1..] == steps[1..] + [step];
    }
  }

  lemma Next(s: State, step: Step, path: string, rules: R.RulesOf) returns (r: State)
    requires Reachable(s, path, rules) && CanStep(s, step, path, rules)
    ensures r == After(s, step, path, rules) && Reachable(r, path, rules)
  {
    hide CanRun, Run, After, CanStep;
    r := After(s, step, path, rules);
    var s0, steps :| Initial(s0) && CanRun(s0, steps, path, rules) && s == Run(s0, steps, path, rules);
    RunOneMore(s0, steps, step, path, rules);
  }

  lemma StartsReachable(s: State, path: string, rules: R.RulesOf)
    requires Initial(s)
    ensures Reachable(s, path, rules)
  {
    assert CanRun(s, [], path, rules) && s == Run(s, [], path, rules);
  }

  const OLD := R.Version(1, 1, 1)
  const NEW := R.Version(2, 2, 2)

  /** The request that adds the file has read it when the file is written. */
  lemma OvertakenWhileAdding(path: string, rules: R.RulesOf) returns (s: State)
    ensures Reachable(s, path, rules)
    ensures s == State(D.INITIAL,
                       R.State(None, None, "", R.Loaded(OLD, rules(OLD), R.Whole(OLD)), R.Present(NEW), R.Disturbed),
                       Adding(true), 1, map[], true, None, false)
  {
    hide Reachable, D.CanStep, D.After;
    var file := R.State(None, None, "", R.Idle, R.Present(OLD), R.Disturbed);
    s := State(D.INITIAL, file, Absent, 0, map[], false, None, false);
    StartsReachable(s, path, rules);
    s := Next(s, Add, path, rules);
    s := Next(s, Check(R.Stat(false, "e")), path, rules);
    s := Next(s, Check(R.Decide), path, rules);
    s := Next(s, Check(R.FinishLoad(R.Read(rules(OLD)))), path, rules);
    s := Next(s, Write(R.Present(NEW), true), path, rules);
  }

  /** The event's timer fires, and its callback finds no entry. */
  lemma CalledTooEarly(path: string, rules: R.RulesOf) returns (s: State)
    ensures Reachable(s, path, rules)
    ensures s.cached == R.State(None, None, "", R.Loaded(OLD, rules(OLD), R.Whole(OLD)), R.Present(NEW), R.Disturbed)
    ensures s.entry == Adding(true) && !s.queued && !s.handler.closed
    ensures s.handler.timers == map[0 := D.Timer(path, D.Finished)]
  {
    hide Reachable, R.CanStep, R.After, CaughtUp;
    s := OvertakenWhileAdding(path, rules);
    s := Next(s, Deliver(0, false), path, rules);
    s := Next(s, Timers(D.Fire(0)), path, rules);
    s := Next(s, Timers(D.TakeOut(0)), path, rules);
    s := Next(s, Lookup(0), path, rules);
  }

  /** Then the request inspects the file again and publishes what it has read: rules that are not the
      file's, with nothing left that would reload it. */
  lemma TooEarlyExample(path: string, rules: R.RulesOf) returns (s: State)
    ensures Reachable(s, path, rules) && s.entry.Published? && !s.handler.closed && Quiet(s, path)
    ensures s.cached.file == R.Present(NEW) && s.cached.data == Some(rules(OLD)) && s.cached.lastErr == ""
  {
    hide Reachable, CaughtUp, D.CanStep, D.After;
    s := CalledTooEarly(path, rules);
    s := Next(s, Check(R.Confirm), path, rules);
    s := Next(s, Publish, path, rules);
  }

  // The next check catches up

  /** Every write gives the file a version that is not in `seen` and that no other write gives it. */
  ghost predicate NeverRecurs(steps: seq<Step>, seen: set<R.Version>)
    decreases |steps|
  {
    steps == [] ||
    if steps[0].Write? && steps[0].file.Present? then
      steps[0].file.version !in seen && NeverRecurs(steps[1..], seen + {steps[0].file.version})
    else NeverRecurs(steps[1..], seen)
  }

  function SeenAfter(step: Step, seen: set<R.Version>): set<R.Version> {
    if step.Write? && step.file.Present? then seen + {step.file.version} else seen
  }

  lemma FreshStep(s: State, step: Step, seen: set<R.Version>, path: string, rules: R.RulesOf)
    requires R.FreshInv(s.cached, seen) && CanStep(s, step, path, rules)
    requires step.Write? && step.file.Present? ==> step.file.version !in seen
    ensures R.FreshInv(After(s, step, path, rules).cached, SeenAfter(step, seen))
  {
    hide D.After, D.CanStep, CaughtUp, R.FreshInv, R.CanStep, R.After;
    match step
    case Write(file, _) => R.FreshStep(s.cached, R.Write(file), seen, rules);
    case Check(r) => R.FreshStep(s.cached, r, seen, rules);
    case Reload(t, error) =>
      CanInspect(s.cached, error, rules);
      R.FreshStep(s.cached, R.Stat(true, error), seen, rules);
    case Add => EmptyIsFresh(s.cached, seen);
    case _ =>
  }

  lemma CanInspect(c: R.State, error: string, rules: R.RulesOf)
    requires c.stage.Idle?
    ensures R.CanStep(c, R.Stat(true, error), rules)
  {
  }

  lemma EmptyIsFresh(c: R.State, seen: set<R.Version>)
    requires R.FreshInv(c, seen)
    ensures R.FreshInv(R.State(None, None, "", R.Idle, c.file, R.Disturbed), seen)
  {
  }

  lemma {:induction false} FreshRun(s: State, steps: seq<Step>, seen: set<R.Version>, path: string, rules: R.RulesOf)
    returns (now: set<R.Version>)
    requires R.FreshInv(s.cached, seen) && CanRun(s, steps, path, rules) && NeverRecurs(steps, seen)
    ensures R.FreshInv(Run(s, steps, path, rules).cached, now)
    decreases |steps|
  {
    hide CanStep, After, R.FreshInv;
    now := seen;
    if steps != [] {
      FreshStep(s, steps[0], seen, path, rules);
      now := FreshRun(After(s, steps[0], path, rules), steps[1..], SeenAfter(steps[0], seen), path, rules);
    }
  }

  /** When no stamp recurs, the next check that finds a present file does not skip loading it, however the
      entry was left behind, and ends with its rules unless it fails or the file changes. */
  lemma NextCheckLoads(s0: State, steps: seq<Step>, seen: set<R.Version>, v: R.Version, path: string, rules: R.RulesOf)
    requires Initial(s0) && s0.cached.loaded.None? && (s0.cached.file.Present? ==> s0.cached.file.version in seen)
    requires CanRun(s0, steps, path, rules) && NeverRecurs(steps, seen)
    requires var s := Run(s0, steps, path, rules);
             s.missed && s.entry.Published? && s.cached.stage.Idle? && s.cached.file == R.Present(v)
    ensures var s := Run(s0, steps, path, rules);
            var stat, decide, load, confirm :=
              Check(R.Stat(false, "e")), Check(R.Decide), Check(R.FinishLoad(R.Read(rules(v)))), Check(R.Confirm);
            && CanRun(s, [stat, decide, load, confirm], path, rules)
            && After(After(s, stat, path, rules), decide, path, rules).cached.stage == R.Loading(v, false)
            && var t := Run(s, [stat, decide, load, confirm], path, rules);
               t.cached.data == Some(rules(v)) && t.cached.file == R.Present(v) && t.cached.lastErr == "" && !t.missed
  {
    hide CanRun, Run, NeverRecurs, Inv, R.FreshInv;
    StartsFresh(s0, seen);
    var now := FreshRun(s0, steps, seen, path, rules);
    InitialHolds(s0, path, rules);
    RunKeeps(s0, steps, path, rules);
    var s := Run(s0, steps, path, rules);
    BehindNotLoaded(s, now, v, path, rules);
    CheckFollows(s, R.Stat(false, "e"), path, rules, v);
  }

  lemma StartsFresh(s: State, seen: set<R.Version>)
    requires Initial(s) && s.cached.loaded.None? && (s.cached.file.Present? ==> s.cached.file.version in seen)
    ensures R.FreshInv(s.cached, seen)
  {
  }

  lemma BehindNotLoaded(s: State, seen: set<R.Version>, v: R.Version, path: string, rules: R.RulesOf)
    requires Inv(s, path, rules) && R.FreshInv(s.cached, seen)
    requires s.missed && s.entry.Published? && s.cached.stage.Idle? && s.cached.file == R.Present(v)
    ensures R.FileChanged(s.cached.loaded, v)
  {
    hide D.Inv, R.Inv;
  }

  /** A check that finds a present file and does not skip loading it. */
  lemma CheckFollows(s: State, stat: R.Step, path: string, rules: R.RulesOf, v: R.Version)
    requires s.entry.Published? && s.cached.stage.Idle? && s.cached.file == R.Present(v)
    requires stat.Stat? && !stat.force && stat.error != "" && R.FileChanged(s.cached.loaded, v)
    ensures var steps := [Check(stat), Check(R.Decide), Check(R.FinishLoad(R.Read(rules(v)))), Check(R.Confirm)];
            && CanRun(s, steps, path, rules)
            && After(After(s, steps[0], path, rules), steps[1], path, rules).cached.stage == R.Loading(v, false)
            && var t := Run(s, steps, path, rules);
               t.cached.data == Some(rules(v)) && t.cached.file == R.Present(v) && t.cached.lastErr == "" && !t.missed
  {
    var a := After(s, Check(stat), path, rules);
    var steps := LoadFollows(a, path, rules, v, false);
    RunNext(s, Check(stat), steps, path, rules);
    assert [Check(stat)] + steps == [Check(stat), Check(R.Decide), Check(R.FinishLoad(R.Read(rules(v)))), Check(R.Confirm)];
  }

  // The reload of a write does come

  /** Finishing the check that has just inspected a present file and will not skip loading it. */
  lemma LoadFollows(s: State, path: string, rules: R.RulesOf, v: R.Version, force: bool) returns (steps: seq<Step>)
    requires s.entry.Published?
    requires s.cached.stage == R.Statted(v, force) && s.cached.file == R.Present(v) && !R.Skips(s.cached, v, force)
    ensures steps == [Check(R.Decide), Check(R.FinishLoad(R.Read(rules(v)))), Check(R.Confirm)]
    ensures CanRun(s, steps, path, rules)
    ensures After(s, steps[0], path, rules).cached.stage == R.Loading(v, false)
    ensures var t := Run(s, steps, path, rules);
            && t.cached.stage.Idle? && t.cached.file == R.Present(v) && t.cached.data == Some(rules(v))
            && t.cached.lastErr == "" && !t.missed
  {
    var decide, load, confirm := Check(R.Decide), Check(R.FinishLoad(R.Read(rules(v)))), Check(R.Confirm);
    var a := After(s, decide, path, rules);
    var b := After(a, load, path, rules);
    RunNext(b, confirm, [], path, rules);
    RunNext(a, load, [confirm], path, rules);
    RunNext(s, decide, [load, confirm], path, rules);
    steps := [decide, load, confirm];
    assert [confirm] + [] == [confirm] && [load] + [confirm] == [load, confirm] && [decide] + [load, confirm] == steps;
  }

  lemma RunNext(s: State, step: Step, rest: seq<Step>, path: string, rules: R.RulesOf)
    requires CanStep(s, step, path, rules) && CanRun(After(s, step, path, rules), rest, path, rules)
    ensures CanRun(s, [step] + rest, path, rules)
    ensures Run(s, [step] + rest, path, rules) == Run(After(s, step, path, rules), rest, path, rules)
  {
    hide CanStep, After;
    assert ([step] + rest)[1..] == rest;
  }

  lemma NextOfCallback(h: D.State, t: D.TimerId) returns (d: D.Step)
    requires D.Underway(h, t) && !h.timers[t].status.Reloading?
    ensures D.CanStep(h, d) && !d.Schedule? && !d.Reload? && (d.Lookup? ==> d == D.Lookup(t, true))
    ensures var r := D.After(h, d);
            && D.Underway(r, t) && r.timers[t].path == h.timers[t].path
            && (r.timers[t].status.Reloading? ==> d.Lookup?)
            && D.StepsLeft(r.timers[t].status) < D.StepsLeft(h.timers[t].status)
  {
    var status := h.timers[t].status;
    d := if status.Pending? then D.Fire(t) else if status.Fired? then D.TakeOut(t) else D.Lookup(t, true);
  }

  /** The next step of a timer or its callback, short of the reload. */
  lemma CallbackMoves(s: State, t: D.TimerId, path: string, rules: R.RulesOf) returns (step: Step)
    requires Coming(s, path, t) && s.entry.Published? && !s.handler.timers[t].status.Reloading?
    ensures CanStep(s, step, path, rules) && !step.Write?
    ensures var r := After(s, step, path, rules);
            && Coming(r, path, t) && r.entry == s.entry && r.cached == s.cached
            && D.StepsLeft(r.handler.timers[t].status) < D.StepsLeft(s.handler.timers[t].status)
  {
    hide CaughtUp, R.CanStep, R.After, D.CanStep, D.After, D.StepsLeft;
    var d := NextOfCallback(s.handler, t);
    step := if d.Lookup? then Lookup(t) else Timers(d);
  }

  lemma ReloadStarts(s: State, t: D.TimerId, path: string, rules: R.RulesOf, v: R.Version)
    requires Coming(s, path, t) && s.entry.Published? && s.handler.timers[t].status.Reloading?
    requires s.cached.stage.Idle? && s.cached.file == R.Present(v)
    ensures CanStep(s, Reload(t, "e"), path, rules)
    ensures var r := After(s, Reload(t, "e"), path, rules);
            && r.entry.Published? && r.cached.stage == R.Statted(v, true) && r.cached.file == R.Present(v)
            && !R.Skips(r.cached, v, true)
  {
    hide CaughtUp;
  }

  lemma {:induction false} CallbackFollows(s: State, t: D.TimerId, path: string, rules: R.RulesOf, v: R.Version)
    returns (steps: seq<Step>)
    requires Coming(s, path, t) && s.entry.Published?
    requires s.cached.stage.Idle? && s.cached.file == R.Present(v)
    ensures CanRun(s, steps, path, rules) && forall i :: 0 <= i < |steps| ==> !steps[i].Write?
    ensures var r := Run(s, steps, path, rules);
            r.cached.stage.Idle? && r.cached.file == R.Present(v) && r.cached.data == Some(rules(v)) && r.cached.lastErr == ""
    decreases D.StepsLeft(s.handler.timers[t].status)
  {
    hide CanStep, After, CanRun, Run;
    var first, rest;
    if s.handler.timers[t].status.Reloading? {
      first := Reload(t, "e");
      ReloadStarts(s, t, path, rules, v);
      rest := LoadFollows(After(s, first, path, rules), path, rules, v, true);
    } else {
      first := CallbackMoves(s, t, path, rules);
      rest := CallbackFollows(After(s, first, path, rules), t, path, rules, v);
    }
    RunNext(s, first, rest, path, rules);
    steps := [first] + rest;
  }

  /** From every reachable state in which a write has overtaken the published entry of a present file, no
      check is in progress, and no callback came too early: delivering the event, letting the timer fire
      and loading the file without error ends with the file's rules. */
  lemma ReloadArrives(s: State, t: D.TimerId, path: string, rules: R.RulesOf, v: R.Version) returns (steps: seq<Step>)
    requires Reachable(s, path, rules) && s.entry.Published? && !CaughtUp(s) && !s.missed && !s.handler.closed
    requires s.cached.stage.Idle? && s.cached.file == R.Present(v) && t !in s.handler.timers
    ensures CanRun(s, steps, path, rules) && forall i :: 0 <= i < |steps| ==> !steps[i].Write?
    ensures var r := Run(s, steps, path, rules);
            r.cached.stage.Idle? && r.cached.file == R.Present(v) && r.cached.data == Some(rules(v)) && r.cached.lastErr == ""
  {
    hide CaughtUp, CanRun, Run, Inv;
    var s0, before :| Initial(s0) && CanRun(s0, before, path, rules) && s == Run(s0, before, path, rules);
    InitialHolds(s0, path, rules);
    RunKeeps(s0, before, path, rules);
    steps := ReloadComes(s, t, path, rules, v);
  }

  lemma ReloadComes(s: State, t: D.TimerId, path: string, rules: R.RulesOf, v: R.Version) returns (steps: seq<Step>)
    requires Inv(s, path, rules) && s.entry.Published? && !CaughtUp(s) && !s.missed && !s.handler.closed
    requires s.cached.stage.Idle? && s.cached.file == R.Present(v) && t !in s.handler.timers
    ensures CanRun(s, steps, path, rules) && forall i :: 0 <= i < |steps| ==> !steps[i].Write?
    ensures var r := Run(s, steps, path, rules);
            r.cached.stage.Idle? && r.cached.file == R.Present(v) && r.cached.data == Some(rules(v)) && r.cached.lastErr == ""
  {
    hide CaughtUp, D.Inv, R.Inv;
    if s.queued {
      var next := After(s, Deliver(t, false), path, rules);
      NewTimer(s.handler, path, t);
      var rest := CallbackFollows(next, t, path, rules, v);
      RunNext(s, Deliver(t, false), rest, path, rules);
      steps := [Deliver(t, false)] + rest;
    } else {
      var u :| Coming(s, path, u);
      steps := CallbackFollows(s, u, path, rules, v);
    }
  }
}
