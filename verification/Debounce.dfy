/** Debouncing of watcher events: events for a file in quick succession lead to one reload, and no
    event goes without one, unless the callback that is to reload the file finds it not cached. */
module Debounce {

  type TimerId = nat

  /** A timer and the callback that it starts: pending, stopped, the callback waiting for the lock,
      about to look the file up, about to reload it, or done. */
  datatype Status = Pending | Stopped | Fired | Looking | Reloading | Finished

  datatype Timer = Timer(path: string, status: Status)

  /** `debounce` are the timers that a new event stops. `owed` are the paths with an event that no
      reload has followed yet, `missed` those for which a callback has found no cached file since
      the last event; `stopped` records that cleanup has stopped the timers. */
  datatype State = State(
    debounce: map<string, TimerId>,
    timers: map<TimerId, Timer>,
    closed: bool,
    stopped: bool,
    owed: set<string>,
    missed: set<string>)

  const INITIAL := State(map[], map[], false, false, {}, {})

  /** Atomic steps: an event schedules a reload under the lock, with a new timer; a timer fires on
      its own; its callback takes its entry out under the lock, looks the file up without any, and returns
      at once if it is not cached; otherwise it reloads the file. Cleanup closes the handler, then
      stops the timers under the lock. */
  datatype Step =
    | Schedule(path: string, timer: TimerId)
    | Fire(timer: TimerId)
    | TakeOut(timer: TimerId)
    | Lookup(timer: TimerId, found: bool)
    | Reload(timer: TimerId)
    | Close
    | StopAll

  ghost predicate CanStep(s: State, step: Step) {
    match step
    case Schedule(_, t) => t !in s.timers
    case Fire(t) => t in s.timers && s.timers[t].status.Pending?
    case TakeOut(t) => t in s.timers && s.timers[t].status.Fired?
    case Lookup(t, _) => t in s.timers && s.timers[t].status.Looking?
    case Reload(t) => t in s.timers && s.timers[t].status.Reloading?
    case Close => true
    case StopAll => s.closed
  }

  /** `Timer.Stop`: without effect once the timer has fired. */
  function Stop(timers: map<TimerId, Timer>, t: TimerId): map<TimerId, Timer> {
    if t in timers && timers[t].status.Pending? then timers[t := timers[t].(status := Stopped)] else timers
  }

  function StopThese(timers: map<TimerId, Timer>, ids: set<TimerId>): map<TimerId, Timer> {
    map t | t in timers :: if t in ids && timers[t].status.Pending? then timers[t].(status := Stopped) else timers[t]
  }

  lemma StopNext(timers: map<TimerId, Timer>, ids: set<TimerId>, t: TimerId)
    ensures Stop(StopThese(timers, ids), t) == StopThese(timers, ids + {t})
    ensures StopThese(timers, {}) == timers
  {
  }

  function SetStatus(timers: map<TimerId, Timer>, t: TimerId, status: Status): map<TimerId, Timer>
    requires t in timers
  {
    timers[t := timers[t].(status := status)]
  }

  ghost function After(s: State, step: Step): State
    requires CanStep(s, step)
  {
    match step
    case Schedule(path, t) =>
      if s.closed then s
      else
        var timers := if path in s.debounce then Stop(s.timers, s.debounce[path]) else s.timers;
        s.(debounce := s.debounce[path := t], timers := timers[t := Timer(path, Pending)], owed := s.owed + {path},
          missed := s.missed - {path})
    case Fire(t) => s.(timers := SetStatus(s.timers, t, Fired))
    case TakeOut(t) =>
      var path := s.timers[t].path;
      s.(debounce := if path in s.debounce && s.debounce[path] == t then s.debounce - {path} else s.debounce,
         timers := SetStatus(s.timers, t, Looking))
    case Lookup(t, found) =>
      if found then s.(timers := SetStatus(s.timers, t, Reloading))
      else s.(timers := SetStatus(s.timers, t, Finished), missed := s.missed + {s.timers[t].path})
    case Reload(t) =>
      var path := s.timers[t].path;
      s.(timers := SetStatus(s.timers, t, Finished), owed := s.owed - {path}, missed := s.missed - {path})
    case Close => s.(closed := true)
    case StopAll =>
      s.(debounce := map[],
         timers := StopThese(s.timers, s.debounce.Values),
         stopped := true)
  }

  ghost predicate CanRun(s: State, steps: seq<Step>)
    decreases |steps|
  {
    steps == [] || (CanStep(s, steps[0]) && CanRun(After(s, steps[0]), steps[1..]))
  }

  ghost function Run(s: State, steps: seq<Step>): State
    requires CanRun(s, steps)
    decreases |steps|
  {
    if steps == [] then s else Run(After(s, steps[0]), steps[1..])
  }

  // The invariant

  /** A timer is pending or its callback is not done yet. */
  ghost predicate Underway(s: State, t: TimerId) {
    t in s.timers && !s.timers[t].status.Stopped? && !s.timers[t].status.Finished?
  }

  ghost predicate Covered(s: State, path: string) {
    exists t :: Underway(s, t) && s.timers[t].path == path
  }

  /** Entries are for their own path, and of timers that have not been stopped. */
  ghost predicate EntriesSound(s: State) {
    forall path :: path in s.debounce ==>
      var t := s.debounce[path];
      t in s.timers && s.timers[t].path == path && (s.timers[t].status.Pending? || s.timers[t].status.Fired?)
  }

  /** Every pending timer has its entry, so that a later event or cleanup can stop it. */
  ghost predicate PendingTracked(s: State) {
    forall t :: t in s.timers && s.timers[t].status.Pending? ==>
      s.timers[t].path in s.debounce && s.debounce[s.timers[t].path] == t
  }

  ghost predicate OwedCovered(s: State) {
    forall path :: path in s.owed ==> s.closed || Covered(s, path) || path in s.missed
  }

  ghost predicate Inv(s: State) {
    EntriesSound(s) && PendingTracked(s) && OwedCovered(s) && (s.stopped ==> s.closed && s.debounce == map[])
  }

  lemma EntriesKept(s: State, step: Step)
    requires Inv(s) && CanStep(s, step) && !step.StopAll?
    ensures EntriesSound(After(s, step)) && PendingTracked(After(s, step))
    ensures After(s, step).stopped ==> After(s, step).closed && After(s, step).debounce == map[]
  {
    hide OwedCovered;
  }

  /** Stopping the timers reaches every pending one. */
  lemma StopAllKept(s: State)
    requires Inv(s) && s.closed
    ensures forall t :: t in After(s, StopAll).timers ==> !After(s, StopAll).timers[t].status.Pending?
    ensures Inv(After(s, StopAll))
  {
    hide OwedCovered;
    forall t | t in s.timers && s.timers[t].status.Pending?
      ensures t in s.debounce.Values
    {
      assert s.debounce[s.timers[t].path] == t;
    }
    OwedWhenClosed(After(s, StopAll));
  }

  lemma OwedWhenClosed(s: State)
    requires s.closed
    ensures OwedCovered(s)
  {
  }

  /** What a step does to a timer that is under way. */
  lemma UnderwayKept(s: State, step: Step, t: TimerId)
    requires Inv(s) && CanStep(s, step) && Underway(s, t) && !After(s, step).closed
    ensures var r := After(s, step);
            && t in r.timers && r.timers[t].path == s.timers[t].path
            && (Underway(r, t) || step == Reload(t) || step == Lookup(t, false)
                || (step.Schedule? && step.path == s.timers[t].path))
  {
    hide OwedCovered;
  }

  lemma OwedKept(s: State, step: Step)
    requires Inv(s) && CanStep(s, step)
    ensures OwedCovered(After(s, step))
  {
    var r := After(s, step);
    if !r.closed {
      forall path | path in r.owed
        ensures Covered(r, path) || path in r.missed
      {
        if step.Schedule? && step.path == path {
          assert Underway(r, step.timer) && r.timers[step.timer].path == path;
        } else if path !in s.missed {
          assert Covered(s, path);
          var t :| Underway(s, t) && s.timers[t].path == path;
          UnderwayKept(s, step, t);
        }
      }
    }
  }

  lemma StepKeeps(s: State, step: Step)
    requires Inv(s) && CanStep(s, step)
    ensures Inv(After(s, step))
  {
    if step.StopAll? {
      StopAllKept(s);
    } else {
      KeptOutsideStop(s, step);
    }
  }

  lemma KeptOutsideStop(s: State, step: Step)
    requires Inv(s) && CanStep(s, step) && !step.StopAll?
    ensures Inv(After(s, step))
  {
    hide CanStep, After, EntriesSound, PendingTracked, OwedCovered;
    EntriesKept(s, step);
    OwedKept(s, step);
  }

  lemma {:induction false} RunKeeps(s: State, steps: seq<Step>)
    requires Inv(s) && CanRun(s, steps)
    ensures Inv(Run(s, steps))
    decreases |steps|
  {
    hide CanStep, After, Inv;
    if steps != [] {
      StepKeeps(s, steps[0]);
      RunKeeps(After(s, steps[0]), steps[1..]);
    }
  }

  // What it means for every run

  /** An event that no reload of its path has followed yet has a timer or a callback under way for
      it, unless the handler is closed or a callback has found the file not cached since the event. */
  lemma NoEventLost(steps: seq<Step>, path: string)
    requires CanRun(INITIAL, steps)
    ensures var s := Run(INITIAL, steps);
            path in s.owed && !s.closed && path !in s.missed ==>
              exists t :: t in s.timers && s.timers[t].path == path
                          && !s.timers[t].status.Stopped? && !s.timers[t].status.Finished?
  {
    hide CanStep, After;
    RunKeeps(INITIAL, steps);
    var s := Run(INITIAL, steps);
    if path in s.owed && !s.closed && path !in s.missed {
      assert Covered(s, path);
      var t :| Underway(s, t) && s.timers[t].path == path;
    }
  }

  /** What is missed was missed by a callback of the path that found no cached file. */
  lemma {:induction false} MissedByLookup(s: State, steps: seq<Step>, path: string) returns (i: nat)
    requires CanRun(s, steps) && path !in s.missed && path in Run(s, steps).missed
    ensures i < |steps| && steps[i].Lookup? && !steps[i].found && CanRun(s, steps[..i])
    ensures var r := Run(s, steps[..i]); steps[i].timer in r.timers && r.timers[steps[i].timer].path == path
    decreases |steps|
  {
    var next := After(s, steps[0]);
    if path in next.missed {
      i := 0;
    } else {
      var j := MissedByLookup(next, steps[1..], path);
      i := j + 1;
      assert steps[..i][1..] == steps[1..][..j];
    }
  }

  /** Rapid events coalesce: no path ever has two pending timers. */
  lemma OnePending(steps: seq<Step>, t: TimerId, u: TimerId)
    requires CanRun(INITIAL, steps)
    ensures var s := Run(INITIAL, steps);
            (t in s.timers && u in s.timers && s.timers[t].status.Pending? && s.timers[u].status.Pending?
             && s.timers[t].path == s.timers[u].path) ==> t == u
  {
    hide CanStep, After;
    RunKeeps(INITIAL, steps);
  }

  /** Once cleanup has stopped the timers, none is pending, and none is ever started again. */
  lemma {:induction false} NonePendingAfterCleanup(s: State, steps: seq<Step>)
    requires Inv(s) && s.stopped && CanRun(s, steps)
    ensures var r := Run(s, steps);
            r.stopped && forall t :: t in r.timers ==> !r.timers[t].status.Pending?
    decreases |steps|
  {
    if steps == [] {
      assert PendingTracked(s);
    } else {
      StepKeeps(s, steps[0]);
      NonePendingAfterCleanup(After(s, steps[0]), steps[1..]);
    }
  }

  /** The steps that a timer and its callback take. */
  predicate OfCallback(step: Step) {
    step.Fire? || step.TakeOut? || step.Lookup? || step.Reload?
  }

  /** How many steps are left before the callback is done. */
  function StepsLeft(status: Status): nat {
    match status
    case Pending => 4
    case Fired => 3
    case Looking => 2
    case Reloading => 1
    case _ => 0
  }

  lemma {:induction false} CallbackRuns(s: State, t: TimerId, found: bool) returns (steps: seq<Step>)
    requires Underway(s, t)
    ensures CanRun(s, steps) && forall i :: 0 <= i < |steps| ==> OfCallback(steps[i])
    ensures var r, path := Run(s, steps), s.timers[t].path;
            if found || s.timers[t].status.Reloading? then path !in r.owed else path in r.missed
    decreases StepsLeft(s.timers[t].status)
  {
    var status := s.timers[t].status;
    var first := if status.Pending? then Fire(t) else if status.Fired? then TakeOut(t)
    else if status.Looking? then Lookup(t, found) else Reload(t);
    steps := [first];
    var next := After(s, first);
    if status.Reloading? || (status.Looking? && !found) {
      assert CanRun(next, []) && Run(next, []) == next;
      assert steps[1..] == [];
    } else {
      var rest := CallbackRuns(next, t, found);
      steps := steps + rest;
      assert steps[1..] == rest;
    }
  }

  /** From every reachable state, the timer or callback under way leads to the reload that is owed, or,
      if it finds the file not cached, to its being missed. */
  lemma ReloadFollows(s: State, path: string, found: bool) returns (steps: seq<Step>)
    requires Inv(s) && path in s.owed && path !in s.missed && !s.closed
    ensures CanRun(s, steps) && forall i :: 0 <= i < |steps| ==> OfCallback(steps[i])
    ensures path !in Run(s, steps).owed || (!found && path in Run(s, steps).missed)
  {
    hide CanRun, Run;
    assert Covered(s, path);
    var t :| Underway(s, t) && s.timers[t].path == path;
    steps := CallbackRuns(s, t, found);
  }

  // The code of the steps

  /** The debounce timers of a handler, with the timers of the runtime. */
  class Debouncer {
    var debounce: map<string, TimerId>
    var timers: map<TimerId, Timer>
    var closed: bool

    constructor ()
      ensures debounce == map[] && timers == map[] && !closed
    {
      debounce, timers, closed := map[], map[], false;
    }

    ghost function At(stopped: bool, owed: set<string>, missed: set<string>): State
      reads this
    {
      State(debounce, timers, closed, stopped, owed, missed)
    }

    /** `scheduleReload`, where the runtime gives the new timer the identity `t`. */
    method ScheduleReload(path: string, t: TimerId, ghost stopped: bool, ghost owed: set<string>, ghost missed: set<string>)
      requires t !in timers
      modifies this`debounce, this`timers
      ensures At(stopped, if closed then owed else owed + {path}, if closed then missed else missed - {path}) ==
              After(old(At(stopped, owed, missed)), Schedule(path, t))
    {
      if closed {
        return;
      }
      if path in debounce {
        timers := Stop(timers, debounce[path]);
      }
      timers := timers[t := Timer(path, Pending)];
      debounce := debounce[path := t];
    }

    /** What a timer's callback does under the lock: one that a newer event has overtaken leaves the
        newer timer's entry alone. */
    method TakeOutEntry(t: TimerId, ghost stopped: bool, ghost owed: set<string>, ghost missed: set<string>)
      requires t in timers && timers[t].status.Fired?
      modifies this`debounce, this`timers
      ensures At(stopped, owed, missed) == After(old(At(stopped, owed, missed)), TakeOut(t))
      ensures forall path :: path in old(debounce) && old(debounce)[path] != t ==>
                path in debounce && debounce[path] == old(debounce)[path]
      ensures forall path :: path in debounce ==> path in old(debounce) && debounce[path] == old(debounce)[path]
      ensures timers[t].path in debounce ==> debounce[timers[t].path] != t
    {
      var path := timers[t].path;
      if path in debounce && debounce[path] == t {
        debounce := debounce - {path};
      }
      timers := SetStatus(timers, t, Looking);
    }

    /** What Cleanup does under the lock. */
    method StopTimers(ghost stopped: bool, ghost owed: set<string>, ghost missed: set<string>)
      requires closed
      modifies this`debounce, this`timers
      ensures At(true, owed, missed) == After(old(At(stopped, owed, missed)), StopAll)
    {
      hide StopThese;
      var rest := debounce.Values;
      ghost var was, all := timers, debounce.Values;
      StopNext(was, {}, 0);
      assert all - rest == {};
      while rest != {}
        invariant rest <= all && debounce == old(debounce)
        invariant timers == StopThese(was, all - rest)
      {
        var t :| t in rest;
        StopNext(was, all - rest, t);
        assert all - (rest - {t}) == all - rest + {t};
        timers := Stop(timers, t);
        rest := rest - {t};
      }
      assert all - rest == all;
      debounce := map[];
    }
  }
}
