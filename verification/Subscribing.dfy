/** What a handler does while it holds its lock: an open handler asks the hub to list it for every file that
    it loads or checks, records the answer, and stays listed. */
module Subscribing {
  import opened Paths
  import opened FileCache
  import Delivery

  // One hold of the lock

  /** The hub's answer and the outcome of loading, since the lock was taken. */
  datatype Noted = Noted(asked: Option<bool>, refreshed: Option<bool>)

  const NOTHING := Noted(None, None)

  ghost function Note(n: Noted, s: State, step: Step): Noted {
    if !step.Continue? || !s.lock.Held? then n
    else if s.lock.stage.Subscribing? then n.(asked := Some(step.choice.ok))
    else if s.lock.stage.Refreshing? then n.(refreshed := Some(step.choice.ok))
    else n
  }

  ghost function During(n: Noted, s: State, steps: seq<Step>): Noted
    requires CanRun(s, steps)
    decreases |steps|
  {
    if steps == [] then n else During(Note(n, s, steps[0]), After(s, steps[0]), steps[1..])
  }

  /** The run ends when the lock is given up. */
  ghost predicate HeldUntil(s: State, steps: seq<Step>)
    requires CanRun(s, steps)
    decreases |steps|
  {
    if steps == [] then s.lock.Free? else s.lock.Held? && HeldUntil(After(s, steps[0]), steps[1..])
  }

  /** The entry holds the outcome of loading, and the hub's answer if the handler was open to ask it. */
  ghost predicate Recorded(s: State, n: Noted, file: FileId) {
    && file in s.entries
    && (n.asked.Some? ==> s.entries[file].watched == n.asked.value)
    && (n.asked.None? ==> s.closed)
    && n.refreshed.Some? && s.entries[file].hasRules == n.refreshed.value
  }

  /** Where the holder of the lock is with a file that it loads or checks. */
  ghost predicate OnIt(s: State, n: Noted, path: string, file: FileId)
    requires s.lock.Held?
  {
    match s.lock.stage
    case Ensuring(f) => f == file && n == NOTHING
    case Subscribing(f) => f == file && n == NOTHING
    case Marking(f, ok) => f == file && n == Noted(Some(ok), None)
    case Refreshing(f) =>
      && f == file && n.refreshed.None? && file in s.entries
      && (n.asked.Some? ==> s.entries[file].watched == n.asked.value)
      && (n.asked.None? ==> s.closed)
    case Adding(f) => f == file && s.lock.job.Load? && Recorded(s, n, file)
    case Finished => path in s.files && s.files[path] == file && Recorded(s, n, file)
    case _ => false
  }

  /** The holder of the lock has started to check a published file or to load a file that is not cached, or
      is on it. */
  ghost predicate Working(s: State, n: Noted, path: string) {
    s.lock.Held? &&
    if s.lock.stage == Start then
      && n == NOTHING
      && ((s.lock.job == Load(path) && path !in s.files)
          || (path in s.files && s.lock.job == Check(path, s.files[path])))
    else
      && (s.lock.job == Load(path) || (s.lock.job.Check? && s.lock.job.path == path))
      && exists file :: OnIt(s, n, path, file) && (s.lock.job.Check? ==> s.lock.job.file == file)
  }

  ghost predicate Worked(s: State, n: Noted, path: string) {
    path in s.files && Recorded(s, n, s.files[path])
  }

  lemma OthersLeave(s: State, step: Step, n: Noted, path: string)
    requires Working(s, n, path) && CanStep(s, step) && !step.Continue?
    ensures Working(After(s, step), Note(n, s, step), path)
  {
    hide After, CanStep, OnIt;
    OutsideLeaves(s, step);
    var r := After(s, step);
    if s.lock.stage != Start {
      var file :| OnIt(s, n, path, file) && (s.lock.job.Check? ==> s.lock.job.file == file);
      SameWork(s, r, n, path, file);
    }
  }

  ghost predicate SameButChecked(e: Entry, f: Entry) {
    f == e.(lastCheck := f.lastCheck)
  }

  /** Without the lock, a thread changes no more of the cache than the time of a file's last check. */
  lemma OutsideLeaves(s: State, step: Step)
    requires CanStep(s, step) && !step.Continue? && s.lock.Held?
    ensures var r := After(s, step);
            && r.lock == s.lock && r.files == s.files && (s.closed ==> r.closed) && s.entries.Keys <= r.entries.Keys
            && forall f :: f in s.entries ==> SameButChecked(s.entries[f], r.entries[f])
  {
    hide DirOf, Least, Stored;
  }

  lemma SameWork(s: State, r: State, n: Noted, path: string, file: FileId)
    requires s.lock.Held? && OnIt(s, n, path, file)
    requires r.lock == s.lock && r.files == s.files && (s.closed ==> r.closed) && s.entries.Keys <= r.entries.Keys
    requires forall f :: f in s.entries ==> SameButChecked(s.entries[f], r.entries[f])
    ensures OnIt(r, n, path, file)
  {
    if file in s.entries {
      assert SameButChecked(s.entries[file], r.entries[file]);
    }
  }

  lemma HolderWorks(s: State, choice: Choice, n: Noted, path: string)
    requires Inv(s) && Working(s, n, path) && CanStep(s, Continue(choice))
    ensures var r := After(s, Continue(choice));
            if s.lock.stage == Finished then r.lock.Free? && Worked(r, n, path)
            else Working(r, Note(n, s, Continue(choice)), path)
  {
    hide Inv, AfterStart, AfterAdd, AfterUnsubscribe, CanStep, OnIt;
    if s.lock.stage == Start {
      WorkStarts(s, choice, n, path);
    } else {
      var file :| OnIt(s, n, path, file) && (s.lock.job.Check? ==> s.lock.job.file == file);
      if s.lock.stage.Adding? {
        AddingMeans(s, n, path, file);
        AddedRecorded(s, choice, n, path, file);
        JobStays(s, choice);
      } else if s.lock.stage == Finished {
        FinishedMeans(s, choice, n, path, file);
      } else {
        StagesOn(s, n, path, file);
        WorkGoesOn(s, choice, n, path, file);
        JobStays(s, choice);
      }
    }
  }

  lemma StagesOn(s: State, n: Noted, path: string, file: FileId)
    requires s.lock.Held? && OnIt(s, n, path, file) && !s.lock.stage.Adding? && !s.lock.stage.Finished?
    ensures s.lock.stage.Ensuring? || s.lock.stage.Subscribing? || s.lock.stage.Marking? || s.lock.stage.Refreshing?
  {
  }

  lemma AddingMeans(s: State, n: Noted, path: string, file: FileId)
    requires s.lock.Held? && OnIt(s, n, path, file) && s.lock.stage.Adding?
    ensures s.lock.stage.file == file && s.lock.job.Load? && Recorded(s, n, file)
  {
  }

  lemma FinishedMeans(s: State, choice: Choice, n: Noted, path: string, file: FileId)
    requires CanStep(s, Continue(choice)) && OnIt(s, n, path, file) && s.lock.stage == FileCache.Finished
    ensures var r := After(s, Continue(choice)); r.lock.Free? && Worked(r, n, path)
  {
  }

  lemma JobStays(s: State, choice: Choice)
    requires s.lock.Held? && s.lock.stage != FileCache.Finished && CanStep(s, Continue(choice))
    ensures var r := After(s, Continue(choice));
            r.lock.Held? && r.lock.job == s.lock.job && r.lock.stage != Start
  {
    hide AfterStart, AfterAdd, AfterUnsubscribe, DirOf, Least, Stored;
    match s.lock.stage
    case Start => StartJob(s, choice);
    case Adding(file) => AddJob(s, file, choice.path);
    case Unsubscribing(rest) => UnsubscribeJob(s, rest, choice.path);
    case _ =>
  }

  lemma StartJob(s: State, choice: Choice)
    requires s.lock.Held? && CanContinue(s, s.lock.job, Start, choice)
    ensures var r := AfterStart(s, s.lock.job, choice); r.lock.Held? && r.lock.job == s.lock.job && r.lock.stage != Start
  {
    hide After, AfterAdd, AfterUnsubscribe, CanStep, DirOf, Stored, Least;
  }

  lemma AddJob(s: State, file: FileId, victim: string)
    requires s.lock.Held? && CanContinue(s, s.lock.job, Adding(file), Choice(file, victim, 0, false))
    ensures AfterAdd(s, s.lock.job, file, victim).lock == Held(s.lock.job, FileCache.Finished)
  {
    hide Unwatch, Least;
  }

  lemma UnsubscribeJob(s: State, rest: set<string>, path: string)
    requires s.lock.Held? && CanContinue(s, s.lock.job, Unsubscribing(rest), Choice(0, path, 0, false))
    ensures var r := AfterUnsubscribe(s, s.lock.job, rest, path); r.lock.Held? && r.lock.job == s.lock.job && r.lock.stage != Start
  {
    hide Unwatch;
  }

  lemma WorkStarts(s: State, choice: Choice, n: Noted, path: string)
    requires s.lock.Held? && s.lock.stage == Start && Working(s, n, path) && CanStep(s, Continue(choice))
    ensures var r := After(s, Continue(choice)); Working(r, Note(n, s, Continue(choice)), path)
  {
    var r := After(s, Continue(choice));
    assert OnIt(r, NOTHING, path, if s.lock.job.Load? then choice.file else s.lock.job.file);
  }

  lemma WorkGoesOn(s: State, choice: Choice, n: Noted, path: string, file: FileId)
    requires Inv(s) && CanStep(s, Continue(choice)) && OnIt(s, n, path, file)
    requires s.lock.stage.Ensuring? || s.lock.stage.Subscribing? || s.lock.stage.Marking? || s.lock.stage.Refreshing?
    requires s.lock.job == Load(path) || (s.lock.job.Check? && s.lock.job.path == path && s.lock.job.file == file)
    ensures var r := After(s, Continue(choice)); r.lock.Held? && OnIt(r, Note(n, s, Continue(choice)), path, file)
  {
    hide DirOf, ListedCovered, ThreadsSound, Least, Stored, StaysClean, FailedUnlisted;
  }

  /** Publishing the entry, and evicting another one, leaves what is recorded. */
  lemma AddedRecorded(s: State, choice: Choice, n: Noted, path: string, file: FileId)
    requires Inv(s) && s.lock == Held(Load(path), Adding(file)) && CanStep(s, Continue(choice)) && Recorded(s, n, file)
    ensures var r := After(s, Continue(choice));
            r.lock == Held(Load(path), FileCache.Finished) && OnIt(r, n, path, file)
  {
    hide DirOf, ListedCovered, ThreadsSound, Least;
    if |s.files| >= MAX_CACHED_FILES {
      assert choice.path in s.files by { LeastIn(s.files, s.entries, choice.path); }
      assert s.entries[s.files[choice.path]].path == choice.path;
      assert s.files[choice.path] != file;
    }
  }

  lemma LeastIn(files: map<string, FileId>, entries: map<FileId, Entry>, victim: string)
    requires Stored(files, entries) && Least(files, entries, victim)
    ensures victim in files
  {
  }

  lemma {:induction false} WorkRecorded(s: State, steps: seq<Step>, n: Noted, path: string)
    requires Inv(s) && CanRun(s, steps) && HeldUntil(s, steps)
    requires if s.lock.Free? then Worked(s, n, path) else Working(s, n, path)
    ensures Worked(Run(s, steps), During(n, s, steps), path)
    decreases |steps|
  {
    hide After, CanStep, Inv, Working, Worked;
    if steps != [] {
      var next := After(s, steps[0]);
      StepKeeps(s, steps[0]);
      if steps[0].Continue? {
        HolderWorks(s, steps[0].choice, n, path);
        if next.lock.Free? {
          ReleasedOnly(s, steps[0], n);
        }
        WorkingHeld(next, Note(n, s, steps[0]), path);
      } else {
        OthersLeave(s, steps[0], n, path);
        WorkingHeld(next, Note(n, s, steps[0]), path);
      }
      WorkRecorded(next, steps[1..], Note(n, s, steps[0]), path);
    }
  }

  lemma WorkingHeld(s: State, n: Noted, path: string)
    ensures Working(s, n, path) ==> s.lock.Held?
  {
  }

  lemma ReleasedOnly(s: State, step: Step, n: Noted)
    requires CanStep(s, step) && step.Continue? && After(s, step).lock.Free?
    ensures Note(n, s, step) == n
  {
  }

  /** A request that loads a file which is not cached, or checks a published one, gives up the lock with the
      entry published, with the rules that the load gave, and marked as watched exactly if the hub has said
      that it lists the handler. An open handler has asked the hub. */
  lemma LoadsAndWatches(s: State, steps: seq<Step>, path: string)
    requires Inv(s) && CanRun(s, steps) && HeldUntil(s, steps)
    requires || (s.lock == Held(Load(path), Start) && path !in s.files)
             || (path in s.files && s.lock == Held(Check(path, s.files[path]), Start))
    ensures var (r, n) := (Run(s, steps), During(NOTHING, s, steps));
            && path in r.files && r.files[path] in r.entries
            && n.refreshed == Some(r.entries[r.files[path]].hasRules)
            && (!r.closed ==> n.asked == Some(r.entries[r.files[path]].watched))
  {
    hide CanRun, Run, HeldUntil, During, Inv;
    WorkRecorded(s, steps, NOTHING, path);
  }

  // A reload

  ghost predicate Reloading(s: State, n: Noted, path: string, file: FileId) {
    && s.lock.Held? && s.lock.job == Reload(path, file) && n.asked.None?
    && match s.lock.stage
       case Start => n == NOTHING
       case Refreshing(f) => f == file && n == NOTHING
       case Finished => file in s.entries && n.refreshed == Some(s.entries[file].hasRules)
       case _ => false
  }

  lemma ReloadMoves(s: State, step: Step, n: Noted, path: string, file: FileId)
    requires Inv(s) && Reloading(s, n, path, file) && CanStep(s, step)
    ensures var (r, m) := (After(s, step), Note(n, s, step));
            if r.lock.Free? then file in r.entries && m == Noted(None, Some(r.entries[file].hasRules))
            else Reloading(r, m, path, file)
  {
    hide Inv, CanStep, After;
    if step.Continue? {
      ReloadGoesOn(s, step.choice, n, path, file);
    } else {
      OutsideLeaves(s, step);
      if file in s.entries {
        assert SameButChecked(s.entries[file], After(s, step).entries[file]);
      }
    }
  }

  lemma ReloadGoesOn(s: State, choice: Choice, n: Noted, path: string, file: FileId)
    requires Reloading(s, n, path, file) && CanStep(s, Continue(choice))
    ensures var (r, m) := (After(s, Continue(choice)), Note(n, s, Continue(choice)));
            if r.lock.Free? then file in r.entries && m == Noted(None, Some(r.entries[file].hasRules))
            else Reloading(r, m, path, file)
  {
    hide DirOf, Least, Stored, AfterAdd, AfterUnsubscribe;
  }

  /** The callback of an event that has found a published entry loads the file into it, and asks the hub
      nothing. */
  lemma {:induction false} ReloadRefreshes(s: State, steps: seq<Step>, n: Noted, path: string, file: FileId)
    requires Inv(s) && CanRun(s, steps) && HeldUntil(s, steps) && Reloading(s, n, path, file)
    ensures var (r, m) := (Run(s, steps), During(n, s, steps));
            file in r.entries && m == Noted(None, Some(r.entries[file].hasRules))
    decreases |steps|
  {
    hide After, CanStep, Inv;
    var next := After(s, steps[0]);
    StepKeeps(s, steps[0]);
    ReloadMoves(s, steps[0], n, path, file);
    if next.lock.Held? {
      ReloadRefreshes(next, steps[1..], Note(n, s, steps[0]), path, file);
    }
  }

  // From the start of a request, an event and a cleanup to the lock

  ghost predicate Awaits(s: State, t: nat, job: Job) {
    t in s.threads && s.threads[t] == Waiting(job)
  }

  lemma StepWaits(s: State, step: Step, t: nat, job: Job)
    requires CanStep(s, step) && Awaits(s, t, job) && step != Acquire(t)
    ensures Awaits(After(s, step), t, job)
  {
    hide AfterContinue, DirOf, Least, Stored;
    if step.Continue? {
      FilesOf(s, step.choice);
    }
  }

  lemma {:induction false} JobWaits(s: State, steps: seq<Step>, t: nat, job: Job)
    requires CanRun(s, steps) && Awaits(s, t, job) && forall i :: 0 <= i < |steps| ==> steps[i] != Acquire(t)
    ensures Awaits(Run(s, steps), t, job)
    decreases |steps|
  {
    hide After, CanStep, Awaits;
    if steps != [] {
      StepWaits(s, steps[0], t, job);
      JobWaits(After(s, steps[0]), steps[1..], t, job);
    }
  }

  /** The thread starts, others go on, and the thread gets the lock. */
  ghost predicate GetsLock(s: State, first: Step, others: seq<Step>, t: nat) {
    && CanStep(s, first) && CanRun(After(s, first), others)
    && (forall i :: 0 <= i < |others| ==> others[i] != Acquire(t))
    && CanStep(Run(After(s, first), others), Acquire(t))
  }

  ghost function Locked(s: State, first: Step, others: seq<Step>, t: nat): State
    requires GetsLock(s, first, others, t)
  {
    After(Run(After(s, first), others), Acquire(t))
  }

  lemma JobTaken(s: State, first: Step, others: seq<Step>, t: nat, job: Job)
    requires Inv(s) && GetsLock(s, first, others, t) && Awaits(After(s, first), t, job)
    ensures var u := Locked(s, first, others, t); Inv(u) && u.lock == Held(job, Start)
  {
    hide CanRun, Run, Inv;
    StepKeeps(s, first);
    RunKeeps(After(s, first), others);
    JobWaits(After(s, first), others, t, job);
    StepKeeps(Run(After(s, first), others), Acquire(t));
  }

  /** The callback of an event loads the file into the entry that it found, whatever happens in between. */
  lemma EventReloads(s: State, t: nat, path: string, others: seq<Step>, held: seq<Step>)
    requires Inv(s) && GetsLock(s, Event(t, path), others, t)
    requires var u := Locked(s, Event(t, path), others, t); CanRun(u, held) && HeldUntil(u, held)
    ensures var (u, file) := (Locked(s, Event(t, path), others, t), s.files[path]);
            var (r, n) := (Run(u, held), During(NOTHING, u, held));
            file in r.entries && n == Noted(None, Some(r.entries[file].hasRules))
  {
    hide CanRun, Run, Inv, GetsLock, HeldUntil, During;
    GetsStarted(s, Event(t, path), others, t);
    JobTaken(s, Event(t, path), others, t, Reload(path, s.files[path]));
    ReloadRefreshes(Locked(s, Event(t, path), others, t), held, NOTHING, path, s.files[path]);
  }

  lemma GetsStarted(s: State, first: Step, others: seq<Step>, t: nat)
    requires GetsLock(s, first, others, t)
    ensures CanStep(s, first)
  {
  }

  /** A request that found the file not cached, and still does when it gets the lock, publishes it loaded. */
  lemma MissLoads(s: State, t: nat, path: string, others: seq<Step>, held: seq<Step>)
    requires Inv(s) && GetsLock(s, Miss(t, path), others, t)
    requires var u := Locked(s, Miss(t, path), others, t); path !in u.files && CanRun(u, held) && HeldUntil(u, held)
    ensures var u := Locked(s, Miss(t, path), others, t);
            var (r, n) := (Run(u, held), During(NOTHING, u, held));
            && path in r.files && r.files[path] in r.entries
            && n.refreshed == Some(r.entries[r.files[path]].hasRules)
            && (!r.closed ==> n.asked == Some(r.entries[r.files[path]].watched))
  {
    hide CanRun, Run, Inv, GetsLock, HeldUntil, During;
    GetsStarted(s, Miss(t, path), others, t);
    JobTaken(s, Miss(t, path), others, t, Load(path));
    LoadsAndWatches(Locked(s, Miss(t, path), others, t), held, path);
  }

  lemma {:induction false} CleanupEnds(s: State, steps: seq<Step>)
    requires Inv(s) && CanRun(s, steps) && HeldUntil(s, steps) && s.lock.Held? && s.lock.job.Cleanup?
    ensures Run(s, steps).cleaned && Inv(Run(s, steps))
    decreases |steps|
  {
    hide After, CanStep, Inv;
    var next := After(s, steps[0]);
    StepKeeps(s, steps[0]);
    if !steps[0].Continue? {
      OutsideLeaves(s, steps[0]);
      CleanupEnds(next, steps[1..]);
    } else if s.lock.stage != FileCache.Finished {
      JobStays(s, steps[0].choice);
      CleanupEnds(next, steps[1..]);
    } else {
      CleanupReturns(s, steps[0].choice);
    }
  }

  lemma CleanupReturns(s: State, choice: Choice)
    requires CanStep(s, Continue(choice)) && s.lock.stage == FileCache.Finished && s.lock.job.Cleanup?
    ensures var r := After(s, Continue(choice)); r.lock.Free? && r.cleaned
  {
  }

  /** A cleanup that gets the lock ends with the handler closed and listed nowhere, for good. */
  lemma CleanupCleans(s: State, t: nat, others: seq<Step>, held: seq<Step>, more: seq<Step>)
    requires Inv(s) && GetsLock(s, Close(t), others, t)
    requires var u := Locked(s, Close(t), others, t); CanRun(u, held) && HeldUntil(u, held) && CanRun(Run(u, held), more)
    ensures var r := Run(Run(Locked(s, Close(t), others, t), held), more); r.closed && r.listed == {}
  {
    hide CanRun, Run, GetsLock, HeldUntil, Stored, ListedCovered, ThreadsSound, Sound;
    GetsStarted(s, Close(t), others, t);
    JobTaken(s, Close(t), others, t, Job.Cleanup);
    var u := Locked(s, Close(t), others, t);
    CleanupEnds(u, held);
    RunKeeps(Run(u, held), more);
  }

  function Rank(stage: Stage): nat {
    match stage
    case Start => 7
    case Ensuring(_) => 6
    case Subscribing(_) => 5
    case Marking(_, _) => 4
    case Refreshing(_) => 3
    case Adding(_) => 2
    case Unsubscribing(_) => 1
    case Finished => 0
  }

  function RestOf(stage: Stage): set<string> {
    if stage.Unsubscribing? then stage.rest else {}
  }

  lemma RankDrops(s: State, choice: Choice)
    requires s.lock.Held? && s.lock.stage != FileCache.Finished && CanStep(s, Continue(choice))
    ensures var r := After(s, Continue(choice));
            r.lock.Held? && (Rank(r.lock.stage) < Rank(s.lock.stage)
                             || (r.lock.stage.Unsubscribing? && s.lock.stage.Unsubscribing?
                                 && RestOf(r.lock.stage) < RestOf(s.lock.stage)))
  {
    hide DirOf, Least, Stored, Unwatch;
    JobStays(s, choice);
  }

  lemma FinishedReleases(s: State, choice: Choice)
    requires s.lock.Held? && s.lock.stage == FileCache.Finished && CanStep(s, Continue(choice))
    ensures After(s, Continue(choice)).lock.Free?
  {
  }

  /** Whatever the hub and the loader answer, the holder of the lock can come to its end and give it up. */
  lemma {:induction false} HolderEnds(s: State, ok: bool) returns (steps: seq<Step>)
    requires Inv(s) && s.lock.Held?
    ensures CanRun(s, steps) && HeldUntil(s, steps)
    ensures forall i :: 0 <= i < |steps| ==> steps[i].Continue? && steps[i].choice.ok == ok
    decreases Rank(s.lock.stage), RestOf(s.lock.stage)
  {
    hide After, CanStep, Inv;
    var choice := HolderGoesOn(s, 0, ok);
    var next := After(s, Continue(choice));
    StepKeeps(s, Continue(choice));
    steps := [];
    if s.lock.stage == FileCache.Finished {
      FinishedReleases(s, choice);
    } else {
      RankDrops(s, choice);
      steps := HolderEnds(next, ok);
    }
    var all := [Continue(choice)] + steps;
    assert all[0] == Continue(choice) && all[1..] == steps;
    steps := all;
  }

  // Staying listed

  /** All of a handler's files have its file name. */
  predicate Named(path: string, name: string) {
    path == Delivery.FileIn(DirOf(path), name)
  }

  ghost predicate JobNamed(job: Job, name: string) {
    job.Cleanup? || Named(job.path, name)
  }

  ghost predicate ThreadNamed(th: Thread, name: string) {
    if th.Waiting? then JobNamed(th.job, name) else Named(th.path, name)
  }

  ghost predicate StepNamed(step: Step, name: string) {
    step.Hit? || step.Miss? || step.Event? ==> Named(step.path, name)
  }

  ghost predicate AllNamed(s: State, name: string) {
    && (forall p :: p in s.files ==> Named(p, name))
    && (s.lock.Held? ==> JobNamed(s.lock.job, name))
    && (forall t :: t in s.threads ==> ThreadNamed(s.threads[t], name))
  }

  lemma NamesKept(s: State, step: Step, name: string)
    requires AllNamed(s, name) && CanStep(s, step) && StepNamed(step, name)
    ensures AllNamed(After(s, step), name)
  {
    hide Named, DirOf, Least, Stored, EvictBefore;
    if step.Continue? {
      HolderNames(s, step.choice, name);
    }
  }

  lemma HolderNames(s: State, choice: Choice, name: string)
    requires AllNamed(s, name) && CanStep(s, Continue(choice))
    ensures AllNamed(After(s, Continue(choice)), name)
  {
    hide Named, ThreadNamed, CanStep, After;
    FilesOf(s, choice);
  }

  /** The holder of the lock adds at most its own file. */
  lemma FilesOf(s: State, choice: Choice)
    requires CanStep(s, Continue(choice))
    ensures s.lock.Held? && OwnFiles(s, After(s, Continue(choice)))
  {
    hide OwnFiles, AfterStart, AfterAdd, AfterUnsubscribe;
    match s.lock.stage
    case Start => StartFiles(s, choice);
    case Adding(file) => AddFiles(s, choice);
    case Unsubscribing(rest) => UnsubscribeFiles(s, choice);
    case _ => OtherFiles(s, choice);
  }

  ghost predicate OwnFiles(s: State, r: State)
    requires s.lock.Held?
  {
    && r.threads == s.threads
    && (r.lock.Held? ==> r.lock.job == s.lock.job)
    && (forall p :: p in r.files ==> p in s.files || (!s.lock.job.Cleanup? && p == s.lock.job.path))
  }

  lemma StartFiles(s: State, choice: Choice)
    requires s.lock.Held? && s.lock.stage.Start? && CanStep(s, Continue(choice))
    ensures OwnFiles(s, AfterStart(s, s.lock.job, choice))
  {
  }

  lemma AddFiles(s: State, choice: Choice)
    requires s.lock.Held? && s.lock.stage.Adding? && CanStep(s, Continue(choice))
    ensures OwnFiles(s, AfterAdd(s, s.lock.job, s.lock.stage.file, choice.path))
  {
    hide Unwatch, DirOf, EvictBefore;
    if |s.files| >= MAX_CACHED_FILES {
      LeastIn(s.files, s.entries, choice.path);
      UnwatchOnly(s, choice.path);
    }
  }

  lemma UnsubscribeFiles(s: State, choice: Choice)
    requires s.lock.Held? && s.lock.stage.Unsubscribing? && CanStep(s, Continue(choice))
    ensures OwnFiles(s, AfterUnsubscribe(s, s.lock.job, s.lock.stage.rest, choice.path))
  {
    hide Unwatch;
    if s.lock.stage.rest != {} {
      UnwatchOnly(s, choice.path);
    }
  }

  lemma OtherFiles(s: State, choice: Choice)
    requires s.lock.Held? && CanStep(s, Continue(choice))
    requires !s.lock.stage.Start? && !s.lock.stage.Adding? && !s.lock.stage.Unsubscribing?
    ensures OwnFiles(s, After(s, Continue(choice)))
  {
    hide DirOf;
  }

  lemma UnwatchOnly(s: State, path: string)
    requires path in s.files && s.files[path] in s.entries
    ensures var r := Unwatch(s, path); r.files == s.files && r.threads == s.threads && r.lock == s.lock
  {
  }

  /** The directories that others have taken the handler off since it was last listed for them. */
  ghost function LostAfter(lost: set<string>, s: State, step: Step): set<string> {
    if step.Unlist? then lost + step.dirs
    else if step.Continue? && s.lock.Held? && s.lock.stage.Subscribing? && !s.lock.job.Cleanup? && step.choice.ok then
      lost - {DirOf(s.lock.job.path)}
    else lost
  }

  ghost function LostIn(lost: set<string>, s: State, steps: seq<Step>): set<string>
    requires CanRun(s, steps)
    decreases |steps|
  {
    if steps == [] then lost else LostIn(LostAfter(lost, s, steps[0]), After(s, steps[0]), steps[1..])
  }

  ghost predicate Heard(s: State, lost: set<string>, path: string) {
    DirOf(path) in s.listed || DirOf(path) in lost
  }

  /** The holder of the lock has just been told whether it is listed for the file. */
  ghost predicate JustTold(s: State, path: string) {
    s.lock.Held? && s.lock.stage.Marking? && !s.lock.job.Cleanup? && s.lock.job.path == path
  }

  ghost predicate PublishedHeard(s: State, lost: set<string>) {
    forall p :: p in s.files && s.files[p] in s.entries && s.entries[s.files[p]].watched ==>
      Heard(s, lost, p) || JustTold(s, p)
  }

  ghost predicate HolderHeard(s: State, lost: set<string>) {
    s.lock.Held? && !s.lock.job.Cleanup? ==>
      match s.lock.stage
      case Ensuring(f) => s.lock.job.Load? && f in s.entries ==> !s.entries[f].watched
      case Subscribing(f) => s.lock.job.Load? && f in s.entries ==> !s.entries[f].watched
      case Marking(_, ok) => ok ==> Heard(s, lost, s.lock.job.path)
      case Refreshing(f) => s.lock.job.Load? && f in s.entries && s.entries[f].watched ==> Heard(s, lost, s.lock.job.path)
      case Adding(f) => f in s.entries && s.entries[f].watched ==> Heard(s, lost, s.lock.job.path)
      case _ => true
  }

  lemma DirTells(p: string, q: string, name: string)
    requires Named(p, name) && Named(q, name) && DirOf(p) == DirOf(q)
    ensures p == q
  {
  }

  /** The listing of the handler or the set of lost directories grows with others' operations. */
  lemma HeardOutside(s: State, step: Step, lost: set<string>)
    requires CanStep(s, step) && PublishedHeard(s, lost) && HolderHeard(s, lost) && !step.Continue?
    ensures var (r, l) := (After(s, step), LostAfter(lost, s, step)); PublishedHeard(r, l) && HolderHeard(r, l)
  {
    hide DirOf, Stored, Least, AfterContinue;
    var (r, l) := (After(s, step), LostAfter(lost, s, step));
    assert r.files == s.files && (step.Acquire? || r.lock == s.lock);
    assert r.listed + l >= s.listed + lost;
    assert forall f :: f in r.entries && r.entries[f].watched ==> f in s.entries && s.entries[f].watched;
    forall p | p in r.files && r.files[p] in r.entries && r.entries[r.files[p]].watched
      ensures Heard(r, l, p) || JustTold(r, p)
    {
      assert Heard(s, lost, p) || JustTold(s, p);
    }
  }

  lemma HeardAsking(s: State, choice: Choice, lost: set<string>, name: string)
    requires s.lock.Held? && (s.lock.stage.Subscribing? || s.lock.stage.Marking?) && CanStep(s, Continue(choice))
    requires Inv(s) && PublishedHeard(s, lost) && HolderHeard(s, lost) && AllNamed(s, name)
    ensures var (r, l) := (After(s, Continue(choice)), LostAfter(lost, s, Continue(choice)));
            PublishedHeard(r, l) && HolderHeard(r, l)
  {
    hide DirOf, ListedCovered, ThreadsSound, Least, Named, AfterStart, AfterAdd, AfterUnsubscribe, StaysClean, FailedUnlisted;
    var (r, l) := (After(s, Continue(choice)), LostAfter(lost, s, Continue(choice)));
    forall p | p in r.files && r.files[p] in r.entries && r.entries[r.files[p]].watched
      ensures Heard(r, l, p) || JustTold(r, p)
    {
      if DirOf(p) == DirOf(s.lock.job.path) {
        DirTells(p, s.lock.job.path, name);
      }
      assert s.entries[s.files[p]].path == p;
    }
  }

  lemma HeardUnwatching(s: State, path: string, lost: set<string>, name: string, p: string)
    requires Stored(s.files, s.entries) && PublishedHeard(s, lost) && AllNamed(s, name) && path in s.files
    requires p in s.files && Unwatch(s, path).entries[s.files[p]].watched
    ensures Heard(Unwatch(s, path), lost, p) || JustTold(s, p)
  {
    hide DirOf, Named;
    assert s.entries[s.files[p]].watched && (s.entries[s.files[path]].watched ==> p != path);
    if DirOf(p) == DirOf(path) {
      DirTells(p, path, name);
    }
  }

  lemma HeardAdding(s: State, choice: Choice, lost: set<string>, name: string)
    requires s.lock.Held? && s.lock.stage.Adding? && CanStep(s, Continue(choice))
    requires Inv(s) && PublishedHeard(s, lost) && HolderHeard(s, lost) && AllNamed(s, name)
    ensures var (r, l) := (After(s, Continue(choice)), LostAfter(lost, s, Continue(choice)));
            PublishedHeard(r, l) && HolderHeard(r, l)
  {
    hide DirOf, ListedCovered, ThreadsSound, Least, Named, Unwatch, AfterStart, AfterUnsubscribe, StaysClean, FailedUnlisted;
    var (r, l) := (After(s, Continue(choice)), LostAfter(lost, s, Continue(choice)));
    var path, file, victim := s.lock.job.path, s.lock.stage.file, choice.path;
    if |s.files| >= MAX_CACHED_FILES {
      LeastIn(s.files, s.entries, victim);
      UnwatchedStays(s, victim);
      assert s.entries[s.files[victim]].path == victim;
    }
    forall p | p in r.files && r.files[p] in r.entries && r.entries[r.files[p]].watched
      ensures Heard(r, l, p)
    {
      if p == path {
        if |s.files| >= MAX_CACHED_FILES && DirOf(path) == DirOf(victim) {
          DirTells(path, victim, name);
        }
      } else if |s.files| >= MAX_CACHED_FILES {
        HeardUnwatching(s, victim, lost, name, p);
      }
    }
  }

  lemma UnwatchedStays(s: State, path: string)
    requires path in s.files && s.files[path] in s.entries
    ensures var r := Unwatch(s, path);
            && r.files == s.files && r.lock == s.lock && r.entries.Keys == s.entries.Keys
            && (forall f :: f in s.entries && f != s.files[path] ==> r.entries[f] == s.entries[f])
            && (forall dir :: dir in s.listed && dir != DirOf(path) ==> dir in r.listed)
  {
    hide DirOf;
  }

  lemma HeardUnsubscribing(s: State, choice: Choice, lost: set<string>, name: string)
    requires s.lock.Held? && s.lock.stage.Unsubscribing? && CanStep(s, Continue(choice))
    requires Inv(s) && PublishedHeard(s, lost) && AllNamed(s, name)
    ensures var r := After(s, Continue(choice)); PublishedHeard(r, lost) && HolderHeard(r, lost)
  {
    hide DirOf, ListedCovered, ThreadsSound, Least, Named, Unwatch, AfterStart, AfterAdd, StaysClean, FailedUnlisted;
    var r := After(s, Continue(choice));
    if s.lock.stage.rest != {} {
      UnwatchedStays(s, choice.path);
      forall p | p in r.files && r.files[p] in r.entries && r.entries[r.files[p]].watched
        ensures Heard(r, lost, p)
      {
        HeardUnwatching(s, choice.path, lost, name, p);
      }
    }
  }

  lemma HeardWithin(s: State, choice: Choice, lost: set<string>, name: string)
    requires Inv(s) && CanStep(s, Continue(choice)) && PublishedHeard(s, lost) && HolderHeard(s, lost) && AllNamed(s, name)
    ensures var (r, l) := (After(s, Continue(choice)), LostAfter(lost, s, Continue(choice)));
            PublishedHeard(r, l) && HolderHeard(r, l)
  {
    if s.lock.stage.Subscribing? || s.lock.stage.Marking? {
      HeardAsking(s, choice, lost, name);
    } else if s.lock.stage.Adding? {
      HeardAdding(s, choice, lost, name);
    } else if s.lock.stage.Unsubscribing? {
      HeardUnsubscribing(s, choice, lost, name);
    } else {
      HeardElse(s, choice, lost);
    }
  }

  lemma HeardElse(s: State, choice: Choice, lost: set<string>)
    requires s.lock.Held? && CanStep(s, Continue(choice))
    requires s.lock.stage.Start? || s.lock.stage.Ensuring? || s.lock.stage.Refreshing? || s.lock.stage.Finished?
    requires Inv(s) && PublishedHeard(s, lost) && HolderHeard(s, lost)
    ensures var r := After(s, Continue(choice)); PublishedHeard(r, lost) && HolderHeard(r, lost)
  {
    hide After, CanStep, DirOf, Inv;
    var r := After(s, Continue(choice));
    SameWatched(s, choice);
    forall p | p in r.files && r.files[p] in r.entries && r.entries[r.files[p]].watched
      ensures Heard(r, lost, p)
    {
      assert s.files[p] in s.entries && s.entries[s.files[p]].watched;
    }
    if !s.lock.stage.Start? {
      HolderElse(s, choice, lost);
    } else {
      HolderStarts(s, choice, lost);
    }
  }

  lemma SameWatched(s: State, choice: Choice)
    requires s.lock.Held? && CanStep(s, Continue(choice))
    requires s.lock.stage.Start? || s.lock.stage.Ensuring? || s.lock.stage.Refreshing? || s.lock.stage.Finished?
    ensures var r := After(s, Continue(choice));
            && r.files == s.files && r.listed == s.listed && s.lock.Held?
            && forall f :: f in r.entries && r.entries[f].watched ==> f in s.entries && s.entries[f].watched
  {
    hide DirOf, Least, Stored, AfterStart, AfterAdd, AfterUnsubscribe;
    if s.lock.stage.Start? {
      StartWatched(s, choice);
    }
  }

  lemma StartWatched(s: State, choice: Choice)
    requires s.lock.Held? && CanContinue(s, s.lock.job, Start, choice)
    ensures var r := AfterStart(s, s.lock.job, choice);
            && r.files == s.files && r.listed == s.listed
            && forall f :: f in r.entries && r.entries[f].watched ==> f in s.entries && s.entries[f].watched
  {
    hide After, AfterAdd, AfterUnsubscribe, CanStep, DirOf, Stored, Least;
  }

  lemma HolderElse(s: State, choice: Choice, lost: set<string>)
    requires s.lock.Held? && CanStep(s, Continue(choice)) && HolderHeard(s, lost)
    requires s.lock.stage.Ensuring? || s.lock.stage.Refreshing? || s.lock.stage.Finished?
    ensures HolderHeard(After(s, Continue(choice)), lost)
  {
    hide DirOf, Least, Stored, AfterStart, AfterAdd, AfterUnsubscribe;
  }

  lemma HolderStarts(s: State, choice: Choice, lost: set<string>)
    requires s.lock.Held? && s.lock.stage.Start? && CanStep(s, Continue(choice))
    ensures HolderHeard(After(s, Continue(choice)), lost)
  {
    hide DirOf, Least, Stored, AfterAdd, AfterUnsubscribe;
  }

  lemma {:induction false} HeardInRun(s: State, steps: seq<Step>, lost: set<string>, name: string)
    requires Inv(s) && CanRun(s, steps) && PublishedHeard(s, lost) && HolderHeard(s, lost) && AllNamed(s, name)
    requires forall i :: 0 <= i < |steps| ==> StepNamed(steps[i], name)
    ensures PublishedHeard(Run(s, steps), LostIn(lost, s, steps)) && Inv(Run(s, steps))
    decreases |steps|
  {
    hide After, CanStep, Inv, PublishedHeard, HolderHeard, AllNamed, StepNamed, LostAfter;
    if steps != [] {
      StepKeeps(s, steps[0]);
      NamesKept(s, steps[0], name);
      if steps[0].Continue? {
        HeardWithin(s, steps[0].choice, lost, name);
      } else {
        HeardOutside(s, steps[0], lost);
      }
      HeardInRun(After(s, steps[0]), steps[1..], LostAfter(lost, s, steps[0]), name);
    }
  }

  /** Whenever nobody holds the handler's lock, the hub lists the handler for the directory of every published
      file that is marked as watched, unless others have taken it off there since. */
  lemma WatchedStaysListed(steps: seq<Step>, name: string, path: string)
    requires CanRun(INITIAL, steps) && forall i :: 0 <= i < |steps| ==> StepNamed(steps[i], name)
    ensures var s := Run(INITIAL, steps);
            s.lock.Free? && path in s.files && s.files[path] in s.entries && s.entries[s.files[path]].watched ==>
              DirOf(path) in s.listed || DirOf(path) in LostIn({}, INITIAL, steps)
  {
    hide After, CanRun, Run, DirOf;
    assert Inv(INITIAL);
    HeardInRun(INITIAL, steps, {}, name);
  }

  // Some handler is listed

  lemma {:induction false} RunOneMore(s: State, steps: seq<Step>, step: Step)
    requires CanRun(s, steps) && CanStep(Run(s, steps), step)
    ensures CanRun(s, steps + [step]) && Run(s, steps + [step]) == After(Run(s, steps), step)
    decreases |steps|
  {
    hide CanStep, After;
    if steps == [] {
      assert [step][1..] == [];
    } else {
      RunOneMore(After(s, steps[0]), steps[1..], step);
      assert (steps + [step])[1..] == steps[1..] + [step];
    }
  }

  ghost predicate Reachable(s: State) {
    exists steps :: CanRun(INITIAL, steps) && s == Run(INITIAL, steps)
  }

  lemma Next(s: State, step: Step) returns (r: State)
    requires Reachable(s) && CanStep(s, step)
    ensures r == After(s, step) && Reachable(r)
  {
    hide CanRun, Run, CanStep, After;
    var steps :| CanRun(INITIAL, steps) && s == Run(INITIAL, steps);
    RunOneMore(INITIAL, steps, step);
    r := After(s, step);
  }

  const HEADERS := "/srv/a/_headers"
  const CHOICE := Choice(0, "", 5, true)

  lemma FirstRequestAsks() returns (s: State)
    ensures Reachable(s)
    ensures s == State(map[], map[0 := Entry(HEADERS, false, 5, false)], {}, false, false,
                       Held(Load(HEADERS), FileCache.Subscribing(0)), map[])
  {
    hide Reachable;
    StartReachable();
    s := Next(INITIAL, Miss(1, HEADERS));
    s := Next(s, Acquire(1));
    s := Next(s, Continue(CHOICE));
    s := Next(s, Continue(CHOICE));
  }

  lemma FirstRequestMarked() returns (s: State)
    ensures Reachable(s)
    ensures s == State(map[], map[0 := Entry(HEADERS, false, 5, true)], {"/srv/a"}, false, false,
                       Held(Load(HEADERS), Refreshing(0)), map[])
  {
    hide Reachable, DirOf;
    Delivery.FileInDir("/srv/a", "_headers");
    assert HEADERS == Delivery.FileIn("/srv/a", "_headers");
    s := FirstRequestAsks();
    s := Next(s, Continue(CHOICE));
    assert s.lock == Held(Load(HEADERS), Marking(0, true)) && s.listed == {"/srv/a"};
    s := Next(s, Continue(CHOICE));
  }

  /** The first request for a file gets an open handler listed for its directory. */
  lemma FirstRequest() returns (s: State)
    ensures Reachable(s) && s.lock.Free? && !s.closed
    ensures s.listed == {"/srv/a"} && s.files == map["/srv/a/_headers" := 0]
    ensures s.entries == map[0 := Entry("/srv/a/_headers", true, 5, true)]
  {
    hide Reachable, DirOf;
    s := FirstRequestMarked();
    s := Next(s, Continue(CHOICE));
    s := Next(s, Continue(CHOICE));
    s := Next(s, Continue(CHOICE));
  }

  lemma StartReachable()
    ensures Reachable(INITIAL)
  {
    assert CanRun(INITIAL, []) && INITIAL == Run(INITIAL, []);
  }

  // When a check is due

  /** A request that hits the cache waits to check the file exactly when two seconds have passed since the last
      check that it read, and no other request has started one since. */
  lemma CheckWhenDue(s: State, t: nat)
    requires CanStep(s, Decide(t))
    ensures var (th, r) := (s.threads[t], After(s, Decide(t)));
            var due := th.now >= th.last + 2_000_000_000 && s.entries[th.file].lastCheck == th.last;
            if due then r.threads[t] == Waiting(Check(th.path, th.file)) && r.entries[th.file].lastCheck == th.now
            else t !in r.threads && r.entries == s.entries
  {
  }

  /** A load and a reload count as checks: a request that has read the time of one and hits the cache within two
      seconds of it does not start a check. */
  lemma LoadsCount(s: State, choice: Choice, u: State, t: nat)
    requires s.lock.Held? && s.lock.stage == Start && CanStep(s, Continue(choice)) && CanStep(u, Decide(t))
    requires (s.lock.job.Load? && s.lock.job.path !in s.files && u.threads[t].file == choice.file)
             || (s.lock.job.Reload? && u.threads[t].file == s.lock.job.file)
    requires u.threads[t].last == After(s, Continue(choice)).entries[u.threads[t].file].lastCheck
    ensures u.threads[t].now < choice.now + 2_000_000_000 ==> t !in After(u, Decide(t)).threads
  {
  }

  /** Of two requests that have read the same last check, only the first starts one. */
  lemma OneCheck(s: State, t: nat, u: nat)
    requires CanStep(s, Decide(t)) && CanStep(s, Decide(u)) && t != u
    requires s.threads[t].file == s.threads[u].file && s.threads[t].last == s.threads[u].last
    requires After(s, Decide(t)).threads.Keys == s.threads.Keys
    ensures CanStep(After(s, Decide(t)), Decide(u))
    ensures u !in After(After(s, Decide(t)), Decide(u)).threads
  {
  }
}
