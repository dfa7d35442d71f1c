/** The cache of one file handler: requests, watcher events, evictions and cleanup interleave, and
    no subscription is ever left without a cache entry that cleanup can find. */
module FileCache {
  import opened Paths

  const MAX_CACHED_FILES: nat := 64

  /** Two seconds, in nanoseconds. */
  const CHECK_INTERVAL: int := 2_000_000_000

  /** `filepath.Dir` of a clean path. */
  function DirOf(path: string): string {
    var slash := LastIndexByte(path, '/');
    if slash > 0 then path[..slash] else if slash == 0 then "/" else "."
  }

  /** `cachedFile`; `path` is the path it was created for. */
  datatype Entry = Entry(path: string, hasRules: bool, lastCheck: int, watched: bool)

  type FileId = nat

  // Eviction

  /** `evictBefore`. */
  predicate EvictBefore(a: Entry, b: Entry) {
    if a.hasRules != b.hasRules then !a.hasRules else a.lastCheck < b.lastCheck
  }

  /** No cached file should be evicted before the one at `victim`. */
  ghost predicate Least(files: map<string, FileId>, entries: map<FileId, Entry>, victim: string)
    requires Stored(files, entries)
  {
    victim in files &&
    forall p :: p in files ==> !EvictBefore(entries[files[p]], entries[files[victim]])
  }

  /** Every cached file has an entry, under the path it was created for. */
  ghost predicate Stored(files: map<string, FileId>, entries: map<FileId, Entry>) {
    forall p :: p in files ==> files[p] in entries && entries[files[p]].path == p
  }

  /** The scan for the entry to evict: one with rules only when every cached file has rules, and of its
      kind the least recently checked one. */
  method Oldest(files: map<string, FileId>, entries: map<FileId, Entry>) returns (victim: string)
    requires Stored(files, entries) && files != map[]
    ensures Least(files, entries, victim)
    ensures entries[files[victim]].hasRules ==> forall p :: p in files ==> entries[files[p]].hasRules
    ensures forall p :: p in files && entries[files[p]].hasRules == entries[files[victim]].hasRules ==>
              entries[files[victim]].lastCheck <= entries[files[p]].lastCheck
  {
    var rest := files.Keys;
    victim :| victim in rest;
    rest := rest - {victim};
    while rest != {}
      invariant rest <= files.Keys && victim in files
      invariant forall p :: p in files && p !in rest ==> !EvictBefore(entries[files[p]], entries[files[victim]])
    {
      var p :| p in rest;
      if EvictBefore(entries[files[p]], entries[files[victim]]) {
        victim := p;
      }
      rest := rest - {p};
    }
  }

  // The handler and everything that runs in it

  /** What a request, an event or cleanup does once it holds the handler's lock. */
  datatype Job =
    | Check(path: string, file: FileId)
    | Load(path: string)
    | Reload(path: string, file: FileId)
    | Cleanup

  datatype Stage =
    | Start
    | Ensuring(file: FileId)
    | Subscribing(file: FileId)
    | Marking(file: FileId, ok: bool)
    | Refreshing(file: FileId)
    | Adding(file: FileId)
    | Unsubscribing(rest: set<string>)
    | Finished

  datatype Lock = Free | Held(job: Job, stage: Stage)

  /** A goroutine that does not hold the lock. */
  datatype Thread =
    | Looked(path: string, file: FileId, now: int)
    | Deciding(path: string, file: FileId, last: int, now: int)
    | Waiting(job: Job)

  /** `listed` are the directories for which the shared hub lists this handler; `cleaned` records
      that a call of Cleanup has returned. */
  datatype State = State(
    files: map<string, FileId>,
    entries: map<FileId, Entry>,
    listed: set<string>,
    closed: bool,
    cleaned: bool,
    lock: Lock,
    threads: map<nat, Thread>)

  const INITIAL := State(map[], map[], {}, false, false, Free, map[])

  /** Atomic steps, with what the scheduler and the environment choose. */
  datatype Step =
    | Hit(t: nat, path: string, now: int)
    | ReadLast(t: nat)
    | Decide(t: nat)
    | Miss(t: nat, path: string)
    | Event(t: nat, path: string)
    | Close(t: nat)
    | Acquire(t: nat)
    | Continue(choice: Choice)
    | Unlist(dirs: set<string>)

  datatype Choice = Choice(file: FileId, path: string, now: int, ok: bool)

  ghost predicate CanStep(s: State, step: Step) {
    match step
    case Hit(t, path, _) => t !in s.threads && path in s.files && s.files[path] in s.entries
    case ReadLast(t) => t in s.threads && s.threads[t].Looked? && s.threads[t].file in s.entries
    case Decide(t) => t in s.threads && s.threads[t].Deciding? && s.threads[t].file in s.entries
    case Miss(t, path) => t !in s.threads && path !in s.files
    case Event(t, path) => t !in s.threads && path in s.files
    case Close(t) => t !in s.threads
    case Acquire(t) => s.lock.Free? && t in s.threads && s.threads[t].Waiting?
    case Continue(choice) => s.lock.Held? && CanContinue(s, s.lock.job, s.lock.stage, choice)
    case Unlist(_) => true
  }

  ghost predicate CanContinue(s: State, job: Job, stage: Stage, choice: Choice) {
    match stage
    case Start =>
      (job.Load? ==> choice.file !in s.entries) && (job.Reload? ==> job.file in s.entries)
    case Subscribing(_) => !job.Cleanup?
    case Marking(file, _) => file in s.entries
    case Refreshing(file) => file in s.entries
    case Adding(file) =>
      job.Load? && Stored(s.files, s.entries) && (|s.files| >= MAX_CACHED_FILES ==> Least(s.files, s.entries, choice.path))
    case Unsubscribing(rest) => rest <= s.files.Keys && Stored(s.files, s.entries) && (rest != {} ==> choice.path in rest)
    case _ => true
  }

  ghost function After(s: State, step: Step): (r: State)
    requires CanStep(s, step)
    ensures s.cleaned ==> r.cleaned
  {
    match step
    case Hit(t, path, now) => s.(threads := s.threads[t := Looked(path, s.files[path], now)])
    case ReadLast(t) =>
      var th := s.threads[t];
      s.(threads := s.threads[t := Deciding(th.path, th.file, s.entries[th.file].lastCheck, th.now)])
    case Decide(t) => AfterDecide(s, t)
    case Miss(t, path) => s.(threads := s.threads[t := Waiting(Load(path))])
    case Event(t, path) => s.(threads := s.threads[t := Waiting(Reload(path, s.files[path]))])
    case Close(t) => s.(closed := true, threads := s.threads[t := Waiting(Cleanup)])
    case Acquire(t) => s.(lock := Held(s.threads[t].job, Start), threads := s.threads - {t})
    case Continue(choice) => AfterContinue(s, s.lock.job, s.lock.stage, choice)
    case Unlist(dirs) => s.(listed := s.listed - dirs)
  }

  /** The compare-and-swap on the time of the last check. */
  ghost function AfterDecide(s: State, t: nat): (r: State)
    requires t in s.threads && s.threads[t].Deciding? && s.threads[t].file in s.entries
    ensures r.cleaned == s.cleaned
  {
    var th, e := s.threads[t], s.entries[s.threads[t].file];
    if th.now - th.last >= CHECK_INTERVAL && e.lastCheck == th.last then
      s.(entries := s.entries[th.file := e.(lastCheck := th.now)], threads := s.threads[t := Waiting(Check(th.path, th.file))])
    else
      s.(threads := s.threads - {t})
  }

  ghost function AfterContinue(s: State, job: Job, stage: Stage, choice: Choice): (r: State)
    requires s.lock == Held(job, stage) && CanContinue(s, job, stage, choice)
    ensures s.cleaned ==> r.cleaned
  {
    match stage
    case Start => AfterStart(s, job, choice)
    case Ensuring(file) => At(s, job, if s.closed then Refreshing(file) else Subscribing(file))
    case Subscribing(file) =>
      var dir := DirOf(job.path);
      At(s, job, Marking(file, choice.ok)).(listed := if choice.ok then s.listed + {dir} else s.listed - {dir})
    case Marking(file, ok) =>
      At(s, job, Refreshing(file)).(entries := s.entries[file := s.entries[file].(watched := ok)])
    case Refreshing(file) =>
      At(s, job, if job.Load? then Adding(file) else Finished).(
        entries := s.entries[file := s.entries[file].(hasRules := choice.ok)])
    case Adding(file) => AfterAdd(s, job, file, choice.path)
    case Unsubscribing(rest) => AfterUnsubscribe(s, job, rest, choice.path)
    case Finished => s.(lock := Free, cleaned := s.cleaned || job.Cleanup?)
  }

  ghost function At(s: State, job: Job, stage: Stage): State {
    s.(lock := Held(job, stage))
  }

  ghost function AfterStart(s: State, job: Job, choice: Choice): (r: State)
    requires CanContinue(s, job, Start, choice)
    ensures r.cleaned == s.cleaned
  {
    match job
    case Check(path, file) =>
      At(s, job, if path in s.files && s.files[path] == file then Ensuring(file) else Finished)
    case Load(path) =>
      if path in s.files then At(s, job, Finished)
      else At(s, job, Ensuring(choice.file)).(entries := s.entries[choice.file := Entry(path, false, choice.now, false)])
    case Reload(path, file) =>
      At(s, job, Refreshing(file)).(entries := s.entries[file := s.entries[file].(lastCheck := choice.now)])
    case Cleanup => At(s, job, Unsubscribing(s.files.Keys))
  }

  /** Takes the handler off the hub for the directory of `path` if its entry says that it is on it. */
  ghost function Unwatch(s: State, path: string): (r: State)
    requires path in s.files && s.files[path] in s.entries
    ensures r.cleaned == s.cleaned
  {
    var file := s.files[path];
    if s.entries[file].watched then
      s.(listed := s.listed - {DirOf(path)}, entries := s.entries[file := s.entries[file].(watched := false)])
    else s
  }

  /** `addFileLocked`. */
  ghost function AfterAdd(s: State, job: Job, file: FileId, victim: string): (r: State)
    requires CanContinue(s, job, Adding(file), Choice(file, victim, 0, false))
    ensures r.cleaned == s.cleaned
  {
    var evicted := if |s.files| >= MAX_CACHED_FILES then Unwatch(s, victim).(files := s.files - {victim}) else s;
    At(evicted, job, Finished).(files := evicted.files[job.path := file])
  }

  ghost function AfterUnsubscribe(s: State, job: Job, rest: set<string>, path: string): (r: State)
    requires CanContinue(s, job, Unsubscribing(rest), Choice(0, path, 0, false))
    ensures r.cleaned == s.cleaned
  {
    if rest == {} then At(s, job, Finished)
    else At(Unwatch(s, path), job, Unsubscribing(rest - {path}))
  }

  ghost predicate CanRun(s: State, steps: seq<Step>)
    decreases |steps|
  {
    steps == [] || (CanStep(s, steps[0]) && CanRun(After(s, steps[0]), steps[1..]))
  }

  ghost function Run(s: State, steps: seq<Step>): State
    requires CanRun(s, steps)
    decreases |steps|
  {
    if steps == [] then s else Run(After(s, steps[0]), steps[1..])
  }

  /** The cache as fields that are updated in place; the hub's listing of the handler with it. */
  class Cache {
    var files: map<string, FileId>
    var entries: map<FileId, Entry>
    var listed: set<string>

    constructor ()
      ensures files == map[] && entries == map[] && listed == {}
    {
      files, entries, listed := map[], map[], {};
    }

    /** The state in which the holder of the lock is about to publish a file. */
    ghost function Publishing(path: string, file: FileId): State
      reads this
    {
      State(files, entries, listed, false, false, Held(Load(path), Adding(file)), map[])
    }

    /** `addFileLocked`: does one of the steps that the interleavings allow. */
    method AddFile(path: string, file: FileId) returns (ghost victim: string)
      requires Stored(files, entries)
      modifies this
      ensures if old(|files|) < 64 then files == old(files)[path := file]
              else victim in old(files) && Least(old(files), old(entries), victim)
                   && files == (old(files) - {victim})[path := file]
      ensures var s := old(Publishing(path, file));
              && CanContinue(s, Load(path), Adding(file), Choice(file, victim, 0, false))
              && var r := AfterAdd(s, Load(path), file, victim);
                 files == r.files && entries == r.entries && listed == r.listed
    {
      var next := files;
      victim := "";
      if |next| >= MAX_CACHED_FILES {
        var oldest := Oldest(files, entries);
        victim := oldest;
        if entries[files[oldest]].watched {
          listed := listed - {DirOf(oldest)};
          entries := entries[files[oldest] := entries[files[oldest]].(watched := false)];
        }
        next := next - {oldest};
      }
      files := next[path := file];
    }
  }

  // The invariant

  /** A published entry of the directory says that it is watched. */
  ghost predicate Covered(s: State, dir: string) {
    exists p :: p in s.files && DirOf(p) == dir && s.files[p] in s.entries && s.entries[s.files[p]].watched
  }

  /** The holder of the lock is about to record or publish the subscription. */
  ghost predicate Excused(s: State, dir: string) {
    s.lock.Held? && !s.lock.job.Cleanup? && DirOf(s.lock.job.path) == dir &&
    match s.lock.stage
    case Marking(_, ok) => ok
    case Refreshing(file) => s.lock.job.Load? && file in s.entries && s.entries[file].watched
    case Adding(file) => s.lock.job.Load? && file in s.entries && s.entries[file].watched
    case _ => false
  }

  ghost predicate ListedCovered(s: State) {
    forall dir :: dir in s.listed ==> Covered(s, dir) || Excused(s, dir)
  }

  /** What the holder of the lock knows. */
  ghost predicate Sound(s: State, job: Job, stage: Stage) {
    match job
    case Check(path, file) =>
      && file in s.entries
      && (stage == Start || stage == Finished
          || ((stage.Ensuring? || stage.Subscribing? || stage.Marking? || stage.Refreshing?)
              && stage.file == file && path in s.files && s.files[path] == file))
    case Load(path) =>
      stage == Start || stage == Finished
      || ((stage.Ensuring? || stage.Subscribing? || stage.Marking? || stage.Refreshing? || stage.Adding?)
          && stage.file in s.entries && s.entries[stage.file].path == path && path !in s.files)
    case Reload(_, file) => file in s.entries && (stage == Start || stage == Refreshing(file) || stage == Finished)
    case Cleanup =>
      && s.closed
      && (stage == Start
          || (stage == Finished && s.listed == {})
          || (stage.Unsubscribing? && stage.rest <= s.files.Keys
              && forall p :: p in s.files && s.files[p] in s.entries && s.entries[s.files[p]].watched ==> p in stage.rest))
  }

  ghost predicate ThreadSound(s: State, th: Thread) {
    match th
    case Looked(_, file, _) => file in s.entries
    case Deciding(_, file, _, _) => file in s.entries
    case Waiting(job) => Sound(s, job, Start)
  }

  ghost predicate ThreadsSound(s: State) {
    forall t :: t in s.threads ==> ThreadSound(s, s.threads[t])
  }

  /** After cleanup, nothing is listed and nothing is about to be. */
  ghost predicate StaysClean(s: State) {
    s.cleaned ==> s.closed && s.listed == {} && !(s.lock.Held? && s.lock.stage.Subscribing?)
  }

  /** A subscription that failed left the directory unlisted. */
  ghost predicate FailedUnlisted(s: State) {
    s.lock.Held? && s.lock.stage.Marking? && !s.lock.job.Cleanup? && !s.lock.stage.ok ==> DirOf(s.lock.job.path) !in s.listed
  }

  ghost predicate Inv(s: State) {
    && Stored(s.files, s.entries)
    && ListedCovered(s)
    && (s.lock.Held? ==> Sound(s, s.lock.job, s.lock.stage))
    && ThreadsSound(s)
    && StaysClean(s) && FailedUnlisted(s)
    && |s.files| <= MAX_CACHED_FILES
  }

  // Every step keeps it

  /** A change of an entry that neither moves it nor changes whether it is watched. */
  lemma TouchKeeps(s: State, file: FileId, e: Entry)
    requires Inv(s) && file in s.entries && e.path == s.entries[file].path && e.watched == s.entries[file].watched
    ensures Inv(s.(entries := s.entries[file := e]))
  {
    var r := s.(entries := s.entries[file := e]);
    forall dir | dir in r.listed
      ensures Covered(r, dir) || Excused(r, dir)
    {
      CoveredLike(s, r, dir);
    }
    forall t | t in r.threads
      ensures ThreadSound(r, r.threads[t])
    {
      assert ThreadSound(s, s.threads[t]);
    }
  }

  /** Coverage depends on the published entries' watched flags only. */
  lemma CoveredLike(s: State, r: State, dir: string)
    requires r.files == s.files && s.entries.Keys <= r.entries.Keys
    requires forall f :: f in s.entries && s.entries[f].watched ==> r.entries[f].watched
    ensures Covered(s, dir) ==> Covered(r, dir)
  {
    if Covered(s, dir) {
      var p :| p in s.files && DirOf(p) == dir && s.files[p] in s.entries && s.entries[s.files[p]].watched;
      assert r.files[p] in r.entries && r.entries[r.files[p]].watched;
    }
  }

  lemma ThreadsKeep(s: State, threads: map<nat, Thread>)
    requires Inv(s) && forall t :: t in threads ==> ThreadSound(s, threads[t])
    ensures Inv(s.(threads := threads))
  {
    var r := s.(threads := threads);
    forall dir | dir in r.listed
      ensures Covered(r, dir) || Excused(r, dir)
    {
      CoveredLike(s, r, dir);
    }
  }

  lemma OutsideKeeps(s: State, step: Step)
    requires Inv(s) && CanStep(s, step)
    requires step.Hit? || step.ReadLast? || step.Miss? || step.Event?
    ensures Inv(After(s, step))
  {
    ThreadsKeep(s, After(s, step).threads);
  }

  lemma DecideKeeps(s: State, t: nat)
    requires Inv(s) && CanStep(s, Decide(t))
    ensures Inv(AfterDecide(s, t))
  {
    var th, e := s.threads[t], s.entries[s.threads[t].file];
    if th.now - th.last >= CHECK_INTERVAL && e.lastCheck == th.last {
      TouchKeeps(s, th.file, e.(lastCheck := th.now));
      var r := s.(entries := s.entries[th.file := e.(lastCheck := th.now)]);
      ThreadsKeep(r, s.threads[t := Waiting(Check(th.path, th.file))]);
    } else {
      ThreadsKeep(s, s.threads - {t});
    }
  }

  lemma CloseKeeps(s: State, t: nat)
    requires Inv(s) && CanStep(s, Close(t))
    ensures Inv(After(s, Close(t)))
  {
    var r := s.(closed := true);
    forall dir | dir in r.listed
      ensures Covered(r, dir) || Excused(r, dir)
    {
      CoveredLike(s, r, dir);
    }
    forall u | u in r.threads
      ensures ThreadSound(r, r.threads[u])
    {
      assert ThreadSound(s, s.threads[u]);
    }
    ThreadsKeep(r, s.threads[t := Waiting(Cleanup)]);
  }

  lemma UnlistKeeps(s: State, dirs: set<string>)
    requires Inv(s)
    ensures Inv(s.(listed := s.listed - dirs))
  {
    var r := s.(listed := s.listed - dirs);
    forall dir | dir in r.listed
      ensures Covered(r, dir) || Excused(r, dir)
    {
      CoveredLike(s, r, dir);
    }
    forall u | u in r.threads
      ensures ThreadSound(r, r.threads[u])
    {
      assert ThreadSound(s, s.threads[u]);
    }
  }

  lemma LockKeeps(s: State, lock: Lock)
    requires Inv(s)
    requires lock.Held? ==> Sound(s.(lock := lock), lock.job, lock.stage)
    requires forall dir :: dir in s.listed && Excused(s, dir) ==> Covered(s, dir) || Excused(s.(lock := lock), dir)
    requires StaysClean(s.(lock := lock)) && FailedUnlisted(s.(lock := lock))
    ensures Inv(s.(lock := lock))
  {
    var r := s.(lock := lock);
    forall dir | dir in r.listed
      ensures Covered(r, dir) || Excused(r, dir)
    {
      CoveredLike(s, r, dir);
    }
    forall u | u in r.threads
      ensures ThreadSound(r, r.threads[u])
    {
      assert ThreadSound(s, s.threads[u]);
    }
  }

  lemma AcquireKeeps(s: State, t: nat)
    requires Inv(s) && CanStep(s, Acquire(t))
    ensures Inv(After(s, Acquire(t)))
  {
    assert ThreadSound(s, s.threads[t]);
    var lock := Held(s.threads[t].job, Start);
    assert Sound(s.(lock := lock), lock.job, Start);
    LockKeeps(s, lock);
    ThreadsKeep(s.(lock := lock), s.threads - {t});
  }

  /** A new entry, not published yet. */
  lemma CreateKeeps(s: State, file: FileId, e: Entry)
    requires Inv(s) && file !in s.entries
    ensures Inv(s.(entries := s.entries[file := e]))
  {
    var r := s.(entries := s.entries[file := e]);
    forall dir | dir in r.listed
      ensures Covered(r, dir) || Excused(r, dir)
    {
      CoveredLike(s, r, dir);
    }
    forall t | t in r.threads
      ensures ThreadSound(r, r.threads[t])
    {
      assert ThreadSound(s, s.threads[t]);
    }
  }

  lemma StartKeeps(s: State, job: Job, choice: Choice)
    requires Inv(s) && s.lock == Held(job, Start) && CanContinue(s, job, Start, choice)
    ensures Inv(AfterStart(s, job, choice))
  {
    match job
    case Check(path, file) =>
      LockKeeps(s, AfterStart(s, job, choice).lock);
    case Load(path) =>
      if path in s.files {
        LockKeeps(s, Held(job, Finished));
      } else {
        var e := Entry(path, false, choice.now, false);
        CreateKeeps(s, choice.file, e);
        LockKeeps(s.(entries := s.entries[choice.file := e]), Held(job, Ensuring(choice.file)));
      }
    case Reload(path, file) =>
      var e := s.entries[file].(lastCheck := choice.now);
      TouchKeeps(s, file, e);
      LockKeeps(s.(entries := s.entries[file := e]), Held(job, Refreshing(file)));
    case Cleanup =>
      LockKeeps(s, Held(job, Unsubscribing(s.files.Keys)));
  }

  lemma EnsureKeeps(s: State, job: Job, file: FileId)
    requires Inv(s) && s.lock == Held(job, Ensuring(file))
    ensures Inv(At(s, job, if s.closed then Refreshing(file) else Subscribing(file)))
  {
    LockKeeps(s, Held(job, if s.closed then Refreshing(file) else Subscribing(file)));
  }

  lemma SubscribeKeeps(s: State, job: Job, file: FileId, choice: Choice)
    requires Inv(s) && s.lock == Held(job, Subscribing(file)) && CanContinue(s, job, Subscribing(file), choice)
    ensures Inv(AfterContinue(s, job, Subscribing(file), choice))
  {
    var r := AfterContinue(s, job, Subscribing(file), choice);
    forall dir | dir in r.listed
      ensures Covered(r, dir) || Excused(r, dir)
    {
      CoveredLike(s, r, dir);
    }
    forall u | u in r.threads
      ensures ThreadSound(r, r.threads[u])
    {
      assert ThreadSound(s, s.threads[u]);
    }
  }

  lemma MarkCovered(s: State, job: Job, file: FileId, ok: bool, choice: Choice, dir: string)
    requires Inv(s) && s.lock == Held(job, Marking(file, ok)) && CanContinue(s, job, Marking(file, ok), choice)
    requires dir in s.listed
    ensures var r := AfterContinue(s, job, Marking(file, ok), choice);
            Covered(r, dir) || Excused(r, dir)
  {
    hide DirOf, ThreadsSound, Least;
    var r := AfterContinue(s, job, Marking(file, ok), choice);
    if Covered(s, dir) {
      var p :| p in s.files && DirOf(p) == dir && s.files[p] in s.entries && s.entries[s.files[p]].watched;
      assert s.files[p] == file ==> p == job.path;
      assert r.entries[r.files[p]].watched;
    } else {
      assert job.Check? ==> r.entries[r.files[job.path]].watched;
    }
  }

  lemma MarkKeeps(s: State, job: Job, file: FileId, ok: bool, choice: Choice)
    requires Inv(s) && s.lock == Held(job, Marking(file, ok)) && CanContinue(s, job, Marking(file, ok), choice)
    ensures Inv(AfterContinue(s, job, Marking(file, ok), choice))
  {
    hide DirOf;
    var r := AfterContinue(s, job, Marking(file, ok), choice);
    forall dir | dir in r.listed
      ensures Covered(r, dir) || Excused(r, dir)
    {
      MarkCovered(s, job, file, ok, choice, dir);
    }
    forall u | u in r.threads
      ensures ThreadSound(r, r.threads[u])
    {
      assert ThreadSound(s, s.threads[u]);
    }
  }

  lemma RefreshKeeps(s: State, job: Job, file: FileId, choice: Choice)
    requires Inv(s) && s.lock == Held(job, Refreshing(file)) && CanContinue(s, job, Refreshing(file), choice)
    ensures Inv(AfterContinue(s, job, Refreshing(file), choice))
  {
    var e := s.entries[file].(hasRules := choice.ok);
    TouchKeeps(s, file, e);
    var r := s.(entries := s.entries[file := e]);
    LockKeeps(r, Held(job, if job.Load? then Adding(file) else Finished));
  }

  lemma UnwatchCovered(s: State, path: string, dir: string)
    requires Stored(s.files, s.entries) && path in s.files && Covered(s, dir) && dir in Unwatch(s, path).listed
    ensures Covered(Unwatch(s, path), dir)
  {
    hide DirOf;
    var r := Unwatch(s, path);
    var p :| p in s.files && DirOf(p) == dir && s.files[p] in s.entries && s.entries[s.files[p]].watched;
    assert p != path && s.entries[s.files[p]].path == p;
    assert r.files[p] in r.entries && r.entries[r.files[p]].watched;
  }

  /** Taking a path off the hub removes what only it covered. */
  lemma UnwatchKeeps(s: State, path: string)
    requires Inv(s) && path in s.files
    ensures Inv(Unwatch(s, path))
    ensures var r := Unwatch(s, path);
            && r.files == s.files && r.lock == s.lock && r.entries.Keys == s.entries.Keys
            && !r.entries[r.files[path]].watched
  {
    hide DirOf, Covered;
    var r := Unwatch(s, path);
    forall dir | dir in r.listed
      ensures Covered(r, dir) || Excused(r, dir)
    {
      if Covered(s, dir) {
        UnwatchCovered(s, path, dir);
      }
    }
    forall u | u in r.threads
      ensures ThreadSound(r, r.threads[u])
    {
      assert ThreadSound(s, s.threads[u]);
    }
  }

  /** Dropping an unwatched file from the cache, by a holder of the lock that does not rely on it. */
  lemma DropKeeps(s: State, path: string)
    requires Inv(s) && path in s.files && !s.entries[s.files[path]].watched
    requires s.lock.Held? && s.lock.job.Load? && s.lock.stage.Adding?
    ensures Inv(s.(files := s.files - {path})) && |s.files - {path}| == |s.files| - 1
  {
    var r := s.(files := s.files - {path});
    assert r.files.Keys == s.files.Keys - {path};
    forall dir | dir in r.listed
      ensures Covered(r, dir) || Excused(r, dir)
    {
      if Covered(s, dir) {
        var p :| p in s.files && DirOf(p) == dir && s.files[p] in s.entries && s.entries[s.files[p]].watched;
        assert r.files[p] in r.entries && r.entries[r.files[p]].watched;
      }
    }
    forall u | u in r.threads
      ensures ThreadSound(r, r.threads[u])
    {
      assert ThreadSound(s, s.threads[u]);
    }
  }

  lemma PublishCovered(s: State, job: Job, file: FileId, dir: string)
    requires Inv(s) && s.lock == Held(job, Adding(file)) && job.Load? && dir in s.listed
    ensures Covered(At(s, job, Finished).(files := s.files[job.path := file]), dir)
  {
    hide DirOf, ThreadsSound;
    var r := At(s, job, Finished).(files := s.files[job.path := file]);
    if Covered(s, dir) {
      var p :| p in s.files && DirOf(p) == dir && s.files[p] in s.entries && s.entries[s.files[p]].watched;
      assert r.files[p] in r.entries && r.entries[r.files[p]].watched;
    } else {
      assert r.files[job.path] in r.entries && r.entries[r.files[job.path]].watched;
    }
  }

  lemma OneMore(files: map<string, FileId>, path: string, file: FileId)
    ensures |files[path := file]| <= |files| + 1
  {
    assert files[path := file].Keys == files.Keys + {path};
    assert |files.Keys + {path}| <= |files.Keys| + 1;
  }

  lemma PublishStored(files: map<string, FileId>, entries: map<FileId, Entry>, path: string, file: FileId)
    requires Stored(files, entries) && file in entries && entries[file].path == path
    ensures Stored(files[path := file], entries)
  {
  }

  /** Publishing the entry that the holder of the lock has loaded. */
  lemma PublishKeeps(s: State, job: Job, file: FileId)
    requires Inv(s) && s.lock == Held(job, Adding(file)) && job.Load? && |s.files| < MAX_CACHED_FILES
    ensures Inv(At(s, job, Finished).(files := s.files[job.path := file]))
  {
    hide DirOf, Covered, Stored;
    var r := At(s, job, Finished).(files := s.files[job.path := file]);
    OneMore(s.files, job.path, file);
    PublishStored(s.files, s.entries, job.path, file);
    forall dir | dir in r.listed
      ensures Covered(r, dir) || Excused(r, dir)
    {
      PublishCovered(s, job, file, dir);
    }
    forall u | u in r.threads
      ensures ThreadSound(r, r.threads[u])
    {
      assert ThreadSound(s, s.threads[u]);
    }
  }

  lemma AddKeeps(s: State, job: Job, file: FileId, choice: Choice)
    requires Inv(s) && s.lock == Held(job, Adding(file)) && CanContinue(s, job, Adding(file), choice)
    ensures Inv(AfterAdd(s, job, file, choice.path))
  {
    if |s.files| >= MAX_CACHED_FILES {
      UnwatchKeeps(s, choice.path);
      DropKeeps(Unwatch(s, choice.path), choice.path);
      PublishKeeps(Unwatch(s, choice.path).(files := s.files - {choice.path}), job, file);
    } else {
      PublishKeeps(s, job, file);
    }
  }

  lemma UnsubscribeKeeps(s: State, job: Job, rest: set<string>, choice: Choice)
    requires Inv(s) && s.lock == Held(job, Unsubscribing(rest)) && CanContinue(s, job, Unsubscribing(rest), choice)
    ensures Inv(AfterUnsubscribe(s, job, rest, choice.path))
  {
    if rest == {} {
      NothingListed(s);
      LockKeeps(s, Held(job, Finished));
    } else {
      UnwatchKeeps(s, choice.path);
      LockKeeps(Unwatch(s, choice.path), Held(job, Unsubscribing(rest - {choice.path})));
    }
  }

  /** Once no published entry is watched, nothing is listed. */
  lemma NothingListed(s: State)
    requires Inv(s) && s.lock == Held(Cleanup, Unsubscribing({}))
    ensures s.listed == {}
  {
    assert forall dir :: dir in s.listed ==> Covered(s, dir);
    assert forall dir :: !Covered(s, dir);
  }

  lemma FinishKeeps(s: State, job: Job)
    requires Inv(s) && s.lock == Held(job, Finished)
    ensures Inv(s.(lock := Free, cleaned := s.cleaned || job.Cleanup?))
  {
    var r := s.(cleaned := s.cleaned || job.Cleanup?);
    forall dir | dir in r.listed
      ensures Covered(r, dir) || Excused(r, dir)
    {
      CoveredLike(s, r, dir);
    }
    forall u | u in r.threads
      ensures ThreadSound(r, r.threads[u])
    {
      assert ThreadSound(s, s.threads[u]);
    }
    LockKeeps(r, Free);
  }

  lemma ContinueKeeps(s: State, choice: Choice)
    requires Inv(s) && CanStep(s, Continue(choice))
    ensures Inv(After(s, Continue(choice)))
  {
    hide Inv, CanContinue;
    var job := s.lock.job;
    match s.lock.stage
    case Start => StartKeeps(s, job, choice);
    case Ensuring(file) => EnsureKeeps(s, job, file);
    case Subscribing(file) => SubscribeKeeps(s, job, file, choice);
    case Marking(file, ok) => MarkKeeps(s, job, file, ok, choice);
    case Refreshing(file) => RefreshKeeps(s, job, file, choice);
    case Adding(file) => AddKeeps(s, job, file, choice);
    case Unsubscribing(rest) => UnsubscribeKeeps(s, job, rest, choice);
    case Finished => FinishKeeps(s, job);
  }

  lemma StepKeeps(s: State, step: Step)
    requires Inv(s) && CanStep(s, step)
    ensures Inv(After(s, step))
    ensures s.cleaned ==> After(s, step).cleaned
  {
    hide Inv, CanContinue, AfterStart, AfterAdd, AfterUnsubscribe;
    match step
    case Decide(t) => DecideKeeps(s, t);
    case Close(t) => CloseKeeps(s, t);
    case Acquire(t) => AcquireKeeps(s, t);
    case Continue(choice) => ContinueKeeps(s, choice);
    case Unlist(dirs) => UnlistKeeps(s, dirs);
    case _ => OutsideKeeps(s, step);
  }

  lemma {:induction false} RunKeeps(s: State, steps: seq<Step>)
    requires Inv(s) && CanRun(s, steps)
    ensures Inv(Run(s, steps))
    ensures s.cleaned ==> Run(s, steps).cleaned
    decreases |steps|
  {
    hide Inv, CanStep, After;
    if steps != [] {
      StepKeeps(s, steps[0]);
      RunKeeps(After(s, steps[0]), steps[1..]);
    }
  }

  // What it means for every run

  /** Whenever nobody holds the handler's lock, every directory the hub lists for the handler has a
      published cache entry that says so, and the cache is bounded. */
  lemma NoLeakedSubscription(steps: seq<Step>, dir: string)
    requires CanRun(INITIAL, steps)
    ensures var s := Run(INITIAL, steps);
            && (s.lock.Free? && dir in s.listed ==>
                  exists p :: p in s.files && DirOf(p) == dir && s.files[p] in s.entries && s.entries[s.files[p]].watched)
            && |s.files| <= 64
  {
    hide After;
    assert Inv(INITIAL);
    RunKeeps(INITIAL, steps);
  }

  /** Once a call of Cleanup has returned, the hub never lists the handler again. */
  lemma NeverListedAfterCleanup(steps: seq<Step>, more: seq<Step>)
    requires CanRun(INITIAL, steps) && Run(INITIAL, steps).cleaned
    requires CanRun(Run(INITIAL, steps), more)
    ensures Run(Run(INITIAL, steps), more).listed == {}
  {
    hide After;
    assert Inv(INITIAL);
    RunKeeps(INITIAL, steps);
    RunKeeps(Run(INITIAL, steps), more);
  }

  // The holder of the lock is never stuck

  lemma {:induction false} Bounded(ids: set<FileId>) returns (bound: FileId)
    ensures forall id :: id in ids ==> id < bound
    decreases |ids|
  {
    bound := 0;
    if ids != {} {
      var id :| id in ids;
      var rest := Bounded(ids - {id});
      bound := if rest > id then rest else id + 1;
      assert forall i :: i in ids ==> i == id || i in ids - {id};
    }
  }

  lemma {:induction false} SomeLeast(files: map<string, FileId>, entries: map<FileId, Entry>, among: set<string>)
    returns (victim: string)
    requires Stored(files, entries) && among != {} && among <= files.Keys
    ensures victim in among
    ensures forall p :: p in among ==> !EvictBefore(entries[files[p]], entries[files[victim]])
    decreases |among|
  {
    var one :| one in among;
    var others := among - {one};
    if others == {} {
      assert among == {one};
      return one;
    }
    var best := SomeLeast(files, entries, others);
    victim := if EvictBefore(entries[files[one]], entries[files[best]]) then one else best;
    forall p | p in among
      ensures !EvictBefore(entries[files[p]], entries[files[victim]])
    {
      if p != one {
        assert p in others;
        assert !EvictBefore(entries[files[p]], entries[files[best]]);
      }
    }
  }

  /** From every reachable state in which somebody holds the lock, the holder can go on, whatever the hub or the
      loader answers and whatever time it is. */
  lemma HolderGoesOn(s: State, now: int, ok: bool) returns (choice: Choice)
    requires Inv(s) && s.lock.Held?
    ensures CanStep(s, Continue(choice)) && choice.now == now && choice.ok == ok
  {
    hide ListedCovered, ThreadsSound, StaysClean;
    var file := Bounded(s.entries.Keys);
    choice := Choice(file, "", now, ok);
    match s.lock.stage
    case Adding(_) =>
      if |s.files| >= MAX_CACHED_FILES {
        var victim := SomeLeast(s.files, s.entries, s.files.Keys);
        choice := Choice(file, victim, now, ok);
      }
    case Unsubscribing(rest) =>
      if rest != {} {
        var path :| path in rest;
        choice := Choice(file, path, now, ok);
      }
    case _ =>
  }

  /** A thread that does not hold the lock can go on too, unless it waits for the lock and somebody holds it. */
  lemma ThreadGoesOn(s: State, t: nat)
    requires Inv(s) && t in s.threads
    ensures match s.threads[t]
            case Looked(_, _, _) => CanStep(s, ReadLast(t))
            case Deciding(_, _, _, _) => CanStep(s, Decide(t))
            case Waiting(_) => s.lock.Free? ==> CanStep(s, Acquire(t))
  {
    hide Sound, ListedCovered;
    assert ThreadSound(s, s.threads[t]);
  }

  /** A request for any file, an event for a cached one and a cleanup can come at any time. */
  lemma OthersCome(s: State, t: nat, path: string, now: int)
    requires Inv(s) && t !in s.threads
    ensures if path in s.files then CanStep(s, Hit(t, path, now)) && CanStep(s, Event(t, path)) else CanStep(s, Miss(t, path))
    ensures CanStep(s, Close(t))
  {
    hide ListedCovered, ThreadsSound, Sound;
  }
}
