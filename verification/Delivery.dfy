/** The hub's event loop and the debouncers of all handlers together: an event for a watched directory
    reaches every handler that is listed for it, under each of the paths that lead there. */
module Delivery {
  import opened Paths
  import opened WatchHub
  import F = FileCache
  import D = Debounce

  /** What the hub holds for a subscribed path: the path by which fsnotify watches its directory, if it is
      watched, and the handlers. */
  datatype Listing = Listing(watch: Option<string>, handlers: set<Handler>)

  type Listings = map<string, Listing>

  /** What a hub holds. */
  ghost function Held(hub: Hub): Listings
    reads hub, hub.dirs.Values
  {
    map x | x in hub.dirs ::
      Listing(if hub.dirs[x].watch == null then None else Some(hub.dirs[x].watch.path), hub.dirs[x].handlers)
  }

  /** Under every path to the watched directory, its handlers of that file. */
  ghost function Targets(dirs: Listings, dir: string, name: string): set<(string, Handler)> {
    set x, fh | x in dirs && fh in dirs[x].handlers && dirs[x].watch == Some(dir) && fh.fileName == name :: (x, fh)
  }

  lemma TargetsAreHubs(hub: Hub, dir: string, name: string, x: string, fh: Handler)
    requires hub.Valid()
    ensures (x, fh) in Targets(Held(hub), dir, name) <==> hub.Target(dir, name, x, fh)
  {
  }

  /** `filepath.Join` of a clean directory and a file name. */
  function FileIn(dir: string, name: string): string {
    if dir == "." then name else if dir == "/" then "/" + name else dir + "/" + name
  }

  /** A clean directory path. */
  predicate CleanDir(dir: string) {
    dir == "/" || (dir != "" && dir[|dir| - 1] != '/')
  }

  /** A handler's file lies in the directory that it subscribes for it. */
  lemma FileInDir(dir: string, name: string)
    requires CleanDir(dir) && '/' !in name
    ensures F.DirOf(FileIn(dir, name)) == dir
  {
    var path := FileIn(dir, name);
    if dir != "." {
      var slash := if dir == "/" then 0 else |dir|;
      assert path[slash] == '/' && path[slash + 1..] == name;
      LastSlashIs(path, slash);
      assert dir != "/" ==> path[..slash] == dir;
    }
  }

  lemma LastSlashIs(s: string, i: nat)
    requires i < |s| && s[i] == '/' && '/' !in s[i + 1..]
    ensures LastIndexByte(s, '/') == i
  {
    assert '/' in s;
  }

  // Joint runs

  /** `rest` are the targets of the event in the loop's hands that it has not forwarded yet, for the file
      `name`. `due` are the files with an event that the loop has taken and that no callback of the
      handler has looked up since. */
  datatype State = State(
    dirs: Listings,
    handlers: map<Handler, D.State>,
    name: string,
    rest: set<(string, Handler)>,
    due: set<(string, Handler)>)

  const INITIAL := State(map[], map[], "", {}, {})

  /** The loop takes an event and forwards it target by target, without any lock of the hub, while
      subscriptions change in any way and the handlers' timers and callbacks go on. */
  datatype Step =
    | Hub(dirs: Listings)
    | Event(dir: string, name: string)
    | Forward(target: (string, Handler), timer: D.TimerId)
    | Own(fh: Handler, step: D.Step)

  function Of(s: State, fh: Handler): D.State {
    if fh in s.handlers then s.handlers[fh] else D.INITIAL
  }

  ghost predicate CanStep(s: State, step: Step) {
    match step
    case Hub(_) => true
    case Event(_, _) => s.rest == {}
    case Forward((x, fh), t) => (x, fh) in s.rest && D.CanStep(Of(s, fh), D.Schedule(FileIn(x, s.name), t))
    case Own(fh, d) => !d.Schedule? && D.CanStep(Of(s, fh), d)
  }

  ghost function FilesOf(targets: set<(string, Handler)>, name: string): set<(string, Handler)> {
    set t | t in targets :: (FileIn(t.0, name), t.1)
  }

  ghost function After(s: State, step: Step): State
    requires CanStep(s, step)
  {
    match step
    case Hub(dirs) => s.(dirs := dirs)
    case Event(dir, name) =>
      var targets := Targets(s.dirs, dir, name);
      s.(name := name, rest := targets, due := s.due + FilesOf(targets, name))
    case Forward((x, fh), t) =>
      s.(handlers := s.handlers[fh := D.After(Of(s, fh), D.Schedule(FileIn(x, s.name), t))], rest := s.rest - {(x, fh)})
    case Own(fh, d) =>
      var own := s.(handlers := s.handlers[fh := D.After(Of(s, fh), d)]);
      if d.Lookup? then own.(due := s.due - {(Of(s, fh).timers[d.timer].path, fh)}) else own
  }

  ghost predicate CanRun(s: State, steps: seq<Step>)
    decreases |steps|
  {
    steps == [] || (CanStep(s, steps[0]) && CanRun(After(s, steps[0]), steps[1..]))
  }

  ghost function Run(s: State, steps: seq<Step>): State
    requires CanRun(s, steps)
    decreases |steps|
  {
    if steps == [] then s else Run(After(s, steps[0]), steps[1..])
  }

  // The invariant

  /** A timer of the file is pending, or its callback has not looked the file up yet. */
  ghost predicate Awaited(h: D.State, path: string, t: D.TimerId) {
    D.Underway(h, t) && h.timers[t].path == path && !h.timers[t].status.Reloading?
  }

  ghost predicate Expected(h: D.State, path: string) {
    exists t :: Awaited(h, path, t)
  }

  ghost predicate Pursued(s: State, path: string, fh: Handler) {
    (path, fh) in FilesOf(s.rest, s.name) || Of(s, fh).closed || Expected(Of(s, fh), path)
  }

  ghost predicate Inv(s: State) {
    && (forall fh :: fh in s.handlers ==> D.Inv(s.handlers[fh]))
    && forall path, fh :: (path, fh) in s.due ==> Pursued(s, path, fh)
  }

  lemma OfSound(s: State, fh: Handler)
    requires Inv(s)
    ensures D.Inv(Of(s, fh))
  {
  }

  /** The step of one handler, if it is one. */
  ghost function HandlerStep(s: State, step: Step): Option<(Handler, D.Step)> {
    match step
    case Forward((x, fh), t) => Some((fh, D.Schedule(FileIn(x, s.name), t)))
    case Own(fh, d) => Some((fh, d))
    case _ => None
  }

  lemma HandlersKept(s: State, step: Step)
    requires Inv(s) && CanStep(s, step)
    ensures forall fh :: fh in After(s, step).handlers ==> D.Inv(After(s, step).handlers[fh])
  {
    hide D.Inv, D.After, D.CanStep, Targets, Pursued, FilesOf, FileIn;
    var d := HandlerStep(s, step);
    if d.Some? {
      OfSound(s, d.value.0);
      D.StepKeeps(Of(s, d.value.0), d.value.1);
    }
  }

  /** A new event replaces the timer of the last one; only a lookup uses it up. */
  lemma ExpectedKept(h: D.State, d: D.Step, path: string)
    requires D.Inv(h) && D.CanStep(h, d) && Expected(h, path)
    requires d.Lookup? ==> h.timers[d.timer].path != path
    ensures var r := D.After(h, d); r.closed || Expected(r, path)
  {
    hide D.Inv;
    var t :| Awaited(h, path, t);
    var r := D.After(h, d);
    if !r.closed {
      D.UnderwayKept(h, d, t);
      if d.Schedule? && d.path == path {
        assert Awaited(r, path, d.timer);
      } else {
        assert Awaited(r, path, t);
      }
    }
  }

  lemma ForwardedExpected(h: D.State, path: string, t: D.TimerId)
    requires D.CanStep(h, D.Schedule(path, t))
    ensures var r := D.After(h, D.Schedule(path, t)); r.closed || Awaited(r, path, t)
  {
  }

  lemma ClosedStays(h: D.State, d: D.Step)
    requires D.CanStep(h, d)
    ensures h.closed ==> D.After(h, d).closed
  {
  }

  lemma PursuedKept(s: State, step: Step, path: string, fh: Handler)
    requires Inv(s) && CanStep(s, step) && (path, fh) in After(s, step).due
    ensures Pursued(After(s, step), path, fh)
  {
    hide D.Inv, D.After, D.CanStep, Targets, Expected, FileIn;
    match step
    case Hub(_) =>
    case Event(dir, name) =>
      if (path, fh) !in FilesOf(Targets(s.dirs, dir, name), name) {
        assert Pursued(s, path, fh);
      }
    case Forward((x, to), t) =>
      var d := D.Schedule(FileIn(x, s.name), t);
      if to == fh {
        OfSound(s, fh);
        ClosedStays(Of(s, fh), d);
        if FileIn(x, s.name) == path {
          ForwardedExpected(Of(s, fh), path, t);
          AwaitedExpected(D.After(Of(s, fh), d), path, t);
        } else if Expected(Of(s, fh), path) {
          NotALookup(Of(s, fh), d, path);
          ExpectedKept(Of(s, fh), d, path);
        }
      }
    case Own(own, d) =>
      if own == fh {
        OfSound(s, fh);
        ClosedStays(Of(s, fh), d);
        if Expected(Of(s, fh), path) {
          ExpectedKept(Of(s, fh), d, path);
        }
      }
  }

  lemma AwaitedExpected(h: D.State, path: string, t: D.TimerId)
    ensures Awaited(h, path, t) ==> Expected(h, path)
  {
  }

  lemma NotALookup(h: D.State, d: D.Step, path: string)
    requires d.Schedule?
    ensures d.Lookup? ==> d.timer in h.timers && h.timers[d.timer].path != path
  {
  }

  lemma StepKeeps(s: State, step: Step)
    requires Inv(s) && CanStep(s, step)
    ensures Inv(After(s, step))
  {
    hide CanStep, After, Pursued, D.Inv;
    HandlersKept(s, step);
    forall path, fh | (path, fh) in After(s, step).due {
      PursuedKept(s, step, path, fh);
    }
  }

  lemma {:induction false} RunKeeps(s: State, steps: seq<Step>)
    requires Inv(s) && CanRun(s, steps)
    ensures Inv(Run(s, steps))
    decreases |steps|
  {
    hide CanStep, After, Inv;
    if steps != [] {
      StepKeeps(s, steps[0]);
      RunKeeps(After(s, steps[0]), steps[1..]);
    }
  }

  // What it means for every run

  /** In every joint run: an event that the loop has taken is, for every handler that was listed then and
      under each of its paths to the directory, still with the loop, or a timer or callback is about to
      look the file up, unless the handler is closed or a callback has looked the file up since. */
  lemma EventNeverLost(steps: seq<Step>, dir: string, name: string, more: seq<Step>, x: string, fh: Handler)
    requires CanRun(INITIAL, steps) && CanStep(Run(INITIAL, steps), Event(dir, name))
    requires (x, fh) in Targets(Run(INITIAL, steps).dirs, dir, name)
    requires CanRun(After(Run(INITIAL, steps), Event(dir, name)), more)
    ensures var s := Run(After(Run(INITIAL, steps), Event(dir, name)), more);
            var path := FileIn(x, name);
            || (path, fh) in FilesOf(s.rest, s.name) || Of(s, fh).closed
            || (exists t :: t in Of(s, fh).timers && Of(s, fh).timers[t].path == path
                            && (Of(s, fh).timers[t].status.Pending? || Of(s, fh).timers[t].status.Fired?
                                || Of(s, fh).timers[t].status.Looking?))
            || LookedUpIn(After(Run(INITIAL, steps), Event(dir, name)), more, path, fh)
  {
    hide CanStep, Targets, CanRun, Run, Inv, FileIn, LookedUpIn;
    var before := Run(INITIAL, steps);
    InitialHolds();
    RunKeeps(INITIAL, steps);
    StepKeeps(before, Event(dir, name));
    var taken := After(before, Event(dir, name));
    RunKeeps(taken, more);
    DueUntilLookup(taken, more, FileIn(x, name), fh);
    if !LookedUpIn(taken, more, FileIn(x, name), fh) {
      DuePursued(Run(taken, more), FileIn(x, name), fh);
    }
  }

  lemma InitialHolds()
    ensures Inv(INITIAL)
  {
  }

  lemma DuePursued(s: State, path: string, fh: Handler)
    requires Inv(s) && (path, fh) in s.due
    ensures (path, fh) in FilesOf(s.rest, s.name) || Of(s, fh).closed
            || exists t :: t in Of(s, fh).timers && Of(s, fh).timers[t].path == path
                           && (Of(s, fh).timers[t].status.Pending? || Of(s, fh).timers[t].status.Fired?
                               || Of(s, fh).timers[t].status.Looking?)
  {
    hide D.Inv, FilesOf;
    assert Pursued(s, path, fh);
    if Expected(Of(s, fh), path) {
      var t :| Awaited(Of(s, fh), path, t);
    }
  }

  /** A callback of the handler looks the file up in the run. */
  ghost predicate LookedUpIn(s: State, steps: seq<Step>, path: string, fh: Handler)
    requires CanRun(s, steps)
    decreases |steps|
  {
    steps != [] &&
    ((steps[0].Own? && steps[0].fh == fh && steps[0].step.Lookup? && Of(s, fh).timers[steps[0].step.timer].path == path)
     || LookedUpIn(After(s, steps[0]), steps[1..], path, fh))
  }

  lemma {:induction false} DueUntilLookup(s: State, steps: seq<Step>, path: string, fh: Handler)
    requires CanRun(s, steps) && (path, fh) in s.due
    ensures LookedUpIn(s, steps, path, fh) || (path, fh) in Run(s, steps).due
    decreases |steps|
  {
    hide Targets, FilesOf, D.After;
    if steps != [] && (path, fh) in After(s, steps[0]).due {
      DueUntilLookup(After(s, steps[0]), steps[1..], path, fh);
    }
  }

  /** The loop can take any event between two others, and forward it to any of its targets in any order. */
  lemma LoopGoesOn(s: State, dir: string, name: string, x: string, fh: Handler, t: D.TimerId)
    requires t !in Of(s, fh).timers
    ensures s.rest == {} ==>
              CanStep(s, Event(dir, name)) &&
              var r := After(s, Event(dir, name));
              (x, fh) in Targets(s.dirs, dir, name) ==> CanStep(r, Forward((x, fh), t)) && (FileIn(x, name), fh) in r.due
    ensures (x, fh) in s.rest ==> CanStep(s, Forward((x, fh), t)) && After(s, Forward((x, fh), t)).rest == s.rest - {(x, fh)}
  {
    hide FileIn;
    var targets := Targets(s.dirs, dir, name);
    assert (x, fh) in targets ==> (FileIn((x, fh).0, name), (x, fh).1) in FilesOf(targets, name);
  }

  /** And it reaches them all: what the loop no longer has in hands it has forwarded, and forwarding leaves a
      pending timer for the file, the one that a later event would stop, unless the handler is closed. */
  lemma {:induction false} EventReaches(s: State, steps: seq<Step>, x: string, fh: Handler) returns (i: nat, t: D.TimerId)
    requires CanRun(s, steps) && (x, fh) in s.rest && (x, fh) !in Run(s, steps).rest
    ensures i < |steps| && steps[i] == Forward((x, fh), t) && CanRun(s, steps[..i + 1])
    ensures var h, path := Of(Run(s, steps[..i + 1]), fh), FileIn(x, s.name);
            h.closed || (t in h.timers && h.timers[t] == D.Timer(path, D.Pending)
                         && path in h.debounce && h.debounce[path] == t)
    decreases |steps|
  {
    hide Targets, FilesOf, FileIn;
    var next := After(s, steps[0]);
    if (x, fh) !in next.rest {
      i, t := 0, steps[0].timer;
      assert steps[..1] == [steps[0]] && [steps[0]][1..] == [];
    } else {
      i, t := EventReaches(next, steps[1..], x, fh);
      assert steps[..i + 2][1..] == steps[1..][..i + 1];
      i := i + 1;
    }
  }

  // The code of the loop

  /** Every handler has its own debouncer, whose timers so far are below `next`. */
  ghost predicate Ready(debouncers: map<Handler, D.Debouncer>, next: nat)
    reads debouncers.Values
  {
    && (forall fh, other :: fh in debouncers && other in debouncers && fh != other ==> debouncers[fh] != debouncers[other])
    && forall fh :: fh in debouncers ==> Orderly(debouncers[fh], next)
  }

  ghost predicate Orderly(d: D.Debouncer, next: nat)
    reads d
  {
    && (forall t :: t in d.timers ==> t < next)
    && forall path :: path in d.debounce ==> d.debounce[path] in d.timers && d.timers[d.debounce[path]].path == path
  }

  /** The handler reloads the file soon, or is closed. */
  ghost predicate WillReload(d: D.Debouncer, path: string)
    reads d
  {
    d.closed || (path in d.debounce && d.debounce[path] in d.timers
                 && d.timers[d.debounce[path]] == D.Timer(path, D.Pending))
  }

  /** What `loop` does for an event: every target has its reload scheduled, and other handlers are left
      alone. The runtime numbers new timers from `next` on. */
  method NotifyTargets(hub: Hub, debouncers: map<Handler, D.Debouncer>, dir: string, name: string, next: nat)
    requires hub.Valid() && Ready(debouncers, next)
    requires forall x, fh :: hub.Target(dir, name, x, fh) ==> fh in debouncers
    modifies debouncers.Values
    ensures forall x, fh :: old(hub.Target(dir, name, x, fh)) ==> WillReload(debouncers[fh], FileIn(x, name))
    ensures forall fh :: fh in debouncers && (forall x :: !old(hub.Target(dir, name, x, fh))) ==> unchanged(debouncers[fh])
  {
    hide *;
    var targets := hub.TargetsFor(dir, name);
    ScheduleAll(targets, debouncers, name, next);
  }

  method ScheduleAll(targets: set<(string, Handler)>, debouncers: map<Handler, D.Debouncer>, name: string, next: nat)
    requires Ready(debouncers, next) && forall x, fh :: (x, fh) in targets ==> fh in debouncers
    modifies debouncers.Values
    ensures forall x, fh :: (x, fh) in targets ==> WillReload(debouncers[fh], FileIn(x, name))
    ensures forall fh :: fh in debouncers && (forall x :: (x, fh) !in targets) ==> unchanged(debouncers[fh])
  {
    hide Orderly, WillReload, FileIn;
    var rest, t := targets, next;
    while rest != {}
      invariant rest <= targets && Ready(debouncers, t)
      invariant forall x, fh :: (x, fh) in targets && (x, fh) !in rest ==> WillReload(debouncers[fh], FileIn(x, name))
      invariant forall fh :: fh in debouncers && (forall x :: (x, fh) !in targets) ==> unchanged(debouncers[fh])
    {
      var target :| target in rest;
      Schedule(debouncers, target.1, FileIn(target.0, name), t);
      t := t + 1;
      rest := rest - {target};
    }
  }

  method Schedule(debouncers: map<Handler, D.Debouncer>, fh: Handler, path: string, t: D.TimerId)
    requires fh in debouncers && Ready(debouncers, t)
    modifies debouncers[fh]
    ensures Ready(debouncers, t + 1) && WillReload(debouncers[fh], path)
    ensures forall other :: old(WillReload(debouncers[fh], other)) ==> WillReload(debouncers[fh], other)
  {
    label before:
    var d := debouncers[fh];
    d.ScheduleReload(path, t, false, {}, {});
    forall other | other in debouncers && other != fh
      ensures Orderly(debouncers[other], t + 1)
    {
      assert old@before(Orderly(debouncers[other], t));
      assert unchanged@before(debouncers[other]);
    }
  }
}
