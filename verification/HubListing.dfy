/** The hub and a handler's cache together: what every handler's operations on the hub do to the
    listing of one handler, over whole runs. */
module HubListing {
  import F = FileCache
  import opened WatchHub

  /** The handlers subscribed to each directory, as the hub's contracts describe them. */
  type Subscribers = map<string, set<Handler>>

  /** The directories for which the hub lists the handler. */
  ghost function Listed(subs: Subscribers, fh: Handler): set<string> {
    set dir | dir in subs && fh in subs[dir]
  }

  /** The handler's own subscription lists it for the directory, or takes it off. */
  lemma OwnSubscribe(subs: Subscribers, dir: string, fh: Handler, ok: bool)
    ensures Listed(Subscribed(subs, dir, fh, ok), fh) ==
            if ok then Listed(subs, fh) + {dir} else Listed(subs, fh) - {dir}
  {
    var after := Subscribed(subs, dir, fh, ok);
    forall x
      ensures x in Listed(after, fh) <==> x in if ok then Listed(subs, fh) + {dir} else Listed(subs, fh) - {dir}
    {
      assert x != dir ==> (x in after <==> x in subs) && (x in subs ==> after[x] == subs[x]);
    }
  }

  lemma OwnUnsubscribe(subs: Subscribers, dir: string, fh: Handler)
    ensures Listed(Unsubscribed(subs, dir, fh), fh) == Listed(subs, fh) - {dir}
  {
    var after := Unsubscribed(subs, dir, fh);
    forall x
      ensures x in Listed(after, fh) <==> x in Listed(subs, fh) - {dir}
    {
      assert x != dir ==> (x in after <==> x in subs) && (x in subs ==> after[x] == subs[x]);
      assert x == dir && x in after ==> after[x] == subs[x] - {fh};
    }
  }

  /** Another handler's operations never list this one, and a failing subscription takes it off the
      directory. */
  lemma OthersOnlyUnlist(subs: Subscribers, dir: string, fh: Handler, other: Handler, ok: bool)
    requires other != fh
    ensures Listed(Subscribed(subs, dir, other, ok), fh) == if ok then Listed(subs, fh) else Listed(subs, fh) - {dir}
    ensures Listed(Unsubscribed(subs, dir, other), fh) == Listed(subs, fh)
  {
    var after, left := Subscribed(subs, dir, other, ok), Unsubscribed(subs, dir, other);
    forall x
      ensures x in Listed(after, fh) <==> x in if ok then Listed(subs, fh) else Listed(subs, fh) - {dir}
      ensures x in Listed(left, fh) <==> x in Listed(subs, fh)
    {
      assert x != dir ==> (x in after <==> x in subs) && (x in subs ==> after[x] == subs[x]);
      assert x != dir ==> (x in left <==> x in subs) && (x in subs ==> left[x] == subs[x]);
      assert x == dir && x in subs && x !in left ==> fh !in subs[x] - {other};
    }
  }

  // Joint runs

  /** A step of the handler, or an operation that another handler has on the hub. */
  datatype Step =
    | Own(step: F.Step)
    | OtherSubscribes(dir: string, other: Handler, ok: bool)
    | OtherUnsubscribes(dir: string, other: Handler)

  ghost predicate CanStep(s: F.State, step: Step, fh: Handler) {
    match step
    case Own(own) => !own.Unlist? && F.CanStep(s, own)
    case OtherSubscribes(_, other, _) => other != fh
    case OtherUnsubscribes(_, other) => other != fh
  }

  /** The subscribers without the handler for the directory of a path, if its entry is watched. */
  ghost function Unwatched(s: F.State, path: string, subs: Subscribers, fh: Handler): Subscribers {
    if path in s.files && s.files[path] in s.entries && s.entries[s.files[path]].watched then
      Unsubscribed(subs, F.DirOf(path), fh)
    else subs
  }

  /** The operation on the hub that the handler's step contains, if any. */
  ghost function SubsAfter(s: F.State, step: F.Step, subs: Subscribers, fh: Handler): Subscribers {
    if !step.Continue? || !s.lock.Held? || (s.lock.job.Cleanup? && s.lock.stage.Subscribing?) then subs
    else
      match s.lock.stage
      case Subscribing(_) => Subscribed(subs, F.DirOf(s.lock.job.path), fh, step.choice.ok)
      case Adding(_) => if |s.files| >= F.MAX_CACHED_FILES then Unwatched(s, step.choice.path, subs, fh) else subs
      case Unsubscribing(rest) => if rest == {} then subs else Unwatched(s, step.choice.path, subs, fh)
      case _ => subs
  }

  ghost function CacheAfter(s: F.State, step: Step, fh: Handler): F.State
    requires CanStep(s, step, fh)
  {
    match step
    case Own(own) => F.After(s, own)
    case OtherSubscribes(dir, _, ok) => F.After(s, F.Unlist(if ok then {} else {dir}))
    case OtherUnsubscribes(_, _) => F.After(s, F.Unlist({}))
  }

  ghost function HubAfter(s: F.State, step: Step, subs: Subscribers, fh: Handler): Subscribers {
    match step
    case Own(own) => SubsAfter(s, own, subs, fh)
    case OtherSubscribes(dir, other, ok) => Subscribed(subs, dir, other, ok)
    case OtherUnsubscribes(dir, other) => Unsubscribed(subs, dir, other)
  }

  ghost predicate CanRun(s: F.State, subs: Subscribers, steps: seq<Step>, fh: Handler)
    decreases |steps|
  {
    steps == [] ||
    (CanStep(s, steps[0], fh) && CanRun(CacheAfter(s, steps[0], fh), HubAfter(s, steps[0], subs, fh), steps[1..], fh))
  }

  /** The cache and the hub's subscribers after a run. */
  ghost function Run(s: F.State, subs: Subscribers, steps: seq<Step>, fh: Handler): (F.State, Subscribers)
    requires CanRun(s, subs, steps, fh)
    decreases |steps|
  {
    if steps == [] then (s, subs)
    else Run(CacheAfter(s, steps[0], fh), HubAfter(s, steps[0], subs, fh), steps[1..], fh)
  }

  lemma UnwatchAgrees(s: F.State, path: string, subs: Subscribers, fh: Handler)
    requires path in s.files && s.files[path] in s.entries && s.listed == Listed(subs, fh)
    ensures F.Unwatch(s, path).listed == Listed(Unwatched(s, path, subs, fh), fh)
  {
    hide Listed, F.DirOf;
    OwnUnsubscribe(subs, F.DirOf(path), fh);
  }

  lemma AddAgrees(s: F.State, choice: F.Choice, subs: Subscribers, fh: Handler)
    requires F.CanStep(s, F.Continue(choice)) && s.lock.stage.Adding? && s.listed == Listed(subs, fh)
    ensures F.AfterContinue(s, s.lock.job, s.lock.stage, choice).listed == Listed(SubsAfter(s, F.Continue(choice), subs, fh), fh)
  {
    hide Listed, Unwatched, F.DirOf, F.EvictBefore, F.Unwatch;
    if |s.files| >= F.MAX_CACHED_FILES {
      UnwatchAgrees(s, choice.path, subs, fh);
    }
  }

  lemma CleanupAgrees(s: F.State, choice: F.Choice, subs: Subscribers, fh: Handler)
    requires F.CanStep(s, F.Continue(choice)) && s.lock.stage.Unsubscribing? && s.listed == Listed(subs, fh)
    ensures F.AfterContinue(s, s.lock.job, s.lock.stage, choice).listed == Listed(SubsAfter(s, F.Continue(choice), subs, fh), fh)
  {
    hide Listed, Unwatched, F.DirOf, F.Unwatch;
    if s.lock.stage.rest != {} {
      UnwatchAgrees(s, choice.path, subs, fh);
    }
  }

  lemma ContinueAgrees(s: F.State, choice: F.Choice, subs: Subscribers, fh: Handler)
    requires F.CanStep(s, F.Continue(choice)) && s.listed == Listed(subs, fh)
    ensures F.AfterContinue(s, s.lock.job, s.lock.stage, choice).listed == Listed(SubsAfter(s, F.Continue(choice), subs, fh), fh)
  {
    hide Listed, Unwatched, F.DirOf, F.Least, F.Stored, F.AfterAdd, F.AfterUnsubscribe, Subscribed;
    if s.lock.stage.Adding? {
      AddAgrees(s, choice, subs, fh);
    } else if s.lock.stage.Unsubscribing? {
      CleanupAgrees(s, choice, subs, fh);
    } else if s.lock.stage.Subscribing? {
      OwnSubscribe(subs, F.DirOf(s.lock.job.path), fh, choice.ok);
    }
  }

  lemma OwnStepAgrees(s: F.State, own: F.Step, subs: Subscribers, fh: Handler)
    requires F.CanStep(s, own) && !own.Unlist? && s.listed == Listed(subs, fh)
    ensures F.After(s, own).listed == Listed(SubsAfter(s, own, subs, fh), fh)
  {
    hide Listed, F.AfterContinue, F.CanContinue;
    if own.Continue? {
      ContinueAgrees(s, own.choice, subs, fh);
    }
  }

  lemma StepAgrees(s: F.State, step: Step, subs: Subscribers, fh: Handler)
    requires CanStep(s, step, fh) && F.Inv(s) && s.listed == Listed(subs, fh)
    ensures F.Inv(CacheAfter(s, step, fh))
    ensures CacheAfter(s, step, fh).listed == Listed(HubAfter(s, step, subs, fh), fh)
    ensures s.cleaned ==> CacheAfter(s, step, fh).cleaned
  {
    hide Listed, F.Inv, F.CanContinue, SubsAfter, F.AfterContinue, F.AfterDecide;
    match step
    case Own(own) =>
      OwnStepAgrees(s, own, subs, fh);
      F.StepKeeps(s, own);
    case OtherSubscribes(dir, other, ok) =>
      OthersOnlyUnlist(subs, dir, fh, other, ok);
      F.StepKeeps(s, F.Unlist(if ok then {} else {dir}));
    case OtherUnsubscribes(dir, other) =>
      OthersOnlyUnlist(subs, dir, fh, other, true);
      F.StepKeeps(s, F.Unlist({}));
  }

  lemma {:induction false} RunAgrees(s: F.State, subs: Subscribers, steps: seq<Step>, fh: Handler)
    requires F.Inv(s) && s.listed == Listed(subs, fh) && CanRun(s, subs, steps, fh)
    ensures var (t, after) := Run(s, subs, steps, fh);
            F.Inv(t) && t.listed == Listed(after, fh) && (s.cleaned ==> t.cleaned)
    decreases |steps|
  {
    hide Listed, F.Inv, CanStep, CacheAfter, HubAfter;
    if steps != [] {
      StepAgrees(s, steps[0], subs, fh);
      RunAgrees(CacheAfter(s, steps[0], fh), HubAfter(s, steps[0], subs, fh), steps[1..], fh);
    }
  }

  /** In every joint run of the handler and any others on the hub, from a hub without the handler: while
      nobody holds the handler's lock, the hub lists it only for directories of published files that are
      marked as watched; and once a call of Cleanup has returned, for none. */
  lemma HubNeverLeaks(subs: Subscribers, steps: seq<Step>, fh: Handler, dir: string)
    requires Listed(subs, fh) == {} && CanRun(F.INITIAL, subs, steps, fh)
    ensures var (s, after) := Run(F.INITIAL, subs, steps, fh);
            && (dir in after && fh in after[dir] && s.lock.Free? ==>
                  exists p :: p in s.files && F.DirOf(p) == dir && s.files[p] in s.entries && s.entries[s.files[p]].watched)
            && (s.cleaned ==> !(dir in after && fh in after[dir]))
  {
    hide CanRun, Run;
    assert F.Inv(F.INITIAL);
    RunAgrees(F.INITIAL, subs, steps, fh);
    var (s, after) := Run(F.INITIAL, subs, steps, fh);
    assert dir in s.listed <==> dir in after && fh in after[dir];
  }
}
