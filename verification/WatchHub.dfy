/** The process-wide watch hub: handlers subscribe to directories, and paths that lead to the same
    directory share one watch. */
module WatchHub {

  /** What `os.SameFile` compares. */
  type Identity = nat

  datatype Handler = Handler(id: nat, fileName: string)

  /** What the operating system answers during one call: the directory now at each path (none for
      a path that cannot be read), the paths that cannot be watched, and whether a new watcher
      can be had. */
  datatype World = World(stat: map<string, Identity>, unwatchable: set<string>, noWatcher: bool)

  /** `fsnotify.Watcher`. */
  class Watcher {
    var list: set<string>
    var closed: bool

    constructor ()
      ensures list == {} && !closed
    {
      list, closed := {}, false;
    }

    method Add(dir: string, world: World) returns (ok: bool)
      modifies this`list
      ensures ok == (dir !in world.unwatchable)
      ensures list == if ok then old(list) + {dir} else old(list)
    {
      ok := dir !in world.unwatchable;
      if ok { list := list + {dir}; }
    }

    method Remove(dir: string)
      modifies this`list
      ensures list == old(list) - {dir}
    {
      list := list - {dir};
    }

    method Close()
      modifies this
      ensures closed && list == {}
    {
      closed, list := true, {};
    }
  }

  /** A subscribed directory path. */
  class HubDir {
    var watch: HubWatch?
    var handlers: set<Handler>

    constructor ()
      ensures watch == null && handlers == {}
    {
      watch, handlers := null, {};
    }
  }

  /** One fsnotify watch, with the subscribed paths that lead to its directory. */
  class HubWatch {
    const path: string
    const info: Identity
    var dirs: map<string, HubDir>

    constructor (path: string, info: Identity, dirs: map<string, HubDir>)
      ensures this.path == path && this.info == info && this.dirs == dirs
    {
      this.path, this.info, this.dirs := path, info, dirs;
    }
  }

  /** The hub's watches and the paths that the watcher watches. */
  datatype Watching = Watching(watches: map<string, HubWatch>, listed: set<string>)

  // The links between paths and watches, at one moment

  /** The subscribed paths that point at a watch, except those in `loose`. */
  ghost function PointingAt(dirs: map<string, HubDir>, at: map<string, HubWatch?>, loose: set<string>, w: HubWatch)
    : map<string, HubDir>
    requires at.Keys == dirs.Keys
  {
    map x | x in dirs && x !in loose && at[x] == w :: dirs[x]
  }

  lemma PointElsewhere(dirs: map<string, HubDir>, at: map<string, HubWatch?>, loose: set<string>,
                       x: string, to: HubWatch?, w: HubWatch)
    requires at.Keys == dirs.Keys && x in dirs && x !in loose
    ensures at[x := to].Keys == dirs.Keys
    ensures PointingAt(dirs, at[x := to], loose, w) ==
            if to == w then PointingAt(dirs, at, loose, w)[x := dirs[x]] else PointingAt(dirs, at, loose, w) - {x}
  {
  }

  lemma PointsNotAt(dirs: map<string, HubDir>, at: map<string, HubWatch?>, loose: set<string>, x: string, w: HubWatch)
    requires at.Keys == dirs.Keys && x in dirs && at[x] != w
    ensures PointingAt(dirs, at, loose, w) - {x} == PointingAt(dirs, at, loose, w)
  {
  }

  ghost predicate Distinct(dirs: map<string, HubDir>) {
    forall x, y :: x in dirs && y in dirs && x != y ==> dirs[x] != dirs[y]
  }

  ghost predicate Current(watches: map<string, HubWatch>, w: HubWatch) {
    w.path in watches && watches[w.path] == w
  }

  /** Paths point only at watches that the hub has. */
  ghost predicate Tracked(at: map<string, HubWatch?>, watches: map<string, HubWatch>, loose: set<string>) {
    forall x :: x in at && x !in loose && at[x] != null ==> Current(watches, at[x])
  }

  /** A watch goes by its own path, which is attached to it. */
  ghost predicate OwnPaths(at: map<string, HubWatch?>, watches: map<string, HubWatch>, loose: set<string>) {
    forall p :: p in watches ==> watches[p].path == p && p in at && p !in loose && at[p] == watches[p]
  }

  /** No two watches are on the same directory. */
  ghost predicate OneEach(watches: map<string, HubWatch>) {
    forall p, q :: p in watches && q in watches && p != q ==> watches[p].info != watches[q].info
  }

  datatype Links = Links(
    dirs: map<string, HubDir>,
    at: map<string, HubWatch?>,
    watches: map<string, HubWatch>,
    members: map<string, map<string, HubDir>>)
  {
    ghost predicate Complete() {
      at.Keys == dirs.Keys && members.Keys == watches.Keys
    }

    /** Each watch knows exactly the paths that point at it. */
    ghost predicate Known(loose: set<string>)
      requires Complete()
    {
      forall p :: p in watches ==> members[p] == PointingAt(dirs, at, loose, watches[p])
    }

    /** Paths and watches point at each other, except that paths in `loose` may still point at a
        watch that is gone. */
    ghost predicate Linked(loose: set<string>) {
      && Complete() && Known(loose)
      && Distinct(dirs) && Tracked(at, watches, loose) && OwnPaths(at, watches, loose) && OneEach(watches)
    }

    function Joined(x: string, w: HubWatch): Links
      requires w.path in members && x in dirs
    {
      this.(at := at[x := w], members := members[w.path := members[w.path][x := dirs[x]]])
    }

    function Added(x: string, w: HubWatch): Links
      requires x in dirs
    {
      this.(at := at[x := w], watches := watches[x := w], members := members[x := map[x := dirs[x]]])
    }

    /** `x` points nowhere anymore, and the watch on `p` does not know it anymore. */
    function Left(x: string, p: string): Links
      requires p in members
    {
      this.(at := at[x := null], members := members[p := members[p] - {x}])
    }

    function Without(p: string): Links {
      this.(watches := watches - {p}, members := members - {p})
    }

    function Cleared(x: string): Links {
      this.(at := at[x := null])
    }

    function Forgotten(x: string): Links {
      this.(dirs := dirs - {x}, at := at - {x})
    }
  }

  /** A path points at a watch exactly when the hub has the watch and it knows the path by the same
      entry. */
  lemma LinksAgree(l: Links, x: string, w: HubWatch)
    requires l.Linked({}) && x in l.dirs
    ensures l.at[x] == w <==>
            Current(l.watches, w) && x in l.members[w.path] && l.members[w.path][x] == l.dirs[x]
  {
    if l.at[x] == w {
      assert Current(l.watches, w);
      assert x in PointingAt(l.dirs, l.at, {}, w);
    }
    if Current(l.watches, w) && x in l.members[w.path] {
      assert x in PointingAt(l.dirs, l.at, {}, w);
    }
  }

  lemma JoinKnown(l: Links, loose: set<string>, x: string, w: HubWatch)
    requires l.Complete() && OwnPaths(l.at, l.watches, loose) && l.Known(loose)
    requires x in l.dirs && x !in loose && l.at[x] == null && Current(l.watches, w)
    ensures l.Joined(x, w).Complete() && l.Joined(x, w).Known(loose)
  {
    hide PointingAt;
    var r := l.Joined(x, w);
    forall p | p in r.watches
      ensures r.members[p] == PointingAt(r.dirs, r.at, loose, r.watches[p])
    {
      PointElsewhere(l.dirs, l.at, loose, x, w, l.watches[p]);
      PointsNotAt(l.dirs, l.at, loose, x, l.watches[p]);
    }
  }

  lemma JoinKeeps(l: Links, loose: set<string>, x: string, w: HubWatch)
    requires l.Linked(loose) && x in l.dirs && x !in loose && l.at[x] == null && Current(l.watches, w)
    ensures l.Joined(x, w).Linked(loose)
  {
    hide PointingAt, Links.Known, Distinct, OneEach;
    JoinKnown(l, loose, x, w);
  }

  lemma AddKnown(l: Links, loose: set<string>, x: string, w: HubWatch)
    requires l.Complete() && OwnPaths(l.at, l.watches, loose) && l.Known(loose)
    requires x in l.dirs && x !in loose && l.at[x] == null && w.path == x
    requires forall y :: y in l.at ==> l.at[y] != w
    requires x !in l.watches && forall p :: p in l.watches ==> l.watches[p] != w
    ensures l.Added(x, w).Complete() && l.Added(x, w).Known(loose)
  {
    hide PointingAt;
    var r := l.Added(x, w);
    PointElsewhere(l.dirs, l.at, loose, x, w, w);
    PointsNone(l.dirs, l.at, loose, w);
    forall p | p in r.watches
      ensures r.members[p] == PointingAt(r.dirs, r.at, loose, r.watches[p])
    {
      if p != x {
        PointElsewhere(l.dirs, l.at, loose, x, w, l.watches[p]);
        PointsNotAt(l.dirs, l.at, loose, x, l.watches[p]);
      }
    }
  }

  lemma PointsNone(dirs: map<string, HubDir>, at: map<string, HubWatch?>, loose: set<string>, w: HubWatch)
    requires at.Keys == dirs.Keys && forall y :: y in at ==> at[y] != w
    ensures PointingAt(dirs, at, loose, w) == map[]
  {
  }

  /** A new watch on a directory that no other watch is on. */
  lemma AddKeeps(l: Links, loose: set<string>, x: string, w: HubWatch)
    requires l.Linked(loose) && x in l.dirs && x !in loose && l.at[x] == null
    requires w.path == x && (forall y :: y in l.at ==> l.at[y] != w)
    requires forall p :: p in l.watches ==> l.watches[p].info != w.info
    ensures x !in l.watches && l.Added(x, w).Linked(loose)
  {
    hide PointingAt, Links.Known, Distinct, Tracked, OneEach;
    AddKnown(l, loose, x, w);
    AddTracked(l.at, l.watches, loose, x, w);
    AddOneEach(l.watches, x, w);
  }

  lemma AddTracked(at: map<string, HubWatch?>, watches: map<string, HubWatch>, loose: set<string>, x: string, w: HubWatch)
    requires Tracked(at, watches, loose) && w.path == x && x !in watches
    ensures Tracked(at[x := w], watches[x := w], loose)
  {
  }

  lemma AddOneEach(watches: map<string, HubWatch>, x: string, w: HubWatch)
    requires OneEach(watches) && forall p :: p in watches ==> watches[p].info != w.info
    ensures OneEach(watches[x := w])
  {
  }

  /** A path that does not name its watch can leave it. */
  lemma LeaveKeeps(l: Links, x: string)
    requires l.Linked({}) && x in l.dirs && l.at[x] != null && l.at[x].path != x
    ensures Current(l.watches, l.at[x]) && l.Left(x, l.at[x].path).Linked({})
  {
    hide PointingAt, Links.Known, Distinct, OneEach;
    LeaveKnown(l, x);
  }

  lemma LeaveKnown(l: Links, x: string)
    requires l.Complete() && OwnPaths(l.at, l.watches, {}) && l.Known({})
    requires x in l.dirs && l.at[x] != null && Current(l.watches, l.at[x])
    ensures l.Left(x, l.at[x].path).Complete() && l.Left(x, l.at[x].path).Known({})
  {
    hide PointingAt;
    var r := l.Left(x, l.at[x].path);
    forall p | p in r.watches
      ensures r.members[p] == PointingAt(r.dirs, r.at, {}, r.watches[p])
    {
      PointElsewhere(l.dirs, l.at, {}, x, null, l.watches[p]);
      if p != l.at[x].path {
        PointsNotAt(l.dirs, l.at, {}, x, l.watches[p]);
      }
    }
  }

  /** Removing a watch leaves its other paths loose. */
  lemma RemoveKeeps(l: Links, p: string)
    requires l.Linked({}) && p in l.watches
    ensures l.Cleared(p).Without(p).Linked(l.members[p].Keys - {p})
  {
    hide PointingAt, Links.Known, Distinct, Tracked, OwnPaths;
    RemoveKnown(l, p);
    RemoveTracked(l, p);
    RemoveOwnPaths(l, p);
  }

  lemma RemoveTracked(l: Links, p: string)
    requires l.Complete() && l.Known({}) && p in l.watches && Tracked(l.at, l.watches, {}) && OwnPaths(l.at, l.watches, {})
    ensures Tracked(l.at[p := null], l.watches - {p}, l.members[p].Keys - {p})
  {
    KnownAt(l, {}, p);
  }

  lemma RemoveOwnPaths(l: Links, p: string)
    requires l.Complete() && l.Known({}) && p in l.watches && OwnPaths(l.at, l.watches, {})
    ensures OwnPaths(l.at[p := null], l.watches - {p}, l.members[p].Keys - {p})
  {
    KnownAt(l, {}, p);
  }

  lemma KnownAt(l: Links, loose: set<string>, p: string)
    requires l.Complete() && l.Known(loose) && p in l.watches
    ensures l.members[p] == PointingAt(l.dirs, l.at, loose, l.watches[p])
  {
  }

  lemma RemoveKnown(l: Links, p: string)
    requires l.Complete() && OwnPaths(l.at, l.watches, {}) && l.Known({}) && p in l.watches
    ensures l.Cleared(p).Without(p).Complete() && l.Cleared(p).Without(p).Known(l.members[p].Keys - {p})
  {
    hide PointingAt;
    var r := l.Cleared(p).Without(p);
    forall q | q in r.watches
      ensures r.members[q] == PointingAt(r.dirs, r.at, l.members[p].Keys - {p}, r.watches[q])
    {
      PointElsewhere(l.dirs, l.at, {}, p, null, l.watches[q]);
      PointsNotAt(l.dirs, l.at, {}, p, l.watches[q]);
      LooseElsewhere(l, r.at, p, l.watches[q]);
    }
  }

  lemma LooseElsewhere(l: Links, at: map<string, HubWatch?>, p: string, w: HubWatch)
    requires l.Complete() && l.Known({}) && p in l.watches && p in l.at && w != l.watches[p] && at == l.at[p := null]
    ensures PointingAt(l.dirs, at, l.members[p].Keys - {p}, w) == PointingAt(l.dirs, at, {}, w)
  {
  }

  /** A loose path that points nowhere is loose no more. */
  lemma ClearKeeps(l: Links, loose: set<string>, x: string)
    requires l.Linked(loose) && x in loose && x in l.dirs
    ensures l.Cleared(x).Linked(loose - {x})
  {
    hide PointingAt, Distinct, OneEach;
    var r := l.Cleared(x);
    forall p | p in r.watches
      ensures r.members[p] == PointingAt(r.dirs, r.at, loose - {x}, r.watches[p])
    {
      ClearPoints(l.dirs, l.at, loose, x, r.watches[p]);
    }
  }

  lemma ClearPoints(dirs: map<string, HubDir>, at: map<string, HubWatch?>, loose: set<string>, x: string, w: HubWatch)
    requires at.Keys == dirs.Keys && x in dirs && x in loose
    ensures at[x := null].Keys == dirs.Keys
    ensures PointingAt(dirs, at[x := null], loose - {x}, w) == PointingAt(dirs, at, loose, w)
  {
  }

  /** A path without a watch can go. */
  lemma ForgetKeeps(l: Links, x: string)
    requires l.Linked({}) && x in l.dirs && l.at[x] == null
    ensures l.Forgotten(x).Linked({})
  {
    hide PointingAt, OneEach;
    var r := l.Forgotten(x);
    forall p | p in r.watches
      ensures r.members[p] == PointingAt(r.dirs, r.at, {}, r.watches[p])
    {
      ForgetPoints(l.dirs, l.at, x, r.watches[p]);
    }
  }

  lemma ForgetPoints(dirs: map<string, HubDir>, at: map<string, HubWatch?>, x: string, w: HubWatch)
    requires at.Keys == dirs.Keys && x in dirs && at[x] != w
    ensures (at - {x}).Keys == (dirs - {x}).Keys
    ensures PointingAt(dirs - {x}, at - {x}, {}, w) == PointingAt(dirs, at, {}, w)
  {
  }

  class Hub {
    var watcher: Watcher?
    var dirs: map<string, HubDir>
    var watches: map<string, HubWatch>

    /** The watches that the subscribed paths `all` point at. */
    ghost function At(all: map<string, HubDir>): (at: map<string, HubWatch?>)
      reads all.Values`watch
      ensures at.Keys == all.Keys
    {
      map x | x in all :: all[x].watch
    }

    ghost function Members(): (members: map<string, map<string, HubDir>>)
      reads this`watches, watches.Values`dirs
      ensures members.Keys == watches.Keys
    {
      map p | p in watches :: watches[p].dirs
    }

    /** The links of the subscribed paths `all`. */
    ghost function Snapshot(all: map<string, HubDir>): Links
      reads this`watches, all.Values`watch, watches.Values`dirs
    {
      Links(all, At(all), watches, Members())
    }

    ghost predicate WatcherOpen()
      reads this`watcher, this`watches, watcher
    {
      && (watcher == null ==> watches == map[])
      && (watcher != null ==> !watcher.closed && watcher.list <= watches.Keys)
    }

    ghost function Now(): Watching
      reads this`watcher, this`watches, watcher
    {
      Watching(watches, if watcher == null then {} else watcher.list)
    }

    ghost predicate Idle()
      reads this`watcher, this`watches
    {
      watches == map[] ==> watcher == null
    }

    ghost predicate Handled()
      reads this`dirs, dirs.Values`handlers
    {
      forall x :: x in dirs ==> dirs[x].handlers != {}
    }

    /** What holds whenever the lock is free. */
    ghost predicate Valid()
      reads this, dirs.Values, watches.Values, watcher
    {
      Snapshot(dirs).Linked({}) && WatcherOpen() && Idle() && Handled()
    }

    /** The handlers subscribed to each directory path. */
    ghost function Subscriptions(): map<string, set<Handler>>
      reads this`dirs, dirs.Values`handlers
    {
      map x | x in dirs :: dirs[x].handlers
    }

    constructor ()
      ensures Valid() && dirs == map[]
    {
      watcher, dirs, watches := null, map[], map[];
    }

    method FindWatch(info: Identity) returns (found: HubWatch?)
      requires forall p :: p in watches ==> watches[p].path == p
      ensures found == null ==> forall p :: p in watches ==> watches[p].info != info
      ensures found != null ==> Current(watches, found) && found.info == info
    {
      var rest := watches.Keys;
      while rest != {}
        invariant rest <= watches.Keys
        invariant forall p :: p in watches && p !in rest ==> watches[p].info != info
      {
        var p :| p in rest;
        if watches[p].info == info {
          return watches[p];
        }
        rest := rest - {p};
      }
      return null;
    }

    lemma AtLookup(all: map<string, HubDir>, x: string)
      requires x in all
      ensures At(all)[x] == all[x].watch
    {
    }

    lemma MembersLookup(p: string)
      requires p in watches
      ensures Members()[p] == watches[p].dirs
    {
    }

    method PointAt(dir: string, d: HubDir, w: HubWatch?, ghost all: map<string, HubDir>)
      requires Distinct(all) && dir in all && all[dir] == d
      modifies d`watch
      ensures At(all) == old(At(all))[dir := w] && d.watch == w
      ensures Members() == old(Members())
    {
      d.watch := w;
      assert At(all) == old(At(all))[dir := w];
    }

    method SetMembers(w: HubWatch, members: map<string, HubDir>, ghost all: map<string, HubDir>)
      requires Current(watches, w) && forall p :: p in watches ==> watches[p].path == p
      modifies w`dirs
      ensures Members() == old(Members())[w.path := members] && w.dirs == members
      ensures At(all) == old(At(all))
    {
      w.dirs := members;
      assert Members() == old(Members())[w.path := members];
    }

    /** Attaches to a watch that is on the directory already. */
    method Join(dir: string, d: HubDir, w: HubWatch, ghost all: map<string, HubDir>, ghost loose: set<string>)
      requires Snapshot(all).Linked(loose) && dir in all && all[dir] == d && dir !in loose && d.watch == null
      requires Current(watches, w)
      modifies d`watch, w`dirs
      ensures Snapshot(all).Linked(loose) && d.watch == w
      ensures At(all) == old(At(all))[dir := w]
    {
      hide Links.Linked, At, Members, Distinct;
      LinkedFacts(Snapshot(all), loose);
      AtLookup(all, dir);
      MembersLookup(w.path);
      JoinKeeps(Snapshot(all), loose, dir, w);
      SetMembers(w, w.dirs[dir := d], all);
      PointAt(dir, d, w, all);
    }

    method PutWatch(w: HubWatch, ghost all: map<string, HubDir>)
      modifies this`watches
      ensures watches == old(watches)[w.path := w]
      ensures Members() == old(Members())[w.path := w.dirs]
      ensures At(all) == old(At(all))
    {
      watches := watches[w.path := w];
      assert Members() == old(Members())[w.path := w.dirs];
    }

    method DeleteWatch(p: string, ghost all: map<string, HubDir>)
      modifies this`watches
      ensures watches == old(watches) - {p}
      ensures Members() == old(Members()) - {p}
      ensures At(all) == old(At(all))
    {
      watches := watches - {p};
      assert Members() == old(Members()) - {p};
    }

    /** Adds a watch on the directory. */
    method AddWatch(dir: string, d: HubDir, info: Identity, ghost all: map<string, HubDir>, ghost loose: set<string>)
      requires Snapshot(all).Linked(loose) && dir in all && all[dir] == d && dir !in loose && d.watch == null
      requires forall p :: p in watches ==> watches[p].info != info
      modifies this`watches, d`watch
      ensures Snapshot(all).Linked(loose)
      ensures d.watch != null && fresh(d.watch) && d.watch.info == info
      ensures dir !in old(watches) && watches == old(watches)[dir := d.watch]
      ensures At(all) == old(At(all))[dir := d.watch]
    {
      hide Links.Linked, At, Members, Distinct;
      ghost var before := Snapshot(all);
      LinkedFacts(before, loose);
      AtLookup(all, dir);
      NoneYet(all);
      var w := new HubWatch(dir, info, map[dir := d]);
      AddKeeps(before, loose, dir, w);
      PutWatch(w, all);
      PointAt(dir, d, w, all);
    }

    /** Attaching can succeed: some watch is on the directory already, or one can be added. */
    ghost predicate CanAttach(dir: string, info: Identity, world: World)
      reads this
    {
      || (exists p :: p in watches && watches[p].info == info)
      || ((watcher != null || !world.noWatcher) && dir !in world.unwatchable)
    }

    /** Opens the watcher for the first watch. */
    method OpenWatcher(world: World, ghost all: map<string, HubDir>) returns (ok: bool)
      requires WatcherOpen()
      modifies this`watcher, this`watches
      ensures WatcherOpen() && watches == old(watches)
      ensures ok == (old(watcher) != null || !world.noWatcher)
      ensures ok <==> watcher != null
      ensures watcher == old(watcher) || (old(watcher) == null && fresh(watcher))
      ensures Snapshot(all) == old(Snapshot(all)) && Now() == old(Now())
    {
      if watcher == null {
        if world.noWatcher {
          return false;
        }
        watcher := new Watcher();
        watches := map[];
      }
      return true;
    }

    /** Adds a watch on the directory, also to the watcher. */
    method WatchDir(dir: string, d: HubDir, info: Identity, world: World, ghost all: map<string, HubDir>, ghost loose: set<string>)
      returns (ok: bool)
      requires Snapshot(all).Linked(loose) && dir in all && all[dir] == d && dir !in loose && d.watch == null
      requires forall p :: p in watches ==> watches[p].info != info
      requires WatcherOpen() && watcher != null
      modifies this`watches, watcher`list, d`watch
      ensures Snapshot(all).Linked(loose) && WatcherOpen()
      ensures ok == (dir !in world.unwatchable)
      ensures if ok then
                && d.watch != null && fresh(d.watch) && d.watch.info == info
                && dir !in old(watches) && watches == old(watches)[dir := d.watch]
              else d.watch == null && watches == old(watches)
      ensures At(all) == old(At(all))[dir := d.watch]
      ensures AddedAt(old(Now()), Now(), dir)
    {
      hide Links.Linked, At, Members, Distinct;
      AtLookup(all, dir);
      ok := watcher.Add(dir, world);
      assert Snapshot(all) == old(Snapshot(all));
      if ok {
        AddWatch(dir, d, info, all, loose);
      }
    }

    /** Attaches to a new watch. */
    method AttachNew(dir: string, d: HubDir, info: Identity, world: World, ghost all: map<string, HubDir>, ghost loose: set<string>)
      returns (ok: bool)
      requires Snapshot(all).Linked(loose) && dir in all && all[dir] == d && dir !in loose && d.watch == null
      requires forall p :: p in watches ==> watches[p].info != info
      requires WatcherOpen()
      modifies this`watcher, this`watches, watcher, d`watch
      ensures Snapshot(all).Linked(loose) && WatcherOpen()
      ensures ok == ((old(watcher) != null || !world.noWatcher) && dir !in world.unwatchable)
      ensures if ok then d.watch != null && d.watch.info == info else d.watch == null
      ensures At(all) == old(At(all))[dir := d.watch]
      ensures watches == old(watches) ||
              (dir !in old(watches) && d.watch != null && fresh(d.watch) && watches == old(watches)[dir := d.watch])
      ensures AddedAt(old(Now()), Now(), dir)
      ensures watcher == old(watcher) || (old(watcher) == null && fresh(watcher))
    {
      hide Links.Linked, At, Members, Distinct, WatcherOpen;
      AtLookup(all, dir);
      assert At(all)[dir := null] == At(all);
      ok := OpenWatcher(world, all);
      if ok {
        ok := WatchDir(dir, d, info, world, all, loose);
      }
    }

    /** `attachLocked`. */
    method Attach(dir: string, d: HubDir, info: Identity, world: World, ghost all: map<string, HubDir>, ghost loose: set<string>)
      returns (ok: bool)
      requires Snapshot(all).Linked(loose) && dir in all && all[dir] == d && dir !in loose && d.watch == null
      requires WatcherOpen()
      modifies this`watcher, this`watches, watcher, d`watch, watches.Values`dirs
      ensures Snapshot(all).Linked(loose) && WatcherOpen()
      ensures ok == old(CanAttach(dir, info, world))
      ensures if ok then d.watch != null && d.watch.info == info else d.watch == null
      ensures At(all) == old(At(all))[dir := d.watch]
      ensures watches == old(watches) ||
              (dir !in old(watches) && d.watch != null && fresh(d.watch) && watches == old(watches)[dir := d.watch])
      ensures AddedAt(old(Now()), Now(), dir)
      ensures watcher == old(watcher) || (old(watcher) == null && fresh(watcher))
    {
      hide Links.Linked, At, Members, Distinct, WatcherOpen;
      LinkedFacts(Snapshot(all), loose);
      var w := FindWatch(info);
      if w != null {
        Join(dir, d, w, all, loose);
        return true;
      }
      ok := AttachNew(dir, d, info, world, all, loose);
    }

    /** Leaves a watch that goes by another path. */
    method LeaveWatch(dir: string, d: HubDir, w: HubWatch)
      requires Snapshot(dirs).Linked({}) && dir in dirs && dirs[dir] == d && d.watch == w && w.path != dir
      modifies d`watch, w`dirs
      ensures Snapshot(dirs).Linked({}) && d.watch == null
      ensures At(dirs) == old(At(dirs))[dir := null]
    {
      hide Links.Linked, At, Members, Distinct;
      LinkedFacts(Snapshot(dirs), {});
      AtLookup(dirs, dir);
      LeaveKeeps(Snapshot(dirs), dir);
      MembersLookup(w.path);
      PointAt(dir, d, null, dirs);
      SetMembers(w, w.dirs - {dir}, dirs);
    }

    /** Takes a path off the watch that goes by it. */
    method UnlinkOwn(dir: string, d: HubDir, w: HubWatch)
      requires Distinct(dirs) && dir in dirs && dirs[dir] == d
      requires Current(watches, w) && (forall p :: p in watches ==> watches[p].path == p)
      modifies d`watch, w`dirs
      ensures d.watch == null && w.dirs == old(w.dirs) - {dir}
      ensures At(dirs) == old(At(dirs))[dir := null]
      ensures Members() - {w.path} == old(Members()) - {w.path}
    {
      hide At, Members, Distinct;
      PointAt(dir, d, null, dirs);
      SetMembers(w, w.dirs - {dir}, dirs);
    }

    /** Forgets a watch, also in the watcher. */
    method StopWatch(dir: string)
      requires WatcherOpen() && watcher != null
      modifies this`watches, watcher`list
      ensures WatcherOpen()
      ensures watches == old(watches) - {dir}
      ensures Members() == old(Members()) - {dir}
      ensures At(dirs) == old(At(dirs))
      ensures Grown(old(Now()), Now(), {dir})
    {
      hide At, Members;
      watcher.Remove(dir);
      DeleteWatch(dir, dirs);
    }

    lemma SomeWatch(p: string)
      requires WatcherOpen() && p in watches
      ensures watcher != null
    {
    }

    /** Removes the watch that goes by `dir`; its other paths still point at it. */
    method RemoveWatch(dir: string, d: HubDir, w: HubWatch)
      requires Snapshot(dirs).Linked({}) && dir in dirs && dirs[dir] == d && d.watch == w && w.path == dir
      requires WatcherOpen()
      modifies this`watches, watcher, d`watch, w`dirs
      ensures w.dirs == old(w.dirs) - {dir}
      ensures Snapshot(dirs).Linked(w.dirs.Keys) && d.watch == null
      ensures WatcherOpen() && watcher != null
      ensures At(dirs) == old(At(dirs))[dir := null]
      ensures watches == old(watches) - {dir} && Grown(old(Now()), Now(), {dir})
    {
      hide Links.Linked, At, Members, Distinct, OwnPaths, WatcherOpen, Grown;
      ghost var l := Snapshot(dirs);
      LinkedFacts(l, {});
      AtLookup(dirs, dir);
      PointsAtCurrent(l, dir);
      MembersLookup(dir);
      RemoveKeeps(l, dir);
      PathsOf(l, {});
      SomeWatch(dir);
      UnlinkOwn(dir, d, w);
      StopWatch(dir);
      assert Snapshot(dirs) == l.Cleared(dir).Without(dir);
      assert w.dirs.Keys == l.members[dir].Keys - {dir};
    }

    /** Points a path at the watch for where it leads now, or at none. */
    method ReattachOne(p: string, other: HubDir, world: World, ghost loose: set<string>)
      requires Snapshot(dirs).Linked(loose) && p in dirs && dirs[p] == other && p in loose
      requires WatcherOpen() && watcher != null
      modifies this`watcher, this`watches, watcher, other`watch, watches.Values`dirs
      ensures Snapshot(dirs).Linked(loose - {p}) && WatcherOpen() && watcher == old(watcher)
      ensures Reattached(p, other.watch, world)
      ensures At(dirs) == old(At(dirs))[p := other.watch]
      ensures watches == old(watches) ||
              (p !in old(watches) && other.watch != null && fresh(other.watch) && watches == old(watches)[p := other.watch])
      ensures AddedAt(old(Now()), Now(), p)
    {
      hide Links.Linked, At, Members, Distinct, WatcherOpen;
      LinkedFacts(Snapshot(dirs), loose);
      ClearKeeps(Snapshot(dirs), loose, p);
      PointAt(p, other, null, dirs);
      if p in world.stat {
        var _ := Attach(p, other, world.stat[p], world, dirs, loose - {p});
      }
    }

    /** One step of moving the paths of a watch that is gone. */
    method ReattachNext(p: string, other: HubDir, world: World, ghost loose: set<string>,
                        ghost before: map<string, HubWatch?>, ghost gone: set<string>, ghost was: Watching)
      requires Snapshot(dirs).Linked(loose) && p in dirs && dirs[p] == other && p in loose
      requires WatcherOpen() && watcher != null
      requires Moved(before, At(dirs), gone, world) && Grown(was, Now(), {})
      modifies this`watcher, this`watches, watcher, other`watch, watches.Values`dirs
      ensures Snapshot(dirs).Linked(loose - {p}) && WatcherOpen() && watcher == old(watcher)
      ensures Moved(before, At(dirs), gone + {p}, world) && Grown(was, Now(), {})
      ensures forall o :: o in watches.Values ==> o in old(watches.Values) || fresh(o)
    {
      hide Links.Linked, At, Members, Distinct, WatcherOpen, Reattached, Moved, Grown;
      AtKeys(before, At(dirs), gone, world);
      ReattachOne(p, other, world, loose);
      MovedNext(before, old(At(dirs)), gone, p, other.watch, world);
      GrownNext(was, {}, old(Now()), Now(), p);
    }

    /** Moves the paths of a watch that is gone. */
    method Reattach(members: map<string, HubDir>, world: World)
      requires Snapshot(dirs).Linked(members.Keys)
      requires forall x :: x in members ==> x in dirs && dirs[x] == members[x]
      requires WatcherOpen() && watcher != null
      modifies this`watcher, this`watches, watcher, members.Values`watch, watches.Values`dirs
      ensures Snapshot(dirs).Linked({}) && WatcherOpen() && watcher == old(watcher)
      ensures Moved(old(At(dirs)), At(dirs), members.Keys, world)
      ensures Grown(old(Now()), Now(), {})
      ensures forall o :: o in watches.Values ==> o in old(watches.Values) || fresh(o)
    {
      hide Links.Linked, At, Members, Distinct, WatcherOpen, Reattached, Moved, Grown;
      var rest := members.Keys;
      MovedNone(At(dirs), world);
      GrownSame(Now(), {});
      assert members.Keys - rest == {};
      while rest != {}
        invariant rest <= members.Keys
        invariant Snapshot(dirs).Linked(rest) && WatcherOpen() && watcher == old(watcher)
        invariant Moved(old(At(dirs)), At(dirs), members.Keys - rest, world)
        invariant Grown(old(Now()), Now(), {})
        invariant forall o :: o in watches.Values ==> o in old(watches.Values) || fresh(o)
      {
        var p :| p in rest;
        ReattachNext(p, members[p], world, rest, old(At(dirs)), members.Keys - rest, old(Now()));
        assert members.Keys - (rest - {p}) == members.Keys - rest + {p};
        rest := rest - {p};
      }
      assert members.Keys - rest == members.Keys;
    }

    /** The other paths that lose their watch when `dir` is detached. */
    ghost function Losing(dir: string): set<string>
      requires dir in dirs
      reads this`dirs, dirs.Values`watch
    {
      var w := dirs[dir].watch;
      if w != null && w.path == dir then (set x | x in dirs && dirs[x].watch == w) - {dir} else {}
    }

    lemma LosingMembers(dir: string)
      requires Snapshot(dirs).Linked({}) && dir in watches
      ensures dir in dirs && dirs[dir].watch == watches[dir]
      ensures Losing(dir) == watches[dir].dirs.Keys - {dir}
      ensures forall x :: x in watches[dir].dirs ==> x in dirs && dirs[x] == watches[dir].dirs[x]
    {
      var l := Snapshot(dirs);
      KnownAt(l, {}, dir);
      assert l.members[dir] == PointingAt(dirs, l.at, {}, watches[dir]);
    }

    /** Detaches `dir` when the watch goes by it. */
    method DetachOwn(dir: string, d: HubDir, w: HubWatch, world: World)
      requires Snapshot(dirs).Linked({}) && dir in dirs && dirs[dir] == d && d.watch == w && w.path == dir
      requires Current(watches, w) && WatcherOpen()
      modifies this`watcher, this`watches, watcher, dirs.Values`watch, watches.Values`dirs
      ensures Snapshot(dirs).Linked({}) && WatcherOpen() && watcher == old(watcher)
      ensures Moved(old(At(dirs))[dir := null], At(dirs), old(Losing(dir)), world)
      ensures Grown(old(Now()), Now(), {dir})
      ensures forall o :: o in watches.Values ==> o in old(watches.Values) || fresh(o)
    {
      hide Links.Linked, At, Members, Distinct, WatcherOpen, Reattached, Moved, Grown, Losing;
      LosingMembers(dir);
      RemoveWatch(dir, d, w);
      ghost var removed := Now();
      Reattach(w.dirs, world);
      GrownTwice(old(Now()), {dir}, removed, Now());
    }

    /** `detachLocked`. */
    method Detach(dir: string, d: HubDir, world: World)
      requires Snapshot(dirs).Linked({}) && dir in dirs && dirs[dir] == d
      requires WatcherOpen()
      modifies this`watcher, this`watches, watcher, dirs.Values`watch, watches.Values`dirs
      ensures Snapshot(dirs).Linked({}) && WatcherOpen() && watcher == old(watcher)
      ensures d.watch == null
      ensures Moved(old(At(dirs))[dir := null], At(dirs), old(Losing(dir)), world)
      ensures Grown(old(Now()), Now(), {dir})
      ensures forall o :: o in watches.Values ==> o in old(watches.Values) || fresh(o)
    {
      hide Links.Linked, At, Members, Distinct, WatcherOpen, Reattached, Moved, Grown;
      var w := d.watch;
      AtLookup(dirs, dir);
      MovedNone(At(dirs)[dir := null], world);
      GrownSame(Now(), {dir});
      if w == null {
        assert At(dirs)[dir := null] == At(dirs);
        return;
      }
      PointsAtCurrent(Snapshot(dirs), dir);
      if w.path != dir {
        LeaveWatch(dir, d, w);
        return;
      }
      DetachOwn(dir, d, w, world);
      MovedTo(old(At(dirs))[dir := null], At(dirs), old(Losing(dir)), dir, world);
      AtLookup(dirs, dir);
    }

    /** `closeIfIdleLocked`. */
    method CloseIfIdle()
      requires WatcherOpen()
      modifies this`watcher, watcher
      ensures WatcherOpen() && Idle()
      ensures if watches == map[] then watcher == null && (old(watcher) != null ==> old(watcher).closed)
              else watcher == old(watcher)
      ensures Snapshot(dirs) == old(Snapshot(dirs)) && Grown(old(Now()), Now(), {})
      ensures Subscriptions() == old(Subscriptions()) && Handled() == old(Handled())
    {
      hide At, Members, Subscriptions, Handled;
      if watcher != null && |watches| == 0 {
        watcher.Close();
        watcher := null;
      }
    }

    /** Drops a path that points at no watch. */
    method DeleteDir(dir: string)
      requires Snapshot(dirs).Linked({}) && dir in dirs && dirs[dir].watch == null
      modifies this`dirs
      ensures dirs == old(dirs) - {dir}
      ensures Snapshot(dirs).Linked({})
      ensures At(dirs) == old(At(dirs)) - {dir}
      ensures Subscriptions() == old(Subscriptions()) - {dir}
    {
      hide Links.Linked, Members;
      ForgetKeeps(Snapshot(dirs), dir);
      dirs := dirs - {dir};
      assert At(dirs) == old(At(dirs)) - {dir};
    }

    twostate lemma HandlersKept()
      requires dirs == old(dirs) && forall x :: x in dirs ==> dirs[x].handlers == old(dirs[x].handlers)
      ensures Handled() == old(Handled()) && Subscriptions() == old(Subscriptions())
    {
    }

    /** `removeLocked`. */
    method Remove(dir: string, d: HubDir, world: World)
      requires Snapshot(dirs).Linked({}) && dir in dirs && dirs[dir] == d
      requires WatcherOpen()
      modifies this, watcher, dirs.Values`watch, watches.Values`dirs
      ensures Snapshot(dirs).Linked({}) && WatcherOpen() && Idle()
      ensures dirs == old(dirs) - {dir}
      ensures Subscriptions() == old(Subscriptions()) - {dir}
      ensures Moved(old(At(dirs)) - {dir}, At(dirs), old(Losing(dir)), world)
      ensures Grown(old(Now()), Now(), {dir})
      ensures forall o :: o in watches.Values ==> o in old(watches.Values) || fresh(o)
      ensures watcher == null || watcher == old(watcher)
    {
      hide Links.Linked, At, Members, Distinct, WatcherOpen, Idle, Reattached, Moved, Grown, Losing, Subscriptions;
      Detach(dir, d, world);
      HandlersKept();
      MovedRest(old(At(dirs)), At(dirs), old(Losing(dir)), dir, world);
      DeleteDir(dir);
      ghost var now := Now();
      CloseIfIdle();
      GrownTwice(old(Now()), {dir}, now, Now());
    }

    method SetHandlers(dir: string, d: HubDir, handlers: set<Handler>)
      requires Distinct(dirs) && dir in dirs && dirs[dir] == d
      modifies d`handlers
      ensures Subscriptions() == old(Subscriptions())[dir := handlers]
      ensures Snapshot(dirs) == old(Snapshot(dirs))
    {
      hide At, Members;
      d.handlers := handlers;
      assert Subscriptions() == old(Subscriptions())[dir := handlers];
    }

    lemma SubscriptionAt(dir: string)
      ensures dir in dirs <==> dir in Subscriptions()
      ensures dir in dirs ==> Subscriptions()[dir] == dirs[dir].handlers
    {
    }

    lemma HandledIff()
      ensures Handled() <==> NoneEmpty(Subscriptions())
    {
      if NoneEmpty(Subscriptions()) {
        forall x | x in dirs
          ensures dirs[x].handlers != {}
        {
          assert Subscriptions()[x] != {};
        }
      }
    }

    /** Where the watches stand after an operation on `dir`: every other path keeps its watch, except
        that those of a watch removed under `dir` move to where they lead now; watches other than
        that one stay as they are. */
    ghost predicate Kept(dir: string, at: map<string, HubWatch?>, losing: set<string>,
                         before: Watching, world: World)
      reads this`dirs, this`watches, this`watcher, watcher, dirs.Values`watch
    {
      Moved(at - {dir}, At(dirs) - {dir}, losing, world) && Grown(before, Now(), {dir})
    }

    /** The other paths that lose their watch when `fh` leaves `dir`. */
    ghost function LeavingLoses(dir: string, fh: Handler): set<string>
      reads this`dirs, dirs.Values
    {
      if dir in dirs && dirs[dir].handlers - {fh} == {} then Losing(dir) else {}
    }

    /** `unsubscribe`. */
    method Unsubscribe(dir: string, fh: Handler, world: World)
      requires Valid()
      modifies this, watcher, dirs.Values, watches.Values`dirs
      ensures Valid()
      ensures Subscriptions() == Unsubscribed(old(Subscriptions()), dir, fh)
      ensures Kept(dir, old(At(dirs)), old(LeavingLoses(dir, fh)), old(Now()), world)
    {
      hide Links.Linked, At, Members, Distinct, WatcherOpen, Idle, Moved, Grown, Losing, Handled, Subscriptions;
      SubscriptionAt(dir);
      NoneMoved(At(dirs), dir, world);
      GrownSame(Now(), {dir});
      if dir !in dirs {
        return;
      }
      var d := dirs[dir];
      HandledIff();
      LinkedFacts(Snapshot(dirs), {});
      ghost var subs := Subscriptions();
      SetHandlers(dir, d, d.handlers - {fh});
      SubscriptionAt(dir);
      if d.handlers == {} {
        UpdateMinus(subs, dir, d.handlers);
        Remove(dir, d, world);
        MinusAbsent(At(dirs), dir);
      }
      HandledIff();
    }

    /** The directory at `dir` is watched already. */
    ghost predicate UpToDate(dir: string, world: World)
      reads this`dirs, dirs.Values`watch
    {
      && dir in world.stat && dir in dirs
      && dirs[dir].watch != null && dirs[dir].watch.info == world.stat[dir]
    }

    /** The other paths that lose their watch when `dir` is subscribed. */
    ghost function MayLose(dir: string, world: World): set<string>
      reads this`dirs, dirs.Values`watch
    {
      if dir in dirs && !UpToDate(dir, world) then Losing(dir) else {}
    }

    method PutDir(dir: string, d: HubDir)
      requires dir !in dirs
      modifies this`dirs
      ensures dirs == old(dirs)[dir := d]
      ensures Subscriptions() == old(Subscriptions())[dir := d.handlers]
      ensures Members() == old(Members())
    {
      dirs := dirs[dir := d];
      assert Subscriptions() == old(Subscriptions())[dir := d.handlers];
    }

    lemma WithDir(dir: string, d: HubDir)
      requires Snapshot(dirs).Linked({}) && dir !in dirs && d !in dirs.Values && d.watch == null
      ensures Snapshot(dirs[dir := d]).Linked({})
      ensures At(dirs[dir := d]) == At(dirs)[dir := null]
    {
      hide Links.Linked, Members;
      InsertKeeps(Snapshot(dirs), dir, d);
      assert At(dirs[dir := d]) == At(dirs)[dir := null];
    }

    lemma WithoutDir(dir: string, d: HubDir)
      requires dir !in dirs && d.watch == null && Snapshot(dirs[dir := d]).Linked({})
      ensures Snapshot(dirs).Linked({})
      ensures At(dirs) == At(dirs[dir := d]) - {dir}
    {
      hide Links.Linked, Members;
      ForgetKeeps(Snapshot(dirs[dir := d]), dir);
      assert dirs[dir := d] - {dir} == dirs;
      assert At(dirs[dir := d]) - {dir} == At(dirs);
    }

    /** Attaches a path that nobody subscribed so far. */
    method AttachFirst(dir: string, d: HubDir, info: Identity, world: World) returns (ok: bool)
      requires Snapshot(dirs).Linked({}) && WatcherOpen() && dir !in dirs && d !in dirs.Values && d.watch == null
      modifies this`watcher, this`watches, watcher, d`watch, watches.Values`dirs
      ensures WatcherOpen() && Snapshot(dirs[dir := d]).Linked({})
      ensures if ok then d.watch != null && d.watch.info == info else d.watch == null
      ensures !ok ==> dir in world.unwatchable || (old(watcher) == null && world.noWatcher)
      ensures At(dirs[dir := d]) == old(At(dirs))[dir := d.watch]
      ensures Grown(old(Now()), Now(), {dir})
      ensures watcher == old(watcher) || (old(watcher) == null && fresh(watcher))
    {
      hide Links.Linked, At, Members, WatcherOpen, Grown;
      WithDir(dir, d);
      ok := Attach(dir, d, info, world, dirs[dir := d], {});
      Overwritten(old(At(dirs)), dir, null, d.watch);
      GrownBeside(old(Now()), Now(), dir);
    }

    lemma SomeWatchNow(dir: string)
      requires Snapshot(dirs).Linked({}) && dir in dirs && dirs[dir].watch != null
      ensures Idle()
    {
      AtLookup(dirs, dir);
      PointsAtCurrent(Snapshot(dirs), dir);
    }

    /** Publishes a path that was just attached, with its first handler. */
    method Publish(dir: string, d: HubDir, fh: Handler)
      requires dir !in dirs && d.watch != null && Snapshot(dirs[dir := d]).Linked({}) && WatcherOpen() && Handled()
      modifies this`dirs, d`handlers
      ensures Valid() && dirs == old(dirs)[dir := d]
      ensures Subscriptions() == old(Subscriptions())[dir := {fh}]
      ensures At(dirs) == old(At(dirs[dir := d]))
    {
      hide Links.Linked, At, Members, Distinct, Subscriptions, Handled, WatcherOpen, Idle;
      HandledIff();
      ghost var subs := Subscriptions();
      PutDir(dir, d);
      LinkedFacts(Snapshot(dirs), {});
      Overwritten(subs, dir, d.handlers, {fh});
      SetHandlers(dir, d, {fh});
      HandledIff();
      SomeWatchNow(dir);
    }

    /** Gives up on a path that could not be attached. */
    method GiveUpNew(dir: string, d: HubDir)
      requires dir !in dirs && d.watch == null && Snapshot(dirs[dir := d]).Linked({}) && WatcherOpen() && Handled()
      modifies this`watcher, watcher
      ensures Valid()
      ensures At(dirs) == old(At(dirs[dir := d])) - {dir} && Subscriptions() == old(Subscriptions())
      ensures Grown(old(Now()), Now(), {})
    {
      hide Links.Linked, At, Members, WatcherOpen, Idle, Subscriptions, Handled, Grown;
      WithoutDir(dir, d);
      CloseIfIdle();
    }

    /** Subscribes a path that nobody subscribed so far. */
    method SubscribeNew(dir: string, fh: Handler, info: Identity, world: World) returns (ok: bool)
      requires Valid() && dir !in dirs
      modifies this, watcher, watches.Values`dirs
      ensures Valid()
      ensures Subscriptions() == if ok then old(Subscriptions())[dir := {fh}] else old(Subscriptions())
      ensures ok ==> dir in dirs && dirs[dir].watch != null && dirs[dir].watch.info == info
      ensures !ok ==> dir in world.unwatchable || (old(watcher) == null && world.noWatcher)
      ensures Kept(dir, old(At(dirs)), {}, old(Now()), world)
    {
      hide At, Links.Linked, Subscriptions, Handled, WatcherOpen, Idle, Moved, Grown;
      var d := new HubDir();
      ok := AttachFirst(dir, d, info, world);
      StayedElsewhere(old(At(dirs)), dir, d.watch, world);
      if ok {
        Publish(dir, d, fh);
      } else {
        ghost var now := Now();
        GiveUpNew(dir, d);
        GrownTwice(old(Now()), {dir}, now, Now());
      }
    }

    /** Detaches a path and attaches it to the directory it leads to now. */
    method Move(dir: string, d: HubDir, info: Identity, world: World) returns (ok: bool)
      requires Snapshot(dirs).Linked({}) && WatcherOpen() && dir in dirs && dirs[dir] == d
      modifies this`watcher, this`watches, watcher, dirs.Values`watch, watches.Values`dirs
      ensures Snapshot(dirs).Linked({}) && WatcherOpen()
      ensures Handled() == old(Handled()) && Subscriptions() == old(Subscriptions())
      ensures if ok then d.watch != null && d.watch.info == info else d.watch == null
      ensures !ok ==> dir in world.unwatchable || (old(watcher) == null && world.noWatcher)
      ensures Moved(old(At(dirs)) - {dir}, At(dirs) - {dir}, old(Losing(dir)), world)
      ensures Grown(old(Now()), Now(), {dir})
      ensures watcher == old(watcher) || (old(watcher) == null && fresh(watcher))
    {
      hide Links.Linked, At, Members, WatcherOpen, Grown, Moved, Losing, Handled, Subscriptions;
      Detach(dir, d, world);
      ghost var at, was := At(dirs), Now();
      MovedRest(old(At(dirs)), at, old(Losing(dir)), dir, world);
      ok := Attach(dir, d, info, world, dirs, {});
      UpdateMinus(at, dir, d.watch);
      GrownNext(old(Now()), {dir}, was, Now(), dir);
      HandlersKept();
    }

    method GiveUpMove(dir: string, d: HubDir)
      requires Snapshot(dirs).Linked({}) && WatcherOpen() && Handled() && dir in dirs && dirs[dir] == d && d.watch == null
      modifies this`watcher, this`dirs, watcher
      ensures Valid()
      ensures At(dirs) == old(At(dirs)) - {dir} && Subscriptions() == old(Subscriptions()) - {dir}
      ensures Grown(old(Now()), Now(), {})
    {
      hide Links.Linked, At, Members, WatcherOpen, Idle, Subscriptions, Handled;
      HandledIff();
      DeleteDir(dir);
      HandledIff();
      CloseIfIdle();
    }

    method AddHandler(dir: string, d: HubDir, fh: Handler)
      requires Snapshot(dirs).Linked({}) && WatcherOpen() && Handled() && dir in dirs && dirs[dir] == d && d.watch != null
      modifies d`handlers
      ensures Valid()
      ensures At(dirs) == old(At(dirs))
      ensures Subscriptions() == old(Subscriptions())[dir := old(Subscriptions())[dir] + {fh}]
    {
      hide Links.Linked, At, Members, WatcherOpen, Idle, Subscriptions, Handled;
      HandledIff();
      LinkedFacts(Snapshot(dirs), {});
      SubscriptionAt(dir);
      SetHandlers(dir, d, d.handlers + {fh});
      HandledIff();
      SomeWatchNow(dir);
    }

    /** Subscribes a path whose watch is missing or on another directory. */
    method SubscribeMoved(dir: string, d: HubDir, fh: Handler, info: Identity, world: World) returns (ok: bool)
      requires Valid() && dir in dirs && dirs[dir] == d
      modifies this, watcher, dirs.Values, watches.Values`dirs
      ensures Valid()
      ensures Subscriptions() == if ok then old(Subscriptions())[dir := old(Subscriptions())[dir] + {fh}]
                                 else old(Subscriptions()) - {dir}
      ensures ok ==> dir in dirs && dirs[dir].watch != null && dirs[dir].watch.info == info
      ensures !ok ==> dir in world.unwatchable || (old(watcher) == null && world.noWatcher)
      ensures Kept(dir, old(At(dirs)), old(Losing(dir)), old(Now()), world)
    {
      hide At, Links.Linked, Subscriptions, Handled, WatcherOpen, Idle, Moved, Grown, Losing;
      ok := Move(dir, d, info, world);
      MinusTwice(At(dirs), dir);
      if ok {
        AddHandler(dir, d, fh);
      } else {
        ghost var now := Now();
        GiveUpMove(dir, d);
        GrownTwice(old(Now()), {dir}, now, Now());
      }
    }

    /** Drops a path that cannot be read, if anyone subscribed it. */
    method SubscribeUnreadable(dir: string, world: World)
      requires Valid()
      modifies this, watcher, dirs.Values`watch, watches.Values`dirs
      ensures Valid()
      ensures Subscriptions() == old(Subscriptions()) - {dir}
      ensures Kept(dir, old(At(dirs)), if dir in old(dirs) then old(Losing(dir)) else {}, old(Now()), world)
    {
      hide At, Links.Linked, Subscriptions, Handled, WatcherOpen, Idle, Moved, Grown, Losing;
      SubscriptionAt(dir);
      MinusTwice(At(dirs), dir);
      HandledIff();
      if dir in dirs {
        Remove(dir, dirs[dir], world);
        MinusAbsent(At(dirs), dir);
      } else {
        NoneMoved(At(dirs), dir, world);
        GrownSame(Now(), {dir});
        assert Subscriptions() - {dir} == Subscriptions();
      }
      HandledIff();
    }

    /** Subscribes a path that is watched where it leads now. */
    method SubscribeUpToDate(dir: string, d: HubDir, fh: Handler, world: World)
      requires Valid() && dir in dirs && dirs[dir] == d && d.watch != null
      modifies d`handlers
      ensures Valid()
      ensures Subscriptions() == old(Subscriptions())[dir := old(Subscriptions())[dir] + {fh}]
      ensures Kept(dir, old(At(dirs)), {}, old(Now()), world)
    {
      hide At, Links.Linked, Subscriptions, Handled, WatcherOpen, Idle, Moved, Grown;
      NoneMoved(At(dirs), dir, world);
      GrownSame(Now(), {dir});
      AddHandler(dir, d, fh);
    }

    /** `subscribe`: afterwards `dir` is watched where it leads now and `fh` is told of changes, or,
        when that is impossible, `dir` is not subscribed by anyone. */
    method Subscribe(dir: string, fh: Handler, world: World) returns (ok: bool)
      requires Valid()
      modifies this, watcher, dirs.Values, watches.Values`dirs
      ensures Valid()
      ensures Subscriptions() == Subscribed(old(Subscriptions()), dir, fh, ok)
      ensures ok ==> UpToDate(dir, world)
      ensures !ok ==> dir !in world.stat || dir in world.unwatchable || (old(watcher) == null && world.noWatcher)
      ensures Kept(dir, old(At(dirs)), old(MayLose(dir, world)), old(Now()), world)
    {
      hide At, Subscriptions, Valid, Kept, Losing;
      SubscriptionAt(dir);
      SubscribedCases(Subscriptions(), dir, fh);
      if dir !in world.stat {
        SubscribeUnreadable(dir, world);
        return false;
      }
      var info := world.stat[dir];
      if dir !in dirs {
        ok := SubscribeNew(dir, fh, info, world);
      } else if dirs[dir].watch != null && dirs[dir].watch.info == info {
        SubscribeUpToDate(dir, dirs[dir], fh, world);
        ok := true;
      } else {
        ok := SubscribeMoved(dir, dirs[dir], fh, info, world);
      }
    }

    /** Points the paths of a watch that is gone nowhere. */
    method ClearMembers(members: map<string, HubDir>)
      requires Snapshot(dirs).Linked(members.Keys)
      requires forall x :: x in members ==> x in dirs && dirs[x] == members[x]
      modifies members.Values`watch
      ensures Snapshot(dirs).Linked({})
      ensures At(dirs) == Nowhere(old(At(dirs)), members.Keys)
    {
      hide Links.Linked, At, Members, Distinct, Nowhere;
      var rest := members.Keys;
      NowhereNone(At(dirs));
      assert members.Keys - rest == {};
      while rest != {}
        invariant rest <= members.Keys
        invariant Snapshot(dirs).Linked(rest)
        invariant At(dirs) == Nowhere(old(At(dirs)), members.Keys - rest)
      {
        var p :| p in rest;
        LinkedFacts(Snapshot(dirs), rest);
        ClearKeeps(Snapshot(dirs), rest, p);
        NowhereNext(old(At(dirs)), members.Keys - rest, p);
        assert members.Keys - (rest - {p}) == members.Keys - rest + {p};
        PointAt(p, members[p], null, dirs);
        rest := rest - {p};
      }
      assert members.Keys - rest == members.Keys;
    }

    /** Forgets a watch that fsnotify dropped. */
    method ForgetWatch(dir: string, w: HubWatch)
      requires Snapshot(dirs).Linked({}) && WatcherOpen() && dir in watches && watches[dir] == w
      requires watcher != null && dir !in watcher.list
      modifies this`watches, w.dirs.Values`watch
      ensures Snapshot(dirs).Linked({}) && WatcherOpen()
      ensures watches == old(watches) - {dir}
      ensures At(dirs) == Nowhere(old(At(dirs)), PathsAt(old(At(dirs)), w))
      ensures Subscriptions() == old(Subscriptions()) && Handled() == old(Handled())
    {
      hide Links.Linked, At, Members, Nowhere, PathsAt, Subscriptions, Handled;
      ghost var l := Snapshot(dirs);
      MembersAre(l, dir);
      MembersLookup(dir);
      DropKeeps(l, dir);
      DeleteWatch(dir, dirs);
      ClearMembers(w.dirs);
    }

    /** `dropWatch`. */
    method DropWatch(from: Watcher, dir: string)
      requires Valid()
      modifies this`watches, this`watcher, watcher, dirs.Values`watch
      ensures Valid()
      ensures Subscriptions() == old(Subscriptions())
      ensures var stale := dir in old(watches) && old(watcher) == from && dir !in old(from.list);
              && watches == (if stale then old(watches) - {dir} else old(watches))
              && (stale ==> At(dirs) == Nowhere(old(At(dirs)), PathsAt(old(At(dirs)), old(watches)[dir])))
              && (!stale ==> At(dirs) == old(At(dirs)))
      ensures Grown(old(Now()), Now(), {dir})
    {
      hide Links.Linked, At, Members, WatcherOpen, Idle, Handled, Subscriptions, Grown;
      GrownSame(Now(), {dir});
      if dir !in watches || watcher != from || dir in from.list {
        return;
      }
      MembersAre(Snapshot(dirs), dir);
      MembersLookup(dir);
      ForgetWatch(dir, watches[dir]);
      GrownRemoved(old(Now()), Now(), dir);
      ghost var now := Now();
      CloseIfIdle();
      GrownTwice(old(Now()), {dir}, now, Now());
    }

    /** fsnotify stops watching a directory that is renamed or removed; its event comes later. */
    method FsnotifyDrops(dir: string)
      requires Valid() && watcher != null
      modifies watcher
      ensures Valid() && watcher.list == old(watcher.list) - {dir}
      ensures Snapshot(dirs) == old(Snapshot(dirs)) && Subscriptions() == old(Subscriptions())
    {
      hide Links.Linked, At, Members, Handled, Subscriptions;
      watcher.Remove(dir);
    }

    /** Whom to tell about a change to `name` in the directory watched as `dir`. */
    ghost predicate Target(dir: string, name: string, x: string, fh: Handler)
      reads this`dirs, dirs.Values
    {
      && x in dirs && dirs[x].watch != null && dirs[x].watch.path == dir
      && fh in dirs[x].handlers && fh.fileName == name
    }

    /** `targetsFor`: under every subscribed path to the directory, its handlers of that file. */
    method TargetsFor(dir: string, name: string) returns (targets: set<(string, Handler)>)
      requires Valid()
      ensures forall x, fh :: (x, fh) in targets <==> Target(dir, name, x, fh)
    {
      hide Links.Linked, At, Members;
      targets := {};
      if dir !in watches {
        NoTargets(dir, name);
        return;
      }
      var w := watches[dir];
      MembersMean(dir);
      var rest := w.dirs.Keys;
      while rest != {}
        invariant rest <= w.dirs.Keys
        invariant forall x, fh :: (x, fh) in targets <==>
                    x in w.dirs && x !in rest && fh in dirs[x].handlers && fh.fileName == name
      {
        var x :| x in rest;
        targets := targets + set fh | fh in w.dirs[x].handlers && fh.fileName == name :: (x, fh);
        rest := rest - {x};
      }
    }

    /** Paths point only at watches that the hub has. */
    lemma WatchedAt(x: string)
      requires Valid() && x in dirs && dirs[x].watch != null
      ensures Current(watches, dirs[x].watch)
    {
      AtLookup(dirs, x);
      PointsAtCurrent(Snapshot(dirs), x);
    }

    lemma NoTargets(dir: string, name: string)
      requires Valid() && dir !in watches
      ensures forall x, fh :: !Target(dir, name, x, fh)
    {
      forall x, fh
        ensures !Target(dir, name, x, fh)
      {
        if Target(dir, name, x, fh) {
          WatchedAt(x);
        }
      }
    }

    lemma MembersMean(dir: string)
      requires Valid() && dir in watches
      ensures watches[dir].path == dir
      ensures forall x :: x in watches[dir].dirs <==> x in dirs && dirs[x].watch != null && dirs[x].watch.path == dir
      ensures forall x :: x in watches[dir].dirs ==> dirs[x] == watches[dir].dirs[x]
    {
      var w := watches[dir];
      MembersAre(Snapshot(dirs), dir);
      MembersLookup(dir);
      forall x
        ensures x in w.dirs <==> x in dirs && dirs[x].watch != null && dirs[x].watch.path == dir
      {
        if x in dirs && dirs[x].watch != null {
          WatchedAt(x);
        }
      }
    }

    /** What the invariant says about the objects. */
    lemma ValidMeans(x: string, w: HubWatch)
      requires Valid()
      ensures x in dirs ==>
                (dirs[x].watch == w <==>
                 w.path in watches && watches[w.path] == w && x in w.dirs && w.dirs[x] == dirs[x])
      ensures x in watches ==> watches[x].path == x && x in watches[x].dirs
      ensures x in watches && w.path in watches && watches[w.path] == w && watches[x].info == w.info ==> x == w.path
      ensures x in dirs ==> dirs[x].handlers != {}
      ensures watcher != null <==> watches != map[]
      ensures watcher != null ==> watcher.list <= watches.Keys
    {
      hide Members;
      var l := Snapshot(dirs);
      if x in dirs {
        LinksAgree(l, x, w);
        AtLookup(dirs, x);
      }
      if w.path in watches {
        MembersLookup(w.path);
      }
      if x in watches {
        MembersLookup(x);
        MembersAre(l, x);
      }
    }

    /** Every watch that a path points at exists already. */
    twostate lemma NoneYet(all: map<string, HubDir>)
      ensures forall x :: x in At(all) && At(all)[x] != null ==> allocated(At(all)[x])
    {
    }
  }

  /** Where a path that lost its watch ends: on a watch of the directory it leads to now, or on none,
      because it cannot be read or cannot be watched. */
  ghost predicate Reattached(x: string, w: HubWatch?, world: World) {
    if w == null then x !in world.stat || x in world.unwatchable
    else x in world.stat && w.info == world.stat[x]
  }

  /** Of the paths, exactly those in `gone` point elsewhere, and where they should. */
  ghost predicate Moved(before: map<string, HubWatch?>, after: map<string, HubWatch?>, gone: set<string>, world: World) {
    after.Keys == before.Keys &&
    forall x :: x in before ==> if x in gone then Reattached(x, after[x], world) else after[x] == before[x]
  }

  lemma MovedNone(at: map<string, HubWatch?>, world: World)
    ensures Moved(at, at, {}, world)
  {
  }

  lemma MovedNext(before: map<string, HubWatch?>, after: map<string, HubWatch?>, gone: set<string>,
                  x: string, w: HubWatch?, world: World)
    requires Moved(before, after, gone, world) && x in before && Reattached(x, w, world)
    ensures Moved(before, after[x := w], gone + {x}, world)
  {
  }

  /** Only watches in `lost` are removed or replaced; what is added is in the watcher, and what stays
      in the watcher if it was. */
  ghost predicate Grown(before: Watching, after: Watching, lost: set<string>) {
    && (forall p :: p in before.watches && p !in lost ==> p in after.watches && after.watches[p] == before.watches[p])
    && forall p :: p in after.watches ==>
         (p in before.watches && after.watches[p] == before.watches[p] && p !in before.listed) || p in after.listed
  }

  /** At most a watch on `p` is added, to the watcher too. */
  ghost predicate AddedAt(was: Watching, now: Watching, p: string) {
    && was.listed <= now.listed
    && (now.watches == was.watches ||
        (p !in was.watches && p in now.watches && now.watches == was.watches[p := now.watches[p]] && p in now.listed))
  }

  lemma GrownSame(w: Watching, lost: set<string>)
    ensures Grown(w, w, lost)
  {
  }

  lemma GrownNext(before: Watching, lost: set<string>, was: Watching, now: Watching, p: string)
    requires Grown(before, was, lost) && AddedAt(was, now, p)
    ensures Grown(before, now, lost)
  {
  }

  lemma GrownTwice(before: Watching, lost: set<string>, was: Watching, now: Watching)
    requires Grown(before, was, lost) && Grown(was, now, {})
    ensures Grown(before, now, lost)
  {
  }

  lemma GrownRemoved(was: Watching, now: Watching, p: string)
    requires now.watches == was.watches - {p} && now.listed == was.listed
    ensures Grown(was, now, {p})
  {
  }

  lemma GrownBeside(was: Watching, now: Watching, p: string)
    requires AddedAt(was, now, p)
    ensures Grown(was, now, {p})
  {
  }

  lemma MovedTo(before: map<string, HubWatch?>, after: map<string, HubWatch?>, gone: set<string>, x: string, world: World)
    requires Moved(before, after, gone, world) && x in before && x !in gone
    ensures x in after && after[x] == before[x]
  {
  }

  lemma AtKeys(before: map<string, HubWatch?>, after: map<string, HubWatch?>, gone: set<string>, world: World)
    requires Moved(before, after, gone, world)
    ensures after.Keys == before.Keys
  {
  }

  lemma MovedRest(before: map<string, HubWatch?>, after: map<string, HubWatch?>, gone: set<string>, x: string, world: World)
    requires x in before && Moved(before[x := null], after, gone, world)
    ensures Moved(before - {x}, after - {x}, gone, world)
  {
  }

  ghost predicate NoneEmpty(subs: map<string, set<Handler>>) {
    forall x :: x in subs ==> subs[x] != {}
  }

  /** Without `fh` for `dir`, and without `dir` once it has no handler. */
  function Unsubscribed(subs: map<string, set<Handler>>, dir: string, fh: Handler): map<string, set<Handler>> {
    if dir !in subs then subs
    else if subs[dir] - {fh} == {} then subs - {dir}
    else subs[dir := subs[dir] - {fh}]
  }

  lemma Overwritten<K, V>(m: map<K, V>, k: K, v: V, w: V)
    ensures m[k := v][k := w] == m[k := w]
  {
  }

  lemma StayedElsewhere(at: map<string, HubWatch?>, dir: string, w: HubWatch?, world: World)
    requires dir !in at
    ensures Moved(at - {dir}, at[dir := w] - {dir} - {dir}, {}, world) && Moved(at - {dir}, at[dir := w] - {dir}, {}, world)
  {
    assert at[dir := w] - {dir} == at - {dir} == at - {dir} - {dir};
  }

  lemma UpdateMinus<K, V>(m: map<K, V>, k: K, v: V)
    ensures m[k := v] - {k} == m - {k}
  {
  }

  lemma MinusAbsent<K, V>(m: map<K, V>, k: K)
    requires k !in m
    ensures m - {k} == m
  {
  }

  lemma MinusTwice<K, V>(m: map<K, V>, k: K)
    ensures m - {k} - {k} == m - {k}
  {
  }

  /** With `fh` for `dir`, or, when that failed, without `dir`. */
  function Subscribed(subs: map<string, set<Handler>>, dir: string, fh: Handler, ok: bool): map<string, set<Handler>> {
    if !ok then subs - {dir}
    else subs[dir := (if dir in subs then subs[dir] else {}) + {fh}]
  }

  lemma SubscribedCases(subs: map<string, set<Handler>>, dir: string, fh: Handler)
    ensures Subscribed(subs, dir, fh, false) == subs - {dir}
    ensures dir !in subs ==> Subscribed(subs, dir, fh, false) == subs && Subscribed(subs, dir, fh, true) == subs[dir := {fh}]
    ensures dir in subs ==> Subscribed(subs, dir, fh, true) == subs[dir := subs[dir] + {fh}]
  {
    if dir !in subs {
      assert subs - {dir} == subs;
      assert {} + {fh} == {fh};
    }
  }

  lemma NoneMoved(at: map<string, HubWatch?>, dir: string, world: World)
    ensures Moved(at - {dir}, at - {dir}, {}, world)
  {
  }

  /** With the paths in `gone` pointing nowhere. */
  ghost function Nowhere(at: map<string, HubWatch?>, gone: set<string>): map<string, HubWatch?> {
    map x | x in at :: if x in gone then null else at[x]
  }

  /** The paths that point at `w`. */
  ghost function PathsAt(at: map<string, HubWatch?>, w: HubWatch): set<string> {
    set x | x in at && at[x] == w
  }

  lemma NowhereNone(at: map<string, HubWatch?>)
    ensures Nowhere(at, {}) == at
  {
  }

  lemma NowhereNext(at: map<string, HubWatch?>, gone: set<string>, x: string)
    requires x in at
    ensures Nowhere(at, gone)[x := null] == Nowhere(at, gone + {x})
  {
  }

  lemma MembersAre(l: Links, p: string)
    requires l.Linked({}) && p in l.watches
    ensures l.members[p].Keys == PathsAt(l.at, l.watches[p])
    ensures forall x :: x in l.members[p] ==> x in l.dirs && l.dirs[x] == l.members[p][x]
  {
    KnownAt(l, {}, p);
  }

  /** Dropping a watch leaves its paths loose. */
  lemma DropKeeps(l: Links, p: string)
    requires l.Linked({}) && p in l.watches
    ensures l.Without(p).Linked(l.members[p].Keys)
  {
    hide PointingAt, Distinct, OneEach;
    MembersAre(l, p);
    var r := l.Without(p);
    forall q | q in r.watches
      ensures r.members[q] == PointingAt(r.dirs, r.at, l.members[p].Keys, r.watches[q])
    {
      OthersPointingAt(l.dirs, l.at, l.watches[p], l.watches[q], l.members[p].Keys);
    }
    DropOneEach(l.watches, p);
  }

  lemma DropOneEach(watches: map<string, HubWatch>, p: string)
    requires OneEach(watches)
    ensures OneEach(watches - {p})
  {
  }

  lemma OthersPointingAt(dirs: map<string, HubDir>, at: map<string, HubWatch?>, v: HubWatch, w: HubWatch, loose: set<string>)
    requires at.Keys == dirs.Keys && v != w && loose == PathsAt(at, v)
    ensures PointingAt(dirs, at, loose, w) == PointingAt(dirs, at, {}, w)
  {
  }

  /** A new path that points at no watch. */
  lemma InsertKeeps(l: Links, x: string, d: HubDir)
    requires l.Linked({}) && x !in l.dirs && d !in l.dirs.Values
    ensures l.(dirs := l.dirs[x := d], at := l.at[x := null]).Linked({})
  {
    hide PointingAt, OneEach, Distinct, Links.Known;
    InsertDistinct(l.dirs, x, d);
    InsertKnown(l, x, d);
  }

  lemma InsertDistinct(dirs: map<string, HubDir>, x: string, d: HubDir)
    requires Distinct(dirs) && x !in dirs && d !in dirs.Values
    ensures Distinct(dirs[x := d])
  {
  }

  lemma InsertKnown(l: Links, x: string, d: HubDir)
    requires l.Complete() && l.Known({}) && x !in l.dirs
    ensures var r := l.(dirs := l.dirs[x := d], at := l.at[x := null]);
            r.Complete() && r.Known({})
  {
    hide PointingAt;
    var r := l.(dirs := l.dirs[x := d], at := l.at[x := null]);
    forall p | p in r.watches
      ensures r.members[p] == PointingAt(r.dirs, r.at, {}, r.watches[p])
    {
      InsertPoints(l.dirs, l.at, x, d, l.watches[p]);
    }
  }

  lemma InsertPoints(dirs: map<string, HubDir>, at: map<string, HubWatch?>, x: string, d: HubDir, w: HubWatch)
    requires at.Keys == dirs.Keys && x !in dirs
    ensures at[x := null].Keys == dirs[x := d].Keys
    ensures PointingAt(dirs[x := d], at[x := null], {}, w) == PointingAt(dirs, at, {}, w)
  {
  }

  lemma PointsAtCurrent(l: Links, x: string)
    requires l.Linked({}) && x in l.dirs && l.at[x] != null
    ensures Current(l.watches, l.at[x])
  {
  }

  lemma PathsOf(l: Links, loose: set<string>)
    requires OwnPaths(l.at, l.watches, loose)
    ensures forall p :: p in l.watches ==> l.watches[p].path == p
  {
  }

  lemma LinkedFacts(l: Links, loose: set<string>)
    requires l.Linked(loose)
    ensures l.Complete() && Distinct(l.dirs) && OwnPaths(l.at, l.watches, loose)
  {
  }
}
