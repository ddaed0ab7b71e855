/** The cache of queue identities and its dirty flag, with edits of the object tree interleaved with rebuilds.
    An edit is applied first and notified later. Structural edits always raise the flag when notified; a rename
    raises it only if the renamed object is watched by then. */
module QueueCache {
  import opened Common

  type Node = nat

  /** The parents of objects. Bins do not contain themselves: a parent always ranks below its child. */
  datatype Tree = Tree(parent: map<Node, Node>, rank: Node -> nat)

  ghost predicate Grounded(t: Tree) { forall o :: o in t.parent ==> t.rank(t.parent[o]) < t.rank(o) }

  type Forest = t: Tree | Grounded(t) ghost witness Tree(map[], _ => 0)

  type Name = string

  function NameOf(names: map<Node, Name>, o: Node): Name { if o in names then names[o] else "" }

  function ParentOf(t: Forest, o: Node): Option<Node> { if o in t.parent then Some(t.parent[o]) else None }

  /** The names from the root down to an object; its identity is a rendering of them. */
  ghost function Path(t: Forest, names: map<Node, Name>, o: Node): seq<Name>
    decreases t.rank(o)
  {
    (if o in t.parent then Path(t, names, t.parent[o]) else []) + [NameOf(names, o)]
  }

  /** The object so many steps up, if the tree reaches so far. */
  function Up(t: Forest, o: Node, steps: nat): Option<Node>
    decreases steps
  {
    if steps == 0 then Some(o)
    else if o in t.parent then Up(t, t.parent[o], steps - 1) else None
  }

  /** A path ends with the object's own name, and each name before it is that of the next ancestor, up to the root. */
  lemma {:induction false} PathNamesAncestors(t: Forest, names: map<Node, Name>, o: Node, steps: nat)
    ensures var path := Path(t, names, o);
            && (steps < |path| <==> Up(t, o, steps).Some?)
            && (steps < |path| ==> path[|path| - 1 - steps] == NameOf(names, Up(t, o, steps).value))
    decreases steps
  {
    if steps > 0 && o in t.parent {
      PathNamesAncestors(t, names, t.parent[o], steps - 1);
    }
  }

  /** An object and its ancestors. */
  ghost function Chain(t: Forest, o: Node): set<Node>
    decreases t.rank(o)
  {
    {o} + (if o in t.parent then Chain(t, t.parent[o]) else {})
  }

  lemma {:induction false} PathReadsChain(t: Forest, before: map<Node, Name>, after: map<Node, Name>, o: Node)
    requires forall a :: a in Chain(t, o) ==> NameOf(before, a) == NameOf(after, a)
    ensures Path(t, before, o) == Path(t, after, o)
    decreases t.rank(o)
  {
    if o in t.parent {
      PathReadsChain(t, before, after, t.parent[o]);
    }
  }

  ghost predicate UpwardClosed(t: Forest, s: set<Node>) { forall o :: o in s && o in t.parent ==> t.parent[o] in s }

  lemma {:induction false} ChainInside(t: Forest, s: set<Node>, o: Node)
    requires UpwardClosed(t, s) && o in s
    ensures Chain(t, o) <= s
    decreases t.rank(o)
  {
    if o in t.parent {
      ChainInside(t, s, t.parent[o]);
    }
  }

  lemma {:induction false} ChainsNest(t: Forest, a: Node, o: Node)
    requires a in Chain(t, o)
    ensures Chain(t, a) <= Chain(t, o)
    decreases t.rank(o)
  {
    if a != o {
      ChainsNest(t, a, t.parent[o]);
    }
  }

  // ---------------------------------------------------------------- the protocol

  /** The identity last computed for a queue, with the registration it was computed for. */
  datatype Computed = Computed(entry: nat, path: seq<Name>)

  datatype Phase =
    | Between                                                   // about to take the next queue
    | Watching(queue: Node, at: Option<Node>)                   // connecting name watches upwards
    | ReadingParent(queue: Node)
    | ReadingPath(queue: Node, parent: Node, up: Node, names: seq<Name>)
    | ReadingName(queue: Node, prefix: seq<Name>)

  datatype Rebuild =
    | Resting
    | Cleared                                                   // the flag is down, the queues not yet listed
    | Working(todo: map<Node, nat>, phase: Phase, seen: set<Node>, parentPaths: map<Node, seq<Name>>)

  datatype State = State(
    tree: Forest,
    names: map<Node, Name>,
    tracked: map<Node, nat>,           // the registered queues and their entries
    nextEntry: nat,
    unnotified: nat,                   // structural edits still to be notified
    renamed: multiset<Node>,           // renames still to be notified
    dirty: bool,
    watches: set<Node>,
    rebuild: Rebuild,
    computed: map<Node, Computed>)

  datatype Action =
    | Rename(object: Node, name: Name) | NotifyRename(object: Node)
    | Restructure(tree: Forest) | Track(queue: Node) | Untrack(queue: Node) | NotifyStructure
    | Refresh(recheck: bool) | ListQueues | TakeQueue(queue: Node) | WatchOne | ReadParent | ReadOne | ReadName | Finish

  predicate Enabled(s: State, a: Action) {
    match a
    case Rename(_, _) | Restructure(_) | Track(_) | Untrack(_) => true
    case NotifyRename(o) => o in s.renamed
    case NotifyStructure => s.unnotified > 0
    case Refresh(_) => s.rebuild.Resting?
    case ListQueues => s.rebuild.Cleared?
    case TakeQueue(q) => s.rebuild.Working? && s.rebuild.phase.Between? && q in s.rebuild.todo
    case WatchOne => s.rebuild.Working? && s.rebuild.phase.Watching?
    case ReadParent => s.rebuild.Working? && s.rebuild.phase.ReadingParent?
    case ReadOne => s.rebuild.Working? && s.rebuild.phase.ReadingPath?
    case ReadName => s.rebuild.Working? && s.rebuild.phase.ReadingName? && s.rebuild.phase.queue in s.rebuild.todo
    case Finish => s.rebuild.Working? && s.rebuild.phase.Between? && s.rebuild.todo == map[]
  }

  /** A sample lowers the flag and rebuilds if it was up, or if the occasional recheck of the watched parents finds
      one changed; whether it does is left open. */
  function Refreshed(s: State, recheck: bool): State {
    s.(dirty := false, rebuild := if s.dirty || recheck then Cleared else Resting)
  }

  /** Stop at an object already seen, otherwise watch it and go on to its parent. */
  function WatchOneOf(s: State): State
    requires Enabled(s, WatchOne)
  {
    var (r, at) := (s.rebuild, s.rebuild.phase.at);
    if at.None? || at.value in r.seen then s.(rebuild := r.(phase := ReadingParent(r.phase.queue)))
    else
      s.(watches := s.watches + {at.value},
         rebuild := r.(seen := r.seen + {at.value},
                       phase := Watching(r.phase.queue, ParentOf(s.tree, at.value))))
  }

  /** The parent's path, from this rebuild's memory or to be read. */
  function ReadParentOf(s: State): State
    requires Enabled(s, ReadParent)
  {
    var (r, q) := (s.rebuild, s.rebuild.phase.queue);
    var p := ParentOf(s.tree, q);
    s.(rebuild := r.(phase :=
      if p.None? then ReadingName(q, [])
      else if p.value in r.parentPaths then ReadingName(q, r.parentPaths[p.value])
      else ReadingPath(q, p.value, p.value, [])))
  }

  /** One name of the path, and the step to the next parent. */
  function ReadOneOf(s: State): State
    requires Enabled(s, ReadOne)
  {
    var (r, f) := (s.rebuild, s.rebuild.phase);
    var path := [NameOf(s.names, f.up)] + f.names;
    var next := ParentOf(s.tree, f.up);
    if next.Some? then s.(rebuild := r.(phase := ReadingPath(f.queue, f.parent, next.value, path)))
    else s.(rebuild := r.(phase := ReadingName(f.queue, path), parentPaths := r.parentPaths[f.parent := path]))
  }

  function ReadNameOf(s: State): State
    requires Enabled(s, ReadName)
  {
    var (r, q) := (s.rebuild, s.rebuild.phase.queue);
    s.(computed := s.computed[q := Computed(r.todo[q], r.phase.prefix + [NameOf(s.names, q)])],
       rebuild := r.(phase := Between, todo := r.todo - {q}))
  }

  function Step(s: State, a: Action): State
    requires Enabled(s, a)
  {
    match a
    case Rename(o, name) => s.(names := s.names[o := name], renamed := s.renamed + multiset{o})
    case NotifyRename(o) => s.(renamed := s.renamed - multiset{o}, dirty := s.dirty || o in s.watches)
    case Restructure(tree) => s.(tree := tree, unnotified := s.unnotified + 1)
    case Track(q) => s.(tracked := if q in s.tracked then s.tracked else s.tracked[q := s.nextEntry],
                        nextEntry := s.nextEntry + 1, unnotified := s.unnotified + 1)
    case Untrack(q) => s.(tracked := s.tracked - {q}, unnotified := s.unnotified + 1)
    case NotifyStructure => s.(unnotified := s.unnotified - 1, dirty := true)
    case Refresh(recheck) => Refreshed(s, recheck)
    case ListQueues => s.(computed := map[], rebuild := Working(s.tracked, Between, {}, map[]))
    case TakeQueue(q) => s.(rebuild := s.rebuild.(phase := Watching(q, Some(q))))
    case WatchOne => WatchOneOf(s)
    case ReadParent => ReadParentOf(s)
    case ReadOne => ReadOneOf(s)
    case ReadName => ReadNameOf(s)
    case Finish => s.(watches := s.watches * s.rebuild.seen, rebuild := Resting)
  }

  // ---------------------------------------------------------------- the invariant

  /** A structural edit is pending, or the flag is up: the cache owes nothing until the next rebuild. */
  predicate Unsettled(s: State) { s.dirty || s.unnotified > 0 }

  /** A rename of the object or of an ancestor is still to be notified. */
  ghost predicate RenamePending(s: State, o: Node) { exists a :: a in s.renamed && a in Chain(s.tree, o) }

  /** What was read of an object's path is its path, unless a rename of it is pending. */
  ghost predicate PathOk(s: State, o: Node, path: seq<Name>) {
    RenamePending(s, o) || path == Path(s.tree, s.names, o)
  }

  /** Every cached path belongs to a registered queue whose ancestors are all covered. */
  ghost predicate ComputedOk(s: State, covered: set<Node>) {
    forall q :: q in s.computed ==>
      && Chain(s.tree, q) <= covered && PathOk(s, q, s.computed[q].path)
      && q in s.tracked && s.computed[q].entry == s.tracked[q]
  }

  /** Seen objects are watched, and so are their ancestors, up to the one the watching has come to. */
  ghost predicate SeenOk(s: State)
    requires s.rebuild.Working?
  {
    var (r, f) := (s.rebuild, s.rebuild.phase);
    && r.seen <= s.watches
    && (forall o :: o in r.seen && o in s.tree.parent ==>
          s.tree.parent[o] in r.seen || (f.Watching? && f.at == Some(s.tree.parent[o])))
    && (f.Watching? ==> f.queue in r.seen || f.at == Some(f.queue))
  }

  ghost predicate PathsOk(s: State)
    requires s.rebuild.Working?
  {
    var r := s.rebuild;
    forall p :: p in r.parentPaths ==> Chain(s.tree, p) <= r.seen && PathOk(s, p, r.parentPaths[p])
  }

  ghost predicate PhaseOk(s: State)
    requires s.rebuild.Working?
  {
    var (r, f) := (s.rebuild, s.rebuild.phase);
    && (!f.Between? ==> f.queue in r.todo)
    && (f.ReadingParent? || f.ReadingPath? || f.ReadingName? ==> Chain(s.tree, f.queue) <= r.seen)
    && (f.ReadingPath? ==>
          && ParentOf(s.tree, f.queue) == Some(f.parent) && f.up in Chain(s.tree, f.parent)
          && (RenamePending(s, f.parent)
              || Path(s.tree, s.names, f.parent) == Path(s.tree, s.names, f.up) + f.names))
    && (f.ReadingName? ==> PathOk(s, f.queue, f.prefix + [NameOf(s.names, f.queue)]))
  }

  /** Every registered queue is computed or still to be. */
  ghost predicate ListedOk(s: State)
    requires s.rebuild.Working?
  {
    && (forall q :: q in s.tracked <==> q in s.rebuild.todo || q in s.computed)
    && (forall q :: q in s.rebuild.todo ==> q in s.tracked && s.rebuild.todo[q] == s.tracked[q])
  }

  ghost predicate WorkingOk(s: State)
    requires s.rebuild.Working?
  {
    SeenOk(s) && PathsOk(s) && PhaseOk(s) && ListedOk(s) && ComputedOk(s, s.rebuild.seen)
  }

  ghost predicate RestingOk(s: State) { s.computed.Keys == s.tracked.Keys && ComputedOk(s, s.watches) }

  ghost predicate Inv(s: State) {
    || Unsettled(s)
    || s.rebuild.Cleared?
    || (s.rebuild.Resting? && RestingOk(s))
    || (s.rebuild.Working? && WorkingOk(s))
  }

  // ---------------------------------------------------------------- edits

  lemma RenameKeepsPath(s: State, o: Node, name: Name, q: Node, path: seq<Name>)
    requires PathOk(s, q, path)
    ensures PathOk(Step(s, Rename(o, name)), q, path)
  {
    var next := Step(s, Rename(o, name));
    if o in Chain(s.tree, q) {
      assert o in next.renamed;
    } else {
      PathReadsChain(s.tree, s.names, next.names, q);
      PendingStays(s, next, q);
    }
  }

  lemma PendingStays(s: State, next: State, q: Node)
    requires next.tree == s.tree && forall a :: a in s.renamed && a in Chain(s.tree, q) ==> a in next.renamed
    ensures RenamePending(s, q) ==> RenamePending(next, q)
  {
  }

  lemma RenameKeepsReading(s: State, o: Node, name: Name)
    requires s.rebuild.Working? && PhaseOk(s)
    ensures PhaseOk(Step(s, Rename(o, name)))
  {
    var (next, f) := (Step(s, Rename(o, name)), s.rebuild.phase);
    if f.ReadingPath? {
      PendingStays(s, next, f.parent);
      if o in Chain(s.tree, f.parent) {
        assert o in next.renamed;
      } else {
        ChainsNest(s.tree, f.up, f.parent);
        PathReadsChain(s.tree, s.names, next.names, f.parent);
        PathReadsChain(s.tree, s.names, next.names, f.up);
      }
    } else if f.ReadingName? {
      RenameKeepsPath(s, o, name, f.queue, f.prefix + [NameOf(s.names, f.queue)]);
      if o == f.queue {
        assert o in next.renamed && o in Chain(s.tree, o);
      }
    }
  }

  lemma RenameInv(s: State, o: Node, name: Name)
    requires Inv(s)
    ensures Inv(Step(s, Rename(o, name)))
  {
    var next := Step(s, Rename(o, name));
    forall q | q in s.computed && PathOk(s, q, s.computed[q].path) ensures PathOk(next, q, s.computed[q].path) {
      RenameKeepsPath(s, o, name, q, s.computed[q].path);
    }
    if s.rebuild.Working? && WorkingOk(s) {
      RenameKeepsReading(s, o, name);
      forall p | p in s.rebuild.parentPaths ensures PathOk(next, p, s.rebuild.parentPaths[p]) {
        RenameKeepsPath(s, o, name, p, s.rebuild.parentPaths[p]);
      }
      assert WorkingOk(next);
    }
  }

  /** Notifying a rename of an object nobody watches takes nothing from the objects that are covered. */
  lemma UnwatchedNotice(s: State, o: Node, covered: set<Node>, q: Node)
    requires o in s.renamed && o !in s.watches && covered <= s.watches && Chain(s.tree, q) <= covered
    ensures RenamePending(s, q) ==> RenamePending(Step(s, NotifyRename(o)), q)
  {
    PendingStays(s, Step(s, NotifyRename(o)), q);
  }

  lemma NotifyRenameInv(s: State, o: Node)
    requires Inv(s) && Enabled(s, NotifyRename(o))
    ensures Inv(Step(s, NotifyRename(o)))
  {
    var next := Step(s, NotifyRename(o));
    if !Unsettled(next) && !s.rebuild.Cleared? {
      var covered := if s.rebuild.Working? then s.rebuild.seen else s.watches;
      forall q | Chain(s.tree, q) <= covered && RenamePending(s, q) ensures RenamePending(next, q) {
        UnwatchedNotice(s, o, covered, q);
      }
      if s.rebuild.Working? {
        var f := s.rebuild.phase;
        if f.ReadingPath? {
          ParentChain(s.tree, f.queue);
        }
        assert WorkingOk(next);
      } else {
        assert RestingOk(next);
      }
    }
  }

  lemma ParentChain(t: Forest, q: Node)
    requires q in t.parent
    ensures Chain(t, t.parent[q]) <= Chain(t, q)
  {
  }

  // ---------------------------------------------------------------- the rebuild

  lemma WatchInv(s: State)
    requires Enabled(s, WatchOne) && !Unsettled(s) && WorkingOk(s)
    ensures WorkingOk(Step(s, WatchOne))
  {
    var (next, r, f) := (Step(s, WatchOne), s.rebuild, s.rebuild.phase);
    if f.at.None? || f.at.value in r.seen {
      assert UpwardClosed(s.tree, r.seen);
      ChainInside(s.tree, r.seen, f.queue);
      assert SeenOk(next) && PhaseOk(next);
    } else {
      assert r.seen <= next.rebuild.seen;
      assert SeenOk(next) && PathsOk(next) && PhaseOk(next);
    }
  }

  lemma ReadParentInv(s: State)
    requires Enabled(s, ReadParent) && !Unsettled(s) && WorkingOk(s)
    ensures WorkingOk(Step(s, ReadParent))
  {
    var (next, r, q) := (Step(s, ReadParent), s.rebuild, s.rebuild.phase.queue);
    var p := ParentOf(s.tree, q);
    if p.Some? && p.value in r.parentPaths {
      JoinParent(s, q, r.parentPaths[p.value]);
    } else if p.None? {
      assert Path(s.tree, s.names, q) == [] + [NameOf(s.names, q)];
    } else {
      assert Path(s.tree, s.names, p.value) == Path(s.tree, s.names, p.value) + [];
      assert p.value in Chain(s.tree, p.value);
    }
    assert PhaseOk(next);
  }

  /** The parent's path and the object's own name make its path. */
  lemma JoinParent(s: State, q: Node, prefix: seq<Name>)
    requires q in s.tree.parent && PathOk(s, s.tree.parent[q], prefix)
    ensures PathOk(s, q, prefix + [NameOf(s.names, q)])
  {
    ParentChain(s.tree, q);
    if RenamePending(s, s.tree.parent[q]) {
      var a :| a in s.renamed && a in Chain(s.tree, s.tree.parent[q]);
      assert a in s.renamed && a in Chain(s.tree, q);
    }
  }

  lemma ReadOneInv(s: State)
    requires Enabled(s, ReadOne) && !Unsettled(s) && WorkingOk(s)
    ensures WorkingOk(Step(s, ReadOne))
  {
    var (next, r, f) := (Step(s, ReadOne), s.rebuild, s.rebuild.phase);
    var path := [NameOf(s.names, f.up)] + f.names;
    var above := ParentOf(s.tree, f.up);
    ParentChain(s.tree, f.queue);
    if above.Some? {
      ParentChain(s.tree, f.up);
      ChainsNest(s.tree, f.up, f.parent);
      assert above.value in Chain(s.tree, above.value);
      assert Path(s.tree, s.names, f.up) + f.names == Path(s.tree, s.names, above.value) + path;
      assert PhaseOk(next);
    } else {
      assert Path(s.tree, s.names, f.up) + f.names == path;
      assert PathOk(s, f.parent, path);
      JoinParent(s, f.queue, path);
      assert PhaseOk(next) && PathsOk(next);
    }
  }

  lemma ReadNameInv(s: State)
    requires Enabled(s, ReadName) && !Unsettled(s) && WorkingOk(s)
    ensures WorkingOk(Step(s, ReadName))
  {
    var (next, q) := (Step(s, ReadName), s.rebuild.phase.queue);
    assert ListedOk(next) && SeenOk(next) && PathsOk(next) && PhaseOk(next);
    assert ComputedOk(next, next.rebuild.seen);
  }

  lemma RebuildInv(s: State, a: Action)
    requires Inv(s) && Enabled(s, a)
    requires a.Refresh? || a.ListQueues? || a.TakeQueue? || a.WatchOne? || a.ReadParent? || a.ReadOne? || a.ReadName?
             || a.Finish?
    ensures Inv(Step(s, a))
  {
    if !Unsettled(s) {
      match a
      case WatchOne => WatchInv(s);
      case ReadParent => ReadParentInv(s);
      case ReadOne => ReadOneInv(s);
      case ReadName => ReadNameInv(s);
      case ListQueues => assert WorkingOk(Step(s, a));
      case TakeQueue(_) => assert WorkingOk(Step(s, a));
      case Finish =>
        assert s.watches * s.rebuild.seen == s.rebuild.seen;
        assert s.computed.Keys == s.tracked.Keys;
        assert RestingOk(Step(s, a));
      case _ =>
    }
  }

  lemma StepInv(s: State, a: Action)
    requires Inv(s) && Enabled(s, a)
    ensures Inv(Step(s, a))
  {
    match a
    case Rename(o, name) => RenameInv(s, o, name);
    case NotifyRename(o) => NotifyRenameInv(s, o);
    case Restructure(_) =>
    case Track(_) =>
    case Untrack(_) =>
    case NotifyStructure =>
    case _ => RebuildInv(s, a);
  }

  // ---------------------------------------------------------------- whole runs

  /** Nothing is registered or watched at first, and the flag is down. */
  ghost predicate Initial(s: State) {
    && s.tracked == map[] && s.computed == map[] && s.rebuild.Resting? && s.unnotified == 0 && !s.dirty
  }

  function After(s: State, actions: seq<Action>): Option<State>
    decreases |actions|
  {
    if actions == [] then Some(s)
    else
      var n := |actions| - 1;
      var before := After(s, actions[..n]);
      if before.Some? && Enabled(before.value, actions[n]) then Some(Step(before.value, actions[n])) else None
  }

  lemma {:induction false} RunInv(s: State, actions: seq<Action>)
    requires Initial(s) && After(s, actions).Some?
    ensures Inv(After(s, actions).value)
    decreases |actions|
  {
    if actions == [] {
      assert RestingOk(s);
    } else {
      var n := |actions| - 1;
      RunInv(s, actions[..n]);
      StepInv(After(s, actions[..n]).value, actions[n]);
    }
  }

  /** The labels a sample uses: a cached queue whose registration is gone is skipped. `included` is the element
      filter and `render` the formatting of a path. */
  function Cached(s: State, included: seq<Name> -> bool, render: seq<Name> -> string): map<Node, string> {
    map q | q in s.computed && q in s.tracked && s.computed[q].entry == s.tracked[q] && included(s.computed[q].path)
      :: render(s.computed[q].path)
  }

  /** The labels recomputed from the tree as it is. */
  ghost function Recomputed(s: State, included: seq<Name> -> bool, render: seq<Name> -> string): map<Node, string> {
    map q | q in s.tracked && included(Path(s.tree, s.names, q)) :: render(Path(s.tree, s.names, q))
  }

  /** Outside a rebuild, once every edit has been notified, either the flag is up or the cached labels are exactly
      those of the current tree, names, registrations and filter, however edits and rebuilds interleaved. */
  lemma CacheAgreesWithTree(s: State, actions: seq<Action>, included: seq<Name> -> bool, render: seq<Name> -> string)
    requires Initial(s) && After(s, actions).Some?
    requires var end := After(s, actions).value;
             end.rebuild.Resting? && end.unnotified == 0 && end.renamed == multiset{}
    ensures var end := After(s, actions).value;
            end.dirty || Cached(end, included, render) == Recomputed(end, included, render)
  {
    RunInv(s, actions);
    var end := After(s, actions).value;
    if !end.dirty {
      forall q | q in end.tracked ensures q in end.computed && end.computed[q].path == Path(end.tree, end.names, q) {
        assert q in end.computed.Keys;
        assert !RenamePending(end, q);
      }
    }
  }

  /** Even with renames still to be notified, a label can only be out of date while one of them is of that queue or
      of an ancestor, and that notification will raise the flag. */
  lemma StaleLabelIsOwedANotice(s: State, actions: seq<Action>, q: Node)
    requires Initial(s) && After(s, actions).Some?
    requires var end := After(s, actions).value;
             end.rebuild.Resting? && !Unsettled(end) && q in end.tracked
    ensures var end := After(s, actions).value;
            q in end.computed &&
            (end.computed[q].path == Path(end.tree, end.names, q) ||
             exists a :: a in end.renamed && a in Chain(end.tree, q) && Step(end, NotifyRename(a)).dirty)
  {
    RunInv(s, actions);
    var end := After(s, actions).value;
    assert q in end.computed.Keys;
    if RenamePending(end, q) {
      var a :| a in end.renamed && a in Chain(end.tree, q);
      assert Step(end, NotifyRename(a)).dirty;
    }
  }

  // ---------------------------------------------------------------- a rebuild can finish

  /** The queue in work is still to be done, and every registered one is computed or still to be. */
  ghost predicate Underway(s: State) {
    && s.rebuild.Working?
    && (!s.rebuild.phase.Between? ==> s.rebuild.phase.queue in s.rebuild.todo)
    && s.rebuild.todo.Keys + s.computed.Keys == s.tracked.Keys
  }

  function PhaseStage(p: Phase): nat {
    match p
    case Between => 4
    case Watching(_, _) => 3
    case ReadingParent(_) => 2
    case ReadingPath(_, _, _, _) => 1
    case ReadingName(_, _) => 0
  }

  /** How far up the watching or the reading still has to go. */
  function Climb(t: Forest, p: Phase): nat {
    match p
    case Watching(_, at) => if at.Some? then t.rank(at.value) + 1 else 0
    case ReadingPath(_, _, up, _) => t.rank(up)
    case _ => 0
  }

  ghost predicate OnlyRebuilt(s: State, next: State) {
    && next.tree == s.tree && next.names == s.names && next.tracked == s.tracked
    && next.unnotified == s.unnotified && next.renamed == s.renamed
  }

  lemma Then(start: State, actions: seq<Action>, s: State, a: Action) returns (more: seq<Action>, next: State)
    requires After(start, actions) == Some(s) && Enabled(s, a)
    ensures next == Step(s, a) && After(start, more) == Some(next)
  {
    more, next := actions + [a], Step(s, a);
    assert more[..|actions|] == actions;
  }

  /** One step on with the same queue. */
  ghost predicate Nearer(s: State, next: State)
    requires Underway(s)
  {
    && Underway(next) && OnlyRebuilt(s, next) && next.dirty == s.dirty && next.rebuild.todo == s.rebuild.todo
    && var (p, p') := (s.rebuild.phase, next.rebuild.phase);
    (PhaseStage(p') < PhaseStage(p)
     || (PhaseStage(p') == PhaseStage(p) && Climb(next.tree, p') < Climb(s.tree, p)))
  }

  lemma WatchAdvances(s: State)
    requires Underway(s) && s.rebuild.phase.Watching?
    ensures Nearer(s, WatchOneOf(s))
  {
  }

  lemma ReadAdvances(s: State)
    requires Underway(s)
    ensures s.rebuild.phase.ReadingParent? ==> Nearer(s, ReadParentOf(s))
    ensures s.rebuild.phase.ReadingPath? ==> Nearer(s, ReadOneOf(s))
  {
  }

  lemma NameAdvances(s: State)
    requires Underway(s) && s.rebuild.phase.ReadingName?
    ensures var next := ReadNameOf(s);
            Underway(next) && OnlyRebuilt(s, next) && next.dirty == s.dirty
            && |next.rebuild.todo| < |s.rebuild.todo|
  {
    MovesOne(s.rebuild.todo, s.computed, s.rebuild.phase.queue,
             Computed(s.rebuild.todo[s.rebuild.phase.queue],
                      s.rebuild.phase.prefix + [NameOf(s.names, s.rebuild.phase.queue)]));
  }

  lemma MovesOne<T, U>(todo: map<Node, T>, done: map<Node, U>, q: Node, v: U)
    requires q in todo
    ensures (todo - {q}).Keys + done[q := v].Keys == todo.Keys + done.Keys && |todo - {q}| < |todo|
  {
    OneLess(todo, q);
    OneMore(done, q, v);
  }

  lemma OneLess<T>(m: map<Node, T>, q: Node)
    requires q in m
    ensures (m - {q}).Keys == m.Keys - {q} && |m - {q}| < |m|
  {
    assert |m - {q}| == |(m - {q}).Keys| && |m| == |m.Keys| && |m.Keys - {q}| == |m.Keys| - 1;
  }

  lemma OneMore<T>(m: map<Node, T>, q: Node, v: T)
    ensures m[q := v].Keys == m.Keys + {q}
  {
  }

  lemma Advance(start: State, actions: seq<Action>, s: State) returns (more: seq<Action>, next: State)
    requires After(start, actions) == Some(s) && Underway(s) && !s.rebuild.phase.Between?
    ensures After(start, more) == Some(next) && Underway(next) && OnlyRebuilt(s, next) && next.dirty == s.dirty
    ensures Nearer(s, next) || |next.rebuild.todo| < |s.rebuild.todo|
  {
    match s.rebuild.phase
    case Watching(_, _) =>
      WatchAdvances(s);
      more, next := Then(start, actions, s, WatchOne);
    case ReadingParent(_) =>
      ReadAdvances(s);
      more, next := Then(start, actions, s, ReadParent);
    case ReadingPath(_, _, _, _) =>
      ReadAdvances(s);
      more, next := Then(start, actions, s, ReadOne);
    case ReadingName(_, _) =>
      NameAdvances(s);
      more, next := Then(start, actions, s, ReadName);
  }

  lemma {:induction false} WorkCanFinish(start: State, actions: seq<Action>, s: State)
    returns (more: seq<Action>, end: State)
    requires After(start, actions) == Some(s) && Underway(s)
    ensures After(start, more) == Some(end) && end.rebuild.Resting?
    ensures OnlyRebuilt(s, end) && end.dirty == s.dirty && end.computed.Keys == s.tracked.Keys
    decreases |s.rebuild.todo|, PhaseStage(s.rebuild.phase), Climb(s.tree, s.rebuild.phase)
  {
    if !s.rebuild.phase.Between? {
      more, end := Advance(start, actions, s);
      more, end := WorkCanFinish(start, more, end);
    } else if s.rebuild.todo == map[] {
      more, end := Then(start, actions, s, Finish);
    } else {
      var q :| q in s.rebuild.todo;
      more, end := Then(start, actions, s, TakeQueue(q));
      more, end := WorkCanFinish(start, more, end);
    }
  }

  /** A sample with the flag up, left to itself, lowers it and lists exactly the registered queues again. */
  lemma RefreshCanFinish(start: State, actions: seq<Action>, s: State) returns (more: seq<Action>, end: State)
    requires After(start, actions) == Some(s) && s.rebuild.Resting? && s.dirty
    ensures After(start, more) == Some(end) && end.rebuild.Resting? && !end.dirty
    ensures OnlyRebuilt(s, end) && end.computed.Keys == s.tracked.Keys
  {
    more, end := Then(start, actions, s, Refresh(false));
    more, end := Then(start, more, end, ListQueues);
    more, end := WorkCanFinish(start, more, end);
  }

  /** A cache that is out of date can always be repaired: once every edit has been notified, one sample left to itself
      makes the labels those of the tree and leaves the flag down. */
  lemma RefreshRepairs(start: State, actions: seq<Action>, included: seq<Name> -> bool, render: seq<Name> -> string)
    requires Initial(start) && After(start, actions).Some?
    requires var s := After(start, actions).value;
             s.rebuild.Resting? && s.dirty && s.unnotified == 0 && s.renamed == multiset{}
    ensures var s := After(start, actions).value;
            exists more, end ::
              && After(start, more) == Some(end) && OnlyRebuilt(s, end) && !end.dirty
              && Cached(end, included, render) == Recomputed(s, included, render)
  {
    var more, end := RefreshCanFinish(start, actions, After(start, actions).value);
    CacheAgreesWithTree(start, more, included, render);
  }
}
