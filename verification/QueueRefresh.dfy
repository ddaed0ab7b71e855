/** The rebuild of the queue cache as the loops that do it, with nothing else running: the shortcut at objects
    already seen and the remembered parent paths leave no trace in the result. */
module QueueRefresh {
  import opened Common
  import opened QueueCache

  /** The objects whose renames can change the identity of one of these queues. */
  ghost function Ancestors(t: Forest, queues: set<Node>): set<Node> {
    set q, a | q in queues && a in Chain(t, q) :: a
  }

  class Cache {
    var dirty: bool
    var watches: set<Node>
    var labels: map<Node, string>

    constructor ()
      ensures !dirty && watches == {} && labels == map[]
    {
      dirty, watches, labels := false, {}, map[];
    }

    /** Watch an element and its ancestors, stopping at the first one this rebuild has seen. */
    method WatchAncestors(t: Forest, element: Node, seen: set<Node>) returns (more: set<Node>)
      requires UpwardClosed(t, seen)
      modifies this`watches
      ensures more == seen + Chain(t, element) && UpwardClosed(t, more)
      ensures watches == old(watches) + (more - seen)
    {
      more := seen;
      var current := Some(element);
      while current.Some? && current.value !in more
        invariant more + (if current.Some? then Chain(t, current.value) else {}) == seen + Chain(t, element)
        invariant forall o :: o in more && o in t.parent ==> t.parent[o] in more || current == Some(t.parent[o])
        invariant seen <= more && watches == old(watches) + (more - seen)
        decreases if current.Some? then t.rank(current.value) + 1 else 0
      {
        var o := current.value;
        more := more + {o};
        watches := watches + {o};
        current := ParentOf(t, o);
      }
      if current.Some? {
        ChainInside(t, more, current.value);
      }
    }

    /** The path of an object, read from the bottom up. */
    method PathString(t: Forest, names: map<Node, Name>, o: Node) returns (path: seq<Name>)
      ensures path == Path(t, names, o)
    {
      path := [NameOf(names, o)];
      var current := o;
      while current in t.parent
        invariant Path(t, names, o) == Above(t, names, current) + path
        decreases t.rank(current)
      {
        AboveStep(t, names, current, path);
        current := t.parent[current];
        path := [NameOf(names, current)] + path;
      }
    }

    /** The identity of a queue, with its parent's path remembered for the next one. */
    method Identify(t: Forest, names: map<Node, Name>, q: Node, parentPaths: map<Node, seq<Name>>)
      returns (identity: seq<Name>, paths: map<Node, seq<Name>>)
      requires forall p :: p in parentPaths ==> parentPaths[p] == Path(t, names, p)
      ensures identity == Path(t, names, q)
      ensures forall p :: p in paths ==> paths[p] == Path(t, names, p)
    {
      paths := parentPaths;
      var prefix := [];
      if q in t.parent {
        var parent := t.parent[q];
        if parent !in paths {
          var path := PathString(t, names, parent);
          paths := paths[parent := path];
        }
        prefix := paths[parent];
      }
      identity := prefix + [NameOf(names, q)];
    }

    /** With the flag down nothing changes. With the flag up it comes down, the labels become those of the tree and
        filter, and exactly the queues and their ancestors stay watched. */
    method RefreshQueueCache(t: Forest, names: map<Node, Name>, queues: set<Node>, included: seq<Name> -> bool,
                             render: seq<Name> -> string)
      modifies this
      ensures !dirty
      ensures !old(dirty) ==> labels == old(labels) && watches == old(watches)
      ensures old(dirty) ==>
                && watches == Ancestors(t, queues)
                && labels == map q | q in queues && included(Path(t, names, q)) :: render(Path(t, names, q))
    {
      if !dirty {
        return;
      }
      dirty := false;
      var seen := Rebuild(t, names, queues, included, render);
      watches := watches * seen;
    }

    /** The loop over the registered queues, in no particular order. */
    method Rebuild(t: Forest, names: map<Node, Name>, queues: set<Node>, included: seq<Name> -> bool,
                   render: seq<Name> -> string)
      returns (seen: set<Node>)
      modifies this`watches, this`labels
      ensures seen == Ancestors(t, queues) && seen <= watches
      ensures LabelsOf(labels, queues, t, names, included, render)
    {
      labels := map[];
      seen := {};
      var parentPaths: map<Node, seq<Name>> := map[];
      var todo := queues;
      ghost var finished: set<Node> := {};
      while todo != {}
        invariant finished <= queues && todo == queues - finished
        invariant UpwardClosed(t, seen) && seen == Ancestors(t, finished) && seen <= watches
        invariant forall p :: p in parentPaths ==> parentPaths[p] == Path(t, names, p)
        invariant LabelsOf(labels, finished, t, names, included, render)
        decreases |todo|
      {
        var q :| q in todo;
        seen, parentPaths := AddQueue(t, names, q, finished, seen, parentPaths, included, render);
        todo, finished := todo - {q}, finished + {q};
      }
      assert finished == queues;
    }

    /** One queue of the rebuild: watch it, work out its identity, and keep its label if the filter lets it in. */
    method AddQueue(t: Forest, names: map<Node, Name>, q: Node, ghost finished: set<Node>, seen: set<Node>,
                    parentPaths: map<Node, seq<Name>>, included: seq<Name> -> bool, render: seq<Name> -> string)
      returns (more: set<Node>, paths: map<Node, seq<Name>>)
      requires q !in finished && UpwardClosed(t, seen) && seen == Ancestors(t, finished) && seen <= watches
      requires forall p :: p in parentPaths ==> parentPaths[p] == Path(t, names, p)
      requires LabelsOf(labels, finished, t, names, included, render)
      modifies this`watches, this`labels
      ensures UpwardClosed(t, more) && more == Ancestors(t, finished + {q}) && more <= watches
      ensures forall p :: p in paths ==> paths[p] == Path(t, names, p)
      ensures LabelsOf(labels, finished + {q}, t, names, included, render)
    {
      AncestorsGrow(t, finished, q);
      more := WatchAncestors(t, q, seen);
      var identity;
      identity, paths := Identify(t, names, q, parentPaths);
      LabelsGrow(labels, finished, q, t, names, included, render);
      if included(identity) {
        labels := labels[q := render(identity)];
      }
    }
  }

  lemma LabelsGrow(labels: map<Node, string>, queues: set<Node>, q: Node, t: Forest, names: map<Node, Name>,
                   included: seq<Name> -> bool, render: seq<Name> -> string)
    requires LabelsOf(labels, queues, t, names, included, render) && q !in queues
    ensures var path := Path(t, names, q);
            LabelsOf(if included(path) then labels[q := render(path)] else labels, queues + {q}, t, names, included,
                     render)
  {
  }

  ghost function Above(t: Forest, names: map<Node, Name>, o: Node): seq<Name> {
    if o in t.parent then Path(t, names, t.parent[o]) else []
  }

  lemma AboveStep(t: Forest, names: map<Node, Name>, o: Node, path: seq<Name>)
    requires o in t.parent
    ensures Above(t, names, o) + path == Above(t, names, t.parent[o]) + ([NameOf(names, t.parent[o])] + path)
  {
  }

  lemma AncestorsGrow(t: Forest, queues: set<Node>, q: Node)
    ensures Ancestors(t, queues + {q}) == Ancestors(t, queues) + Chain(t, q)
  {
  }

  ghost predicate LabelsOf(labels: map<Node, string>, queues: set<Node>, t: Forest, names: map<Node, Name>,
                           included: seq<Name> -> bool, render: seq<Name> -> string)
  {
    labels == map q | q in queues && included(Path(t, names, q)) :: render(Path(t, names, q))
  }
}
