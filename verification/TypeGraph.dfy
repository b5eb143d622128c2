/** Whether msgspec understands a type natively: a worklist search of a type graph that may be cyclic. */
module TypeGraph {
  /** A node is its index in the graph, standing for `id(node)`. */
  type Node = nat

  datatype Item = TypeItem(t: Node) | FieldItem(t: Node) | Neither

  /** What one struct field of an inspected type holds. */
  datatype Value = TypeValue(t: Node) | Items(items: seq<Item>) | Scalar

  datatype Info = Custom(fields: seq<Value>) | Native(fields: seq<Value>)

  predicate Inside(n: nat, value: Value) {
    && (value.TypeValue? ==> value.t < n)
    && (value.Items? ==> forall i :: 0 <= i < |value.items| && !value.items[i].Neither? ==> value.items[i].t < n)
  }

  predicate Closed(g: seq<Info>) {
    forall k, f :: 0 <= k < |g| && 0 <= f < |g[k].fields| ==> Inside(|g|, g[k].fields[f])
  }

  type Graph = g: seq<Info> | Closed(g)

  // ---- children ----

  predicate HasItem(items: seq<Item>, child: Node) {
    exists i :: 0 <= i < |items| && !items[i].Neither? && items[i].t == child
  }

  predicate Holds(value: Value, child: Node) {
    value == TypeValue(child) || (value.Items? && HasItem(value.items, child))
  }

  /** `child` is the type of some field, or of some item of a tuple field. */
  predicate Edge(fields: seq<Value>, child: Node) {
    exists f :: 0 <= f < |fields| && Holds(fields[f], child)
  }

  /** `_child_types`: exactly the nested types. */
  method ChildTypes(g: Graph, node: Node) returns (children: seq<Node>)
    requires node < |g|
    ensures forall c :: c in children <==> Edge(g[node].fields, c)
  {
    var fields := g[node].fields;
    children := [];
    for f := 0 to |fields|
      invariant forall c :: c in children <==> Edge(fields[..f], c)
    {
      ghost var before := children;
      var value := fields[f];
      match value {
        case TypeValue(t) => children := children + [t];
        case Scalar =>
        case Items(items) =>
          for i := 0 to |items|
            invariant forall c :: c in children <==> c in before || HasItem(items[..i], c)
          {
            if !items[i].Neither? {
              children := children + [items[i].t];
            }
            forall c ensures HasItem(items[..i + 1], c) <==> HasItem(items[..i], c) || (!items[i].Neither? && items[i].t == c) {
              ItemsExtend(items, i, c);
            }
          }
          assert items[..|items|] == items;
      }
      forall c ensures Edge(fields[..f + 1], c) <==> Edge(fields[..f], c) || Holds(fields[f], c) {
        FieldsExtend(fields, f, c);
      }
    }
    assert fields[..|fields|] == fields;
  }

  lemma ItemsExtend(items: seq<Item>, i: nat, c: Node)
    requires i < |items|
    ensures HasItem(items[..i + 1], c) <==> HasItem(items[..i], c) || (!items[i].Neither? && items[i].t == c)
  {
    var longer := items[..i + 1];
    if HasItem(items[..i], c) {
      var j :| 0 <= j < i && !items[j].Neither? && items[j].t == c;
      assert longer[j] == items[j];
    }
    if !items[i].Neither? && items[i].t == c {
      assert longer[i] == items[i];
    }
  }

  lemma FieldsExtend(fields: seq<Value>, f: nat, c: Node)
    requires f < |fields|
    ensures Edge(fields[..f + 1], c) <==> Edge(fields[..f], c) || Holds(fields[f], c)
  {
    var longer := fields[..f + 1];
    if Edge(fields[..f], c) {
      var j :| 0 <= j < f && Holds(fields[j], c);
      assert longer[j] == fields[j];
    }
    if Holds(fields[f], c) {
      assert longer[f] == fields[f];
    }
  }

  // ---- reachability ----

  /** `path` leads from its first node to its last along edges. */
  ghost predicate Path(g: Graph, path: seq<Node>) {
    && |path| > 0
    && (forall k :: 0 <= k < |path| ==> path[k] < |g|)
    && forall k :: 0 <= k < |path| - 1 ==> Edge(g[path[k]].fields, path[k + 1])
  }

  ghost predicate Reaches(g: Graph, root: Node, goal: Node) {
    exists path :: Path(g, path) && path[0] == root && path[|path| - 1] == goal
  }

  ghost predicate CustomReachable(g: Graph, root: Node) {
    exists goal :: 0 <= goal < |g| && g[goal].Custom? && Reaches(g, root, goal)
  }

  lemma ReachesSelf(g: Graph, node: Node)
    requires node < |g|
    ensures Reaches(g, node, node)
  {
    assert Path(g, [node]);
  }

  lemma ReachesOn(g: Graph, root: Node, node: Node, child: Node)
    requires Reaches(g, root, node) && child < |g| && Edge(g[node].fields, child)
    ensures Reaches(g, root, child)
  {
    var path :| Path(g, path) && path[0] == root && path[|path| - 1] == node;
    assert Path(g, path + [child]);
  }

  /** Visited nodes are not custom, and their children are visited or waiting. */
  ghost predicate Frontier(g: Graph, seen: set<Node>, stack: seq<Node>) {
    forall n :: n in seen ==> n < |g| && !g[n].Custom? && forall c :: Edge(g[n].fields, c) ==> c in seen || c in stack
  }

  /** With nothing waiting, a path from a visited node never leaves the visited ones. */
  lemma {:induction false} StaysSeen(g: Graph, seen: set<Node>, path: seq<Node>)
    requires Frontier(g, seen, []) && Path(g, path) && path[0] in seen
    ensures path[|path| - 1] in seen
  {
    if |path| > 1 {
      assert Edge(g[path[0]].fields, path[1]);
      forall k | 0 <= k < |path| - 2
        ensures Edge(g[path[1..][k]].fields, path[1..][k + 1])
      {
        assert Edge(g[path[k + 1]].fields, path[k + 2]);
      }
      StaysSeen(g, seen, path[1..]);
    }
  }

  lemma EdgeInside(g: Graph, node: Node, child: Node)
    requires node < |g| && Edge(g[node].fields, child)
    ensures child < |g|
  {
    var f :| 0 <= f < |g[node].fields| && Holds(g[node].fields[f], child);
    assert Inside(|g|, g[node].fields[f]);
  }

  function Below(n: nat): (s: set<Node>)
    ensures forall k: Node :: k in s <==> k < n
  {
    if n == 0 then {} else Below(n - 1) + {n - 1}
  }

  /** Everything met so far can be reached. */
  ghost predicate Met(g: Graph, root: Node, seen: set<Node>, stack: seq<Node>) {
    && (forall n :: n in seen ==> n < |g| && Reaches(g, root, n))
    && (forall n :: n in stack ==> n < |g| && Reaches(g, root, n))
    && (root in seen || root in stack)
  }

  lemma Popped(g: Graph, root: Node, seen: set<Node>, rest: seq<Node>, node: Node)
    requires Frontier(g, seen, rest + [node]) && Met(g, root, seen, rest + [node])
    ensures node < |g| && Reaches(g, root, node)
    ensures node in seen ==> Frontier(g, seen, rest) && Met(g, root, seen, rest)
  {
    hide Reaches, Edge;
    assert node in rest + [node];
    forall n | n in rest
      ensures n in rest + [node]
    {
    }
  }

  lemma Visited(g: Graph, root: Node, seen: set<Node>, rest: seq<Node>, node: Node, children: seq<Node>)
    requires Frontier(g, seen, rest + [node]) && Met(g, root, seen, rest + [node]) && node < |g| && !g[node].Custom?
    requires forall c :: c in children <==> Edge(g[node].fields, c)
    ensures Frontier(g, seen + {node}, rest + children) && Met(g, root, seen + {node}, rest + children)
  {
    Popped(g, root, seen, rest, node);
    forall c | c in children
      ensures c < |g| && Reaches(g, root, c)
    {
      EdgeInside(g, node, c);
      ReachesOn(g, root, node, c);
    }
    hide Reaches, Edge;
    forall n | n in rest + children
      ensures n < |g| && Reaches(g, root, n)
    {
      assert n in rest ==> n in rest + [node];
    }
  }

  /** With nothing waiting, everything reachable was met, and none of it is custom. */
  lemma Exhausted(g: Graph, root: Node, seen: set<Node>)
    requires Frontier(g, seen, []) && Met(g, root, seen, [])
    ensures !CustomReachable(g, root)
  {
    forall goal | 0 <= goal < |g| && Reaches(g, root, goal)
      ensures !g[goal].Custom?
    {
      var path :| Path(g, path) && path[0] == root && path[|path| - 1] == goal;
      StaysSeen(g, seen, path);
    }
  }

  /**
    `_is_native`: true exactly when no custom type is reachable. A node may wait on the stack
    many times over, but its children are pushed once, so the search ends on every graph.
   */
  method IsNative(g: Graph, root: Node) returns (native: bool)
    requires root < |g|
    ensures native <==> !CustomReachable(g, root)
  {
    var seen: set<Node> := {};
    var stack: seq<Node> := [root];
    ReachesSelf(g, root);
    hide Frontier, Met, Reaches, Edge;
    assert Frontier(g, seen, stack) && Met(g, root, seen, stack);
    while stack != []
      invariant Frontier(g, seen, stack) && Met(g, root, seen, stack)
      decreases |Below(|g|) - seen|, |stack|
    {
      var node, rest := stack[|stack| - 1], stack[..|stack| - 1];
      assert stack == rest + [node];
      Popped(g, root, seen, rest, node);
      stack := rest;
      if g[node].Custom? {
        return false;
      }
      if node in seen {
        continue;
      }
      var children := ChildTypes(g, node);
      Visited(g, root, seen, rest, node, children);
      ghost var unseen := Below(|g|) - seen;
      seen := seen + {node};
      assert Below(|g|) - seen == unseen - {node};
      stack := stack + children;
    }
    Exhausted(g, root, seen);
    return true;
  }
}
