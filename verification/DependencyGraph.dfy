/** The dependency graph of `cargo tree` output, searched breadth first and depth first. */
module DependencyGraph {
  import opened Wrappers

  type Node = string

  /** Children with the kind of each edge: `normal` or `build`. */
  type Edges = map<Node, set<(Node, string)>>

  /** The name of a node is its text up to the first space. */
  function NameOf(node: Node): (name: string)
    ensures name <= node && ' ' !in name
    ensures name == node || node[|name|] == ' '
  {
    if node == [] || node[0] == ' ' then [] else [node[0]] + NameOf(node[1..])
  }

  function Succ(e: Edges, n: Node): set<Node> {
    if n in e then set c | c in e[n] :: c.0 else {}
  }

  ghost predicate IsPath(e: Edges, p: seq<Node>) {
    p != [] && forall i :: 0 <= i < |p| - 1 ==> p[i + 1] in Succ(e, p[i])
  }

  ghost predicate PathBetween(e: Edges, a: Node, b: Node, p: seq<Node>) {
    IsPath(e, p) && p[0] == a && p[|p| - 1] == b
  }

  ghost predicate Reachable(e: Edges, a: Node, b: Node) {
    exists p :: PathBetween(e, a, b, p)
  }

  function Names(p: seq<Node>): (names: seq<string>)
    ensures |names| == |p|
  {
    if p == [] then [] else [NameOf(p[0])] + Names(p[1..])
  }

  /** Any kind of edge leads on. */
  lemma AnyKindLeadsOn(e: Edges, n: Node, child: Node)
    ensures child in Succ(e, n) <==> n in e && exists kind :: (child, kind) in e[n]
  {
    if n in e && child in Succ(e, n) {
      var c :| c in e[n] && c.0 == child;
      assert (child, c.1) in e[n];
    }
    if n in e && exists kind :: (child, kind) in e[n] {
      var kind :| (child, kind) in e[n];
      assert (child, kind).0 == child;
    }
  }

  /** Every node the edges mention. */
  function AllNodes(e: Edges): set<Node> {
    e.Keys + set n, c | n in e && c in e[n] :: c.0
  }

  lemma SuccInAllNodes(e: Edges, n: Node)
    ensures Succ(e, n) <= AllNodes(e)
  {
  }

  // ---- breadth-first search ----

  ghost predicate Distinct(q: seq<Node>) {
    forall i, j :: 0 <= i < j < |q| ==> q[i] != q[j]
  }

  /** Every found node but the root was reached by an edge from a node one step nearer. */
  ghost predicate TreeOk(e: Edges, root: Node, prev: map<Node, Option<Node>>, dist: map<Node, nat>) {
    && dist.Keys == prev.Keys && root in prev && dist[root] == 0
    && (forall x :: x in prev ==> (prev[x] == None <==> x == root))
    && (forall x :: x in prev && prev[x].Some? ==>
          prev[x].value in prev && x in Succ(e, prev[x].value) && dist[x] == dist[prev[x].value] + 1)
  }

  /** The queue holds the found nodes that are not done, each once. */
  ghost predicate QueueHolds(queue: seq<Node>, found: set<Node>, done: set<Node>) {
    && Distinct(queue) && done <= found
    && (forall x :: x in found <==> x in done || x in queue)
    && (forall i :: 0 <= i < |queue| ==> queue[i] in found && queue[i] !in done)
  }

  /** The queue is in order of distance, within one step, and nothing done is further than its front. */
  ghost predicate QueueSorted(queue: seq<Node>, dist: map<Node, nat>, done: set<Node>) {
    && (forall i :: 0 <= i < |queue| ==> queue[i] in dist)
    && (forall i, j :: 0 <= i < j < |queue| ==> dist[queue[i]] <= dist[queue[j]])
    && (forall i :: 0 <= i < |queue| ==> dist[queue[i]] <= dist[queue[0]] + 1)
    && (queue != [] ==> forall u :: u in done && u in dist ==> dist[u] <= dist[queue[0]])
  }

  ghost predicate QueueOk(queue: seq<Node>, dist: map<Node, nat>, done: set<Node>) {
    QueueHolds(queue, dist.Keys, done) && QueueSorted(queue, dist, done)
  }

  /** The children of a done node are found, at most one step further. */
  ghost predicate DoneOk(e: Edges, dist: map<Node, nat>, done: set<Node>) {
    forall u, v {:trigger u in done, v in Succ(e, u)} :: u in done && v in Succ(e, u) ==> u in dist && v in dist && dist[v] <= dist[u] + 1
  }

  /** What holds of the search between two looks at the queue. */
  ghost predicate SearchOk(e: Edges, root: Node, prev: map<Node, Option<Node>>, queue: seq<Node>, dist: map<Node, nat>,
                           done: set<Node>)
  {
    TreeOk(e, root, prev, dist) && QueueOk(queue, dist, done) && DoneOk(e, dist, done)
  }

  lemma ChildIsHeld(queue: seq<Node>, dist: map<Node, nat>, done: set<Node>, child: Node, d: nat)
    requires QueueHolds(queue, dist.Keys, done) && child !in dist
    ensures QueueHolds(queue + [child], dist[child := d].Keys, done)
  {
  }

  lemma ChildIsLast(queue: seq<Node>, dist: map<Node, nat>, done: set<Node>, child: Node)
    requires queue != [] && QueueSorted(queue, dist, done) && child !in dist && child !in done
    ensures QueueSorted(queue + [child], dist[child := dist[queue[0]] + 1], done)
  {
  }

  lemma ChildIsLinked(e: Edges, root: Node, prev: map<Node, Option<Node>>, dist: map<Node, nat>, cur: Node, child: Node)
    requires TreeOk(e, root, prev, dist) && cur in prev && child in Succ(e, cur) && child !in prev
    ensures TreeOk(e, root, prev[child := Some(cur)], dist[child := dist[cur] + 1])
  {
  }

  lemma ChildKeepsDone(e: Edges, dist: map<Node, nat>, done: set<Node>, child: Node, d: nat)
    requires DoneOk(e, dist, done) && child !in dist
    ensures DoneOk(e, dist[child := d], done)
  {
  }

  lemma SearchFacts(e: Edges, root: Node, prev: map<Node, Option<Node>>, queue: seq<Node>, dist: map<Node, nat>,
                    done: set<Node>, child: Node)
    requires queue != [] && SearchOk(e, root, prev, queue, dist, done) && child !in prev
    ensures queue[0] in dist && queue[0] in prev && child !in dist && child !in done
  {
  }

  /** A new child of the front node is put at the end of the queue. */
  lemma FoundChild(e: Edges, root: Node, prev: map<Node, Option<Node>>, queue: seq<Node>, dist: map<Node, nat>,
                   done: set<Node>, child: Node)
    requires queue != [] && SearchOk(e, root, prev, queue, dist, done)
    requires child in Succ(e, queue[0]) && child !in prev
    ensures queue[0] in dist
    ensures SearchOk(e, root, prev[child := Some(queue[0])], queue + [child], dist[child := dist[queue[0]] + 1], done)
  {
    hide QueueHolds, QueueSorted, TreeOk, DoneOk, Succ;
    SearchFacts(e, root, prev, queue, dist, done, child);
    ChildIsHeld(queue, dist, done, child, dist[queue[0]] + 1);
    ChildIsLast(queue, dist, done, child);
    ChildIsLinked(e, root, prev, dist, queue[0], child);
    ChildKeepsDone(e, dist, done, child, dist[queue[0]] + 1);
  }

  /** Of the children of the front node, only `todo` may not be found yet. */
  ghost predicate Expanding(e: Edges, root: Node, prev: map<Node, Option<Node>>, queue: seq<Node>, dist: map<Node, nat>,
                            done: set<Node>, todo: set<Node>)
  {
    && queue != [] && queue[0] in dist && SearchOk(e, root, prev, queue, dist, done)
    && todo <= Succ(e, queue[0]) <= prev.Keys + todo && prev.Keys <= AllNodes(e) + {root}
  }

  lemma ExpandBegins(e: Edges, root: Node, prev: map<Node, Option<Node>>, queue: seq<Node>, dist: map<Node, nat>,
                     done: set<Node>)
    requires queue != [] && SearchOk(e, root, prev, queue, dist, done) && prev.Keys <= AllNodes(e) + {root}
    ensures Expanding(e, root, prev, queue, dist, done, Succ(e, queue[0]))
  {
  }

  lemma ExpandEnds(e: Edges, root: Node, prev: map<Node, Option<Node>>, queue: seq<Node>, dist: map<Node, nat>, done: set<Node>)
    requires Expanding(e, root, prev, queue, dist, done, {})
    ensures queue != [] && SearchOk(e, root, prev, queue, dist, done)
    ensures Succ(e, queue[0]) <= prev.Keys <= AllNodes(e) + {root}
  {
  }

  lemma ChildIsQueued(e: Edges, root: Node, prev: map<Node, Option<Node>>, queue: seq<Node>, dist: map<Node, nat>,
                      done: set<Node>, todo: set<Node>, child: Node)
    requires Expanding(e, root, prev, queue, dist, done, todo) && child in todo && child !in prev
    ensures queue[0] in dist
    ensures Expanding(e, root, prev[child := Some(queue[0])], queue + [child], dist[child := dist[queue[0]] + 1], done,
                      todo - {child})
  {
    FoundChild(e, root, prev, queue, dist, done, child);
    SuccInAllNodes(e, queue[0]);
    hide SearchOk, Succ, AllNodes;
    assert prev[child := Some(queue[0])].Keys == prev.Keys + {child};
  }

  lemma ChildIsKnown(e: Edges, root: Node, prev: map<Node, Option<Node>>, queue: seq<Node>, dist: map<Node, nat>,
                     done: set<Node>, todo: set<Node>, child: Node)
    requires Expanding(e, root, prev, queue, dist, done, todo) && child in todo && child in prev
    ensures Expanding(e, root, prev, queue, dist, done, todo - {child})
  {
    hide SearchOk, Succ, AllNodes;
  }

  lemma FrontIsHeld(queue: seq<Node>, found: set<Node>, done: set<Node>)
    requires queue != [] && QueueHolds(queue, found, done)
    ensures QueueHolds(queue[1..], found, done + {queue[0]})
  {
  }

  lemma FrontIsNearest(queue: seq<Node>, dist: map<Node, nat>, done: set<Node>)
    requires queue != [] && QueueSorted(queue, dist, done)
    ensures QueueSorted(queue[1..], dist, done + {queue[0]})
  {
  }

  lemma ChildrenAreNear(e: Edges, queue: seq<Node>, dist: map<Node, nat>, done: set<Node>)
    requires queue != [] && QueueOk(queue, dist, done) && DoneOk(e, dist, done) && Succ(e, queue[0]) <= dist.Keys
    ensures DoneOk(e, dist, done + {queue[0]})
  {
  }

  /** Once all its children are found, the front node is done. */
  lemma FrontIsDone(e: Edges, root: Node, prev: map<Node, Option<Node>>, queue: seq<Node>, dist: map<Node, nat>,
                    done: set<Node>)
    requires queue != [] && TreeOk(e, root, prev, dist) && QueueOk(queue, dist, done) && DoneOk(e, dist, done)
    requires forall v :: v in Succ(e, queue[0]) ==> v in prev
    ensures QueueOk(queue[1..], dist, done + {queue[0]}) && DoneOk(e, dist, done + {queue[0]})
  {
    FrontIsHeld(queue, dist.Keys, done);
    FrontIsNearest(queue, dist, done);
    ChildrenAreNear(e, queue, dist, done);
    hide QueueHolds, QueueSorted, TreeOk;
  }

  /** A path from the root is followed by the search: its end is found in time, or some node of it still waits. */
  lemma {:induction false} SearchFollows(e: Edges, root: Node, prev: map<Node, Option<Node>>, queue: seq<Node>,
                                         dist: map<Node, nat>, done: set<Node>, p: seq<Node>)
    requires TreeOk(e, root, prev, dist) && QueueOk(queue, dist, done) && DoneOk(e, dist, done)
    requires IsPath(e, p) && p[0] == root
    ensures || (p[|p| - 1] in dist && dist[p[|p| - 1]] <= |p| - 1)
            || exists x :: x in queue && x in dist && dist[x] <= |p| - 1
  {
    if |p| > 1 {
      var k := |p| - 1;
      var front := p[..k];
      assert IsPath(e, front) by {
        forall i | 0 <= i < |front| - 1 ensures front[i + 1] in Succ(e, front[i]) {
          assert p[i + 1] in Succ(e, p[i]);
        }
      }
      SearchFollows(e, root, prev, queue, dist, done, front);
      assert p[k - 1 + 1] in Succ(e, p[k - 1]);
      if p[k - 1] in dist && dist[p[k - 1]] <= k - 1 && p[k - 1] in done {
        assert p[k] in dist && dist[p[k]] <= dist[p[k - 1]] + 1;
      }
    }
  }

  /** Nothing waits nearer than the front of the queue, so its distance is the least. */
  lemma FrontIsShortest(e: Edges, root: Node, prev: map<Node, Option<Node>>, queue: seq<Node>, dist: map<Node, nat>,
                        done: set<Node>, p: seq<Node>)
    requires queue != [] && TreeOk(e, root, prev, dist) && QueueOk(queue, dist, done) && DoneOk(e, dist, done)
    requires PathBetween(e, root, queue[0], p)
    ensures dist[queue[0]] + 1 <= |p|
  {
    SearchFollows(e, root, prev, queue, dist, done, p);
    if x :| x in queue && x in dist && dist[x] <= |p| - 1 {
      var i :| 0 <= i < |queue| && queue[i] == x;
      assert i > 0 ==> dist[queue[0]] <= dist[queue[i]];
    }
  }

  /** An exhausted search has found everything reachable. */
  lemma ExhaustedFindsAll(e: Edges, root: Node, prev: map<Node, Option<Node>>, dist: map<Node, nat>, done: set<Node>,
                          p: seq<Node>)
    requires TreeOk(e, root, prev, dist) && QueueOk([], dist, done) && DoneOk(e, dist, done)
    requires IsPath(e, p) && p[0] == root
    ensures p[|p| - 1] in prev
  {
    SearchFollows(e, root, prev, [], dist, done, p);
  }

  class Graph {
    const root: Node
    var parents: Edges
    var children: Edges

    constructor (root: Node)
      ensures this.root == root && parents == map[] && children == map[]
    {
      this.root, parents, children := root, map[], map[];
    }

    /** Add an edge; both ends become nodes of the graph. */
    method Add(parent: Node, child: Node, kind: string)
      modifies this
      ensures forall n, c, k :: n in children && (c, k) in children[n] <==>
                (n in old(children) && (c, k) in old(children)[n]) || (n, c, k) == (parent, child, kind)
      ensures forall n, p, k :: n in parents && (p, k) in parents[n] <==>
                (n in old(parents) && (p, k) in old(parents)[n]) || (n, p, k) == (child, parent, kind)
      ensures children.Keys == old(children).Keys + {parent, child}
    {
      var down := if parent in children then children[parent] else {};
      children := children[parent := down + {(child, kind)}];
      var up := if child in parents then parents[child] else {};
      parents := parents[child := up + {(parent, kind)}];
      if child !in children {
        children := children[child := {}];
      }
    }

    /**
     The names along a shortest path from the root to `node`; for a node that
     cannot be reached, its own name alone.
     */
    method PathTo(node: Node) returns (chain: seq<string>)
      ensures Reachable(children, root, node) ==>
                exists p :: PathBetween(children, root, node, p) && chain == Names(p)
      ensures forall p :: PathBetween(children, root, node, p) ==> |chain| <= |p|
      ensures !Reachable(children, root, node) ==> chain == [NameOf(node)]
    {
      var prev, dist := Search(node);
      chain := Walk(prev, dist, node);
    }

    /** Search breadth first until `node` comes up or nothing is left. */
    method Search(node: Node) returns (prev: map<Node, Option<Node>>, ghost dist: map<Node, nat>)
      ensures TreeOk(children, root, prev, dist)
      ensures node in prev ==> forall p :: PathBetween(children, root, node, p) ==> dist[node] + 1 <= |p|
      ensures node !in prev ==> !Reachable(children, root, node)
    {
      prev := map[root := None];
      dist := map[root := 0];
      var queue := [root];
      ghost var done: set<Node> := {};
      while queue != []
        invariant TreeOk(children, root, prev, dist) && QueueOk(queue, dist, done) && DoneOk(children, dist, done)
        invariant node !in done && prev.Keys <= AllNodes(children) + {root}
        decreases AllNodes(children) + {root} - done
      {
        var cur := queue[0];
        if cur == node {
          forall p | PathBetween(children, root, node, p) ensures dist[node] + 1 <= |p| {
            FrontIsShortest(children, root, prev, queue, dist, done, p);
          }
          return;
        }
        prev, queue, dist := Expand(prev, queue, dist, done);
        FrontIsDone(children, root, prev, queue, dist, done);
        queue := queue[1..];
        done := done + {cur};
      }
      if Reachable(children, root, node) {
        ghost var p :| PathBetween(children, root, node, p);
        ExhaustedFindsAll(children, root, prev, dist, done, p);
      }
    }

    /** Queue the children of the front node that were not found yet, in whatever order. */
    method Expand(prev: map<Node, Option<Node>>, queue: seq<Node>, ghost dist: map<Node, nat>, ghost done: set<Node>)
      returns (prev': map<Node, Option<Node>>, queue': seq<Node>, ghost dist': map<Node, nat>)
      requires queue != [] && SearchOk(children, root, prev, queue, dist, done)
      requires prev.Keys <= AllNodes(children) + {root}
      ensures queue' != [] && queue'[0] == queue[0] && SearchOk(children, root, prev', queue', dist', done)
      ensures Succ(children, queue[0]) <= prev'.Keys <= AllNodes(children) + {root}
    {
      hide Expanding, SearchOk, Succ, AllNodes;
      prev', queue', dist' := prev, queue, dist;
      var todo := Succ(children, queue[0]);
      ExpandBegins(children, root, prev, queue, dist, done);
      while todo != {}
        invariant queue' != [] && queue'[0] == queue[0] && Expanding(children, root, prev', queue', dist', done, todo)
        decreases todo
      {
        var child :| child in todo;
        if child in prev' {
          ChildIsKnown(children, root, prev', queue', dist', done, todo, child);
        } else {
          ChildIsQueued(children, root, prev', queue', dist', done, todo, child);
          prev' := prev'[child := Some(queue[0])];
          dist' := dist'[child := dist'[queue[0]] + 1];
          queue' := queue' + [child];
        }
        todo := todo - {child};
      }
      ExpandEnds(children, root, prev', queue', dist', done);
    }

    /** Walk back from `node` along the links of the search. */
    method Walk(prev: map<Node, Option<Node>>, ghost dist: map<Node, nat>, node: Node)
      returns (chain: seq<string>)
      requires TreeOk(children, root, prev, dist)
      ensures node in prev ==> exists p :: PathBetween(children, root, node, p) && chain == Names(p)
      ensures node in prev ==> |chain| == dist[node] + 1
      ensures node !in prev ==> chain == [NameOf(node)]
    {
      ghost var path := [node];
      chain := [NameOf(node)];
      var cur := if node in prev then prev[node] else None;
      while cur.Some?
        invariant node in prev ==> IsPath(children, path) && path[|path| - 1] == node && path[0] in prev
        invariant node in prev ==> cur == prev[path[0]] && |path| + dist[path[0]] == dist[node] + 1
        invariant node !in prev ==> cur == None && path == [node]
        invariant path != [] && chain == Names(path)
        decreases if node in prev then dist[path[0]] else 0
      {
        assert path[0] in Succ(children, cur.value);
        chain := [NameOf(cur.value)] + chain;
        path := [cur.value] + path;
        cur := prev[cur.value];
      }
      assert node in prev ==> PathBetween(children, root, node, path);
    }

    /** Whether a node named `target` can be reached from `start`, searched depth first. */
    method Reaches(start: Node, target: string) returns (found: bool)
      ensures found <==> exists n :: Reachable(children, start, n) && NameOf(n) == target
    {
      var seen := {start};
      var stack := [start];
      ghost var done: set<Node> := {};
      assert PathBetween(children, start, start, [start]);
      while stack != []
        invariant start in seen && done <= seen <= AllNodes(children) + {start}
        invariant forall x :: x in seen <==> x in done || x in stack
        invariant forall i :: 0 <= i < |stack| ==> stack[i] !in done
        invariant Distinct(stack)
        invariant forall x :: x in seen ==> Reachable(children, start, x)
        invariant forall x :: x in done ==> NameOf(x) != target && Succ(children, x) <= seen
        decreases AllNodes(children) + {start} - done
      {
        var cur := stack[|stack| - 1];
        if NameOf(cur) == target {
          return true;
        }
        ghost var below := stack[..|stack| - 1];
        assert stack == below + [cur];
        stack := stack[..|stack| - 1];
        seen, stack := Push(cur, seen, stack, start, done);
        done := done + {cur};
      }
      forall n | Reachable(children, start, n) ensures NameOf(n) != target {
        var p :| PathBetween(children, start, n, p);
        ClosedContains(children, done, p);
      }
      return false;
    }

    /** Push the children of `cur` that were not seen yet, in whatever order. */
    method Push(cur: Node, seen: set<Node>, stack: seq<Node>, ghost start: Node, ghost done: set<Node>)
      returns (seen': set<Node>, stack': seq<Node>)
      requires cur in seen && cur !in stack && cur !in done && seen <= AllNodes(children) + {start}
      requires forall x :: x in seen <==> x in done || x in stack || x == cur
      requires forall i :: 0 <= i < |stack| ==> stack[i] !in done
      requires Distinct(stack) && forall x :: x in seen ==> Reachable(children, start, x)
      ensures seen <= seen' <= AllNodes(children) + {start} && Succ(children, cur) <= seen'
      ensures forall x :: x in seen' <==> x in done || x in stack' || x == cur
      ensures forall i :: 0 <= i < |stack'| ==> stack'[i] !in done && stack'[i] != cur
      ensures Distinct(stack') && forall x :: x in seen' ==> Reachable(children, start, x)
    {
      seen', stack' := seen, stack;
      SuccInAllNodes(children, cur);
      var todo := Succ(children, cur);
      while todo != {}
        invariant todo <= Succ(children, cur)
        invariant seen <= seen' <= AllNodes(children) + {start} && Succ(children, cur) <= seen' + todo
        invariant forall x :: x in seen' <==> x in done || x in stack' || x == cur
        invariant forall i :: 0 <= i < |stack'| ==> stack'[i] !in done && stack'[i] != cur
        invariant Distinct(stack') && forall x :: x in seen' ==> Reachable(children, start, x)
        decreases todo
      {
        var child :| child in todo;
        todo := todo - {child};
        if child !in seen' {
          ReachStep(children, start, cur, child);
          seen' := seen' + {child};
          stack' := stack' + [child];
        }
      }
    }
  }

  lemma ReachStep(e: Edges, a: Node, b: Node, c: Node)
    requires Reachable(e, a, b) && c in Succ(e, b)
    ensures Reachable(e, a, c)
  {
    var p :| PathBetween(e, a, b, p);
    var q := p + [c];
    forall i | 0 <= i < |q| - 1 ensures q[i + 1] in Succ(e, q[i]) {
      assert i < |p| - 1 ==> p[i + 1] in Succ(e, p[i]);
    }
    assert PathBetween(e, a, c, q);
  }

  /** A set closed under successors contains every path that starts in it. */
  lemma {:induction false} ClosedContains(e: Edges, done: set<Node>, p: seq<Node>)
    requires IsPath(e, p) && p[0] in done && forall x :: x in done ==> Succ(e, x) <= done
    ensures p[|p| - 1] in done
    decreases |p|
  {
    if |p| > 1 {
      assert p[0 + 1] in Succ(e, p[0]);
      assert IsPath(e, p[1..]) by {
        forall i | 0 <= i < |p[1..]| - 1 ensures p[1..][i + 1] in Succ(e, p[1..][i]) {
          assert p[i + 1 + 1] in Succ(e, p[i + 1]);
        }
      }
      ClosedContains(e, done, p[1..]);
    }
  }
}
