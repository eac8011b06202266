/** Cycle detection over the dependency graph: job -> upstream jobs. */
module Dag {
  import opened Core

  type Graph = map<JobId, seq<JobId>>

  ghost predicate Edge(adj: Graph, a: JobId, b: JobId) {
    a in adj && b in adj[a]
  }

  /** A walk along dependency edges; one node on its own is a walk. */
  ghost predicate IsWalk(adj: Graph, p: seq<JobId>) {
    |p| > 0 && forall i :: 0 <= i < |p| - 1 ==> Edge(adj, p[i], p[i + 1])
  }

  /** `p` leaves `n` and comes back to it. */
  ghost predicate IsCycleAt(adj: Graph, n: JobId, p: seq<JobId>) {
    IsWalk(adj, p) && |p| > 1 && p[0] == n && p[|p| - 1] == n
  }

  ghost predicate OnCycle(adj: Graph, n: JobId) {
    exists p :: IsCycleAt(adj, n, p)
  }

  ghost predicate Cyclic(adj: Graph) {
    exists n :: OnCycle(adj, n)
  }

  /** Keys and edge targets: a target need not be a key. */
  ghost function Nodes(adj: Graph): set<JobId> {
    adj.Keys + set n, i | n in adj && 0 <= i < |adj[n]| :: adj[n][i]
  }

  ghost function Elements(s: seq<JobId>): set<JobId> {
    set x | x in s
  }

  /** No repeats, and every upstream of a listed job is listed before it. */
  ghost predicate TopologicalOrder(adj: Graph, order: seq<JobId>) {
    && (forall i, j :: 0 <= i < j < |order| ==> order[i] != order[j])
    && (forall i, b :: 0 <= i < |order| && Edge(adj, order[i], b) ==> b in order[..i])
  }

  /** The search behind `HasCycle`: two node sets filled in while it recurses. */
  class CycleSearch {
    const adj: Graph
    var visiting: set<JobId>
    var visited: set<JobId>
    ghost var order: seq<JobId>  // the order in which nodes entered `visited`

    constructor (adj: Graph)
      ensures this.adj == adj && visiting == {} && order == [] && Valid([])
    {
      this.adj := adj;
      visiting, visited, order := {}, {}, [];
    }

    /** `stack` is the chain of calls in progress: a walk through `visiting`. */
    ghost predicate Valid(stack: seq<JobId>)
      reads this
    {
      && visiting == Elements(stack)
      && visited == Elements(order)
      && visiting !! visited
      && (stack != [] ==> IsWalk(adj, stack))
      && visiting <= Nodes(adj) && visited <= Nodes(adj)
      && TopologicalOrder(adj, order)
    }

    method Dfs(node: JobId, ghost stack: seq<JobId>) returns (r: Option<JobId>)
      requires Valid(stack) && node in Nodes(adj)
      requires stack != [] ==> Edge(adj, stack[|stack| - 1], node)
      modifies this
      ensures r.Some? ==> OnCycle(adj, r.value)
      ensures r.None? ==> Valid(stack) && visiting == old(visiting)
      ensures r.None? ==> node in visited && old(order) <= order
      ensures old(visited) <= visited
      decreases Nodes(adj) - visiting
    {
      if node in visiting {
        BackEdgeClosesCycle(adj, stack, node);
        return Some(node);
      }
      if node in visited {
        return None;
      }
      ghost var stack' := stack + [node];
      ghost var before := visiting;
      visiting := visiting + {node};
      if node in adj {
        var deps := adj[node];
        var i := 0;
        while i < |deps|
          invariant 0 <= i <= |deps|
          invariant Valid(stack')
          invariant visiting == before + {node}
          invariant old(order) <= order
          invariant old(visited) <= visited
          invariant forall k :: 0 <= k < i ==> deps[k] in visited
        {
          var c := Dfs(deps[i], stack');
          if c.Some? {
            return c;
          }
          i := i + 1;
        }
      }
      AppendKeepsTopologicalOrder(adj, order, node);
      visiting := visiting - {node};
      visited := visited + {node};
      order := order + [node];
      assert visiting == before;
      return None;
    }
  }

  /**
   * Finds a job on a dependency cycle, visiting the keys in whatever order the
   * hash map yields them.
   */
  method HasCycle(adj: Graph) returns (r: Option<JobId>, ghost order: seq<JobId>)
    ensures r.Some? <==> Cyclic(adj)
    ensures r.Some? ==> OnCycle(adj, r.value)
    ensures r.None? ==> TopologicalOrder(adj, order) && Elements(order) == Nodes(adj)
  {
    var search := new CycleSearch(adj);
    order := [];
    var rest := adj.Keys;
    while rest != {}
      invariant rest <= adj.Keys
      invariant fresh(search) && search.adj == adj
      invariant search.Valid([])
      invariant adj.Keys - rest <= search.visited
    {
      var node :| node in rest;
      rest := rest - {node};
      if node in search.visited {
        continue;
      }
      var cyc := search.Dfs(node, []);
      if cyc.Some? {
        return cyc, order;
      }
    }
    order := search.order;
    forall n | n in Nodes(adj)
      ensures n in order
    {
      if n !in adj {
        var k, i :| k in adj && 0 <= i < |adj[k]| && adj[k][i] == n;
        assert k in search.visited;
        var at :| 0 <= at < |order| && order[at] == k;
        assert Edge(adj, order[at], n) && n in order[..at];
      } else {
        assert n in adj.Keys - rest;
      }
    }
    TopologicalOrderIsAcyclic(adj, order);
    return None, order;
  }

  /** A job goes at the end once all of its upstream jobs are listed. */
  lemma AppendKeepsTopologicalOrder(adj: Graph, order: seq<JobId>, node: JobId)
    requires TopologicalOrder(adj, order) && node !in order
    requires forall b :: Edge(adj, node, b) ==> b in order
    ensures TopologicalOrder(adj, order + [node])
  {
    var longer := order + [node];
    forall i, b | 0 <= i < |longer| && Edge(adj, longer[i], b)
      ensures b in longer[..i]
    {
      if i < |order| {
        assert b in order[..i] && longer[..i] == order[..i];
      } else {
        assert longer[..i] == order;
      }
    }
  }

  /** Meeting a node that is still being visited closes a cycle through it. */
  lemma BackEdgeClosesCycle(adj: Graph, stack: seq<JobId>, node: JobId)
    requires IsWalk(adj, stack) && node in stack
    requires Edge(adj, stack[|stack| - 1], node)
    ensures OnCycle(adj, node)
  {
    var i :| 0 <= i < |stack| && stack[i] == node;
    assert IsCycleAt(adj, node, stack[i..] + [node]);
  }

  /** Along a walk out of a topological order, positions strictly fall. */
  lemma {:induction false} WalkDescends(adj: Graph, order: seq<JobId>, p: seq<JobId>, at: nat)
    requires TopologicalOrder(adj, order) && IsWalk(adj, p)
    requires at < |order| && order[at] == p[0] && |p| > 1
    ensures p[|p| - 1] in order[..at]
  {
    assert Edge(adj, p[0], p[1]);
    var next :| 0 <= next < at && order[next] == p[1];
    if |p| > 2 {
      WalkDescends(adj, order, p[1..], next);
    }
  }

  /** A graph whose nodes can be listed upstream-first has no cycle. */
  lemma TopologicalOrderIsAcyclic(adj: Graph, order: seq<JobId>)
    requires TopologicalOrder(adj, order) && adj.Keys <= Elements(order)
    ensures !Cyclic(adj)
  {
    forall n, p | IsCycleAt(adj, n, p)
      ensures false
    {
      assert Edge(adj, p[0], p[1]);
      var at :| 0 <= at < |order| && order[at] == n;
      WalkDescends(adj, order, p, at);
    }
  }
}
