/** Finite directed graphs as sets of edges, and their cycles. */
module Graph {
  import opened Base

  type Edges = set<(Tid, Tid)>

  /** Consecutive nodes of `p` are joined by edges. */
  predicate Walk(edges: Edges, p: seq<Tid>) {
    forall i :: 0 <= i < |p| - 1 ==> (p[i], p[i + 1]) in edges
  }

  /** A closed walk with at least one edge; a self-loop is one. */
  predicate Cycle(edges: Edges, p: seq<Tid>) {
    |p| >= 2 && p[0] == p[|p| - 1] && Walk(edges, p)
  }

  ghost predicate HasCycle(edges: Edges) {
    exists p :: Cycle(edges, p)
  }

  /** The edges of an adjacency map; nodes without successors leave no trace. */
  function EdgesOf(g: map<Tid, set<Tid>>): Edges {
    set u, w | u in g && w in g[u] :: (u, w)
  }

  /** An edge back into a walk closes a cycle. */
  lemma BackEdge(edges: Edges, p: seq<Tid>, next: Tid)
    requires p != [] && Walk(edges, p) && next in p && (p[|p| - 1], next) in edges
    ensures HasCycle(edges)
  {
    var k :| 0 <= k < |p| && p[k] == next;
    var c := p[k..] + [next];
    forall i | 0 <= i < |c| - 1 ensures (c[i], c[i + 1]) in edges {
      if i < |c| - 2 {
        assert c[i] == p[k + i] && c[i + 1] == p[k + i + 1];
      } else {
        assert c[i] == p[|p| - 1];
      }
    }
    assert Cycle(edges, c);
  }

  /** Every edge out of a finished node leads to a node finished before it. */
  ghost predicate FinishOrder(edges: Edges, finish: seq<Tid>) {
    forall i, w | 0 <= i < |finish| && (finish[i], w) in edges :: w in finish[..i]
  }

  function FirstAt(finish: seq<Tid>, u: Tid): (k: nat)
    requires u in finish
    ensures k < |finish| && finish[k] == u
    ensures forall j | 0 <= j < k :: finish[j] != u
  {
    if finish[0] == u then 0 else 1 + FirstAt(finish[1..], u)
  }

  lemma {:induction false} RankDrops(edges: Edges, finish: seq<Tid>, p: seq<Tid>, k: nat)
    requires FinishOrder(edges, finish) && Walk(edges, p) && k < |p| && p[0] in finish
    ensures p[k] in finish && FirstAt(finish, p[k]) + k <= FirstAt(finish, p[0])
  {
    if k > 0 {
      RankDrops(edges, finish, p, k - 1);
      var i := FirstAt(finish, p[k - 1]);
      assert (finish[i], p[k]) in edges;
      var j :| 0 <= j < i && finish[j] == p[k];
      assert FirstAt(finish, p[k]) <= j;
    }
  }

  /** When every source of an edge has been finished in order there is no cycle. */
  lemma FinishedIsAcyclic(edges: Edges, finish: seq<Tid>)
    requires FinishOrder(edges, finish)
    requires forall e | e in edges :: e.0 in finish
    ensures !HasCycle(edges)
  {
    if p :| Cycle(edges, p) {
      assert (p[0], p[1]) in edges;
      RankDrops(edges, finish, p, |p| - 1);
    }
  }
}
