/** The lock manager object (repcrec/lock_manager/lock_manager.cc). */
module LockManagerObject {
  import opened Base
  import opened Model
  import opened Locking
  import opened Graph
  import opened VariableObject
  import opened SiteManagerObject

  datatype Color = NotVisit | OnPath | Visited

  function ColorOf(visited: map<Tid, Color>, u: Tid): Color {
    if u in visited then visited[u] else NotVisit
  }

  /** The state of the depth-first search: the walk being explored, and the nodes finished so far in order. */
  ghost predicate Search(edges: Edges, visited: map<Tid, Color>, path: seq<Tid>, finish: seq<Tid>) {
    && Walk(edges, path)
    && (forall u :: ColorOf(visited, u) == OnPath <==> u in path)
    && (forall u :: ColorOf(visited, u) == Visited <==> u in finish)
    && FinishOrder(edges, finish)
  }

  /** Both ends of every edge. */
  ghost predicate Within(edges: Edges, nodes: set<Tid>) {
    forall e | e in edges :: e.0 in nodes && e.1 in nodes
  }

  ghost function Unseen(nodes: set<Tid>, path: seq<Tid>, finish: seq<Tid>): set<Tid> {
    set u | u in nodes && u !in path && u !in finish
  }

  /** Nothing but nodes without successors has been added. */
  ghost predicate OnlyEmptyAdded(g: map<Tid, set<Tid>>, g': map<Tid, set<Tid>>) {
    && (forall u | u in g :: u in g' && g'[u] == g[u])
    && (forall u | u in g' && u !in g :: g'[u] == {})
  }

  lemma EmptyNodesHaveNoEdges(g: map<Tid, set<Tid>>, g': map<Tid, set<Tid>>)
    requires OnlyEmptyAdded(g, g')
    ensures EdgesOf(g') == EdgesOf(g)
  {
  }

  lemma OnlyEmptyAddedTrans(g: map<Tid, set<Tid>>, g': map<Tid, set<Tid>>, g'': map<Tid, set<Tid>>)
    requires OnlyEmptyAdded(g, g') && OnlyEmptyAdded(g', g'')
    ensures OnlyEmptyAdded(g, g'')
  {
  }

  lemma EnterNode(edges: Edges, visited: map<Tid, Color>, path: seq<Tid>, finish: seq<Tid>, curr: Tid)
    requires Search(edges, visited, path, finish) && ColorOf(visited, curr) == NotVisit
    requires path != [] ==> (path[|path| - 1], curr) in edges
    ensures Search(edges, visited[curr := OnPath], path + [curr], finish)
    ensures curr !in path && curr !in finish
  {
    assert ColorOf(visited, curr) != OnPath && ColorOf(visited, curr) != Visited;
    var visited' := visited[curr := OnPath];
    forall u ensures ColorOf(visited', u) == OnPath <==> u in path + [curr] {
      assert u != curr ==> ColorOf(visited', u) == ColorOf(visited, u);
    }
    forall u ensures ColorOf(visited', u) == Visited <==> u in finish {
      assert u != curr ==> ColorOf(visited', u) == ColorOf(visited, u);
    }
  }

  lemma LeaveNode(edges: Edges, visited: map<Tid, Color>, path: seq<Tid>, finish: seq<Tid>, curr: Tid)
    requires Search(edges, visited, path + [curr], finish) && curr !in path && curr !in finish
    requires forall w | (curr, w) in edges :: w in finish
    ensures Search(edges, visited[curr := Visited], path, finish + [curr])
  {
    var visited', path', finish' := visited[curr := Visited], path + [curr], finish + [curr];
    forall u ensures ColorOf(visited', u) == OnPath <==> u in path {
      assert u != curr ==> ColorOf(visited', u) == ColorOf(visited, u) && (u in path <==> u in path');
    }
    forall u ensures ColorOf(visited', u) == Visited <==> u in finish' {
      assert u != curr ==> ColorOf(visited', u) == ColorOf(visited, u);
    }
    forall i | 0 <= i < |path| - 1 ensures (path[i], path[i + 1]) in edges {
      assert (path'[i], path'[i + 1]) in edges;
    }
    forall i, w | 0 <= i < |finish'| && (finish'[i], w) in edges ensures w in finish'[..i] {
      assert finish'[..i] == finish[..i];
    }
  }

  lemma UnseenShrinks(nodes: set<Tid>, path: seq<Tid>, finish0: seq<Tid>, finish: seq<Tid>, curr: Tid)
    requires curr in nodes && curr !in path && curr !in finish0 && finish0 <= finish
    ensures |Unseen(nodes, path + [curr], finish)| < |Unseen(nodes, path, finish0)|
  {
    assert Unseen(nodes, path + [curr], finish) <= Unseen(nodes, path, finish0) - {curr};
    Smaller(Unseen(nodes, path + [curr], finish), Unseen(nodes, path, finish0) - {curr});
  }

  lemma Smaller(a: set<Tid>, b: set<Tid>)
    requires a <= b
    ensures |a| <= |b|
  {
    assert b == a + (b - a);
  }

  lemma AllFinished(g: map<Tid, set<Tid>>, edges: Edges, finish: seq<Tid>)
    requires edges == EdgesOf(g) && FinishOrder(edges, finish)
    requires forall u | u in g :: u in finish
    ensures !HasCycle(edges)
  {
    FinishedIsAcyclic(edges, finish);
  }

  class LockManager {
    const sm: SiteManager
    var lockTable: map<Tid, set<VarId>>
    var waitForGraph: map<Tid, set<Tid>>

    constructor (sm: SiteManager)
      ensures this.sm == sm && lockTable == map[] && waitForGraph == map[]
    {
      this.sm := sm;
      lockTable, waitForGraph := map[], map[];
    }

    /** The sites and the lock tables as a state without transactions, queue or history. */
    ghost function View(): State
      reads this, sm
    {
      State(sm.up, sm.readable, sm.reps, lockTable, EdgesOf(waitForGraph), map[], map[], map[], 0, {}, {}, {}, [])
    }

    // ----- Deadlock detection -----

    /** `true` exactly when the wait-for graph has a cycle; no edge changes. */
    method DetectDeadlock() returns (found: bool)
      modifies this`waitForGraph
      ensures found <==> HasCycle(EdgesOf(old(waitForGraph)))
      ensures OnlyEmptyAdded(old(waitForGraph), waitForGraph)
      ensures EdgesOf(waitForGraph) == EdgesOf(old(waitForGraph))
    {
      ghost var g0, edges := waitForGraph, EdgesOf(waitForGraph);
      var visited: map<Tid, Color> := map t | t in waitForGraph :: NotVisit;
      ghost var finish: seq<Tid> := [];
      found := false;
      var todo := waitForGraph.Keys;
      while todo != {}
        invariant todo <= g0.Keys && OnlyEmptyAdded(g0, waitForGraph)
        invariant !found && Search(edges, visited, [], finish)
        invariant forall u | u in g0 && u !in todo :: u in finish
        decreases |todo|
      {
        var t :| t in todo;
        todo := todo - {t};
        if ColorOf(visited, t) == NotVisit {
          found, visited, finish := VisitRoot(t, visited, finish, g0);
          if found {
            EmptyNodesHaveNoEdges(g0, waitForGraph);
            return;
          }
        }
      }
      EmptyNodesHaveNoEdges(g0, waitForGraph);
      AllFinished(g0, edges, finish);
    }

    /** The search from one root that has not been visited. */
    method VisitRoot(t: Tid, visited0: map<Tid, Color>, ghost finish0: seq<Tid>, ghost g0: map<Tid, set<Tid>>)
      returns (hasCycle: bool, visited: map<Tid, Color>, ghost finish: seq<Tid>)
      requires OnlyEmptyAdded(g0, waitForGraph) && t in g0 && ColorOf(visited0, t) == NotVisit
      requires Search(EdgesOf(g0), visited0, [], finish0)
      modifies this`waitForGraph
      ensures OnlyEmptyAdded(g0, waitForGraph)
      ensures hasCycle ==> HasCycle(EdgesOf(g0))
      ensures !hasCycle ==> Search(EdgesOf(g0), visited, [], finish) && finish0 <= finish && t in finish
    {
      ghost var g, edges := waitForGraph, EdgesOf(g0);
      ghost var nodes := g0.Keys + (set e | e in edges :: e.1);
      EmptyNodesHaveNoEdges(g0, g);
      hasCycle, visited, finish := WaitForGraphDfs(t, false, visited0, edges, nodes, [], finish0);
      OnlyEmptyAddedTrans(g0, g, waitForGraph);
    }

    method WaitForGraphDfs(curr: Tid, hasCycle0: bool, visited0: map<Tid, Color>,
                           ghost edges: Edges, ghost nodes: set<Tid>, ghost path: seq<Tid>, ghost finish0: seq<Tid>)
      returns (hasCycle: bool, visited: map<Tid, Color>, ghost finish: seq<Tid>)
      requires edges == EdgesOf(waitForGraph) && Within(edges, nodes) && curr in nodes
      requires !hasCycle0 && ColorOf(visited0, curr) == NotVisit
      requires Search(edges, visited0, path, finish0)
      requires path != [] ==> (path[|path| - 1], curr) in edges
      modifies this`waitForGraph
      ensures OnlyEmptyAdded(old(waitForGraph), waitForGraph)
      ensures hasCycle ==> HasCycle(edges)
      ensures !hasCycle ==> Search(edges, visited, path, finish) && finish0 <= finish && curr in finish
      decreases |Unseen(nodes, path, finish0)|
    {
      hasCycle, visited, finish := hasCycle0, visited0, finish0;
      if ColorOf(visited, curr) == Visited || hasCycle {
        return;
      }
      ghost var path' := path + [curr];
      EnterNode(edges, visited, path, finish, curr);
      visited := visited[curr := OnPath];
      if curr !in waitForGraph {
        waitForGraph := waitForGraph[curr := {}];
      }
      var todo := waitForGraph[curr];
      assert forall w :: w in todo <==> (curr, w) in edges;
      while todo != {}
        invariant !hasCycle && forall w | w in todo :: (curr, w) in edges
        invariant OnlyEmptyAdded(old(waitForGraph), waitForGraph)
        invariant Search(edges, visited, path', finish) && finish0 <= finish
        invariant forall w | (curr, w) in edges && w !in todo :: w in finish
        decreases |todo|
      {
        var next :| next in todo;
        todo := todo - {next};
        if ColorOf(visited, next) == OnPath {
          BackEdge(edges, path', next);
          hasCycle := true;
          return;
        }
        if ColorOf(visited, next) == NotVisit {
          hasCycle, visited, finish := Visit(next, hasCycle, visited, edges, nodes, path, curr, finish0, finish,
                                                  old(waitForGraph));
        }
        if hasCycle {
          return;
        }
      }
      CurrentIsOnPath(edges, visited, path, finish, curr);
      LeaveNode(edges, visited, path, finish, curr);
      visited := visited[curr := Visited];
      finish := finish + [curr];
    }

    /** The recursive call of the search, with the bookkeeping of its proof. */
    method Visit(next: Tid, hasCycle0: bool, visited0: map<Tid, Color>,
                 ghost edges: Edges, ghost nodes: set<Tid>, ghost path: seq<Tid>, ghost curr: Tid,
                 ghost finish0: seq<Tid>, ghost finish1: seq<Tid>, ghost g: map<Tid, set<Tid>>)
      returns (hasCycle: bool, visited: map<Tid, Color>, ghost finish: seq<Tid>)
      requires edges == EdgesOf(g) && OnlyEmptyAdded(g, waitForGraph) && Within(edges, nodes)
      requires curr in nodes && curr !in path && curr !in finish0 && finish0 <= finish1
      requires !hasCycle0 && ColorOf(visited0, next) == NotVisit
      requires Search(edges, visited0, path + [curr], finish1) && (curr, next) in edges
      modifies this`waitForGraph
      ensures OnlyEmptyAdded(g, waitForGraph)
      ensures hasCycle ==> HasCycle(edges)
      ensures !hasCycle ==>
                && Search(edges, visited, path + [curr], finish)
                && finish0 <= finish && finish1 <= finish && next in finish
      decreases |Unseen(nodes, path, finish0)|, 0
    {
      ghost var g1 := waitForGraph;
      EmptyNodesHaveNoEdges(g, g1);
      UnseenShrinks(nodes, path, finish0, finish1, curr);
      hasCycle, visited, finish := WaitForGraphDfs(next, hasCycle0, visited0, edges, nodes, path + [curr], finish1);
      OnlyEmptyAddedTrans(g, g1, waitForGraph);
    }

    // ----- Queries -----

    predicate IsWaitingForLock(t: Tid)
      reads this
    {
      t in waitForGraph && waitForGraph[t] != {}
    }

    /** Despite its name: does another transaction wait for `t`? */
    predicate IsWaitingForOthers(t: Tid)
      reads this
    {
      exists u | u in waitForGraph :: u != t && t in waitForGraph[u]
    }

    lemma QueriesReadEdges(t: Tid)
      ensures IsWaitingForLock(t) <==> exists e | e in EdgesOf(waitForGraph) :: e.0 == t
      ensures IsWaitingForOthers(t) <==> exists e | e in EdgesOf(waitForGraph) :: e.0 != t && e.1 == t
    {
      if IsWaitingForLock(t) {
        var w :| w in waitForGraph[t];
        assert (t, w) in EdgesOf(waitForGraph);
      }
      if IsWaitingForOthers(t) {
        var u :| u in waitForGraph && u != t && t in waitForGraph[u];
        assert (u, t) in EdgesOf(waitForGraph);
      }
    }

    // ----- Acquiring -----

    method TryAcquireWriteLock(t: Tid, v: VarId) returns (a: LockStatus)
      requires sm.Valid()
      ensures a == Acquire(View(), t, v)
    {
      if Odd(v) {
        a := TryAcquireHome(t, v);
        return;
      }
      a := LockStatus(AvailableToAssign, {}, {});
      var sid, stop := 1, false;
      while !stop && sid <= SITE_COUNT
        invariant 1 <= sid <= SITE_COUNT + 1
        invariant stop ==> a == Acquire(View(), t, v)
        invariant !stop ==> a.owners == {} && AcquireFrom(View(), t, v, sid, a.status, a.sites) == Acquire(View(), t, v)
        decreases SITE_COUNT + 1 - sid, !stop
      {
        stop, a := TryAcquireAt(t, v, sid, a);
        sid := sid + 1;
      }
    }

    /** One site of the scan: it ends here with `a'`, or goes on to the next site with it. */
    method TryAcquireAt(t: Tid, v: VarId, s: SiteId, a: LockStatus) returns (stop: bool, a': LockStatus)
      requires sm.Valid() && a.owners == {}
      ensures AcquireFrom(View(), t, v, s, a.status, a.sites) ==
                if stop then a' else AcquireFrom(View(), t, v, s + 1, a'.status, a'.sites)
      ensures !stop ==> a'.owners == {}
    {
      QueriesReadEdges(t);
      stop, a' := false, a;
      if !sm.IsWriteAvailable(s) {
        return;
      }
      var x := sm.GetVariable(s, v);
      if && x.HasSharedLock(t) && !x.HasSharedLockExcludeSelf(t)
         && !x.HasExclusiveLockExcludeSelf(t) && !IsWaitingForOthers(t)
      {
        a' := LockStatus(HasReadLock, a.sites + {s}, {});
      } else if x.HasSharedLockExcludeSelf(t) || x.HasExclusiveLockExcludeSelf(t) || x.HasSharedLock(t) {
        stop, a' := true, LockStatus(NeedToWait, {}, Owners(x, t));
      } else if x.HasExclusiveLock(t) {
        stop, a' := true, LockStatus(HasWriteLock, {}, {});
      } else {
        a' := a.(sites := a.sites + {s});
      }
    }

    method TryAcquireHome(t: Tid, v: VarId) returns (a: LockStatus)
      requires sm.Valid() && Odd(v)
      ensures a == AcquireHome(View(), t, v)
    {
      QueriesReadEdges(t);
      var s := Home(v);
      if !sm.IsWriteAvailable(s) {
        return LockStatus(SiteUnavailable, {}, {});
      }
      var x := sm.GetVariable(s, v);
      if x.HasSharedLock(t) && !x.HasSharedLockExcludeSelf(t) && !IsWaitingForOthers(t) {
        return LockStatus(HasReadLock, {s}, {});
      }
      if x.HasExclusiveLockExcludeSelf(t) || x.HasSharedLockExcludeSelf(t) || x.HasSharedLock(t) {
        return LockStatus(NeedToWait, {}, Owners(x, t));
      }
      if x.HasExclusiveLock(t) {
        return LockStatus(HasWriteLock, {}, {});
      }
      return LockStatus(AvailableToAssign, {s}, {});
    }

    static function Owners(x: Variable, t: Tid): (owners: set<Tid>)
      reads x
      ensures owners == Blockers(x.View(), t)
    {
      (if x.HasExclusiveLockExcludeSelf(t) then {x.exclusiveOwner.value} else {}) +
      (if x.HasSharedLockExcludeSelf(t) then x.sharedOwners else {}) +
      (if x.HasSharedLock(t) then {t} else {})
    }

    // ----- Assigning -----

    method AssignWriteAt(t: Tid, s: SiteId, v: VarId)
      requires sm.Valid()
      modifies this`lockTable, sm`reps, sm.Variables()
      ensures sm.Valid()
      ensures sm.reps == if s in sm.up
                         then old(sm.reps)[(s, v) := GrantExclusive(old(sm.reps[(s, v)]), t)] else old(sm.reps)
      ensures lockTable == if s in sm.up then AddLock(old(lockTable), t, v) else old(lockTable)
    {
      if sm.IsWriteAvailable(s) {
        sm.Promote(s, v, t);
        lockTable := AddLock(lockTable, t, v);
      }
    }

    method AssignWriteLock(t: Tid, siteSet: set<SiteId>, v: VarId)
      requires sm.Valid()
      modifies this`lockTable, sm`reps, sm.Variables()
      ensures sm.Valid() && View() == AssignWrite(old(View()), t, siteSet, v)
    {
      ghost var st, done: set<SiteId> := View(), {};
      var todo := siteSet;
      AssignNowhere(st, t, v);
      while todo != {}
        invariant sm.Valid() && todo + done == siteSet && todo !! done
        invariant Assigned(st, sm.reps, lockTable, t, done, v)
        decreases |todo|
      {
        var s :| s in todo;
        ghost var reps, locks := sm.reps, lockTable;
        AssignWriteAt(t, s, v);
        AssignStep(st, reps, locks, sm.reps, lockTable, t, done, s, v);
        todo, done := todo - {s}, done + {s};
      }
      assert done == siteSet;
    }

    method AssignShareAt(t: Tid, s: SiteId, v: VarId)
      requires sm.Valid()
      modifies this`lockTable, sm`reps, sm.Variables()
      ensures sm.Valid()
      ensures sm.reps == if (s, v) in sm.readable
                         then old(sm.reps)[(s, v) := SharedRep(old(sm.reps[(s, v)]), t)] else old(sm.reps)
      ensures lockTable == if (s, v) in sm.readable then AddLock(old(lockTable), t, v) else old(lockTable)
    {
      if sm.IsReadAvailable(s, v) {
        lockTable := AddLock(lockTable, t, v);
        sm.Share(s, v, t);
      }
    }

    method AssignShareLock(t: Tid, siteSet: set<SiteId>, v: VarId)
      requires sm.Valid()
      modifies this`lockTable, sm`reps, sm.Variables()
      ensures sm.Valid() && View() == AssignShare(old(View()), t, siteSet, v)
    {
      ghost var st, done: set<SiteId> := View(), {};
      var todo := siteSet;
      ShareNowhere(st, t, v);
      while todo != {}
        invariant sm.Valid() && todo + done == siteSet && todo !! done
        invariant SharedTo(st, sm.reps, lockTable, t, done, v)
        decreases |todo|
      {
        var s :| s in todo;
        ghost var reps, locks := sm.reps, lockTable;
        AssignShareAt(t, s, v);
        ShareStep(st, reps, locks, sm.reps, lockTable, t, done, s, v);
        todo, done := todo - {s}, done + {s};
      }
      assert done == siteSet;
    }

    method AssignWaitForGraph(t: Tid, owners: set<Tid>)
      modifies this`waitForGraph
      ensures View() == AddWaits(old(View()), t, owners)
    {
      var todo := owners;
      while todo != {}
        invariant todo <= owners
        invariant EdgesOf(waitForGraph) == EdgesOf(old(waitForGraph)) + (set w | w in owners - todo :: (t, w))
        decreases |todo|
      {
        var w :| w in todo;
        todo := todo - {w};
        ghost var g := waitForGraph;
        waitForGraph := waitForGraph[t := (if t in waitForGraph then waitForGraph[t] else {}) + {w}];
        assert EdgesOf(waitForGraph) == EdgesOf(g) + {(t, w)};
      }
    }

    // ----- Releasing -----

    ghost predicate DroppedBelow(before: Store, after: Store, t: Tid, v: VarId, sid: int) {
      forall p: Replica :: after[p] == if p.1 == v && p.0 < sid then DropRep(before[p], t) else before[p]
    }

    lemma DropNext(before: Store, mid: Store, after: Store, t: Tid, s: SiteId, v: VarId)
      requires DroppedBelow(before, mid, t, v, s) && after == mid[(s, v) := DropRep(mid[(s, v)], t)]
      ensures DroppedBelow(before, after, t, v, s + 1)
    {
      forall p: Replica ensures after[p] == if p.1 == v && p.0 < s + 1 then DropRep(before[p], t) else before[p] {
        assert p == (p.0, p.1);
      }
    }

    method DropEverywhere(t: Tid, v: VarId)
      requires sm.Valid()
      modifies sm`reps, sm.Variables()
      ensures sm.Valid()
      ensures forall p: Replica :: sm.reps[p] == if p.1 == v then DropRep(old(sm.reps[p]), t) else old(sm.reps[p])
    {
      var sid := 1;
      while sid <= SITE_COUNT
        invariant 1 <= sid <= SITE_COUNT + 1 && sm.Valid()
        invariant DroppedBelow(old(sm.reps), sm.reps, t, v, sid)
      {
        ghost var mid := sm.reps;
        sm.Drop(sid, v, t);
        DropNext(old(sm.reps), mid, sm.reps, t, sid, v);
        sid := sid + 1;
      }
    }

    /** The locks on one variable, at its home or everywhere. */
    method DropVariable(t: Tid, v: VarId)
      requires sm.Valid()
      modifies sm`reps, sm.Variables()
      ensures sm.Valid()
      ensures forall p: Replica ::
                sm.reps[p] == if p.1 == v && Hosts(p.0, v) then DropRep(old(sm.reps[p]), t) else old(sm.reps[p])
    {
      if Odd(v) {
        sm.Drop(Home(v), v, t);
      } else {
        DropEverywhere(t, v);
      }
    }

    method ReleaseVariables(t: Tid, vars: set<VarId>)
      requires sm.Valid()
      modifies sm`reps, sm.Variables()
      ensures sm.Valid()
      ensures forall p: Replica ::
                sm.reps[p] == if p.1 in vars && Hosts(p.0, p.1) then DropRep(old(sm.reps[p]), t) else old(sm.reps[p])
    {
      var todo := vars;
      while todo != {}
        invariant sm.Valid() && todo <= vars
        invariant forall p: Replica ::
                    sm.reps[p] == if p.1 in vars - todo && Hosts(p.0, p.1)
                                  then DropRep(old(sm.reps[p]), t) else old(sm.reps[p])
        decreases |todo|
      {
        var v :| v in todo;
        todo := todo - {v};
        DropVariable(t, v);
      }
    }

    /** Nodes whose only target, if any, is `t`; the sets that the loop edits are copies. */
    method EmptiedBy(t: Tid) returns (emptyIds: set<Tid>)
      ensures emptyIds == set u | u in waitForGraph && waitForGraph[u] - {t} == {}
    {
      emptyIds := {};
      var todo := waitForGraph.Keys;
      while todo != {}
        invariant todo <= waitForGraph.Keys
        invariant emptyIds == set u | u in waitForGraph && u !in todo && waitForGraph[u] - {t} == {}
        decreases |todo|
      {
        var u :| u in todo;
        todo := todo - {u};
        var tids := waitForGraph[u];
        if t in tids {
          tids := tids - {t};
        }
        assert tids == waitForGraph[u] - {t};
        if tids == {} {
          emptyIds := emptyIds + {u};
        }
      }
    }

    method ReleaseLocks(t: Tid)
      requires sm.Valid()
      modifies this, sm`reps, sm.Variables()
      ensures sm.Valid() && View() == Release(old(View()), {t})
    {
      ghost var st := View();
      ReleaseTables(t);
      ReleasedView(st, View(), t);
    }

    method ReleaseTables(t: Tid)
      requires sm.Valid()
      modifies this, sm`reps, sm.Variables()
      ensures sm.Valid() && lockTable == old(lockTable) - {t}
      ensures EdgesOf(waitForGraph) == ReleasedEdges(EdgesOf(old(waitForGraph)), t)
      ensures forall p: Replica ::
                sm.reps[p] == if p.1 in LocksOf(old(lockTable), t) && Hosts(p.0, p.1)
                              then DropRep(old(sm.reps[p]), t) else old(sm.reps[p])
    {
      if t !in lockTable {
        lockTable := lockTable[t := {}];
      }
      ReleaseVariables(t, lockTable[t]);
      ReleaseEdges(t);
      lockTable := lockTable - {t};
    }

    method ReleaseEdges(t: Tid)
      modifies this`waitForGraph
      ensures EdgesOf(waitForGraph) == ReleasedEdges(EdgesOf(old(waitForGraph)), t)
    {
      var emptyIds := EmptiedBy(t);
      waitForGraph := waitForGraph - emptyIds;
      waitForGraph := waitForGraph - {t};
      ReleasedGraph(old(waitForGraph), waitForGraph, t);
    }
  }

  // ----- The loops, one site at a time -----

  /** The loop of `assign_write_lock` after the sites of `done`. */
  ghost predicate Assigned(st: State, reps: Store, locks: map<Tid, set<VarId>>, t: Tid, done: set<SiteId>, v: VarId) {
    reps == AssignWrite(st, t, done, v).reps && locks == AssignWrite(st, t, done, v).locks
  }

  lemma AssignNowhere(st: State, t: Tid, v: VarId)
    ensures Assigned(st, st.reps, st.locks, t, {}, v)
  {
  }

  lemma AssignStep(st: State, reps: Store, locks: map<Tid, set<VarId>>, reps': Store, locks': map<Tid, set<VarId>>,
                   t: Tid, done: set<SiteId>, s: SiteId, v: VarId)
    requires s !in done && Assigned(st, reps, locks, t, done, v)
    requires reps' == if s in st.up then reps[(s, v) := GrantExclusive(reps[(s, v)], t)] else reps
    requires locks' == if s in st.up then AddLock(locks, t, v) else locks
    ensures Assigned(st, reps', locks', t, done + {s}, v)
  {
    var both := AssignWrite(st, t, done + {s}, v);
    forall p: Replica ensures reps'[p] == both.reps[p] {
      assert p == (p.0, p.1);
    }
    assert reps' == both.reps;
    LocksOnce(st.locks, t, v);
    assert s in st.up ==> s in (done + {s}) * st.up;
    assert s !in st.up ==> (done + {s}) * st.up == done * st.up;
  }

  lemma LocksOnce(locks: map<Tid, set<VarId>>, t: Tid, v: VarId)
    ensures AddLock(AddLock(locks, t, v), t, v) == AddLock(locks, t, v)
  {
    var some := (if t in locks then locks[t] else {}) + {v};
    assert some + {v} == some;
  }

  /** The loop of `assign_share_lock` after the sites of `done`. */
  ghost predicate SharedTo(st: State, reps: Store, locks: map<Tid, set<VarId>>, t: Tid, done: set<SiteId>, v: VarId) {
    reps == AssignShare(st, t, done, v).reps && locks == AssignShare(st, t, done, v).locks
  }

  lemma ShareNowhere(st: State, t: Tid, v: VarId)
    ensures SharedTo(st, st.reps, st.locks, t, {}, v)
  {
  }

  lemma ShareStep(st: State, reps: Store, locks: map<Tid, set<VarId>>, reps': Store, locks': map<Tid, set<VarId>>,
                  t: Tid, done: set<SiteId>, s: SiteId, v: VarId)
    requires s !in done && SharedTo(st, reps, locks, t, done, v)
    requires reps' == if (s, v) in st.readable then reps[(s, v) := SharedRep(reps[(s, v)], t)] else reps
    requires locks' == if (s, v) in st.readable then AddLock(locks, t, v) else locks
    ensures SharedTo(st, reps', locks', t, done + {s}, v)
  {
    var both := AssignShare(st, t, done + {s}, v);
    assert ReadableIn(st, done + {s}, v) == ReadableIn(st, done, v) + if (s, v) in st.readable then {s} else {};
    forall p: Replica ensures reps'[p] == both.reps[p] {
      assert p == (p.0, p.1);
    }
    assert reps' == both.reps;
    LocksOnce(st.locks, t, v);
  }

  function ReleasedEdges(edges: Edges, t: Tid): Edges {
    set e | e in edges && EdgeStays(edges, {t}, e)
  }

  function LocksOf(locks: map<Tid, set<VarId>>, t: Tid): set<VarId> {
    if t in locks then locks[t] else {}
  }

  lemma ReleasedGraph(g: map<Tid, set<Tid>>, g': map<Tid, set<Tid>>, t: Tid)
    requires g' == g - (set u | u in g && g[u] - {t} == {}) - {t}
    ensures EdgesOf(g') == ReleasedEdges(EdgesOf(g), t)
  {
    forall u | u in g ensures HasOtherTarget(EdgesOf(g), u, t) <==> g[u] - {t} != {} {
      if w :| w in g[u] - {t} {
        assert (u, w) in EdgesOf(g);
      }
      if HasOtherTarget(EdgesOf(g), u, t) {
        var e :| e in EdgesOf(g) && e.0 == u && e.1 != t;
        assert e.1 in g[u] - {t};
      }
    }
  }

  lemma ReleasedView(st: State, st': State, t: Tid)
    requires st' == st.(reps := st'.reps, wait := st'.wait, locks := st'.locks)
    requires st'.locks == st.locks - {t}
    requires st'.wait == ReleasedEdges(st.wait, t)
    requires forall p: Replica ::
               st'.reps[p] == if p.1 in LocksOf(st.locks, t) && Hosts(p.0, p.1)
                              then DropRep(st.reps[p], t) else st.reps[p]
    ensures st' == Release(st, {t})
  {
    forall p: Replica ensures st'.reps[p] == ReleaseRep(st, {t}, p) {
      assert st'.reps[p].shared == ReleaseRep(st, {t}, p).shared;
    }
    assert st'.reps == Release(st, {t}).reps;
  }

  lemma CurrentIsOnPath(edges: Edges, visited: map<Tid, Color>, path: seq<Tid>, finish: seq<Tid>, curr: Tid)
    requires Search(edges, visited, path + [curr], finish)
    ensures curr !in finish
  {
    assert curr in path + [curr];
    assert ColorOf(visited, curr) == OnPath;
  }
}
