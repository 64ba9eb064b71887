/** No phantom deadlock, and deadlock resolution aborts no more than it must. */
module Deadlocks {
  import opened Base
  import opened Model
  import opened Locking
  import opened Execution
  import opened Graph
  import opened Invariant
  import opened Preservation
  import opened Traces
  import opened Courses

  /** Every wait along a cycle is for a live transaction that holds a lock on a variable the waiter asked for. */
  lemma NoPhantomDeadlock(ms: seq<Moment>, es: seq<Event>, i: nat, p: seq<Tid>, k: nat)
    requires Course(ms, es) && i < |ms| && Cycle(ms[i].st.wait, p) && k < |p| - 1
    ensures p[k] in ms[i].st.live && p[k + 1] in ms[i].st.live
    ensures exists v: VarId :: (p[k], v) in ms[i].st.asked && HoldsVar(ms[i].st, p[k + 1], v)
  {
    CourseKeeps(ms, es, i);
    CycleEdge(ms[i].st, p, k);
  }

  lemma CycleEdge(st: State, p: seq<Tid>, k: nat)
    requires Waits(st) && Cycle(st.wait, p) && k < |p| - 1
    ensures p[k] in st.live && p[k + 1] in st.live && Justified(st, (p[k], p[k + 1]))
  {
    assert (p[k], p[k + 1]) in st.wait;
    if k + 1 < |p| - 1 {
      assert (p[k + 1], p[k + 2]) in st.wait;
    } else {
      assert (p[0], p[1]) in st.wait;
    }
  }

  /** Stale edges end in transactions that are gone and wait for nothing. */
  lemma StaleEdgesAreLeaves(ms: seq<Moment>, es: seq<Event>, i: nat, e: (Tid, Tid))
    requires Course(ms, es) && i < |ms| && e in ms[i].st.wait
    ensures e.0 in ms[i].st.live
    ensures e.1 !in ms[i].st.live ==> forall f | f in ms[i].st.wait :: f.0 != e.1
    ensures e.1 in ms[i].st.live ==> Justified(ms[i].st, e)
  {
    CourseKeeps(ms, es, i);
  }

  /** Aborting one after another is aborting together. */
  lemma AbortsCompose(st: State, ts: set<Tid>, t: Tid)
    ensures Abort(Abort(st, ts), {t}) == Abort(st, ts + {t})
  {
    var one, both := Abort(st, ts), Abort(st, ts + {t});
    var two := Abort(one, {t});
    assert two.live == both.live && two.queue == both.queue && two.locks == both.locks;
    forall p: Replica ensures two.reps[p] == both.reps[p] {
      ReleasesCompose(st, ts, t, p);
    }
    assert two.reps == both.reps;
    EdgesCompose(st.wait, ts, t);
    assert two.wait == both.wait;
  }

  lemma ReleasesCompose(st: State, ts: set<Tid>, t: Tid, p: Replica)
    ensures Abort(Abort(st, ts), {t}).reps[p] == Abort(st, ts + {t}).reps[p]
  {
    var one := Abort(st, ts);
    AbortedRep(st, ts, p);
    AbortedRep(one, {t}, p);
    AbortedRep(st, ts + {t}, p);
    RepsCompose(st, one, ts, t, p);
  }

  lemma AbortedRep(st: State, ts: set<Tid>, p: Replica)
    ensures Abort(st, ts).reps[p] == ReleaseRep(st, ts, p)
    ensures forall u :: Covered(Abort(st, ts), u, p) <==> Covered(st, u, p) && u !in ts
  {
    var mid := st.(live := st.live - ts, queue := st.queue - ts);
    assert ReleaseRep(mid, ts, p).shared == ReleaseRep(st, ts, p).shared;
  }

  lemma RepsCompose(st: State, one: State, ts: set<Tid>, t: Tid, p: Replica)
    requires one.reps[p] == ReleaseRep(st, ts, p)
    requires forall u :: Covered(one, u, p) <==> Covered(st, u, p) && u !in ts
    ensures ReleaseRep(one, {t}, p) == ReleaseRep(st, ts + {t}, p)
  {
    assert ReleaseRep(one, {t}, p).shared == ReleaseRep(st, ts + {t}, p).shared;
  }

  lemma EdgesCompose(wait: set<(Tid, Tid)>, ts: set<Tid>, t: Tid)
    ensures var one := set e | e in wait && EdgeStays(wait, ts, e);
      forall e :: (e in one && EdgeStays(one, {t}, e)) <==> (e in wait && EdgeStays(wait, ts + {t}, e))
  {
    var one := set e | e in wait && EdgeStays(wait, ts, e);
    forall e | e in wait && EdgeStays(wait, ts, e)
      ensures HasOtherTarget(one, e.0, t) <==> HasOtherTarget(wait, e.0, t)
    {
      forall f | f in wait && f.0 == e.0 ensures f in one {
        assert EdgeStays(wait, ts, f);
      }
    }
  }

  /** The live transactions begun after `time`. */
  function Since(live: map<Tid, Tran>, time: int): set<Tid> {
    set t | t in live && live[t].ts > time
  }

  lemma YoungestPlusRest(st: State, y: Tid, t: Tid)
    requires Youngest(st.live, y) && t in st.live && t != y && st.live[t].ts != st.live[y].ts
    ensures Abort(Abort(st, {y}), Since(Abort(st, {y}).live, st.live[t].ts)) == Abort(st, Since(st.live, st.live[t].ts))
  {
    var younger := Since(Abort(st, {y}).live, st.live[t].ts);
    AbortsComposeAll(st, {y}, younger);
    assert Since(st.live, st.live[t].ts) == {y} + younger;
  }

  lemma NobodyYounger(st: State, y: Tid)
    requires Youngest(st.live, y)
    ensures Abort(st, Since(st.live, st.live[y].ts)) == st
  {
    assert Since(st.live, st.live[y].ts) == {};
    AbortNobody(st);
  }

  /** What a set of victims must be: the youngest, all of them needed. */
  ghost predicate Necessary(st: State, victims: set<Tid>) {
    && victims <= st.live.Keys
    && (forall t, u | t in victims && u in st.live && u !in victims :: st.live[u].ts < st.live[t].ts)
    && (forall t | t in victims :: HasCycle(Abort(st, Since(st.live, st.live[t].ts)).wait))
  }

  lemma OneMoreVictim(st: State, y: Tid, rest: set<Tid>)
    requires Ages(st) && Youngest(st.live, y) && HasCycle(st.wait)
    requires Necessary(Abort(st, {y}), rest)
    ensures Necessary(st, {y} + rest)
  {
    forall t | t in {y} + rest ensures HasCycle(Abort(st, Since(st.live, st.live[t].ts)).wait) {
      SparingLeavesCycle(st, y, rest, t);
    }
    RestYounger(st, y, rest);
    VictimsYounger(st.live, y, rest);
  }

  lemma RestYounger(st: State, y: Tid, rest: set<Tid>)
    requires Necessary(Abort(st, {y}), rest)
    ensures rest <= st.live.Keys
    ensures forall t, u | t in rest && u in st.live && u != y && u !in rest :: st.live[u].ts < st.live[t].ts
  {
    assert Abort(st, {y}).live == st.live - {y};
  }

  lemma SparingLeavesCycle(st: State, y: Tid, rest: set<Tid>, t: Tid)
    requires Ages(st) && Youngest(st.live, y) && HasCycle(st.wait)
    requires Necessary(Abort(st, {y}), rest) && t in {y} + rest
    ensures t in st.live && HasCycle(Abort(st, Since(st.live, st.live[t].ts)).wait)
  {
    if t == y {
      NobodyYounger(st, y);
    } else {
      assert t in Abort(st, {y}).live && st.live[t].ts != st.live[y].ts;
      YoungestPlusRest(st, y, t);
    }
  }

  lemma VictimsYounger(live: map<Tid, Tran>, y: Tid, rest: set<Tid>)
    requires Youngest(live, y) && rest <= live.Keys
    requires forall t, u | t in live && u in live && live[t].ts == live[u].ts :: t == u
    requires forall t, u | t in rest && u in live && u != y && u !in rest :: live[u].ts < live[t].ts
    ensures forall t, u | t in {y} + rest && u in live && u !in {y} + rest :: live[u].ts < live[t].ts
  {
  }

  /**
    * Deadlock resolution aborts exactly the youngest transactions, as few as leave no cycle:
    * every survivor is older than every victim, and had only those younger than some victim
    * been aborted, a cycle would remain.
    */
  lemma {:induction false} ResolutionIsMinimal(st: State) returns (victims: set<Tid>)
    requires Inv(st)
    ensures Resolve(st) == Next(Abort(st, victims)) && !HasCycle(Abort(st, victims).wait)
    ensures Necessary(st, victims)
    decreases |st.live|
  {
    if !HasCycle(st.wait) {
      victims := {};
      AbortNobody(st);
    } else {
      CycleMeansLive(st);
      var y := PickYoungest(st.live);
      AbortKeeps(st, {y}, {});
      var rest := ResolutionIsMinimal(Abort(st, {y}));
      victims := {y} + rest;
      AbortsComposeAll(st, {y}, rest);
      OneMoreVictim(st, y, rest);
    }
  }

  /** The loop never finds a cycle when no transaction is live. */
  lemma CycleMeansLive(st: State)
    requires Waits(st) && HasCycle(st.wait)
    ensures st.live != map[]
  {
    var p :| Cycle(st.wait, p);
    assert (p[0], p[1]) in st.wait;
  }

  lemma AbortNobody(st: State)
    ensures Abort(st, {}) == st
  {
    forall p: Replica ensures Abort(st, {}).reps[p] == st.reps[p] {
      assert Abort(st, {}).reps[p].shared == st.reps[p].shared;
    }
    assert Abort(st, {}).reps == st.reps;
    assert Abort(st, {}).wait == st.wait;
    assert Abort(st, {}).live == st.live && Abort(st, {}).queue == st.queue && Abort(st, {}).locks == st.locks;
  }

  lemma {:induction false} AbortsComposeAll(st: State, ts: set<Tid>, us: set<Tid>)
    ensures Abort(Abort(st, ts), us) == Abort(st, ts + us)
    decreases |us|
  {
    if us == {} {
      AbortNobody(Abort(st, ts));
      assert ts + us == ts;
    } else {
      var u :| u in us;
      AbortsComposeAll(st, ts, us - {u});
      AbortsCompose(Abort(st, ts), us - {u}, u);
      AbortsCompose(st, ts + (us - {u}), u);
      assert us - {u} + {u} == us && ts + (us - {u}) + {u} == ts + us;
    }
  }
}
