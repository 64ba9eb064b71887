/** Exactly when a waiting transaction wakes, and that one with a stale edge never does. */
module Waiters {
  import opened Base
  import opened Model
  import opened Locking
  import opened Execution
  import opened Graph
  import opened Invariant
  import opened LockLemmas
  import opened Preservation
  import opened Traces
  import opened Courses
  import opened Failures
  import opened Deadlocks
  import opened BlockedQueue

  // ----- What one change does to the edges -----

  /** Edges are added only, and to live transactions. */
  ghost predicate Extends(st: State, st': State) {
    && st.wait <= st'.wait && st.live.Keys <= st'.live.Keys
    && forall e | e in st'.wait && e !in st.wait :: e.1 in st'.live
  }

  /** The transactions of `ts` end, and their locks are released. */
  ghost predicate Ends(st: State, st': State, ts: set<Tid>) {
    && ts <= st.live.Keys && st'.live.Keys == st.live.Keys - ts
    && st'.wait == set e | e in st.wait && EdgeStays(st.wait, ts, e)
  }

  ghost predicate Changes(st: State, st': State) {
    Extends(st, st') || exists ts :: Ends(st, st', ts)
  }

  lemma AbortEnds(st: State, ts: set<Tid>)
    requires ts <= st.live.Keys
    ensures Ends(st, Abort(st, ts), ts)
  {
  }

  lemma HolderLive(st: State, t: Tid, v: VarId)
    requires OwnersBuffer(st) && forall p: Replica :: SingleHolder(st.reps[p], st.live)
    requires HoldsVar(st, t, v)
    ensures t in st.live
  {
    var s: SiteId :| Holds(st.reps[(s, v)], t);
    assert SingleHolder(st.reps[(s, v)], st.live);
  }

  lemma WriteChanges(st: State, r: Request, a: LockStatus)
    requires r.Write? && WriteWith(st, r, a).Next? && forall w | w in a.owners :: w in st.live
    ensures Extends(st, WriteWith(st, r, a).st)
  {
  }

  lemma ReadChanges(st: State, r: Request, a: LockStatus)
    requires r.Read? && r.t in st.live && ReadWith(st, r, a).Next? && forall w | w in a.owners :: w in st.live
    ensures Extends(st, ReadWith(st, r, a).st)
  {
  }

  lemma OwnersLive(st: State, t: Tid, v: VarId)
    requires LockInv(st, {})
    ensures Acquire(st, t, v).status == NeedToWait ==> forall w | w in Acquire(st, t, v).owners :: w in st.live
    ensures Acquire(st, t, v).status != NeedToWait ==> Acquire(st, t, v).owners == {}
  {
    AcquireSound(st, t, v);
    var a := Acquire(st, t, v);
    if a.status == NeedToWait {
      forall w | w in a.owners ensures w in st.live {
        HolderLive(st, w, v);
      }
    } else {
      NoOwners(st, t, v);
    }
  }

  lemma NoOwners(st: State, t: Tid, v: VarId)
    ensures Acquire(st, t, v).status != NeedToWait ==> Acquire(st, t, v).owners == {}
  {
    if !Odd(v) {
      NoOwnersFrom(st, t, v, 1, AvailableToAssign, {});
    }
  }

  lemma {:induction false} NoOwnersFrom(st: State, t: Tid, v: VarId, s: int, status: Status, sites: set<SiteId>)
    requires 1 <= s
    ensures var a := AcquireFrom(st, t, v, s, status, sites); a.status != NeedToWait ==> a.owners == {}
    decreases SITE_COUNT + 1 - s
  {
    if s <= SITE_COUNT {
      NoOwnersFrom(st, t, v, s + 1, status, sites);
      NoOwnersFrom(st, t, v, s + 1, HasReadLock, sites + {s});
      NoOwnersFrom(st, t, v, s + 1, status, sites + {s});
    }
  }

  lemma ReadOnlyChanges(st: State, r: Request)
    requires r.Read? && r.t in st.live && ReadOnly(st, r).Next?
    ensures Changes(st, ReadOnly(st, r).st)
  {
    AbortEnds(st, {r.t});
    if Odd(r.v) || FirstReadable(st, r.v, 1).Some? {
      assert Extends(st, ReadOnly(st, r).st);
    }
  }

  lemma EndChanges(st: State, t: Tid, time: int)
    requires t in st.live
    ensures Ends(st, EndTran(st, t, time), {t})
  {
    if Validates(st, st.live[t]) {
      CommitIsInstallThenAbort(st, t, time);
    }
  }

  lemma ExecChanges(st: State, r: Request)
    requires LockInv(st, {}) && Exec(st, r).Next?
    ensures Changes(st, Exec(st, r).st)
  {
    match r
    case Write(_, t, v, _) =>
      OwnersLive(st, t, v);
      WriteChanges(st, r, Acquire(st, t, v));
    case Read(_, t, v) =>
      if st.live[t].ro {
        ReadOnlyChanges(st, r);
      } else if Odd(v) && (Home(v), v) !in st.readable {
        assert Extends(st, Exec(st, r).st);
      } else {
        OwnersLive(st, t, v);
        ReadChanges(st, r, Acquire(st, t, v));
      }
    case End(ts, t) => EndChanges(st, t, ts);
    case Fail(_, s) => assert Ends(st, Exec(st, r).st, Writers(st, s));
    case _ => assert Extends(st, Exec(st, r).st);
  }

  lemma MicroChanges(a: Moment, e: Event, b: Moment)
    requires Micro(a, e, b) && LockInv(a.st, {})
    ensures Changes(a.st, b.st)
  {
    match e
    case Victim(t) => AbortEnds(a.st, {t});
    case Ran(r) => ExecChanges(a.st, r);
    case _ => assert Extends(a.st, b.st);
  }

  // ----- Waking -----

  /** This change ends `x`, and `t` waits for nobody else. */
  predicate EndsOnlyTarget(st: State, st': State, t: Tid, x: Tid) {
    x in st.live && x !in st'.live && forall e | e in st.wait && e.0 == t :: e.1 == x
  }

  ghost predicate EndsAllTargets(st: State, st': State, t: Tid) {
    exists x :: EndsOnlyTarget(st, st', t, x)
  }

  lemma ChangeWakesIff(st: State, st': State, t: Tid)
    requires Waits(st) && Changes(st, st') && Waiting(st.wait, t) && t in st'.live
    ensures !Waiting(st'.wait, t) <==> EndsAllTargets(st, st', t)
  {
    var e :| e in st.wait && e.0 == t;
    if Extends(st, st') {
      assert e in st'.wait;
    } else {
      var ts :| Ends(st, st', ts);
      assert t !in ts;
      assert e in st'.wait <==> forall x | x in ts :: HasOtherTarget(st.wait, t, x);
      if x :| x in ts && !HasOtherTarget(st.wait, t, x) {
        assert EndsOnlyTarget(st, st', t, x);
      }
      if x :| EndsOnlyTarget(st, st', t, x) {
        assert x in ts && !HasOtherTarget(st.wait, t, x);
      }
    }
  }

  /** Exactly when a change of a run makes a transaction stop waiting. */
  lemma WakesIff(ms: seq<Moment>, es: seq<Event>, k: nat, t: Tid)
    requires Course(ms, es) && k < |es| && Waiting(ms[k].st.wait, t) && t in ms[k + 1].st.live
    ensures !Waiting(ms[k + 1].st.wait, t) <==> EndsAllTargets(ms[k].st, ms[k + 1].st, t)
  {
    CourseKeeps(ms, es, k);
    MicroChanges(ms[k], es[k], ms[k + 1]);
    ChangeWakesIff(ms[k].st, ms[k + 1].st, t);
  }

  // ----- Never waking -----

  ghost predicate TwoTargets(st: State, t: Tid, u: Tid, w: Tid) {
    t in st.begun && (t in st.live ==> (t, u) in st.wait && (t, w) in st.wait)
  }

  lemma ChangeKeepsTwo(st: State, st': State, t: Tid, u: Tid, w: Tid)
    requires Changes(st, st') && u != w && Grows(st, st', t) && TwoTargets(st, t, u, w)
    ensures TwoTargets(st', t, u, w)
  {
    if t in st'.live && !Extends(st, st') {
      var ts :| Ends(st, st', ts);
      forall x | x in ts ensures HasOtherTarget(st.wait, t, x) {
        assert (t, u) in st.wait && (t, w) in st.wait && ((t, u).1 != x || (t, w).1 != x);
      }
    }
  }

  lemma LinkKeepsTwo(ms: seq<Moment>, es: seq<Event>, k: nat, t: Tid, u: Tid, w: Tid)
    requires Chain(ms, es) && Sane(ms) && k < |es| && u != w && TwoTargets(ms[k].st, t, u, w)
    ensures TwoTargets(ms[k + 1].st, t, u, w)
  {
    MicroChanges(ms[k], es[k], ms[k + 1]);
    MicroGrows(ms[k], es[k], ms[k + 1], t);
    ChangeKeepsTwo(ms[k].st, ms[k + 1].st, t, u, w);
  }

  lemma {:induction false} ChainKeepsTwo(ms: seq<Moment>, es: seq<Event>, i: nat, j: nat, t: Tid, u: Tid, w: Tid)
    requires Chain(ms, es) && Sane(ms) && i <= j < |ms| && u != w && TwoTargets(ms[i].st, t, u, w)
    ensures TwoTargets(ms[j].st, t, u, w)
  {
    if i < j {
      ChainKeepsTwo(ms, es, i, j - 1, t, u, w);
      LinkKeepsTwo(ms, es, j - 1, t, u, w);
    }
  }

  /** A transaction that waits for two others waits for both as long as it lives, whatever becomes of them. */
  lemma TwoTargetsForever(ms: seq<Moment>, es: seq<Event>, i: nat, j: nat, t: Tid, u: Tid, w: Tid)
    requires Course(ms, es) && i <= j < |ms| && u != w
    requires (t, u) in ms[i].st.wait && (t, w) in ms[i].st.wait && t in ms[j].st.live
    ensures (t, u) in ms[j].st.wait && (t, w) in ms[j].st.wait && !Runnable(ms[j].st, t)
  {
    CourseSane(ms, es);
    assert InvWhile(ms[i].st, ms[i].done);
    ChainKeepsTwo(ms, es, i, j, t, u, w);
  }

  /** An edge to a transaction that is gone is never the only one of its source. */
  ghost predicate Accompanied(st: State) {
    forall e | e in st.wait && e.1 !in st.live :: HasOtherTarget(st.wait, e.0, e.1)
  }

  lemma ChangeKeepsAccompanied(st: State, st': State)
    requires Changes(st, st') && Accompanied(st)
    ensures Accompanied(st')
  {
    forall e | e in st'.wait && e.1 !in st'.live ensures HasOtherTarget(st'.wait, e.0, e.1) {
      if Extends(st, st') {
        var f :| f in st.wait && f.0 == e.0 && f.1 != e.1;
        assert f in st'.wait;
      } else {
        var ts :| Ends(st, st', ts);
        assert HasOtherTarget(st.wait, e.0, e.1);
        var f :| f in st.wait && f.0 == e.0 && f.1 != e.1;
        assert EdgeStays(st.wait, ts, f);
      }
    }
  }

  lemma {:induction false} ChainAccompanied(ms: seq<Moment>, es: seq<Event>, k: nat)
    requires Chain(ms, es) && Sane(ms) && k < |ms| && Accompanied(ms[0].st)
    ensures Accompanied(ms[k].st)
  {
    if k > 0 {
      ChainAccompanied(ms, es, k - 1);
      LinkAccompanied(ms, es, k);
    }
  }

  lemma LinkAccompanied(ms: seq<Moment>, es: seq<Event>, k: nat)
    requires Chain(ms, es) && Sane(ms) && 0 < k < |ms|
    ensures Accompanied(ms[k - 1].st) ==> Accompanied(ms[k].st)
  {
    var i := k - 1;
    MicroChanges(ms[i], es[i], ms[i + 1]);
    if Accompanied(ms[i].st) {
      ChangeKeepsAccompanied(ms[i].st, ms[i + 1].st);
    }
  }

  /**
    * A stale edge keeps its source waiting for ever: whoever waits for a transaction that is gone
    * is not runnable at any later moment of its life.
    */
  lemma StaleEdgeForever(ms: seq<Moment>, es: seq<Event>, i: nat, j: nat, t: Tid, x: Tid)
    requires Course(ms, es) && i <= j < |ms|
    requires (t, x) in ms[i].st.wait && x !in ms[i].st.live && t in ms[j].st.live
    ensures (t, x) in ms[j].st.wait && !Runnable(ms[j].st, t)
  {
    CourseSane(ms, es);
    ChainAccompanied(ms, es, i);
    assert HasOtherTarget(ms[i].st.wait, t, x);
    var f :| f in ms[i].st.wait && f.0 == t && f.1 != x;
    assert f == (t, f.1);
    TwoTargetsForever(ms, es, i, j, t, x, f.1);
  }

  // ----- The final loop -----

  lemma {:induction false} MetNobody(st: State, ts: seq<Tid>)
    requires forall t | t in ts :: !Runnable(st, t)
    ensures Met(st, ts) == Next(st)
  {
    if ts != [] {
      assert forall t | t in ts[1..] :: t in ts;
      MetNobody(st, ts[1..]);
    }
  }

  lemma FirstRunnable(st: State, order: seq<Tid>) returns (j: nat)
    requires exists t :: t in order && Runnable(st, t)
    ensures j < |order| && Runnable(st, order[j]) && forall i | 0 <= i < j :: !Runnable(st, order[i])
  {
    j := 0;
    while !Runnable(st, order[j])
      invariant j < |order| && forall i | 0 <= i < j :: !Runnable(st, order[i])
      decreases |order| - j
    {
      j := j + 1;
    }
  }

  /** A drain that runs an entry erases one. */
  lemma RunnableErased(st: State, order: seq<Tid>)
    requires Inv(st) && Distinct(order) && (set t | t in order) == st.queue.Keys
    requires exists t :: t in order && Runnable(st, t)
    ensures Drain(st, order, {}) != Next(st)
  {
    var j := FirstRunnable(st, order);
    MetNobody(st, order[..j]);
    assert order[j] in (set t | t in order);
    if Drain(st, order, {}).Next? {
      DrainExact(st, order, {}, j);
    }
  }

  /** A resolution that breaks a cycle ends somebody, whom the drain does not bring back. */
  lemma CycleEndsSomebody(st: State, order: seq<Tid>)
    requires Inv(st) && HasCycle(st.wait) && MeetsAll(st, Input(None, order))
    ensures Step(st, Input(None, order)) != Next(st)
  {
    var victims := ResolutionIsMinimal(st);
    if victims == {} {
      AbortNobody(st);
    }
    var x :| x in victims;
    var resolved := Abort(st, victims);
    assert Step(st, Input(None, order)) == Drain(resolved, order, {});
    AbortKeeps(st, victims, {});
    DrainRevivesNobody(resolved, order, x);
  }

  lemma RoundIdle(st: State, order: seq<Tid>)
    requires !HasCycle(st.wait) && Distinct(order) && (set t | t in order) == st.queue.Keys
    requires forall t | t in st.queue :: !Runnable(st, t)
    ensures MeetsAll(st, Input(None, order)) && Step(st, Input(None, order)) == Next(st)
  {
    assert BeforeDrain(st, None) == ToDrain(st);
    forall t | t in order ensures !Runnable(st, t) {
      assert t in (set u | u in order);
    }
    DrainNobody(st, order, {});
    assert st.(queue := st.queue - {}) == st;
  }

  /**
    * Exactly when a round of the final loop changes nothing: no deadlock is left, and every queued
    * transaction waits, for another or for a site.
    */
  lemma RoundIdleIff(st: State, order: seq<Tid>)
    requires Inv(st) && MeetsAll(st, Input(None, order))
    ensures Step(st, Input(None, order)) == Next(st) <==>
              !HasCycle(st.wait) && forall t | t in st.queue :: !AwaitsNothing(st, t)
  {
    if HasCycle(st.wait) {
      CycleEndsSomebody(st, order);
    } else {
      assert BeforeDrain(st, None) == ToDrain(st);
      if forall t | t in st.queue :: !Runnable(st, t) {
        RoundIdle(st, order);
      } else {
        var t :| t in st.queue && Runnable(st, t);
        assert t in (set u | u in order);
        RunnableErased(st, order);
      }
    }
  }
}
