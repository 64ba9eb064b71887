/** Every primitive change of the state keeps the wait-for graph justified, ages distinct and the queue well formed. */
module SchedLemmas {
  import opened Base
  import opened Model
  import opened Locking
  import opened Execution
  import opened Invariant
  import opened LockLemmas
  import opened DataLemmas

  // ----- Wait-for graph -----

  /** Edges only disappear, and the locks that justify them stay while their holders live. */
  lemma FrameWaits(st: State, st': State)
    requires Waits(st)
    requires st'.wait <= st.wait && st.asked <= st'.asked && st.begun <= st'.begun
    requires forall e | e in st'.wait :: e.0 in st'.live
    requires forall t | t in st'.live && t in st.begun :: t in st.live
    requires forall p: Replica, t | t in st'.live && Holds(st.reps[p], t) :: Holds(st'.reps[p], t)
    ensures Waits(st')
  {
    forall e | e in st'.wait && e.1 in st'.live ensures Justified(st', e) {
      assert Justified(st, e);
      var v: VarId :| (e.0, v) in st.asked && HoldsVar(st, e.1, v);
      var s: SiteId :| Holds(st.reps[(s, v)], e.1);
      assert HoldsVar(st', e.1, v);
    }
  }

  lemma AbortSched(st: State, ts: set<Tid>, done: set<Tid>)
    requires Tabled(st) && SchedInv(st, done)
    ensures SchedInv(Abort(st, ts), done)
  {
    var st' := Abort(st, ts);
    AbortEffect(st, ts);
    FrameWaits(st, st');
    FrameQueue(st, st', done);
  }

  /** New edges of a blocked transaction point at holders of the variable it asked for. */
  lemma AddWaitsSched(st: State, t: Tid, v: VarId, owners: set<Tid>, done: set<Tid>)
    requires LockInv(st, {}) && SchedInv(st, done)
    requires t in st.live && (t, v) in st.asked
    requires forall w | w in owners :: HoldsVar(st, w, v)
    ensures SchedInv(AddWaits(st, t, owners), done)
  {
    var st' := AddWaits(st, t, owners);
    forall e | e in st'.wait
      ensures e.0 in st'.live && e.1 in st'.begun && (e.1 in st'.live ==> Justified(st', e))
    {
      if e in st.wait {
        if e.1 in st.live {
          assert Justified(st, e);
          var v': VarId :| (e.0, v') in st.asked && HoldsVar(st, e.1, v');
          assert HoldsVar(st', e.1, v');
        }
      } else {
        assert e.0 == t && e.1 in owners;
        var s: SiteId :| Holds(st.reps[(s, v)], e.1);
        assert Covered(st, e.1, (s, v));
        assert HoldsVar(st', e.1, v);
      }
    }
    FrameQueue(st, st', done);
  }

  // ----- Blocked queue -----

  lemma FrameQueue(st: State, st': State, done: set<Tid>)
    requires QueueInv(st, done)
    requires forall t | t in st'.queue :: t in st.queue && st'.queue[t] == st.queue[t]
    requires forall t | t in st'.queue && t in st.live && t !in done :: t in st'.live && st'.live[t].ro == st.live[t].ro
    requires st.now <= st'.now && st.asked <= st'.asked && st.ended <= st'.ended
    ensures QueueInv(st', done)
  {
    forall t | t in st'.queue && t !in done ensures t in st'.live && QueuedFor(st', t, st'.queue[t]) {
      assert QueuedFor(st, t, st.queue[t]);
    }
  }

  /** `r` may enter the queue of its transaction: it is there already, or it is newer than all and none is an End. */
  predicate Fits(st: State, r: Request)
    requires r.OfTran()
  {
    r.t in st.queue ==>
      || (exists i :: 0 <= i < |st.queue[r.t]| && st.queue[r.t][i].ts == r.ts)
      || (forall i :: 0 <= i < |st.queue[r.t]| ==> st.queue[r.t][i].ts < r.ts && !st.queue[r.t][i].End?)
  }

  lemma {:induction false} InsertKnown(q: seq<Request>, r: Request, i: nat)
    requires i < |q| && q[i].ts == r.ts && forall j | 0 <= j < i :: q[j].ts < r.ts
    ensures InsertByTime(q, r) == q
  {
    if i > 0 {
      InsertKnown(q[1..], r, i - 1);
      assert q == [q[0]] + q[1..];
    }
  }

  lemma {:induction false} InsertNewest(q: seq<Request>, r: Request)
    requires forall i :: 0 <= i < |q| ==> q[i].ts < r.ts
    ensures InsertByTime(q, r) == q + [r]
  {
    if q != [] {
      InsertNewest(q[1..], r);
      assert q == [q[0]] + q[1..];
    }
  }

  lemma EnqueueSched(st: State, r: Request, done: set<Tid>)
    requires SchedInv(st, done) && (r.Read? || r.Write? || r.End?)
    requires r.t in done || (r.t in st.live && Issued(st, r) && Fits(st, r) && MayQueue(st.live, r))
    ensures SchedInv(Enqueue(st, r), done)
  {
    var st' := Enqueue(st, r);
    FrameWaits(st, st');
    forall t | t in st'.queue && t !in done ensures t in st'.live && QueuedFor(st', t, st'.queue[t]) {
      if t != r.t {
        assert QueuedFor(st, t, st.queue[t]);
      } else if r.t !in st.queue {
        assert st'.queue[t] == [r];
      } else {
        var q := st.queue[t];
        assert QueuedFor(st, t, q);
        if i :| 0 <= i < |q| && q[i].ts == r.ts {
          InsertKnown(q, r, i);
        } else {
          InsertNewest(q, r);
        }
      }
    }
  }

  // ----- The other primitives -----

  /** A change of locks only upwards, of buffers and histories, or of the data. */
  lemma FrameSched(st: State, st': State, done: set<Tid>)
    requires SchedInv(st, done)
    requires st'.wait == st.wait && st'.queue == st.queue && st'.begun == st.begun && st'.ended == st.ended
    requires st'.asked == st.asked && st'.now == st.now
    requires st'.siteWait.Keys <= st.begun
    requires st'.live.Keys == st.live.Keys
    requires forall t | t in st.live :: st'.live[t].ts == st.live[t].ts && st'.live[t].ro == st.live[t].ro
    requires forall p: Replica, t | Holds(st.reps[p], t) :: Holds(st'.reps[p], t)
    ensures SchedInv(st', done)
  {
    FrameWaits(st, st');
    FrameQueue(st, st', done);
  }

  lemma BeginSched(st: State, ts: int, t: Tid, ro: bool, done: set<Tid>)
    requires SchedInv(st, done) && t !in st.begun && 0 <= ts <= st.now
    requires forall u | u in st.live :: st.live[u].ts < ts
    ensures SchedInv(BeginTran(st, ts, t, ro), done)
  {
    var st' := BeginTran(st, ts, t, ro);
    FrameWaits(st, st');
    FrameQueue(st, st', done);
  }

  lemma GrantingSched(st: State, t: Tid, sites: set<SiteId>, v: VarId, val: int, done: set<Tid>)
    requires SchedInv(st, done) && Grantable(st, t, v, sites)
    ensures SchedInv(Granting(st, t, sites, v, val), done)
  {
    var st' := Granting(st, t, sites, v, val);
    GrantingEffect(st, t, sites, v, val);
    HoldersStay(st, st', t, sites, v);
    FrameSched(st, st', done);
  }

  lemma RequeueSched(st: State, queue: map<Tid, seq<Request>>, t: Tid, done: set<Tid>)
    requires SchedInv(st, done) && st.queue == queue - {t}
    requires t in done || t !in queue
    ensures SchedInv(st.(queue := queue), done)
  {
    var st' := st.(queue := queue);
    FrameWaits(st, st');
    forall u | u in st'.queue && u !in done ensures u in st'.live && QueuedFor(st', u, st'.queue[u]) {
      assert u in st.queue && st.queue[u] == queue[u];
      assert QueuedFor(st, u, st.queue[u]);
    }
  }

  /** A committed transaction may stay in the queue only while the drain is about to erase its entry. */
  lemma CommitSched(st: State, t: Tid, time: int, done: set<Tid>)
    requires LockInv(st, {}) && SchedInv(st, done) && t in st.live && Validates(st, st.live[t])
    requires t in done || t !in st.queue
    ensures SchedInv(EndTran(st, t, time), done)
  {
    var mid := Committed(st, t, time);
    InstallLocks(st, t, time);
    CommittedSched(st, t, time, done);
    AbortSched(mid, {t}, done);
    CommitIsInstallThenAbort(st, t, time);
    RequeueSched(Abort(mid, {t}), st.queue, t, done);
  }

  lemma CommittedSched(st: State, t: Tid, time: int, done: set<Tid>)
    requires SchedInv(st, done) && t in st.live
    ensures SchedInv(Committed(st, t, time), done)
  {
    FrameSched(st, Committed(st, t, time), done);
  }
}
