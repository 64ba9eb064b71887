/** Every primitive change of the state keeps the lock invariant. */
module LockLemmas {
  import opened Base
  import opened Model
  import opened Locking
  import opened Execution
  import opened Invariant

  /** Under the invariant `Release` clears exactly the locks of `ts`. */
  lemma ReleaseClears(st: State, ts: set<Tid>)
    requires Tabled(st)
    ensures forall p: Replica, t | t in ts :: !Holds(Release(st, ts).reps[p], t)
    ensures forall p: Replica, u | u !in ts :: Holds(Release(st, ts).reps[p], u) <==> Holds(st.reps[p], u)
    ensures forall p: Replica, u | u !in ts :: Release(st, ts).reps[p].excl == Some(u) <==> st.reps[p].excl == Some(u)
    ensures forall p: Replica :: Release(st, ts).reps[p].shared == st.reps[p].shared - ts
  {
    forall p: Replica, t | Holds(st.reps[p], t) ensures Covered(st, t, p) {
    }
  }

  /** What `Abort` does to the fields that the lock invariant reads. */
  ghost predicate Aborted(st: State, st': State, ts: set<Tid>) {
    && st'.up == st.up && st'.readable == st.readable
    && st'.live == st.live - ts
    && st'.locks == st.locks - ts
    && (forall p: Replica, t | t in ts :: !Holds(st'.reps[p], t))
    && (forall p: Replica, u | u !in ts :: Holds(st'.reps[p], u) <==> Holds(st.reps[p], u))
    && (forall p: Replica, u | u !in ts :: st'.reps[p].excl == Some(u) <==> st.reps[p].excl == Some(u))
    && (forall p: Replica :: st'.reps[p].shared == st.reps[p].shared - ts)
  }

  lemma AbortEffect(st: State, ts: set<Tid>)
    requires Tabled(st)
    ensures Aborted(st, Abort(st, ts), ts)
  {
    var mid := st.(live := st.live - ts, queue := st.queue - ts);
    assert forall p: Replica :: ReleaseRep(mid, ts, p) == ReleaseRep(st, ts, p);
    assert Abort(st, ts).reps == Release(st, ts).reps;
    ReleaseClears(st, ts);
  }

  lemma AbortedOwners(st: State, st': State, ts: set<Tid>)
    requires Aborted(st, st', ts) && OwnersBuffer(st) && BuffersOwned(st)
    ensures OwnersBuffer(st') && BuffersOwned(st')
  {
    forall p: Replica | st'.reps[p].excl.Some? ensures st'.reps[p].excl.value in st'.live {
      assert Holds(st'.reps[p], st'.reps[p].excl.value);
    }
  }

  lemma AbortedSingle(st: State, st': State, ts: set<Tid>)
    requires Aborted(st, st', ts)
    requires forall p: Replica :: SingleHolder(st.reps[p], st.live)
    ensures forall p: Replica :: SingleHolder(st'.reps[p], st'.live)
  {
    forall p: Replica ensures SingleHolder(st'.reps[p], st'.live) {
      assert SingleHolder(st.reps[p], st.live);
      if st'.reps[p].excl.Some? {
        var u := st'.reps[p].excl.value;
        assert Holds(st'.reps[p], u);
        assert st.reps[p].excl == Some(u);
      }
    }
  }

  lemma AbortedTabled(st: State, st': State, ts: set<Tid>)
    requires Aborted(st, st', ts) && Tabled(st)
    ensures Tabled(st')
  {
    forall p: Replica, t | Holds(st'.reps[p], t) ensures Covered(st', t, p) {
      assert t !in ts;
      assert Covered(st, t, p);
    }
  }

  lemma AbortedBuffers(st: State, st': State, ts: set<Tid>)
    requires Aborted(st, st', ts)
    requires BuffersUp(st.live, st.up, ts) && OneWriter(st.live) && WriterCoversReadable(st.live, st.readable)
    ensures BuffersUp(st'.live, st'.up, {}) && OneWriter(st'.live) && WriterCoversReadable(st'.live, st'.readable)
  {
    assert forall t | t in st'.live :: t in st.live && t !in ts && st'.live[t] == st.live[t];
  }

  lemma AbortLocks(st: State, ts: set<Tid>)
    requires LockInv(st, ts)
    ensures LockInv(Abort(st, ts), {})
  {
    var st' := Abort(st, ts);
    AbortEffect(st, ts);
    AbortedOwners(st, st', ts);
    AbortedSingle(st, st', ts);
    AbortedTabled(st, st', ts);
    AbortedBuffers(st, st', ts);
  }

  /** A change that touches no lock, no lock table and no write buffer. */
  ghost predicate SameLocks(st: State, st': State) {
    && st'.locks == st.locks
    && st'.live.Keys == st.live.Keys
    && (forall t | t in st.live :: st'.live[t].writes == st.live[t].writes && st'.live[t].ro == st.live[t].ro)
    && (forall p: Replica :: st'.reps[p].excl == st.reps[p].excl && st'.reps[p].shared == st.reps[p].shared)
  }

  lemma FrameHolders(st: State, st': State)
    requires SameLocks(st, st') && OwnersBuffer(st) && BuffersOwned(st) && Tabled(st)
    requires forall p: Replica :: SingleHolder(st.reps[p], st.live)
    ensures OwnersBuffer(st') && BuffersOwned(st') && Tabled(st')
    ensures forall p: Replica :: SingleHolder(st'.reps[p], st'.live)
  {
    forall p: Replica ensures SingleHolder(st'.reps[p], st'.live) {
      assert SingleHolder(st.reps[p], st.live);
    }
    forall p: Replica, u | Holds(st'.reps[p], u) ensures Covered(st', u, p) {
      assert Holds(st.reps[p], u) && Covered(st, u, p);
    }
  }

  lemma FrameBuffers(st: State, st': State, doomed: set<Tid>, doomed': set<Tid>)
    requires SameLocks(st, st') && BuffersUp(st.live, st.up, doomed) && OneWriter(st.live)
    requires forall t, p | t in st.live && t !in doomed' && p in st.live[t].writes && p.0 in st.up :: p.0 in st'.up
    requires doomed <= doomed'
    ensures BuffersUp(st'.live, st'.up, doomed') && OneWriter(st'.live)
  {
  }

  /** The whole lock invariant survives a change that leaves its fields alone. */
  lemma FrameLocks(st: State, st': State)
    requires LockInv(st, {}) && SameLocks(st, st') && st'.up == st.up && st'.readable == st.readable
    ensures LockInv(st', {})
  {
    FrameHolders(st, st');
    FrameBuffers(st, st', {}, {});
  }

  lemma TakeDownLocks(st: State, s: SiteId)
    requires LockInv(st, {})
    ensures LockInv(TakeDown(st, s), Writers(st, s))
  {
    var st' := TakeDown(st, s);
    FrameHolders(st, st');
    FrameBuffers(st, st', {}, Writers(st, s));
  }

  lemma FailLocks(st: State, s: SiteId)
    requires LockInv(st, {})
    ensures LockInv(FailSite(st, s), {})
  {
    TakeDownLocks(st, s);
    AbortLocks(TakeDown(st, s), Writers(st, s));
  }

  /** Recovery makes readable exactly the odd variables whose home is the site. */
  lemma RestoredExact(s: SiteId)
    ensures forall p: Replica :: p in Restored(s) <==> p.0 == s && Odd(p.1) && Home(p.1) == s
  {
  }

  lemma RecoverLocks(st: State, s: SiteId)
    requires LockInv(st, {})
    ensures LockInv(RecoverSite(st, s), {})
  {
    var st' := RecoverSite(st, s);
    RestoredExact(s);
    FrameHolders(st, st');
    FrameBuffers(st, st', {}, {});
  }

  lemma BeginHolders(st: State, ts: int, t: Tid, ro: bool)
    requires t !in st.live && OwnersBuffer(st) && BuffersOwned(st) && Tabled(st)
    requires forall p: Replica :: SingleHolder(st.reps[p], st.live)
    ensures var st' := BeginTran(st, ts, t, ro);
      && OwnersBuffer(st') && BuffersOwned(st') && Tabled(st')
      && forall p: Replica :: SingleHolder(st'.reps[p], st'.live)
  {
    var st' := BeginTran(st, ts, t, ro);
    forall p: Replica ensures SingleHolder(st'.reps[p], st'.live) {
      assert SingleHolder(st.reps[p], st.live);
    }
    forall p: Replica, u | Holds(st'.reps[p], u) ensures Covered(st', u, p) {
      assert Covered(st, u, p);
    }
  }

  lemma BeginLocks(st: State, ts: int, t: Tid, ro: bool)
    requires LockInv(st, {}) && t !in st.live
    ensures LockInv(BeginTran(st, ts, t, ro), {})
  {
    BeginHolders(st, ts, t, ro);
    BeginBuffers(st.live, st.live[t := Tran(ts, ro, map[], map[])], t, st.up, st.readable);
  }

  lemma BeginBuffers(live: map<Tid, Tran>, live': map<Tid, Tran>, t: Tid, up: set<SiteId>, readable: set<Replica>)
    requires t !in live && live'.Keys == live.Keys + {t} && live'[t].writes == map[]
    requires forall u | u in live :: live'[u] == live[u]
    requires BuffersUp(live, up, {}) && OneWriter(live) && WriterCoversReadable(live, readable)
    ensures BuffersUp(live', up, {}) && OneWriter(live') && WriterCoversReadable(live', readable)
  {
    forall u, p | u in live' && p in live'[u].writes ensures u in live && p in live[u].writes {
    }
  }

  // ----- Lock acquisition -----

  /** The sites where a grant on `v` takes effect. */
  function Targets(st: State, v: VarId): set<SiteId> {
    if Odd(v) then st.up * {Home(v)} else st.up
  }

  /** No other transaction, and not `t` exclusively, holds the replica. */
  predicate FreeFor(rep: Rep, t: Tid) {
    rep.excl == None && rep.shared <= {t}
  }

  predicate Granted(a: LockStatus) {
    a.status == HasReadLock || a.status == AvailableToAssign
  }

  /** What `try_acquire_write_lock` promises when every replica has at most one holder. */
  ghost predicate Sound(st: State, t: Tid, v: VarId, a: LockStatus) {
    && (Granted(a) ==> a.sites == Targets(st, v) && forall s | s in a.sites :: FreeFor(st.reps[(s, v)], t))
    && (a.status == AvailableToAssign ==> forall s | s in a.sites :: st.reps[(s, v)].shared == {})
    && (!Granted(a) ==> a.sites == {})
    && (a.status == NeedToWait ==> a.owners != {} && forall w | w in a.owners :: HoldsVar(st, w, v))
    && (a.status == HasWriteLock ==> exists s | s in Targets(st, v) :: st.reps[(s, v)].excl == Some(t))
    && (a.status == SiteUnavailable ==> Odd(v))
    && a.status != HasReadWriteLock
  }

  lemma BlockersHold(st: State, t: Tid, v: VarId, s: SiteId)
    requires SingleHolder(st.reps[(s, v)], st.live)
    ensures forall w | w in Blockers(st.reps[(s, v)], t) :: HoldsVar(st, w, v)
    ensures Blocks(st.reps[(s, v)], t) ==> Blockers(st.reps[(s, v)], t) != {}
  {
    var rep := st.reps[(s, v)];
    forall w | w in Blockers(rep, t) ensures HoldsVar(st, w, v) {
      assert Holds(rep, w);
    }
  }

  /** What the scan has gathered from the sites before `s`. */
  ghost predicate Gathered(st: State, t: Tid, v: VarId, s: int, status: Status, sites: set<SiteId>) {
    && (forall i: SiteId :: i in sites <==> i < s && i in st.up)
    && (forall i | i in sites :: FreeFor(st.reps[(i, v)], t))
    && (status == AvailableToAssign ==> forall i | i in sites :: st.reps[(i, v)].shared == {})
    && (status == HasReadLock || status == AvailableToAssign)
  }

  lemma {:induction false} ScanSound(st: State, t: Tid, v: VarId, s: int, status: Status, sites: set<SiteId>)
    requires forall p: Replica :: SingleHolder(st.reps[p], st.live)
    requires !Odd(v) && 1 <= s <= SITE_COUNT + 1
    requires Gathered(st, t, v, s, status, sites)
    ensures Sound(st, t, v, AcquireFrom(st, t, v, s, status, sites))
    decreases SITE_COUNT + 1 - s
  {
    if s > SITE_COUNT {
      assert sites == st.up;
    } else if s !in st.up {
      ScanSound(st, t, v, s + 1, status, sites);
    } else {
      var rep := st.reps[(s, v)];
      assert SingleHolder(rep, st.live);
      if Upgradable(st, t, rep) && !ExclusiveToOther(rep, t) {
        ScanSound(st, t, v, s + 1, HasReadLock, sites + {s});
      } else if Blocks(rep, t) {
        BlockersHold(st, t, v, s);
      } else if rep.excl == Some(t) {
        assert s in Targets(st, v);
      } else {
        ScanSound(st, t, v, s + 1, status, sites + {s});
      }
    }
  }

  lemma AcquireSound(st: State, t: Tid, v: VarId)
    requires forall p: Replica :: SingleHolder(st.reps[p], st.live)
    ensures Sound(st, t, v, Acquire(st, t, v))
  {
    if Odd(v) {
      assert SingleHolder(st.reps[(Home(v), v)], st.live);
      BlockersHold(st, t, v, Home(v));
    } else {
      ScanSound(st, t, v, 1, AvailableToAssign, {});
    }
  }

  // ----- Grants -----

  /** A granted lock shuts out every other writer of the variable. */
  lemma NoOtherBuffer(st: State, t: Tid, v: VarId)
    requires LockInv(st, {})
    requires forall s | s in Targets(st, v) :: FreeFor(st.reps[(s, v)], t)
    ensures forall u, p | u in st.live && p in st.live[u].writes :: p.1 != v
  {
    forall u, p | u in st.live && p in st.live[u].writes ensures p.1 != v {
      assert st.reps[p].excl == Some(u) && p.0 in st.up;
      assert Covered(st, u, p) by {
        assert Holds(st.reps[p], u);
      }
      assert p == (p.0, p.1);
      assert p.1 == v ==> p.0 in Targets(st, v);
    }
  }

  ghost predicate Grantable(st: State, t: Tid, v: VarId, sites: set<SiteId>) {
    && t in st.live
    && sites == Targets(st, v)
    && (forall s | s in sites :: FreeFor(st.reps[(s, v)], t))
  }

  function Granting(st: State, t: Tid, sites: set<SiteId>, v: VarId, val: int): State
    requires t in st.live
  {
    AssignWrite(Buffer(st, t, sites, v, val), t, sites, v)
  }

  /** What a granted write does to the fields that the lock invariant reads. */
  ghost predicate Written(st: State, st': State, t: Tid, sites: set<SiteId>, v: VarId, val: int)
    requires t in st.live
  {
    && st'.up == st.up && st'.readable == st.readable
    && st'.live.Keys == st.live.Keys
    && (forall u | u in st.live && u != t :: st'.live[u] == st.live[u])
    && st'.live[t].ro == st.live[t].ro
    && (forall p: Replica :: p in st'.live[t].writes <==> p in st.live[t].writes || (p.1 == v && p.0 in sites))
    && (forall p | p in st'.live[t].writes ::
          st'.live[t].writes[p] == if p.1 == v && p.0 in sites then val else st.live[t].writes[p])
  }

  ghost predicate Locked(st: State, st': State, t: Tid, sites: set<SiteId>, v: VarId) {
    && (forall p: Replica :: st'.reps[p] ==
          if p.1 == v && p.0 in sites then st.reps[p].(shared := {}, excl := Some(t)) else st.reps[p])
    && (forall u | u in st.locks :: u in st'.locks && st.locks[u] <= st'.locks[u])
    && (sites != {} ==> t in st'.locks && v in st'.locks[t])
    && st'.locks.Keys <= st.locks.Keys + {t}
  }

  lemma BufferEffect(st: State, t: Tid, sites: set<SiteId>, v: VarId, val: int)
    requires t in st.live
    ensures Written(st, Buffer(st, t, sites, v, val), t, sites, v, val)
    ensures Buffer(st, t, sites, v, val).live[t].history == st.live[t].history
    ensures Buffer(st, t, sites, v, val).live[t].ts == st.live[t].ts
  {
    var added := map s | s in sites :: (s, v) := val;
    forall p: Replica ensures p in added <==> p.1 == v && p.0 in sites {
      assert p == (p.0, p.1);
    }
    assert Buffer(st, t, sites, v, val).live[t].writes == st.live[t].writes + added;
  }

  lemma AssignEffect(st: State, t: Tid, sites: set<SiteId>, v: VarId)
    requires sites <= st.up
    requires forall s | s in sites :: FreeFor(st.reps[(s, v)], t)
    ensures Locked(st, AssignWrite(st, t, sites, v), t, sites, v)
  {
    forall p: Replica | p.1 == v && p.0 in sites
      ensures GrantExclusive(st.reps[p], t) == st.reps[p].(shared := {}, excl := Some(t))
    {
      assert p == (p.0, p.1);
      assert FreeFor(st.reps[(p.0, v)], t);
      assert st.reps[p].shared - {t} == {};
    }
    assert sites * st.up == sites;
  }

  lemma GrantingEffect(st: State, t: Tid, sites: set<SiteId>, v: VarId, val: int)
    requires Grantable(st, t, v, sites)
    ensures Written(st, Granting(st, t, sites, v, val), t, sites, v, val)
    ensures Locked(st, Granting(st, t, sites, v, val), t, sites, v)
    ensures var st' := Granting(st, t, sites, v, val);
      st'.live[t] == st.live[t].(writes := st'.live[t].writes)
  {
    BufferEffect(st, t, sites, v, val);
    AssignEffect(Buffer(st, t, sites, v, val), t, sites, v);
  }

  /** A grant takes no lock from anybody. */
  lemma HoldersStay(st: State, st': State, t: Tid, sites: set<SiteId>, v: VarId)
    requires Locked(st, st', t, sites, v) && forall s | s in sites :: FreeFor(st.reps[(s, v)], t)
    ensures forall p: Replica, u | Holds(st.reps[p], u) :: Holds(st'.reps[p], u)
  {
    forall p: Replica, u | Holds(st.reps[p], u) ensures Holds(st'.reps[p], u) {
      assert p == (p.0, p.1);
      if p.1 == v && p.0 in sites {
        assert FreeFor(st.reps[(p.0, v)], t);
      }
    }
  }

  lemma GrantingOwners(st: State, st': State, t: Tid, sites: set<SiteId>, v: VarId, val: int)
    requires t in st.live && Written(st, st', t, sites, v, val) && Locked(st, st', t, sites, v)
    requires OwnersBuffer(st) && BuffersOwned(st)
    requires forall u, p | u in st.live && p in st.live[u].writes :: p.1 != v
    ensures OwnersBuffer(st') && BuffersOwned(st')
  {
  }

  lemma GrantingSingle(st: State, st': State, t: Tid, sites: set<SiteId>, v: VarId, val: int)
    requires t in st.live && Written(st, st', t, sites, v, val) && Locked(st, st', t, sites, v)
    requires forall p: Replica :: SingleHolder(st.reps[p], st.live)
    ensures forall p: Replica :: SingleHolder(st'.reps[p], st'.live)
  {
    forall p: Replica ensures SingleHolder(st'.reps[p], st'.live) {
      assert SingleHolder(st.reps[p], st.live);
    }
  }

  lemma GrantingTabled(st: State, st': State, t: Tid, sites: set<SiteId>, v: VarId)
    requires Locked(st, st', t, sites, v) && Tabled(st) && t in st.live && st'.live.Keys == st.live.Keys
    requires Odd(v) ==> sites <= {Home(v)}
    ensures Tabled(st')
  {
    forall p: Replica, u | Holds(st'.reps[p], u) ensures Covered(st', u, p) {
      if p.1 == v && p.0 in sites {
        assert u == t;
      } else {
        assert Covered(st, u, p);
      }
    }
  }

  lemma GrantingBuffers(st: State, st': State, t: Tid, sites: set<SiteId>, v: VarId, val: int)
    requires t in st.live && Written(st, st', t, sites, v, val)
    requires BuffersUp(st.live, st.up, {}) && sites <= st.up
    ensures BuffersUp(st'.live, st'.up, {})
  {
  }

  lemma GrantingOneWriter(st: State, st': State, t: Tid, sites: set<SiteId>, v: VarId, val: int)
    requires t in st.live && Written(st, st', t, sites, v, val) && OneWriter(st.live)
    requires forall u, p | u in st.live && p in st.live[u].writes :: p.1 != v
    ensures OneWriter(st'.live)
  {
    forall u, w, p, q |
      && u in st'.live && w in st'.live && p in st'.live[u].writes && q in st'.live[w].writes
      && p.1 == q.1 && !Odd(p.1)
      ensures u == w && st'.live[u].writes[p] == st'.live[w].writes[q]
    {
      if p.1 != v {
        assert p in st.live[u].writes && q in st.live[w].writes;
      } else {
        assert u == t && w == t;
      }
    }
  }

  lemma GrantingCovers(st: State, st': State, t: Tid, sites: set<SiteId>, v: VarId, val: int)
    requires t in st.live && Written(st, st', t, sites, v, val)
    requires Availability(st) && WriterCoversReadable(st.live, st.readable)
    requires forall u, p | u in st.live && p in st.live[u].writes :: p.1 != v
    requires !Odd(v) ==> sites == st.up
    ensures Availability(st') && WriterCoversReadable(st'.live, st'.readable)
  {
    forall u, p, q | u in st'.live && p in st'.live[u].writes && q in st'.readable && p.1 == q.1 && !Odd(p.1)
      ensures q in st'.live[u].writes
    {
      assert q.0 in st.up;
    }
  }

  lemma GrantingLocks(st: State, t: Tid, sites: set<SiteId>, v: VarId, val: int)
    requires LockInv(st, {}) && Grantable(st, t, v, sites)
    ensures LockInv(Granting(st, t, sites, v, val), {})
  {
    var st' := Granting(st, t, sites, v, val);
    GrantingEffect(st, t, sites, v, val);
    NoOtherBuffer(st, t, v);
    GrantingOwners(st, st', t, sites, v, val);
    GrantingSingle(st, st', t, sites, v, val);
    GrantingTabled(st, st', t, sites, v);
    GrantingBuffers(st, st', t, sites, v, val);
    GrantingOneWriter(st, st', t, sites, v, val);
    GrantingCovers(st, st', t, sites, v, val);
  }

  /** A second write to an odd variable that is already locked exclusively. */
  lemma RewriteHolders(st: State, st': State, t: Tid, v: VarId, val: int)
    requires t in st.live && (Home(v), v) in st.live[t].writes && Odd(v)
    requires Written(st, st', t, {Home(v)}, v, val) && st'.reps == st.reps && st'.locks == st.locks
    requires OwnersBuffer(st) && BuffersOwned(st) && Tabled(st)
    requires forall p: Replica :: SingleHolder(st.reps[p], st.live)
    ensures st'.live[t].writes.Keys == st.live[t].writes.Keys
    ensures OwnersBuffer(st') && BuffersOwned(st') && Tabled(st')
    ensures forall p: Replica :: SingleHolder(st'.reps[p], st'.live)
  {
    forall p: Replica ensures p in st'.live[t].writes <==> p in st.live[t].writes {
      assert p == (p.0, p.1);
    }
    forall p: Replica ensures SingleHolder(st'.reps[p], st'.live) {
      assert SingleHolder(st.reps[p], st.live);
    }
    forall p: Replica, u | Holds(st'.reps[p], u) ensures Covered(st', u, p) {
      assert Covered(st, u, p);
    }
  }

  lemma RewriteBuffers(st: State, st': State, t: Tid, v: VarId, val: int)
    requires t in st.live && Odd(v) && Written(st, st', t, {Home(v)}, v, val)
    requires st'.live[t].writes.Keys == st.live[t].writes.Keys
    requires BuffersUp(st.live, st.up, {}) && WriterCoversReadable(st.live, st.readable)
    ensures BuffersUp(st'.live, st'.up, {}) && WriterCoversReadable(st'.live, st'.readable)
  {
    forall u, p | u in st'.live ensures p in st'.live[u].writes <==> p in st.live[u].writes {
    }
  }

  lemma RewriteOneWriter(st: State, st': State, t: Tid, v: VarId, val: int)
    requires t in st.live && Odd(v) && Written(st, st', t, {Home(v)}, v, val) && OneWriter(st.live)
    ensures OneWriter(st'.live)
  {
    forall u, w, p, q |
      && u in st'.live && w in st'.live && p in st'.live[u].writes && q in st'.live[w].writes
      && p.1 == q.1 && !Odd(p.1)
      ensures u == w && st'.live[u].writes[p] == st'.live[w].writes[q]
    {
      assert p in st.live[u].writes && q in st.live[w].writes;
    }
  }

  lemma RewriteLocks(st: State, t: Tid, v: VarId, val: int)
    requires LockInv(st, {}) && Odd(v) && st.reps[(Home(v), v)].excl == Some(t)
    ensures t in st.live && (Home(v), v) in st.live[t].writes
    ensures LockInv(Buffer(st, t, {Home(v)}, v, val), {})
  {
    var st' := Buffer(st, t, {Home(v)}, v, val);
    BufferEffect(st, t, {Home(v)}, v, val);
    RewriteHolders(st, st', t, v, val);
    RewriteBuffers(st, st', t, v, val);
    RewriteOneWriter(st, st', t, v, val);
  }

  lemma ShareEffect(st: State, t: Tid, sites: set<SiteId>, v: VarId)
    ensures Shared(st, AssignShare(st, t, sites, v), t, sites, v)
  {
    var st' := AssignShare(st, t, sites, v);
    forall p: Replica
      ensures st'.reps[p] == if p.1 == v && p.0 in sites && p in st.readable
                             then st.reps[p].(shared := st.reps[p].shared + {t}) else st.reps[p]
    {
      assert p == (p.0, p.1);
    }
    ShareTable(st, t, sites, v);
  }

  lemma ShareTable(st: State, t: Tid, sites: set<SiteId>, v: VarId)
    ensures var locks := AssignShare(st, t, sites, v).locks;
      && (forall u | u in st.locks :: u in locks && st.locks[u] <= locks[u])
      && ((exists p: Replica :: p.1 == v && p.0 in sites && p in st.readable) ==> t in locks && v in locks[t])
      && locks.Keys <= st.locks.Keys + {t}
  {
    if p: Replica :| p.1 == v && p.0 in sites && p in st.readable {
      assert p == (p.0, p.1);
      assert p.0 in ReadableIn(st, sites, v);
    }
  }

  lemma ShareLocks(st: State, t: Tid, sites: set<SiteId>, v: VarId)
    requires LockInv(st, {}) && t in st.live && !st.live[t].ro
    requires sites == Targets(st, v)
    requires forall s | s in sites :: st.reps[(s, v)].excl == None && st.reps[(s, v)].shared == {}
    ensures LockInv(AssignShare(st, t, sites, v), {})
  {
    var st' := AssignShare(st, t, sites, v);
    ShareEffect(st, t, sites, v);
    ShareSingle(st, st', t, sites, v);
    ShareTabled(st, st', t, sites, v);
    ShareBuffers(st, st');
  }

  ghost predicate Shared(st: State, st': State, t: Tid, sites: set<SiteId>, v: VarId) {
    && st'.live == st.live && st'.readable == st.readable && st'.up == st.up
    && (forall p: Replica :: st'.reps[p] ==
          if p.1 == v && p.0 in sites && p in st.readable then st.reps[p].(shared := st.reps[p].shared + {t})
          else st.reps[p])
    && (forall u | u in st.locks :: u in st'.locks && st.locks[u] <= st'.locks[u])
    && ((exists p: Replica :: p.1 == v && p.0 in sites && p in st.readable) ==> t in st'.locks && v in st'.locks[t])
    && st'.locks.Keys <= st.locks.Keys + {t}
  }

  lemma ShareSingle(st: State, st': State, t: Tid, sites: set<SiteId>, v: VarId)
    requires Shared(st, st', t, sites, v) && t in st.live && !st.live[t].ro
    requires forall s | s in sites :: st.reps[(s, v)].excl == None && st.reps[(s, v)].shared == {}
    requires forall p: Replica :: SingleHolder(st.reps[p], st.live)
    ensures forall p: Replica :: SingleHolder(st'.reps[p], st'.live)
  {
    forall p: Replica ensures SingleHolder(st'.reps[p], st'.live) {
      assert SingleHolder(st.reps[p], st.live);
      assert p == (p.0, p.1);
    }
  }

  lemma ShareTabled(st: State, st': State, t: Tid, sites: set<SiteId>, v: VarId)
    requires Shared(st, st', t, sites, v) && Tabled(st) && t in st.live
    requires Odd(v) ==> sites <= {Home(v)}
    ensures Tabled(st')
  {
    forall p: Replica, u | Holds(st'.reps[p], u) ensures Covered(st', u, p) {
      if Holds(st.reps[p], u) {
        assert Covered(st, u, p);
      }
    }
  }

  lemma ShareBuffers(st: State, st': State)
    requires forall p: Replica :: st'.reps[p].excl == st.reps[p].excl
    requires st'.live == st.live && st'.readable == st.readable && st'.up == st.up
    requires Availability(st) && OwnersBuffer(st) && BuffersOwned(st) && BuffersUp(st.live, st.up, {})
    requires OneWriter(st.live) && WriterCoversReadable(st.live, st.readable)
    ensures Availability(st') && OwnersBuffer(st') && BuffersOwned(st') && BuffersUp(st'.live, st'.up, {})
    ensures OneWriter(st'.live) && WriterCoversReadable(st'.live, st'.readable)
  {
  }

  // ----- Commit -----

  lemma InstallCovers(st: State, st': State, t: Tid)
    requires t in st.live && st'.live == st.live && st'.readable == st.readable + st.live[t].writes.Keys
    requires st'.up == st.up
    requires Availability(st) && BuffersUp(st.live, st.up, {}) && OneWriter(st.live)
    requires WriterCoversReadable(st.live, st.readable)
    ensures Availability(st') && WriterCoversReadable(st'.live, st'.readable)
  {
    forall u, p, q | u in st'.live && p in st'.live[u].writes && q in st'.readable && p.1 == q.1 && !Odd(p.1)
      ensures q in st'.live[u].writes
    {
      if q in st.live[t].writes {
        assert u == t;
      }
    }
  }

  lemma InstallLocks(st: State, t: Tid, time: int)
    requires LockInv(st, {}) && t in st.live
    ensures LockInv(Install(LogCommit(st, t, time), st.live[t].writes, time), {})
  {
    var st' := Install(LogCommit(st, t, time), st.live[t].writes, time);
    FrameHolders(st, st');
    FrameBuffers(st, st', {}, {});
    InstallCovers(st, st', t);
  }

  /** A commit releases and evicts as an abort does, but leaves the blocked queue alone. */
  lemma CommitIsInstallThenAbort(st: State, t: Tid, time: int)
    requires t in st.live && Validates(st, st.live[t])
    ensures var mid := Install(LogCommit(st, t, time), st.live[t].writes, time);
      EndTran(st, t, time) == Abort(mid, {t}).(queue := st.queue)
  {
    var mid := Install(LogCommit(st, t, time), st.live[t].writes, time);
    var ab := mid.(live := mid.live - {t}, queue := mid.queue - {t});
    assert forall p: Replica :: ReleaseRep(mid, {t}, p) == ReleaseRep(ab, {t}, p);
    assert Release(mid, {t}).reps == Release(ab, {t}).reps;
  }

  lemma CommitLocks(st: State, t: Tid, time: int)
    requires LockInv(st, {}) && t in st.live && Validates(st, st.live[t])
    ensures LockInv(EndTran(st, t, time), {})
  {
    var mid := Install(LogCommit(st, t, time), st.live[t].writes, time);
    InstallLocks(st, t, time);
    AbortLocks(mid, {t});
    CommitIsInstallThenAbort(st, t, time);
    FrameLocks(Abort(mid, {t}), EndTran(st, t, time));
  }
}
