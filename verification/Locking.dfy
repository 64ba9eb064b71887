/** The lock manager's operations as functions of the state (repcrec/lock_manager/lock_manager.cc). */
module Locking {
  import opened Base
  import opened Model

  datatype Status = HasReadLock | HasWriteLock | NeedToWait | SiteUnavailable | HasReadWriteLock | AvailableToAssign

  datatype LockStatus = LockStatus(status: Status, sites: set<SiteId>, owners: set<Tid>)

  predicate SharedByOthers(rep: Rep, t: Tid) {
    rep.shared != {} && t !in rep.shared
  }

  predicate ExclusiveToOther(rep: Rep, t: Tid) {
    rep.excl.Some? && rep.excl.value != t
  }

  /** Some other transaction has a wait-for edge to `t`. */
  predicate Awaited(wait: set<(Tid, Tid)>, t: Tid) {
    exists e | e in wait :: e.0 != t && e.1 == t
  }

  predicate Waiting(wait: set<(Tid, Tid)>, t: Tid) {
    exists e | e in wait :: e.0 == t
  }

  predicate Upgradable(st: State, t: Tid, rep: Rep) {
    t in rep.shared && !SharedByOthers(rep, t) && !Awaited(st.wait, t)
  }

  predicate Blocks(rep: Rep, t: Tid) {
    ExclusiveToOther(rep, t) || SharedByOthers(rep, t) || t in rep.shared
  }

  function Blockers(rep: Rep, t: Tid): set<Tid> {
    (if ExclusiveToOther(rep, t) then {rep.excl.value} else {}) +
    (if SharedByOthers(rep, t) then rep.shared else {}) +
    (if t in rep.shared then {t} else {})
  }

  function Acquire(st: State, t: Tid, v: VarId): LockStatus {
    if Odd(v) then AcquireHome(st, t, v) else AcquireFrom(st, t, v, 1, AvailableToAssign, {})
  }

  function AcquireHome(st: State, t: Tid, v: VarId): LockStatus {
    var rep := st.reps[(Home(v), v)];
    if Home(v) !in st.up then LockStatus(SiteUnavailable, {}, {})
    else if Upgradable(st, t, rep) then LockStatus(HasReadLock, {Home(v)}, {})
    else if Blocks(rep, t) then LockStatus(NeedToWait, {}, Blockers(rep, t))
    else if rep.excl == Some(t) then LockStatus(HasWriteLock, {}, {})
    else LockStatus(AvailableToAssign, {Home(v)}, {})
  }

  /** The scan over the sites from `s` on, with what the scan of the earlier sites has gathered. */
  function AcquireFrom(st: State, t: Tid, v: VarId, s: int, status: Status, sites: set<SiteId>): LockStatus
    requires 1 <= s
    decreases SITE_COUNT + 1 - s
  {
    if s > SITE_COUNT then LockStatus(status, sites, {})
    else if s !in st.up then AcquireFrom(st, t, v, s + 1, status, sites)
    else
      var rep := st.reps[(s, v)];
      if Upgradable(st, t, rep) && !ExclusiveToOther(rep, t) then
        AcquireFrom(st, t, v, s + 1, HasReadLock, sites + {s})
      else if Blocks(rep, t) then LockStatus(NeedToWait, {}, Blockers(rep, t))
      else if rep.excl == Some(t) then LockStatus(HasWriteLock, {}, {})
      else AcquireFrom(st, t, v, s + 1, status, sites + {s})
  }

  function GrantExclusive(rep: Rep, t: Tid): Rep {
    rep.(shared := rep.shared - {t}, excl := if rep.excl == None then Some(t) else rep.excl)
  }

  function SharedRep(rep: Rep, t: Tid): Rep {
    rep.(shared := rep.shared + {t})
  }

  function DropRep(rep: Rep, t: Tid): Rep {
    rep.(excl := if rep.excl == Some(t) then None else rep.excl, shared := rep.shared - {t})
  }

  function AddLock(locks: map<Tid, set<VarId>>, t: Tid, v: VarId): map<Tid, set<VarId>> {
    locks[t := (if t in locks then locks[t] else {}) + {v}]
  }

  function AssignWrite(st: State, t: Tid, sites: set<SiteId>, v: VarId): State {
    st.(reps := map p | p in st.reps ::
          if p.1 == v && p.0 in sites && p.0 in st.up then GrantExclusive(st.reps[p], t) else st.reps[p],
        locks := if sites * st.up != {} then AddLock(st.locks, t, v) else st.locks)
  }

  function ReadableIn(st: State, sites: set<SiteId>, v: VarId): set<SiteId> {
    set s | s in sites && (s, v) in st.readable
  }

  function AssignShare(st: State, t: Tid, sites: set<SiteId>, v: VarId): State {
    st.(reps := map p | p in st.reps ::
          if p.1 == v && p.0 in ReadableIn(st, sites, v) then SharedRep(st.reps[p], t) else st.reps[p],
        locks := if ReadableIn(st, sites, v) != {} then AddLock(st.locks, t, v) else st.locks)
  }

  function AddWaits(st: State, t: Tid, owners: set<Tid>): State {
    st.(wait := st.wait + (set w | w in owners :: (t, w)))
  }

  /** The lock table sends `release_locks(t)` to replica `p`. */
  predicate Covered(st: State, t: Tid, p: Replica) {
    t in st.locks && p.1 in st.locks[t] && Hosts(p.0, p.1)
  }

  function ReleaseRep(st: State, ts: set<Tid>, p: Replica): Rep {
    var rep := st.reps[p];
    rep.(excl := if rep.excl.Some? && rep.excl.value in ts && Covered(st, rep.excl.value, p) then None else rep.excl,
         shared := set t | t in rep.shared && !(t in ts && Covered(st, t, p)))
  }

  /** A node leaves the wait-for graph only when the released transaction is its sole target. */
  predicate HasOtherTarget(wait: set<(Tid, Tid)>, u: Tid, t: Tid) {
    exists e | e in wait :: e.0 == u && e.1 != t
  }

  predicate EdgeStays(wait: set<(Tid, Tid)>, ts: set<Tid>, e: (Tid, Tid)) {
    e.0 !in ts && forall t | t in ts :: HasOtherTarget(wait, e.0, t)
  }

  /** `release_locks` run for each transaction of `ts`; the order is immaterial. */
  function Release(st: State, ts: set<Tid>): State {
    st.(reps := map p | p in st.reps :: ReleaseRep(st, ts, p),
        wait := (set e | e in st.wait && EdgeStays(st.wait, ts, e)),
        locks := st.locks - ts)
  }
}
