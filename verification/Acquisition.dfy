/** Exactly what lock acquisition answers, and exactly what becomes of a write. */
module Acquisition {
  import opened Base
  import opened Model
  import opened Locking
  import opened Execution
  import opened Invariant
  import opened LockLemmas
  import opened Traces
  import opened Courses
  import opened BlockedQueue

  /**
    * Nothing at this site stands in the way of `t`: nobody else holds the replica, and if `t` shares it
    * then nobody else waits for `t`.
    */
  predicate Passable(st: State, t: Tid, v: VarId, s: SiteId) {
    && FreeFor(st.reps[(s, v)], t)
    && (t in st.reps[(s, v)].shared ==> NobodyElseAwaits(st, t))
  }

  predicate NobodyElseAwaits(st: State, t: Tid) {
    forall e | e in st.wait && e.1 == t :: e.0 == t
  }

  /** The first site, in site order, that stands in the way. */
  predicate Obstacle(st: State, t: Tid, v: VarId, s: SiteId) {
    && s in Targets(st, v) && !Passable(st, t, v, s)
    && forall i | i in Targets(st, v) && i < s :: Passable(st, t, v, i)
  }

  ghost predicate Verdict(st: State, t: Tid, v: VarId, a: LockStatus) {
    && (a.status == SiteUnavailable <==> Odd(v) && Home(v) !in st.up)
    && (Granted(a) <==> a.status != SiteUnavailable && forall s | s in Targets(st, v) :: Passable(st, t, v, s))
    && (a.status == HasReadLock <==> Granted(a) && exists s | s in Targets(st, v) :: t in st.reps[(s, v)].shared)
    && (forall s: SiteId | Obstacle(st, t, v, s) ::
          if st.reps[(s, v)].excl == Some(t) then a.status == HasWriteLock
          else a.status == NeedToWait && forall u :: u in a.owners <==> Holds(st.reps[(s, v)], u))
  }

  predicate SharedBelow(st: State, t: Tid, v: VarId, s: int) {
    exists i | i in st.up && i < s :: t in st.reps[(i, v)].shared
  }

  /** The scan has met no obstacle below `s`. */
  predicate Scanned(st: State, t: Tid, v: VarId, s: int, status: Status) {
    && (forall i | i in st.up && i < s :: Passable(st, t, v, i))
    && status == if SharedBelow(st, t, v, s) then HasReadLock else AvailableToAssign
  }

  lemma ScanPass(st: State, t: Tid, v: VarId, s: SiteId, status: Status)
    requires Scanned(st, t, v, s, status) && (s in st.up ==> Passable(st, t, v, s))
    ensures Scanned(st, t, v, s + 1, if s in st.up && t in st.reps[(s, v)].shared then HasReadLock else status)
  {
    if s in st.up && t in st.reps[(s, v)].shared {
      assert SharedBelow(st, t, v, s + 1);
    }
  }

  /** What the tests of one turn of the scan amount to. */
  lemma TurnIs(st: State, t: Tid, v: VarId, s: SiteId)
    requires SingleHolder(st.reps[(s, v)], st.live)
    ensures var rep := st.reps[(s, v)];
      if Upgradable(st, t, rep) && !ExclusiveToOther(rep, t) then Passable(st, t, v, s) && t in rep.shared
      else Passable(st, t, v, s) <==> !Blocks(rep, t) && rep.excl != Some(t)
    ensures var rep := st.reps[(s, v)];
      Passable(st, t, v, s) && !(Upgradable(st, t, rep) && !ExclusiveToOther(rep, t)) ==> t !in rep.shared
  {
  }

  lemma {:induction false} ScanVerdict(st: State, t: Tid, v: VarId, s: int, status: Status, sites: set<SiteId>)
    requires forall p: Replica :: SingleHolder(st.reps[p], st.live)
    requires !Odd(v) && 1 <= s <= SITE_COUNT + 1 && Scanned(st, t, v, s, status)
    ensures Verdict(st, t, v, AcquireFrom(st, t, v, s, status, sites))
    decreases SITE_COUNT + 1 - s
  {
    if s > SITE_COUNT {
      EndVerdict(st, t, v, LockStatus(status, sites, {}));
    } else if s !in st.up {
      ScanPass(st, t, v, s, status);
      ScanVerdict(st, t, v, s + 1, status, sites);
    } else {
      TurnIs(st, t, v, s);
      if Passable(st, t, v, s) {
        ScanPass(st, t, v, s, status);
        ScanVerdict(st, t, v, s + 1, if t in st.reps[(s, v)].shared then HasReadLock else status, sites + {s});
      } else {
        StopVerdict(st, t, v, s, AcquireFrom(st, t, v, s, status, sites));
      }
    }
  }

  /** The scan meets no obstacle. */
  lemma EndVerdict(st: State, t: Tid, v: VarId, a: LockStatus)
    requires !Odd(v) && Scanned(st, t, v, SITE_COUNT + 1, a.status)
    ensures Verdict(st, t, v, a)
  {
  }

  /** The scan ends at the first site that stands in the way. */
  lemma StopVerdict(st: State, t: Tid, v: VarId, s: SiteId, a: LockStatus)
    requires !Odd(v) && s in st.up && forall i | i in st.up && i < s :: Passable(st, t, v, i)
    requires SingleHolder(st.reps[(s, v)], st.live) && !Passable(st, t, v, s)
    requires var rep := st.reps[(s, v)];
      a == if Blocks(rep, t) then LockStatus(NeedToWait, {}, Blockers(rep, t)) else LockStatus(HasWriteLock, {}, {})
    ensures Verdict(st, t, v, a)
  {
    assert Obstacle(st, t, v, s);
    assert forall i: SiteId | Obstacle(st, t, v, i) :: i == s;
  }

  lemma HomeVerdict(st: State, t: Tid, v: VarId)
    requires SingleHolder(st.reps[(Home(v), v)], st.live) && Odd(v)
    ensures Verdict(st, t, v, AcquireHome(st, t, v))
  {
    var rep := st.reps[(Home(v), v)];
    if Home(v) in st.up {
      assert forall s :: s in Targets(st, v) <==> s == Home(v);
      assert Passable(st, t, v, Home(v)) <==> Upgradable(st, t, rep) || (!Blocks(rep, t) && rep.excl != Some(t));
    }
  }

  /** What `try_acquire_write_lock` answers, for every state, transaction and variable. */
  lemma AcquireVerdict(st: State, t: Tid, v: VarId)
    requires forall p: Replica :: SingleHolder(st.reps[p], st.live)
    ensures Verdict(st, t, v, Acquire(st, t, v))
  {
    if Odd(v) {
      HomeVerdict(st, t, v);
    } else {
      ScanVerdict(st, t, v, 1, AvailableToAssign, {});
    }
  }

  /** A lock that another transaction has shared is not given away; the asker is told to wait for the holders. */
  lemma HeldMeansWait(st: State, t: Tid, u: Tid, v: VarId)
    requires forall p: Replica :: SingleHolder(st.reps[p], st.live)
    requires t != u && forall s: SiteId :: !Holds(st.reps[(s, v)], t)
    requires exists s | s in Targets(st, v) :: u in st.reps[(s, v)].shared
    ensures Acquire(st, t, v).status == NeedToWait && Acquire(st, t, v).owners != {}
  {
    AcquireVerdict(st, t, v);
    AcquireSound(st, t, v);
    var s0: SiteId :| s0 in Targets(st, v) && u in st.reps[(s0, v)].shared;
    assert !Passable(st, t, v, s0);
    var s := LeastObstacle(st, t, v, s0);
    assert !Holds(st.reps[(s, v)], t);
  }

  /** Locking reads exclude one another: a second reader waits for the first. */
  lemma SecondReaderWaits(st: State, r: Request, u: Tid)
    requires forall p: Replica :: SingleHolder(st.reps[p], st.live)
    requires r.Read? && r.t in st.live && !st.live[r.t].ro && r.t != u
    requires forall s: SiteId :: !Holds(st.reps[(s, r.v)], r.t)
    requires exists s | s in Targets(st, r.v) :: u in st.reps[(s, r.v)].shared
    requires Odd(r.v) ==> (Home(r.v), r.v) in st.readable
    ensures Exec(st, r).Next? && Waiting(Exec(st, r).st.wait, r.t) && Exec(st, r).st.reps == st.reps
  {
    HeldMeansWait(st, r.t, u, r.v);
    var a := Acquire(st, r.t, r.v);
    var w :| w in a.owners;
    assert Exec(st, r) == Next(Enqueue(AddWaits(st, r.t, a.owners), r));
    assert (r.t, w) in Exec(st, r).st.wait;
  }

  lemma LeastObstacle(st: State, t: Tid, v: VarId, s0: SiteId) returns (s: SiteId)
    requires s0 in Targets(st, v) && !Passable(st, t, v, s0)
    ensures Obstacle(st, t, v, s)
    decreases s0
  {
    if i: SiteId :| i in Targets(st, v) && i < s0 && !Passable(st, t, v, i) {
      s := LeastObstacle(st, t, v, i);
    } else {
      s := s0;
    }
  }

  predicate OwnObstacle(st: State, t: Tid, v: VarId, s: SiteId) {
    Obstacle(st, t, v, s) && st.reps[(s, v)].excl == Some(t)
  }

  predicate ForeignObstacle(st: State, t: Tid, v: VarId, s: SiteId) {
    Obstacle(st, t, v, s) && st.reps[(s, v)].excl != Some(t)
  }

  /** The two answers that an obstacle leads to, and only an obstacle. */
  lemma ObstacleKinds(st: State, t: Tid, v: VarId)
    requires forall p: Replica :: SingleHolder(st.reps[p], st.live)
    ensures Acquire(st, t, v).status == HasWriteLock <==> exists s: SiteId :: OwnObstacle(st, t, v, s)
    ensures Acquire(st, t, v).status == NeedToWait <==> exists s: SiteId :: ForeignObstacle(st, t, v, s)
  {
    AcquireVerdict(st, t, v);
    AcquireSound(st, t, v);
    var a := Acquire(st, t, v);
    if a.status == HasWriteLock || a.status == NeedToWait {
      var s0 :| s0 in Targets(st, v) && !Passable(st, t, v, s0);
      var s := LeastObstacle(st, t, v, s0);
      assert OwnObstacle(st, t, v, s) || ForeignObstacle(st, t, v, s);
    }
  }

  // ----- What becomes of a write -----

  /** No site to write at, or an even variable that the transaction has written before. */
  ghost predicate LosesWrite(st: State, r: Request)
    requires r.Write?
  {
    Targets(st, r.v) == {} || (!Odd(r.v) && exists s: SiteId :: OwnObstacle(st, r.t, r.v, s))
  }

  ghost predicate MustWait(st: State, r: Request)
    requires r.Read? || r.Write?
  {
    exists s: SiteId :: ForeignObstacle(st, r.t, r.v, s)
  }

  /** `r` itself is queued, behind exactly the holders at its obstacle; nothing else changes. */
  ghost predicate WaitsFor(st: State, st': State, r: Request)
    requires r.Read? || r.Write?
  {
    && (forall s: SiteId | ForeignObstacle(st, r.t, r.v, s) :: forall e ::
          e in st'.wait <==> e in st.wait || (e.0 == r.t && Holds(st.reps[(s, r.v)], e.1)))
    && (exists e | e in st'.wait :: e.0 == r.t)
    && Joins(st, st', r) && st' == st.(wait := st'.wait, queue := st'.queue)
  }

  lemma WaitingFate(st: State, r: Request, st': State)
    requires (r.Read? || r.Write?) && Verdict(st, r.t, r.v, Acquire(st, r.t, r.v))
    requires Acquire(st, r.t, r.v).status == NeedToWait && Acquire(st, r.t, r.v).owners != {}
    requires st' == Enqueue(AddWaits(st, r.t, Acquire(st, r.t, r.v).owners), r)
    ensures WaitsFor(st, st', r)
  {
    var a := Acquire(st, r.t, r.v);
    var w :| w in a.owners;
    assert (r.t, w) in st'.wait;
    forall e ensures e in st'.wait <==> e in st.wait || (e.0 == r.t && e.1 in a.owners) {
    }
    var mid := AddWaits(st, r.t, a.owners);
    EnqueueJoins(mid, r);
    assert Joins(st, st', r);
  }

  /** The value is buffered at every usable site, every one of them is owned, and nothing else changes. */
  ghost predicate Buffers(st: State, st': State, r: Request)
    requires r.Write? && r.t in st.live
  {
    && BuffersInto(st, st', r, Targets(st, r.v))
    && st' == st.(live := st'.live, reps := st'.reps, locks := st'.locks)
  }

  ghost predicate BuffersInto(st: State, st': State, r: Request, sites: set<SiteId>)
    requires r.Write? && r.t in st.live
  {
    && r.t in st'.live && st'.live == st.live[r.t := st'.live[r.t]]
    && st'.live[r.t] == st.live[r.t].(writes := st'.live[r.t].writes)
    && (forall p: Replica :: p in st'.live[r.t].writes <==>
          p in st.live[r.t].writes || (p.1 == r.v && p.0 in sites))
    && (forall p | p in st'.live[r.t].writes ::
          st'.live[r.t].writes[p] == if p.1 == r.v && p.0 in sites then r.val else st.live[r.t].writes[p])
    && (forall p: Replica :: st'.reps[p] ==
          if p.1 == r.v && p.0 in sites then st.reps[p].(shared := {}, excl := Some(r.t)) else st.reps[p])
  }

  lemma GrantedFate(st: State, r: Request, a: LockStatus)
    requires r.Write? && r.t in st.live && Granted(a) && a.sites != {} && Grantable(st, r.t, r.v, a.sites)
    ensures WriteWith(st, r, a).Next? && Buffers(st, WriteWith(st, r, a).st, r)
  {
    assert WriteWith(st, r, a) == Next(Granting(st, r.t, a.sites, r.v, r.val));
    GrantingEffect(st, r.t, a.sites, r.v, r.val);
  }

  /** The three fates of a write. */
  ghost predicate Fate(st: State, st': State, r: Request)
    requires r.Write? && r.t in st.live
  {
    if LosesWrite(st, r) then st' == st
    else if MustWait(st, r) then WaitsFor(st, st', r)
    else Buffers(st, st', r)
  }

  lemma HeldFate(st: State, r: Request, a: LockStatus)
    requires r.Write? && r.t in st.live && a.status == HasWriteLock && a.sites == {}
    requires Odd(r.v) ==> Targets(st, r.v) == {Home(r.v)} && OwnedAlone(st.reps[(Home(r.v), r.v)], r.t)
    ensures WriteWith(st, r, a).Next?
    ensures if Odd(r.v) then Buffers(st, WriteWith(st, r, a).st, r) else WriteWith(st, r, a).st == st
  {
    if Odd(r.v) {
      BufferEffect(st, r.t, {Home(r.v)}, r.v, r.val);
      assert WriteWith(st, r, a) == Next(Buffer(st, r.t, {Home(r.v)}, r.v, r.val));
    }
  }

  predicate OwnedAlone(rep: Rep, t: Tid) {
    rep.excl == Some(t) && rep.shared == {}
  }

  lemma HeldTargets(st: State, r: Request)
    requires r.Write? && exists s: SiteId :: OwnObstacle(st, r.t, r.v, s)
    ensures Targets(st, r.v) != {}
    ensures Odd(r.v) ==> Targets(st, r.v) == {Home(r.v)} && st.reps[(Home(r.v), r.v)].excl == Some(r.t)
    ensures !MustWait(st, r)
  {
    var s: SiteId :| OwnObstacle(st, r.t, r.v, s);
    forall i: SiteId ensures !ForeignObstacle(st, r.t, r.v, i) {
      assert i < s || s < i || i == s;
    }
  }

  lemma WriteFates(st: State, r: Request)
    requires forall p: Replica :: SingleHolder(st.reps[p], st.live)
    requires r.Write? && r.t in st.live
    ensures Exec(st, r).Next? && Fate(st, Exec(st, r).st, r)
  {
    AcquireVerdict(st, r.t, r.v);
    AcquireSound(st, r.t, r.v);
    ObstacleKinds(st, r.t, r.v);
    FateByStatus(st, r, Acquire(st, r.t, r.v));
  }

  lemma FateByStatus(st: State, r: Request, a: LockStatus)
    requires r.Write? && r.t in st.live && a == Acquire(st, r.t, r.v)
    requires Verdict(st, r.t, r.v, a) && Sound(st, r.t, r.v, a)
    requires a.status == HasWriteLock <==> exists s: SiteId :: OwnObstacle(st, r.t, r.v, s)
    requires a.status == NeedToWait <==> MustWait(st, r)
    requires SingleHolder(st.reps[(Home(r.v), r.v)], st.live)
    ensures Exec(st, r).Next? && Fate(st, Exec(st, r).st, r)
  {
    match a.status
    case NeedToWait =>
      WaitingFate(st, r, Enqueue(AddWaits(st, r.t, a.owners), r));
      NoOwnThen(st, r);
    case HasWriteLock =>
      HeldTargets(st, r);
      HeldFate(st, r, a);
    case SiteUnavailable =>
    case _ =>
      if a.sites != {} {
        GrantedFate(st, r, a);
      }
  }

  lemma NoOwnThen(st: State, r: Request)
    requires r.Write? && MustWait(st, r)
    ensures !LosesWrite(st, r)
  {
    var s: SiteId :| ForeignObstacle(st, r.t, r.v, s);
    forall i: SiteId ensures !OwnObstacle(st, r.t, r.v, i) {
      assert i < s || s < i || i == s;
    }
  }

  /**
    * Exactly what becomes of a write of a live transaction, at every moment: it is dropped, it
    * waits, or its value is buffered and locked at every usable site of its variable.
    */
  lemma WriteOutcome(ms: seq<Moment>, es: seq<Event>, k: nat, r: Request)
    requires Course(ms, es) && k < |ms| && r.Write? && r.t in ms[k].st.live
    ensures Exec(ms[k].st, r).Next? && Fate(ms[k].st, Exec(ms[k].st, r).st, r)
  {
    CourseKeeps(ms, es, k);
    WriteFates(ms[k].st, r);
  }

  /** A transaction that has buffered a write to an even variable buffers no second one: the first value stays. */
  lemma EvenRewriteIsLost(ms: seq<Moment>, es: seq<Event>, k: nat, r: Request, p: Replica)
    requires Course(ms, es) && k < |ms|
    requires r.Write? && !Odd(r.v) && r.t in ms[k].st.live && p in ms[k].st.live[r.t].writes && p.1 == r.v
    ensures Exec(ms[k].st, r).Next? && Exec(ms[k].st, r).st.live == ms[k].st.live
  {
    CourseKeeps(ms, es, k);
    var s := OwnLockStops(ms[k].st, r, p);
    ObstacleOfOne(ms[k].st, r, s);
    WriteFates(ms[k].st, r);
  }

  lemma OwnLockStops(st: State, r: Request, p: Replica) returns (s: SiteId)
    requires BuffersOwned(st) && BuffersUp(st.live, st.up, {}) && r.Write? && !Odd(r.v)
    requires r.t in st.live && p in st.live[r.t].writes && p.1 == r.v
    ensures Obstacle(st, r.t, r.v, s)
  {
    assert p == (p.0, r.v) && st.reps[p].excl == Some(r.t);
    s := LeastObstacle(st, r.t, r.v, p.0);
  }

  lemma ObstacleOfOne(st: State, r: Request, s: SiteId)
    requires r.Write? && !Odd(r.v) && Obstacle(st, r.t, r.v, s)
    ensures LosesWrite(st, r) || MustWait(st, r)
  {
    assert OwnObstacle(st, r.t, r.v, s) || ForeignObstacle(st, r.t, r.v, s);
  }

  // ----- What becomes of a locking read -----

  /** Acquisition meets a lock of `t` itself before any lock of another. */
  ghost predicate MeetsOwnLock(st: State, t: Tid, v: VarId) {
    || ((forall s | s in Targets(st, v) :: Passable(st, t, v, s))
        && exists s | s in Targets(st, v) :: t in st.reps[(s, v)].shared)
    || exists s: SiteId :: OwnObstacle(st, t, v, s)
  }

  lemma OwnLockStatus(st: State, t: Tid, v: VarId)
    requires forall p: Replica :: SingleHolder(st.reps[p], st.live)
    ensures var a := Acquire(st, t, v); a.status == HasReadLock || a.status == HasWriteLock <==> MeetsOwnLock(st, t, v)
  {
    AcquireVerdict(st, t, v);
    ObstacleKinds(st, t, v);
  }

  /** An odd variable whose home site is down, or not readable there. */
  predicate HomeUnreadable(st: State, r: Request)
    requires r.Read?
  {
    Odd(r.v) && (Home(r.v), r.v) !in st.readable
  }

  /** `r` itself is queued until the home site, or the one awaited already, recovers; nothing else changes. */
  ghost predicate AwaitsHome(st: State, st': State, r: Request)
    requires r.Read?
  {
    && st'.siteWait == (if r.t in st.siteWait then st.siteWait else st.siteWait[r.t := Home(r.v)])
    && Joins(st, st', r) && st' == st.(queue := st'.queue, siteWait := st'.siteWait)
  }

  lemma AwaitingFate(st: State, r: Request)
    requires r.Read?
    ensures AwaitsHome(st, Enqueue(AwaitSite(st, r.t, Home(r.v)), r), r)
  {
    EnqueueJoins(AwaitSite(st, r.t, Home(r.v)), r);
  }

  /** Every usable readable replica is shared, and the home value of an odd variable is recorded. */
  ghost predicate ReadShares(st: State, st': State, r: Request)
    requires r.Read? && r.t in st.live
  {
    var home := (Home(r.v), r.v);
    && (forall p: Replica :: st'.reps[p] ==
          if p.1 == r.v && p.0 in Targets(st, r.v) && p in st.readable
          then st.reps[p].(shared := st.reps[p].shared + {r.t}) else st.reps[p])
    && st'.live == (if Odd(r.v)
                    then st.live[r.t := st.live[r.t].(history := st.live[r.t].history[home := st.reps[home].value])]
                    else st.live)
    && st' == st.(live := st'.live, reps := st'.reps, locks := st'.locks)
  }

  /** The four fates of a locking read. */
  ghost predicate ReadFate(st: State, r: Request)
    requires r.Read? && r.t in st.live
  {
    var out := Exec(st, r);
    if HomeUnreadable(st, r) then out.Next? && AwaitsHome(st, out.st, r)
    else if MustWait(st, r) then out.Next? && WaitsFor(st, out.st, r)
    else if MeetsOwnLock(st, r.t, r.v) then out == Throws
    else out.Next? && ReadShares(st, out.st, r)
  }

  lemma SharingFate(st: State, r: Request, a: LockStatus)
    requires r.Read? && r.t in st.live && a.status == AvailableToAssign && a.sites == Targets(st, r.v)
    ensures ReadWith(st, r, a).Next? && ReadShares(st, ReadWith(st, r, a).st, r)
  {
    ShareEffect(st, r.t, a.sites, r.v);
  }

  lemma ReadFates(st: State, r: Request)
    requires Availability(st) && forall p: Replica :: SingleHolder(st.reps[p], st.live)
    requires r.Read? && r.t in st.live && !st.live[r.t].ro
    ensures ReadFate(st, r)
  {
    if HomeUnreadable(st, r) {
      AwaitingFate(st, r);
    } else {
      AcquireVerdict(st, r.t, r.v);
      AcquireSound(st, r.t, r.v);
      ObstacleKinds(st, r.t, r.v);
      OwnLockStatus(st, r.t, r.v);
      var a := Acquire(st, r.t, r.v);
      if a.status == NeedToWait {
        WaitingFate(st, r, Enqueue(AddWaits(st, r.t, a.owners), r));
      } else if a.status == AvailableToAssign {
        SharingFate(st, r, a);
      }
    }
  }

  /**
    * Exactly what becomes of a locking read of a live transaction, at every moment: it waits for the
    * home site, or for the holders at its first obstacle, or it throws, or it shares and records.
    */
  lemma ReadOutcome(ms: seq<Moment>, es: seq<Event>, k: nat, r: Request)
    requires Course(ms, es) && k < |ms| && r.Read? && r.t in ms[k].st.live && !ms[k].st.live[r.t].ro
    ensures ReadFate(ms[k].st, r)
  {
    CourseKeeps(ms, es, k);
    ReadFates(ms[k].st, r);
  }
}
