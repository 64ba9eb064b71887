/** The invariant holds in every state of every run. */
module Preservation {
  import opened Base
  import opened Model
  import opened Locking
  import opened Execution
  import opened Invariant
  import opened LockLemmas
  import opened DataLemmas
  import opened SchedLemmas

  /** When the transaction manager may run `r`; `done` are the queue entries about to be erased. */
  ghost predicate MayExec(st: State, r: Request, done: set<Tid>) {
    && 0 <= r.ts <= st.now
    && match r
       case Begin(ts, t, _) => t !in st.begun && forall u | u in st.live :: st.live[u].ts < ts
       case Read(_, t, v) => (t, v) in st.asked && (t in done || Fits(st, r))
       case Write(_, t, v, _) =>
         (t, v) in st.asked && t in st.live && (t in done || Fits(st, r))
       case End(_, t) =>
         t in st.ended && (t in st.live ==>
           || (t !in st.queue && r.ts == st.now)
           || (t in done && t in st.queue && r in st.queue[t]))
       case _ => true
  }

  lemma AbortKeeps(st: State, ts: set<Tid>, done: set<Tid>)
    requires InvWhile(st, done)
    ensures InvWhile(Abort(st, ts), done)
  {
    BuffersUpWeaken(st, ts);
    AbortLocks(st, ts);
    AbortData(st, ts);
    AbortSched(st, ts, done);
  }

  lemma BuffersUpWeaken(st: State, ts: set<Tid>)
    requires LockInv(st, {})
    ensures LockInv(st, ts)
  {
  }

  lemma BeginKeeps(st: State, r: Request, done: set<Tid>)
    requires InvWhile(st, done) && r.Begin? && MayExec(st, r, done)
    ensures InvWhile(BeginTran(st, r.ts, r.t, r.ro), done)
  {
    BeginLocks(st, r.ts, r.t, r.ro);
    BeginData(st, r.ts, r.t, r.ro);
    BeginSched(st, r.ts, r.t, r.ro, done);
  }

  lemma EndKeeps(st: State, r: Request, done: set<Tid>)
    requires InvWhile(st, done) && r.End? && MayExec(st, r, done) && r.t in st.live
    ensures InvWhile(EndTran(st, r.t, r.ts), done)
  {
    if Validates(st, st.live[r.t]) {
      CommitLocks(st, r.t, r.ts);
      CommitData(st, r.t, r.ts);
      CommitSched(st, r.t, r.ts, done);
    } else {
      AbortKeeps(st, {r.t}, done);
    }
  }

  lemma FailKeeps(st: State, s: SiteId, done: set<Tid>)
    requires InvWhile(st, done)
    ensures InvWhile(FailSite(st, s), done)
  {
    FailLocks(st, s);
    FailData(st, s);
    var mid := TakeDown(st, s);
    TakeDownLocks(st, s);
    FrameSched(st, mid, done);
    AbortSched(mid, Writers(st, s), done);
  }

  lemma RecoverKeeps(st: State, s: SiteId, done: set<Tid>)
    requires InvWhile(st, done)
    ensures InvWhile(RecoverSite(st, s), done)
  {
    RecoverLocks(st, s);
    RecoverData(st, s);
    FrameSched(st, RecoverSite(st, s), done);
  }

  /** Adding `r` to the queue, after its wait-for edges or its site wait. */
  lemma EnqueueKeeps(st: State, r: Request, done: set<Tid>)
    requires InvWhile(st, done) && (r.Read? || r.Write? || r.End?)
    requires r.t in done || (r.t in st.live && Issued(st, r) && Fits(st, r) && MayQueue(st.live, r))
    ensures InvWhile(Enqueue(st, r), done)
  {
    FrameLocks(st, Enqueue(st, r));
    FrameData(st, Enqueue(st, r));
    EnqueueSched(st, r, done);
  }

  lemma BlockKeeps(st: State, r: Request, owners: set<Tid>, done: set<Tid>)
    requires InvWhile(st, done) && (r.Read? || r.Write?) && MayExec(st, r, done) && r.t in st.live
    requires MayQueue(st.live, r)
    requires forall w | w in owners :: HoldsVar(st, w, r.v)
    ensures InvWhile(Enqueue(AddWaits(st, r.t, owners), r), done)
  {
    var mid := AddWaits(st, r.t, owners);
    FrameLocks(st, mid);
    FrameData(st, mid);
    AddWaitsSched(st, r.t, r.v, owners, done);
    EnqueueKeeps(mid, r, done);
  }

  lemma AwaitSiteKeeps(st: State, r: Request, s: SiteId, done: set<Tid>)
    requires InvWhile(st, done) && r.Read? && MayExec(st, r, done) && r.t in st.live && Odd(r.v)
    ensures InvWhile(Enqueue(AwaitSite(st, r.t, s), r), done)
  {
    SiteWaitKeeps(st, r.t, s, done);
    EnqueueKeeps(AwaitSite(st, r.t, s), r, done);
  }

  lemma SiteWaitKeeps(st: State, t: Tid, s: SiteId, done: set<Tid>)
    requires InvWhile(st, done) && t in st.live
    ensures InvWhile(AwaitSite(st, t, s), done)
  {
    if t !in st.siteWait {
      var mid := AwaitSite(st, t, s);
      FrameLocks(st, mid);
      FrameData(st, mid);
      FrameSched(st, mid, done);
    }
  }

  lemma GrantKeeps(st: State, r: Request, sites: set<SiteId>, done: set<Tid>)
    requires InvWhile(st, done) && r.Write? && Grantable(st, r.t, r.v, sites)
    ensures InvWhile(Granting(st, r.t, sites, r.v, r.val), done)
  {
    GrantingLocks(st, r.t, sites, r.v, r.val);
    GrantingData(st, r.t, sites, r.v, r.val);
    GrantingSched(st, r.t, sites, r.v, r.val, done);
  }

  lemma RewriteKeeps(st: State, r: Request, done: set<Tid>)
    requires InvWhile(st, done) && r.Write? && Odd(r.v) && st.reps[(Home(r.v), r.v)].excl == Some(r.t)
    ensures r.t in st.live
    ensures InvWhile(Buffer(st, r.t, {Home(r.v)}, r.v, r.val), done)
  {
    RewriteLocks(st, r.t, r.v, r.val);
    BufferData(st, r.t, {Home(r.v)}, r.v, r.val);
    BufferSched(st, r.t, {Home(r.v)}, r.v, r.val, done);
  }

  lemma BufferSched(st: State, t: Tid, sites: set<SiteId>, v: VarId, val: int, done: set<Tid>)
    requires SchedInv(st, done) && t in st.live
    ensures SchedInv(Buffer(st, t, sites, v, val), done)
  {
    FrameSched(st, Buffer(st, t, sites, v, val), done);
  }

  lemma WriteKeeps(st: State, r: Request, done: set<Tid>)
    requires InvWhile(st, done) && r.Write? && MayExec(st, r, done)
    ensures Keeps(ExecWrite(st, r), done)
  {
    AcquireSound(st, r.t, r.v);
    WriteWithKeeps(st, r, Acquire(st, r.t, r.v), done);
  }

  /** The outcome of a request, if it is not an exception, keeps the invariant. */
  ghost predicate Keeps(out: Outcome, done: set<Tid>) {
    out != EmptySet && (out.Next? ==> InvWhile(out.st, done))
  }

  lemma WriteWithKeeps(st: State, r: Request, a: LockStatus, done: set<Tid>)
    requires InvWhile(st, done) && r.Write? && MayExec(st, r, done) && Sound(st, r.t, r.v, a)
    ensures Keeps(WriteWith(st, r, a), done)
  {
    if Granted(a) {
      GrantWriteKeeps(st, r, a.sites, done);
    } else if a.status == NeedToWait {
      BlockKeeps(st, r, a.owners, done);
      assert WriteWith(st, r, a) == Next(Enqueue(AddWaits(st, r.t, a.owners), r));
    } else {
      OddWriteLock(st, r.t, r.v, a);
      HeldWriteKeeps(st, r, a, done);
    }
  }

  lemma OddWriteLock(st: State, t: Tid, v: VarId, a: LockStatus)
    requires Sound(st, t, v, a)
    ensures a.status == HasWriteLock && Odd(v) ==> st.reps[(Home(v), v)].excl == Some(t)
  {
  }

  lemma HeldWriteKeeps(st: State, r: Request, a: LockStatus, done: set<Tid>)
    requires InvWhile(st, done) && r.Write? && a.status != NeedToWait && !Granted(a) && a.sites == {}
    requires a.status == HasWriteLock && Odd(r.v) ==> st.reps[(Home(r.v), r.v)].excl == Some(r.t)
    ensures Keeps(WriteWith(st, r, a), done)
  {
    if a.status == HasWriteLock && Odd(r.v) {
      RewriteKeeps(st, r, done);
    } else {
      assert WriteWith(st, r, a) == Next(st) || WriteWith(st, r, a) == Throws;
    }
  }

  lemma GrantWriteKeeps(st: State, r: Request, sites: set<SiteId>, done: set<Tid>)
    requires InvWhile(st, done) && r.Write? && Grantable(st, r.t, r.v, sites)
    ensures Keeps(GrantWrite(st, r, sites), done)
  {
    if sites != {} {
      GrantKeeps(st, r, sites, done);
    }
  }

  lemma RecordSched(st: State, t: Tid, p: Replica, val: int, done: set<Tid>)
    requires SchedInv(st, done) && t in st.live
    ensures SchedInv(RecordRead(st, t, p, val), done)
  {
    FrameSched(st, RecordRead(st, t, p, val), done);
  }

  lemma RecordLocks(st: State, t: Tid, p: Replica, val: int)
    requires LockInv(st, {}) && t in st.live
    ensures LockInv(RecordRead(st, t, p, val), {})
  {
    FrameLocks(st, RecordRead(st, t, p, val));
  }

  lemma RecordKeeps(st: State, t: Tid, p: Replica, val: int, done: set<Tid>)
    requires InvWhile(st, done) && t in st.live
    requires !st.live[t].ro ==> Odd(p.1) && Holds(st.reps[p], t) && val == st.reps[p].value
    ensures InvWhile(RecordRead(st, t, p, val), done)
  {
    RecordLocks(st, t, p, val);
    RecordReadData(st, t, p, val);
    RecordSched(st, t, p, val, done);
  }

  lemma ShareKeeps(st: State, t: Tid, sites: set<SiteId>, v: VarId, done: set<Tid>)
    requires InvWhile(st, done) && t in st.live && !st.live[t].ro
    requires sites == Targets(st, v)
    requires forall s | s in sites :: st.reps[(s, v)].excl == None && st.reps[(s, v)].shared == {}
    ensures InvWhile(AssignShare(st, t, sites, v), done)
  {
    ShareLocks(st, t, sites, v);
    ShareData(st, t, sites, v);
    ShareEffect(st, t, sites, v);
    FrameSched(st, AssignShare(st, t, sites, v), done);
  }

  /** The shared lock of a fresh locking read, and for an odd variable its recorded value. */
  lemma FreshReadKeeps(st: State, r: Request, sites: set<SiteId>, done: set<Tid>)
    requires InvWhile(st, done) && r.Read? && r.t in st.live && !st.live[r.t].ro
    requires sites == Targets(st, r.v)
    requires Odd(r.v) ==> (Home(r.v), r.v) in st.readable
    requires forall s | s in sites :: st.reps[(s, r.v)].excl == None && st.reps[(s, r.v)].shared == {}
    ensures var st' := AssignShare(st, r.t, sites, r.v);
      InvWhile(if Odd(r.v) then RecordRead(st', r.t, (Home(r.v), r.v), st'.reps[(Home(r.v), r.v)].value) else st', done)
  {
    var st' := AssignShare(st, r.t, sites, r.v);
    ShareKeeps(st, r.t, sites, r.v, done);
    if Odd(r.v) {
      var p := (Home(r.v), r.v);
      assert Holds(st'.reps[p], r.t) by {
        assert p.0 in st.up;
        ShareEffect(st, r.t, sites, r.v);
      }
      RecordKeeps(st', r.t, p, st'.reps[p].value, done);
    }
  }

  lemma LockingReadKeeps(st: State, r: Request, done: set<Tid>)
    requires InvWhile(st, done) && r.Read? && MayExec(st, r, done) && r.t in st.live && !st.live[r.t].ro
    ensures Keeps(LockingRead(st, r), done)
  {
    if Odd(r.v) && (Home(r.v), r.v) !in st.readable {
      AwaitSiteKeeps(st, r, Home(r.v), done);
    } else {
      AcquireSound(st, r.t, r.v);
      ReadWithKeeps(st, r, Acquire(st, r.t, r.v), done);
    }
  }

  lemma ReadWithKeeps(st: State, r: Request, a: LockStatus, done: set<Tid>)
    requires InvWhile(st, done) && r.Read? && MayExec(st, r, done) && r.t in st.live && !st.live[r.t].ro
    requires Odd(r.v) ==> (Home(r.v), r.v) in st.readable
    requires Sound(st, r.t, r.v, a)
    ensures Keeps(ReadWith(st, r, a), done)
  {
    match a.status
    case SiteUnavailable =>
    case NeedToWait => BlockKeeps(st, r, a.owners, done);
    case HasReadWriteLock =>
    case AvailableToAssign => FreshReadKeeps(st, r, a.sites, done);
    case HasReadLock =>
    case HasWriteLock =>
  }

  lemma ReadOnlyKeeps(st: State, r: Request, done: set<Tid>)
    requires InvWhile(st, done) && r.Read? && MayExec(st, r, done) && r.t in st.live && st.live[r.t].ro
    ensures Keeps(ReadOnly(st, r), done)
  {
    var ts := st.live[r.t].ts;
    if Odd(r.v) {
      var p := (Home(r.v), r.v);
      if p in st.readable {
        RecordKeeps(st, r.t, p, ValueAt(st.reps[p], ts), done);
      } else {
        AwaitSiteKeeps(st, r, Home(r.v), done);
      }
    } else {
      match FirstReadable(st, r.v, 1)
      case Some(s) => RecordKeeps(st, r.t, (s, r.v), ValueAt(st.reps[(s, r.v)], ts), done);
      case None => AbortKeeps(st, {r.t}, done);
    }
  }

  /** Every request, whenever the transaction manager may run it, keeps the invariant. */
  lemma ExecKeeps(st: State, r: Request, done: set<Tid>)
    requires InvWhile(st, done) && MayExec(st, r, done)
    ensures Keeps(Exec(st, r), done)
  {
    match r
    case Begin(_, _, _) => BeginKeeps(st, r, done);
    case Read(_, t, _) =>
      if t in st.live {
        if st.live[t].ro {
          ReadOnlyKeeps(st, r, done);
        } else {
          LockingReadKeeps(st, r, done);
        }
      }
    case Write(_, _, _, _) => WriteKeeps(st, r, done);
    case End(_, t) =>
      if t in st.live {
        EndKeeps(st, r, done);
      }
    case Fail(_, s) => FailKeeps(st, s, done);
    case Recover(_, s) => RecoverKeeps(st, s, done);
    case Dump(_) =>
  }
}
