/** The requests' `exec` methods, run on the transaction manager object (repcrec/request/request.cc). */
module RequestObjects {
  import opened Base
  import opened Model
  import opened Locking
  import opened Execution
  import opened Deadlocks
  import opened TransactionObject
  import opened TransactionManagerObject

  /** A method that runs a request returns `false` for an exception that leaves it. */
  function Result(ok: bool, st: State): Outcome {
    if ok then Next(st) else Throws
  }

  // ----- Begin -----

  ghost predicate MayBegin(live: map<Tid, Tran>, r: Request) {
    r.Begin? ==> 0 <= r.ts && r.t !in live && forall u | u in live :: live[u].ts < r.ts
  }

  method ExecBegin(tm: TransactionManager, r: Request)
    requires tm.Valid() && r.Begin? && MayBegin(tm.live, r)
    modifies tm`transactions, tm`transactionsSet, tm`live, tm`begun
    ensures tm.Valid() && tm.View() == BeginTran(old(tm.View()), r.ts, r.t, r.ro)
    ensures fresh(tm.transactions.Values - old(tm.transactions.Values))
  {
    NoteBegun(tm, r.t);
    AddNew(tm, r);
  }

  /** History only. */
  method NoteBegun(tm: TransactionManager, t: Tid)
    requires tm.Valid()
    modifies tm`begun
    ensures tm.Valid() && tm.View() == old(tm.View()).(begun := old(tm.begun) + {t})
  {
    tm.begun := tm.begun + {t};
  }

  method AddNew(tm: TransactionManager, r: Request)
    requires tm.TransactionsOk() && r.Begin? && MayBegin(tm.live, r)
    modifies tm`transactions, tm`transactionsSet, tm`live
    ensures tm.TransactionsOk() && tm.live == old(tm.live)[r.t := Tran(r.ts, r.ro, map[], map[])]
    ensures fresh(tm.transactions.Values - old(tm.transactions.Values))
  {
    var tr := new Transaction(r.t, r.ts, r.ro);
    tm.AddTransaction(r.t, tr);
    assert tm.transactions.Values <= old(tm.transactions.Values) + {tr};
  }

  // ----- Write -----

  method BufferWrites(tm: TransactionManager, r: Request, sites: set<SiteId>)
    requires tm.Valid() && r.Write? && r.t in tm.transactions
    modifies tm`live, tm.transactions[r.t]
    ensures tm.Valid() && tm.View() == Buffer(old(tm.View()), r.t, sites, r.v, r.val)
  {
    tm.BufferAll(r.t, sites, r.v, r.val);
  }

  lemma AssignNoSite(st: State, t: Tid, v: VarId)
    ensures AssignWrite(st, t, {}, v) == st
  {
    assert AssignWrite(st, t, {}, v).reps == st.reps;
  }

  /** The lock is free, or is to be promoted. */
  method GrantWrite(tm: TransactionManager, r: Request, sites: set<SiteId>) returns (ok: bool)
    requires tm.Valid() && r.Write?
    modifies tm`live, tm.transactions.Values, tm.lm`lockTable, tm.sm`reps, tm.sm.Variables()
    ensures tm.Valid() && Execution.GrantWrite(old(tm.View()), r, sites) == Result(ok, tm.View())
  {
    ok := RewriteAll(tm, r, sites);
    if ok {
      AssignNoSite(tm.View(), r.t, r.v);
      tm.AssignWriteLock(r.t, sites, r.v);
    }
  }

  /** The loop over the sites; without sites it does not look the transaction up. */
  method RewriteAll(tm: TransactionManager, r: Request, sites: set<SiteId>) returns (ok: bool)
    requires tm.Valid() && r.Write?
    modifies tm`live, tm.transactions.Values
    ensures tm.Valid() && ok == (sites == {} || r.t in tm.live)
    ensures ok ==> tm.View() == if sites == {} then old(tm.View()) else Buffer(old(tm.View()), r.t, sites, r.v, r.val)
  {
    if sites == {} {
      return true;
    }
    if r.t !in tm.transactions {
      return false;
    }
    BufferWrites(tm, r, sites);
    return true;
  }

  method ExecWrite(tm: TransactionManager, r: Request) returns (ok: bool)
    requires tm.Valid() && r.Write?
    modifies tm`live, tm`blockedQueue, tm.transactions.Values, tm.lm, tm.sm`reps, tm.sm.Variables()
    ensures tm.Valid() && Execution.ExecWrite(old(tm.View()), r) == Result(ok, tm.View())
  {
    var a := tm.TryAcquireWriteLock(r.t, r.v);
    ok := WriteAs(tm, r, a);
  }

  /** The switch on the answer of the lock manager. */
  method WriteAs(tm: TransactionManager, r: Request, a: LockStatus) returns (ok: bool)
    requires tm.Valid() && r.Write?
    modifies tm`live, tm`blockedQueue, tm.transactions.Values, tm.lm, tm.sm`reps, tm.sm.Variables()
    ensures tm.Valid() && WriteWith(old(tm.View()), r, a) == Result(ok, tm.View())
  {
    if a.status == NeedToWait {
      tm.BlockOnOwners(r, a.owners);
      ok := true;
    } else {
      ok := WriteUnblocked(tm, r, a);
    }
  }

  /** The cases in which the write does not wait. */
  method WriteUnblocked(tm: TransactionManager, r: Request, a: LockStatus) returns (ok: bool)
    requires tm.Valid() && r.Write? && a.status != NeedToWait
    modifies tm`live, tm.transactions.Values, tm.lm`lockTable, tm.sm`reps, tm.sm.Variables()
    ensures tm.Valid() && WriteWith(old(tm.View()), r, a) == Result(ok, tm.View())
  {
    match a.status
    case SiteUnavailable => ok := Odd(r.v);
    case HasWriteLock => ok := RewriteAll(tm, r, if Odd(r.v) then {Home(r.v)} else a.sites);
    case HasReadLock => ok := GrantWrite(tm, r, a.sites);
    case AvailableToAssign => ok := GrantWrite(tm, r, a.sites);
    case HasReadWriteLock => ok := false;
  }

  // ----- Read -----

  method RecordValue(tm: TransactionManager, t: Tid, s: SiteId, v: VarId, val: int)
    requires tm.Valid() && t in tm.transactions
    modifies tm`live, tm.transactions[t]
    ensures tm.Valid() && tm.View() == RecordRead(old(tm.View()), t, (s, v), val)
  {
    tm.AddReadHistory(t, s, v, val);
  }

  /** `get_value(time)` at a site. */
  method ValueOf(tm: TransactionManager, s: SiteId, v: VarId, ts: int) returns (val: int)
    requires tm.sm.Valid() && -1 <= ts
    ensures val == ValueAt(tm.sm.reps[(s, v)], ts)
  {
    var x := tm.sm.GetVariable(s, v);
    val := x.GetValue(ts);
  }

  method FirstReadableSite(tm: TransactionManager, v: VarId) returns (first: Option<SiteId>)
    requires tm.sm.Valid()
    ensures first == FirstReadable(tm.View(), v, 1)
  {
    var s := 1;
    while s <= SITE_COUNT
      invariant 1 <= s <= SITE_COUNT + 1
      invariant FirstReadable(tm.View(), v, 1) == FirstReadable(tm.View(), v, s)
    {
      if tm.sm.IsReadAvailable(s, v) {
        return Some(s);
      }
      s := s + 1;
    }
    return None;
  }

  /** `handle_read_only_request` for an odd variable. */
  method ReadSnapshotAtHome(tm: TransactionManager, r: Request)
    requires tm.Valid() && r.Read? && r.t in tm.transactions && Odd(r.v)
    modifies tm`live, tm`blockedQueue, tm`siteWaitingMap, tm.transactions.Values
    ensures tm.Valid() && ReadOnly(old(tm.View()), r) == Next(tm.View())
  {
    assert Known(r.t);
    var ts, s := tm.transactions[r.t].ts, Home(r.v);
    if tm.sm.IsReadAvailable(s, r.v) {
      var val := ValueOf(tm, s, r.v, ts);
      RecordValue(tm, r.t, s, r.v, val);
    } else {
      tm.BlockOnSite(r, s);
    }
  }

  /** `handle_read_only_request` for an even variable. */
  method ReadSnapshotAnywhere(tm: TransactionManager, r: Request)
    requires tm.Valid() && r.Read? && r.t in tm.transactions && !Odd(r.v)
    modifies tm`live, tm`transactions, tm`transactionsSet, tm`blockedQueue
    modifies tm.transactions.Values, tm.lm, tm.sm`reps, tm.sm.Variables()
    ensures tm.Valid() && ReadOnly(old(tm.View()), r) == Next(tm.View())
    ensures tm.transactions.Values <= old(tm.transactions.Values)
  {
    assert Known(r.t);
    var ts := tm.transactions[r.t].ts;
    var first := FirstReadableSite(tm, r.v);
    if first.Some? {
      var val := ValueOf(tm, first.value, r.v, ts);
      RecordValue(tm, r.t, first.value, r.v, val);
    } else {
      tm.AbortTransaction(r.t);
    }
  }

  /** `handle_read_request` */
  method ExecLockingRead(tm: TransactionManager, r: Request) returns (ok: bool)
    requires tm.Valid() && r.Read? && r.t in tm.transactions
    modifies tm`live, tm`blockedQueue, tm`siteWaitingMap, tm.transactions.Values, tm.lm, tm.sm`reps, tm.sm.Variables()
    ensures tm.Valid() && LockingRead(old(tm.View()), r) == Result(ok, tm.View())
  {
    if Odd(r.v) && !tm.sm.IsReadAvailable(Home(r.v), r.v) {
      tm.BlockOnSite(r, Home(r.v));
      ok := true;
    } else {
      ok := LockAndRead(tm, r);
    }
  }

  /** A locking read asks for the write lock too. */
  method LockAndRead(tm: TransactionManager, r: Request) returns (ok: bool)
    requires tm.Valid() && r.Read? && r.t in tm.transactions
    modifies tm`live, tm`blockedQueue, tm.transactions.Values, tm.lm, tm.sm`reps, tm.sm.Variables()
    ensures tm.Valid()
    ensures ReadWith(old(tm.View()), r, Acquire(old(tm.View()), r.t, r.v)) == Result(ok, tm.View())
  {
    var a := tm.TryAcquireWriteLock(r.t, r.v);
    ok := ReadAs(tm, r, a);
  }

  /** The switch on the answer of the lock manager. */
  method ReadAs(tm: TransactionManager, r: Request, a: LockStatus) returns (ok: bool)
    requires tm.Valid() && r.Read? && r.t in tm.transactions
    modifies tm`live, tm`blockedQueue, tm.transactions.Values, tm.lm, tm.sm`reps, tm.sm.Variables()
    ensures tm.Valid() && ReadWith(old(tm.View()), r, a) == Result(ok, tm.View())
  {
    if a.status == NeedToWait {
      tm.BlockOnOwners(r, a.owners);
      ok := true;
    } else {
      ok := ReadUnblocked(tm, r, a);
    }
  }

  /** The cases in which the locking read does not wait. */
  method ReadUnblocked(tm: TransactionManager, r: Request, a: LockStatus) returns (ok: bool)
    requires tm.Valid() && r.Read? && r.t in tm.transactions && a.status != NeedToWait
    modifies tm`live, tm.transactions.Values, tm.lm`lockTable, tm.sm`reps, tm.sm.Variables()
    ensures tm.Valid() && ReadWith(old(tm.View()), r, a) == Result(ok, tm.View())
  {
    match a.status
    case SiteUnavailable => ok := Odd(r.v);
    case HasReadWriteLock =>
      ReadHome(tm, r);
      ok := true;
    case AvailableToAssign =>
      tm.AssignShareLock(r.t, a.sites, r.v);
      ReadHome(tm, r);
      ok := true;
    case HasReadLock => ok := false;
    case HasWriteLock => ok := false;
  }

  /** The value of an odd variable goes into the read history; that of an even one is only printed. */
  method ReadHome(tm: TransactionManager, r: Request)
    requires tm.Valid() && r.Read? && r.t in tm.transactions
    modifies tm`live, tm.transactions[r.t]
    ensures tm.Valid()
    ensures tm.View() == if Odd(r.v)
                         then RecordRead(old(tm.View()), r.t, (Home(r.v), r.v), old(tm.sm.reps[(Home(r.v), r.v)].value))
                         else old(tm.View())
  {
    if Odd(r.v) {
      var val := ValueOf(tm, Home(r.v), r.v, -1);
      RecordValue(tm, r.t, Home(r.v), r.v, val);
    }
  }

  method ExecRead(tm: TransactionManager, r: Request) returns (ok: bool)
    requires tm.Valid() && r.Read?
    modifies tm`live, tm`transactions, tm`transactionsSet, tm`blockedQueue, tm`siteWaitingMap
    modifies tm.transactions.Values, tm.lm, tm.sm`reps, tm.sm.Variables()
    ensures tm.Valid() && Execution.ExecRead(old(tm.View()), r) == Result(ok, tm.View())
    ensures tm.transactions.Values <= old(tm.transactions.Values)
  {
    if r.t !in tm.transactions {
      return false;
    }
    assert Known(r.t);
    if tm.transactions[r.t].readOnly {
      if Odd(r.v) {
        ReadSnapshotAtHome(tm, r);
      } else {
        ReadSnapshotAnywhere(tm, r);
      }
      ok := true;
    } else {
      ok := ExecLockingRead(tm, r);
    }
  }

  // ----- End -----

  method ExecEnd(tm: TransactionManager, r: Request) returns (ok: bool)
    requires tm.Valid() && r.End?
    modifies tm, tm.lm, tm.sm, tm.sm.Sites(), tm.sm.Variables()
    ensures tm.Valid() && Exec(old(tm.View()), r) == Result(ok, tm.View())
    ensures tm.transactions.Values <= old(tm.transactions.Values)
  {
    if r.t !in tm.transactions {
      return false;
    }
    tm.EndTransaction(r.t, r.ts);
    ok := true;
  }

  // ----- Failure and recovery of a site -----

  /** The transactions that have written into the site. */
  method CollectWriters(tm: TransactionManager, s: SiteId) returns (doomed: set<Tid>)
    requires tm.TransactionsOk()
    ensures doomed == set t | t in tm.live && WroteSite(tm.live[t], s)
  {
    doomed := {};
    var todo := tm.transactions.Keys;
    while todo != {}
      invariant todo <= tm.live.Keys
      invariant doomed == set t | t in tm.live && t !in todo && WroteSite(tm.live[t], s)
      decreases |todo|
    {
      var t :| t in todo;
      assert Known(t);
      if tm.transactions[t].IsWrittenIntoSite(s) {
        doomed := doomed + {t};
      }
      assert tm.transactions[t].IsWrittenIntoSite(s) <==> WroteSite(tm.live[t], s);
      todo := todo - {t};
    }
  }

  method AbortEach(tm: TransactionManager, doomed: set<Tid>)
    requires tm.Valid() && doomed <= tm.live.Keys
    modifies tm`transactions, tm`transactionsSet, tm`live, tm`blockedQueue, tm.lm, tm.sm`reps, tm.sm.Variables()
    ensures tm.Valid() && tm.View() == Abort(old(tm.View()), doomed)
    ensures tm.transactions.Values <= old(tm.transactions.Values)
  {
    ghost var st, gone: set<Tid> := tm.View(), {};
    AbortNobody(st);
    var todo := doomed;
    while todo != {}
      invariant tm.Valid() && todo + gone == doomed && todo !! gone
      invariant tm.View() == Abort(st, gone) && todo <= tm.live.Keys
      invariant tm.transactions.Values <= old(tm.transactions.Values)
      decreases |todo|
    {
      var t :| t in todo;
      MoveOver(doomed, todo, gone, t);
      AbortsCompose(st, gone, t);
      tm.AbortTransaction(t);
      todo, gone := todo - {t}, gone + {t};
    }
    assert gone == doomed;
  }

  method TakeSiteDown(tm: TransactionManager, s: SiteId)
    requires tm.Valid()
    modifies tm.sm`up, tm.sm`readable, tm.sm.Sites()
    ensures tm.Valid() && tm.View() == TakeDown(old(tm.View()), s)
  {
    tm.sm.SetUnavailable(s);
  }

  method ExecFail(tm: TransactionManager, s: SiteId)
    requires tm.Valid()
    modifies tm`transactions, tm`transactionsSet, tm`live, tm`blockedQueue
    modifies tm.lm, tm.sm, tm.sm.Sites(), tm.sm.Variables()
    ensures tm.Valid() && tm.View() == FailSite(old(tm.View()), s)
    ensures tm.transactions.Values <= old(tm.transactions.Values)
  {
    TakeSiteDown(tm, s);
    var doomed := CollectWriters(tm, s);
    assert doomed == Writers(old(tm.View()), s);
    AbortEach(tm, doomed);
  }

  method BringSiteUp(tm: TransactionManager, s: SiteId)
    requires tm.Valid()
    modifies tm.sm`up, tm.sm`readable, tm.sm.Sites()
    ensures tm.Valid() && tm.sm.up == old(tm.sm.up) + {s} && tm.sm.readable == old(tm.sm.readable) + Restored(s)
    ensures tm.View() == old(tm.View()).(up := tm.sm.up, readable := tm.sm.readable)
  {
    tm.sm.SetWriteAvailable(s);
    var first := s - 1;
    if first % 2 == 1 {
      tm.sm.SetReadAvailable(s, first);
      tm.sm.SetReadAvailable(s, first + 10);
    }
  }

  method ExecRecover(tm: TransactionManager, s: SiteId)
    requires tm.Valid()
    modifies tm`siteWaitingMap, tm.sm`up, tm.sm`readable, tm.sm.Sites()
    ensures tm.Valid() && tm.View() == RecoverSite(old(tm.View()), s)
  {
    BringSiteUp(tm, s);
    tm.RemoveFromSiteWaitingMap(s);
  }

  // ----- Any request -----

  method ExecRequest(tm: TransactionManager, r: Request) returns (ok: bool)
    requires tm.Valid() && MayBegin(tm.live, r)
    modifies tm, tm.transactions.Values, tm.lm, tm.sm, tm.sm.Sites(), tm.sm.Variables()
    ensures tm.Valid() && Exec(old(tm.View()), r) == Result(ok, tm.View())
    ensures fresh(tm.transactions.Values - old(tm.transactions.Values))
  {
    ok := true;
    if r.Begin? {
      ExecBegin(tm, r);
    } else if r.OfTran() {
      ok := ExecOfTran(tm, r);
    } else {
      ExecOfSite(tm, r);
    }
  }

  method ExecOfTran(tm: TransactionManager, r: Request) returns (ok: bool)
    requires tm.Valid() && r.OfTran() && !r.Begin?
    modifies tm, tm.transactions.Values, tm.lm, tm.sm, tm.sm.Sites(), tm.sm.Variables()
    ensures tm.Valid() && Exec(old(tm.View()), r) == Result(ok, tm.View())
    ensures tm.transactions.Values <= old(tm.transactions.Values)
  {
    match r
    case Read(_, _, _) => ok := ExecRead(tm, r);
    case Write(_, _, _, _) => ok := ExecWrite(tm, r);
    case End(_, _) => ok := ExecEnd(tm, r);
  }

  method ExecOfSite(tm: TransactionManager, r: Request)
    requires tm.Valid() && !r.OfTran()
    modifies tm, tm.lm, tm.sm, tm.sm.Sites(), tm.sm.Variables()
    ensures tm.Valid() && Exec(old(tm.View()), r) == Next(tm.View())
    ensures tm.transactions.Values <= old(tm.transactions.Values)
  {
    match r
    case Fail(_, s) => ExecFail(tm, s);
    case Recover(_, s) => ExecRecover(tm, s);
    case Dump(_) =>
  }
}
