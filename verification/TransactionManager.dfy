/** The transaction manager object and the requests it runs (repcrec/transaction_manager, repcrec/request). */
module TransactionManagerObject {
  import opened Base
  import opened Model
  import opened Locking
  import opened Execution
  import opened Graph
  import opened SiteManagerObject
  import opened TransactionObject
  import opened LockManagerObject

  /** What the lock manager's operations read and change is the same in a state with transactions. */
  ghost predicate SameTables(st: State, bare: State) {
    && st.up == bare.up && st.readable == bare.readable && st.reps == bare.reps
    && st.locks == bare.locks && st.wait == bare.wait
  }

  lemma {:induction false} AcquireFromTables(st: State, bare: State, t: Tid, v: VarId, s: int, status: Status,
                                             sites: set<SiteId>)
    requires SameTables(st, bare) && 1 <= s
    ensures AcquireFrom(st, t, v, s, status, sites) == AcquireFrom(bare, t, v, s, status, sites)
    decreases SITE_COUNT + 1 - s
  {
    if s <= SITE_COUNT {
      AcquireFromTables(st, bare, t, v, s + 1, status, sites);
      AcquireFromTables(st, bare, t, v, s + 1, HasReadLock, sites + {s});
      AcquireFromTables(st, bare, t, v, s + 1, status, sites + {s});
    }
  }

  lemma AcquireTables(st: State, bare: State, t: Tid, v: VarId)
    requires SameTables(st, bare)
    ensures Acquire(st, t, v) == Acquire(bare, t, v)
  {
    if !Odd(v) {
      AcquireFromTables(st, bare, t, v, 1, AvailableToAssign, {});
    }
  }

  lemma AssignWriteTables(st: State, bare: State, t: Tid, sites: set<SiteId>, v: VarId)
    requires SameTables(st, bare)
    ensures SameTables(AssignWrite(st, t, sites, v), AssignWrite(bare, t, sites, v))
  {
    assert AssignWrite(st, t, sites, v).reps == AssignWrite(bare, t, sites, v).reps;
  }

  lemma AssignShareTables(st: State, bare: State, t: Tid, sites: set<SiteId>, v: VarId)
    requires SameTables(st, bare)
    ensures SameTables(AssignShare(st, t, sites, v), AssignShare(bare, t, sites, v))
  {
    assert ReadableIn(st, sites, v) == ReadableIn(bare, sites, v);
    assert AssignShare(st, t, sites, v).reps == AssignShare(bare, t, sites, v).reps;
  }

  lemma ReleaseTables(st: State, bare: State, ts: set<Tid>)
    requires SameTables(st, bare)
    ensures SameTables(Release(st, ts), Release(bare, ts))
  {
    assert forall p: Replica :: ReleaseRep(st, ts, p) == ReleaseRep(bare, ts, p);
    assert Release(st, ts).reps == Release(bare, ts).reps;
  }

  /** Named in the triggers of `TransactionsOk`, so that it is used only where a transaction is named. */
  predicate Known(t: Tid) {
    true
  }

  class TransactionManager {
    const sm: SiteManager
    const lm: LockManager
    var transactions: map<Tid, Transaction>

    /** The set ordered by descending begin time; its first element is the youngest transaction. */
    var transactionsSet: seq<Transaction>
    var blockedQueue: map<Tid, seq<Request>>
    var siteWaitingMap: map<Tid, SiteId>

    /** The live transactions as values; `Valid` ties them to the objects. */
    ghost var live: map<Tid, Tran>

    /** History. */
    ghost var now: int
    ghost var begun: set<Tid>
    ghost var ended: set<Tid>
    ghost var asked: set<(Tid, VarId)>
    ghost var log: seq<Commit>

    ghost function View(): State
      reads this, sm, lm
    {
      State(sm.up, sm.readable, sm.reps, lm.lockTable, EdgesOf(lm.waitForGraph), live, blockedQueue, siteWaitingMap,
            now, begun, ended, asked, log)
    }

    ghost predicate TransactionsMatch()
      reads this, transactions.Values
    {
      && transactions.Keys == live.Keys
      && forall t {:trigger Known(t)} | Known(t) && t in transactions ::
           transactions[t].id == t && transactions[t].Valid() && transactions[t].View() == live[t]
    }

    /** The ordered set holds the transactions of the map, the youngest first. */
    ghost predicate Ordered()
      reads this
    {
      && (forall t {:trigger Known(t)} | Known(t) && t in transactions :: transactions[t] in transactionsSet)
      && (forall x | x in transactionsSet :: Known(x.id) && x.id in transactions && transactions[x.id] == x)
      && (forall i, j | 0 <= i < j < |transactionsSet| :: transactionsSet[i].ts >= transactionsSet[j].ts)
    }

    /** Map, set and values tell of the same transactions. */
    ghost predicate TransactionsOk()
      reads this, transactions.Values
    {
      TransactionsMatch() && Ordered()
    }

    ghost predicate Valid()
      reads this, sm, sm.Sites(), sm.Variables(), transactions.Values
    {
      sm.Valid() && lm.sm == sm && TransactionsOk()
    }

    constructor ()
      ensures Valid() && View() == Init(START)
      ensures fresh(sm) && fresh(lm) && fresh(sm.Sites()) && fresh(sm.Variables())
    {
      var theSites := new SiteManager();
      sm := theSites;
      lm := new LockManager(theSites);
      transactions, transactionsSet, blockedQueue, siteWaitingMap := map[], [], map[], map[];
      live, now, begun, ended, asked, log := map[], START, {}, {}, {}, [];
    }

    // ----- Transactions -----

    method AddTransaction(t: Tid, tr: Transaction)
      requires TransactionsOk() && t !in transactions && tr.id == t && tr.Valid()
      requires forall u | u in live :: live[u].ts < tr.ts
      modifies this`transactions, this`transactionsSet, this`live
      ensures TransactionsOk() && live == old(live)[t := tr.View()]
      ensures transactions == old(transactions)[t := tr]
    {
      OlderThan(tr.ts);
      transactions := transactions[t := tr];
      transactionsSet := [tr] + transactionsSet;
      assert Known(t);
      live := live[t := tr.View()];
    }

    lemma OlderThan(ts: int)
      requires TransactionsOk() && forall u | u in live :: live[u].ts < ts
      ensures forall x | x in transactionsSet :: x.ts < ts
    {
      forall x | x in transactionsSet ensures x.ts < ts {
        assert transactions[x.id].View() == live[x.id];
      }
    }

    /** Erasing one element of the ordered set. */
    static function Without(xs: seq<Transaction>, x: Transaction): (ys: seq<Transaction>)
      ensures (forall y | y in ys :: y in xs && y != x) && (forall y | y in xs && y != x :: y in ys)
      ensures (forall i, j | 0 <= i < j < |xs| :: xs[i].ts >= xs[j].ts) ==>
                forall i, j | 0 <= i < j < |ys| :: ys[i].ts >= ys[j].ts
    {
      if xs == [] then []
      else
        var rest := Without(xs[1..], x);
        assert forall i | 0 <= i < |rest| :: rest[i] in xs[1..];
        assert xs == [xs[0]] + xs[1..];
        if xs[0] == x then rest else [xs[0]] + rest
    }

    method EvictTransaction(t: Tid)
      requires TransactionsOk() && t in transactions
      modifies this`transactions, this`transactionsSet, this`live
      ensures TransactionsOk() && live == old(live) - {t}
      ensures transactions == old(transactions) - {t}
    {
      assert Known(t);
      transactionsSet := Without(transactionsSet, transactions[t]);
      transactions := transactions - {t};
      live := live - {t};
    }

    /** The youngest live transaction is the first of the ordered set. */
    method First() returns (t: Tid)
      requires TransactionsOk() && transactionsSet != []
      ensures Youngest(live, t)
    {
      t := transactionsSet[0].id;
      assert transactions[t].View() == live[t];
      forall u | u in live ensures live[u].ts <= live[t].ts {
        assert Known(u) && transactions[u].View() == live[u];
      }
    }

    // ----- Write buffers and read histories -----

    method UpdateValues(t: Tid, s: SiteId, v: VarId, val: int)
      requires TransactionsOk() && t in transactions
      modifies this`live, transactions[t]
      ensures TransactionsOk()
      ensures live == old(live)[t := old(live[t]).(writes := old(live[t].writes)[(s, v) := val])]
    {
      assert Known(t);
      transactions[t].UpdateValues(s, v, val);
      live := live[t := transactions[t].View()];
    }

    method AddReadHistory(t: Tid, s: SiteId, v: VarId, val: int)
      requires TransactionsOk() && t in transactions
      modifies this`live, transactions[t]
      ensures TransactionsOk()
      ensures live == old(live)[t := old(live[t]).(history := old(live[t].history)[(s, v) := val])]
    {
      assert Known(t);
      transactions[t].AddReadHistory(s, v, val);
      live := live[t := transactions[t].View()];
    }

    method BufferAll(t: Tid, siteSet: set<SiteId>, v: VarId, val: int)
      requires TransactionsOk() && t in transactions
      modifies this`live, transactions[t]
      ensures TransactionsOk() && live == old(live)[t := WithWrites(old(live[t]), siteSet, v, val)]
    {
      ghost var tr, done: set<SiteId> := live[t], {};
      var todo := siteSet;
      BufferNowhere(tr, v, val);
      while todo != {}
        invariant TransactionsOk() && todo + done == siteSet && todo !! done
        invariant live == old(live)[t := WithWrites(tr, done, v, val)]
        decreases |todo|
      {
        var s :| s in todo;
        MoveOver(siteSet, todo, done, s);
        BufferOne(t, s, v, val, tr, done);
        todo, done := todo - {s}, done + {s};
      }
      assert done == siteSet;
    }

    /** One site, after those of `done`. */
    method BufferOne(t: Tid, s: SiteId, v: VarId, val: int, ghost tr: Tran, ghost done: set<SiteId>)
      requires TransactionsOk() && t in transactions && live[t] == WithWrites(tr, done, v, val)
      modifies this`live, transactions[t]
      ensures TransactionsOk() && live == old(live)[t := WithWrites(tr, done + {s}, v, val)]
    {
      BufferStep(tr, done, s, v, val);
      UpdateValues(t, s, v, val);
    }

    // ----- Commit -----

    /** The two checks of `commit`. */
    method Validate(t: Tid) returns (ok: bool)
      requires Valid() && t in transactions
      ensures ok <==> Validates(View(), live[t])
    {
      assert Known(t);
      var tr := transactions[t];
      var todo := tr.writeAccessed.Keys;
      while todo != {}
        invariant todo <= live[t].writes.Keys
        invariant forall p | p in live[t].writes && p !in todo :: p.0 in sm.up
        decreases |todo|
      {
        var p :| p in todo;
        todo := todo - {p};
        if !sm.IsWriteAvailable(p.0) {
          return false;
        }
      }
      todo := tr.readAccessed.Keys;
      while todo != {}
        invariant todo <= live[t].history.Keys
        invariant forall p | p in live[t].history && p !in todo :: p in sm.readable
        decreases |todo|
      {
        var p :| p in todo;
        todo := todo - {p};
        if !sm.IsReadAvailable(p.0, p.1) {
          return false;
        }
      }
      return true;
    }

    /** The installing loop of `commit`. */
    method InstallAll(writes: map<Replica, int>, time: int)
      requires sm.Valid()
      modifies sm, sm.Sites(), sm.Variables()
      ensures sm.Valid() && sm.up == old(sm.up)
      ensures sm.readable == old(sm.readable) + writes.Keys
      ensures Installed(old(sm.reps), sm.reps, writes, writes.Keys, time)
    {
      ghost var before, readable, up, done: set<Replica> := sm.reps, sm.readable, sm.up, {};
      var todo := writes.Keys;
      while todo != {}
        invariant sm.Valid() && sm.up == up
        invariant todo + done == writes.Keys && todo !! done
        invariant sm.readable == readable + done && Installed(before, sm.reps, writes, done, time)
        decreases |todo|
      {
        var p :| p in todo;
        MoveOver(writes.Keys, todo, done, p);
        InstallOne(p, writes, time, before, readable, done);
        todo, done := todo - {p}, done + {p};
      }
      assert done == writes.Keys;
    }

    /** One replica, after those of `done`. */
    method InstallOne(p: Replica, writes: map<Replica, int>, time: int,
                      ghost before: Store, ghost readable: set<Replica>, ghost done: set<Replica>)
      requires sm.Valid() && p in writes && p !in done
      requires Installed(before, sm.reps, writes, done, time) && sm.readable == readable + done
      modifies sm, sm.Sites(), sm.Variables()
      ensures sm.Valid() && sm.up == old(sm.up)
      ensures Installed(before, sm.reps, writes, done + {p}, time) && sm.readable == readable + (done + {p})
    {
      ghost var mid := sm.reps;
      sm.AssignVar(p.0, p.1, writes[p], time);
      InstalledNext(before, mid, sm.reps, writes, done, p, time);
      sm.SetReadAvailable(p.0, p.1);
    }

    // ----- The lock manager, seen from the whole state -----

    method Release(t: Tid)
      requires sm.Valid() && lm.sm == sm
      modifies lm, sm`reps, sm.Variables()
      ensures sm.Valid() && View() == Locking.Release(old(View()), {t})
    {
      ReleaseTables(View(), lm.View(), {t});
      lm.ReleaseLocks(t);
    }

    method AssignWriteLock(t: Tid, siteSet: set<SiteId>, v: VarId)
      requires sm.Valid() && lm.sm == sm
      modifies lm`lockTable, sm`reps, sm.Variables()
      ensures sm.Valid() && View() == AssignWrite(old(View()), t, siteSet, v)
    {
      AssignWriteTables(View(), lm.View(), t, siteSet, v);
      lm.AssignWriteLock(t, siteSet, v);
    }

    method AssignShareLock(t: Tid, siteSet: set<SiteId>, v: VarId)
      requires sm.Valid() && lm.sm == sm
      modifies lm`lockTable, sm`reps, sm.Variables()
      ensures sm.Valid() && View() == AssignShare(old(View()), t, siteSet, v)
    {
      AssignShareTables(View(), lm.View(), t, siteSet, v);
      lm.AssignShareLock(t, siteSet, v);
    }

    method TryAcquireWriteLock(t: Tid, v: VarId) returns (a: LockStatus)
      requires sm.Valid() && lm.sm == sm
      ensures a == Acquire(View(), t, v)
    {
      AcquireTables(View(), lm.View(), t, v);
      a := lm.TryAcquireWriteLock(t, v);
    }

    // ----- Blocked queue and site waiting map -----

    method AddRequestToBlockedQueue(r: Request)
      requires r.OfTran()
      modifies this`blockedQueue
      ensures View() == Enqueue(old(View()), r)
    {
      blockedQueue := blockedQueue[r.t := InsertByTime(if r.t in blockedQueue then blockedQueue[r.t] else [], r)];
    }

    predicate IsTransactionWaitingForSite(t: Tid)
      reads this
    {
      t in siteWaitingMap
    }

    method AddToSiteWaitingMap(t: Tid, s: SiteId)
      modifies this`siteWaitingMap
      ensures siteWaitingMap == old(siteWaitingMap)[t := s]
    {
      siteWaitingMap := siteWaitingMap[t := s];
    }

    method RemoveFromSiteWaitingMap(s: SiteId)
      modifies this`siteWaitingMap
      ensures siteWaitingMap ==
                map t | t in old(siteWaitingMap) && old(siteWaitingMap)[t] != s :: old(siteWaitingMap)[t]
    {
      var unblocked: set<Tid> := {};
      var todo := siteWaitingMap.Keys;
      while todo != {}
        invariant todo <= siteWaitingMap.Keys
        invariant unblocked == set t | t in siteWaitingMap && t !in todo && siteWaitingMap[t] == s
        decreases |todo|
      {
        var t :| t in todo;
        todo := todo - {t};
        if siteWaitingMap[t] == s {
          unblocked := unblocked + {t};
        }
      }
      siteWaitingMap := siteWaitingMap - unblocked;
    }

    /** Blocks a read on a site that is down. */
    method BlockOnSite(r: Request, s: SiteId)
      requires r.OfTran()
      modifies this`siteWaitingMap, this`blockedQueue
      ensures View() == Enqueue(AwaitSite(old(View()), r.t, s), r)
    {
      if !IsTransactionWaitingForSite(r.t) {
        AddToSiteWaitingMap(r.t, s);
      }
      AddRequestToBlockedQueue(r);
    }

    /** Blocks a request on the holders of locks. */
    method BlockOnOwners(r: Request, owners: set<Tid>)
      requires r.OfTran() && lm.sm == sm
      modifies lm`waitForGraph, this`blockedQueue
      ensures View() == Enqueue(AddWaits(old(View()), r.t, owners), r)
    {
      lm.AssignWaitForGraph(r.t, owners);
      AddRequestToBlockedQueue(r);
    }

    // ----- Ending transactions -----

    method AbortTransaction(t: Tid)
      requires Valid() && t in transactions
      modifies this`transactions, this`transactionsSet, this`live, this`blockedQueue, lm, sm`reps, sm.Variables()
      ensures Valid() && View() == Abort(old(View()), {t}) && transactions == old(transactions) - {t}
    {
      Forget(t);
      Release(t);
    }

    method Forget(t: Tid)
      requires TransactionsOk() && t in transactions
      modifies this`transactions, this`transactionsSet, this`live, this`blockedQueue
      ensures TransactionsOk() && transactions == old(transactions) - {t}
      ensures View() == old(View()).(live := old(live) - {t}, queue := old(blockedQueue) - {t})
    {
      EvictTransaction(t);
      blockedQueue := blockedQueue - {t};
    }

    method EndTransaction(t: Tid, time: int)
      requires Valid() && t in transactions
      modifies this, lm, sm, sm.Sites(), sm.Variables()
      ensures Valid() && View() == EndTran(old(View()), t, time) && transactions == old(transactions) - {t}
    {
      var ok := Validate(t);
      if ok {
        CommitTransaction(t, time);
      } else {
        AbortTransaction(t);
      }
    }

    method CommitTransaction(t: Tid, time: int)
      requires Valid() && t in transactions && Validates(View(), live[t])
      modifies this, lm, sm, sm.Sites(), sm.Variables()
      ensures Valid() && View() == EndTran(old(View()), t, time) && transactions == old(transactions) - {t}
    {
      InstallTransaction(t, time);
      ReleaseAndEvict(t);
    }

    method ReleaseAndEvict(t: Tid)
      requires Valid() && t in transactions
      modifies this`transactions, this`transactionsSet, this`live, lm, sm`reps, sm.Variables()
      ensures Valid() && View() == Evict(Locking.Release(old(View()), {t}), t)
      ensures transactions == old(transactions) - {t}
    {
      Release(t);
      EvictView(t);
    }

    method EvictView(t: Tid)
      requires Valid() && t in transactions
      modifies this`transactions, this`transactionsSet, this`live
      ensures Valid() && View() == Evict(old(View()), t) && transactions == old(transactions) - {t}
    {
      EvictTransaction(t);
    }

    method InstallTransaction(t: Tid, time: int)
      requires Valid() && t in transactions
      modifies this`log, sm, sm.Sites(), sm.Variables()
      ensures Valid() && View() == Install(LogCommit(old(View()), t, time), old(live[t].writes), time)
    {
      assert Known(t);
      var writes := transactions[t].writeRecords;
      InstalledIsInstall(LogCommit(View(), t, time), writes, time);
      log := log + [Commit(t, live[t].ro, time, live[t].history, writes)];
      InstallAll(writes, time);
    }
  }

  /** The installing loop after the replicas of `done`. */
  ghost predicate Installed(before: Store, after: Store, writes: map<Replica, int>, done: set<Replica>, time: int) {
    forall p: Replica ::
      after[p] == if p in done && p in writes then InstallRep(before[p], writes[p], time) else before[p]
  }

  lemma InstalledNext(before: Store, mid: Store, after: Store, writes: map<Replica, int>, done: set<Replica>,
                      p: Replica, time: int)
    requires Installed(before, mid, writes, done, time) && p in writes && p !in done
    requires after == mid[p := InstallRep(mid[p], writes[p], time)]
    ensures Installed(before, after, writes, done + {p}, time)
  {
  }

  lemma InstalledIsInstall(st: State, writes: map<Replica, int>, time: int)
    ensures forall reps: Store | Installed(st.reps, reps, writes, writes.Keys, time) ::
            reps == Install(st, writes, time).reps
  {
    forall reps: Store | Installed(st.reps, reps, writes, writes.Keys, time)
      ensures reps == Install(st, writes, time).reps
    {
      forall p: Replica ensures reps[p] == Install(st, writes, time).reps[p] {
      }
    }
  }

  lemma BufferNowhere(tr: Tran, v: VarId, val: int)
    ensures WithWrites(tr, {}, v, val) == tr
  {
    assert WithWrites(tr, {}, v, val).writes == tr.writes;
  }

  lemma BufferStep(tr: Tran, done: set<SiteId>, s: SiteId, v: VarId, val: int)
    ensures var one := WithWrites(tr, done, v, val);
      one.(writes := one.writes[(s, v) := val]) == WithWrites(tr, done + {s}, v, val)
  {
    var one := WithWrites(tr, done, v, val);
    assert one.writes[(s, v) := val] == WithWrites(tr, done + {s}, v, val).writes;
  }
}
