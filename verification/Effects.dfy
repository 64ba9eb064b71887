/** Exactly what each request, and each victim of a deadlock, does to every field of the state. */
module Effects {
  import opened Base
  import opened Versions
  import opened Model
  import opened Execution
  import opened Invariant
  import opened LockLemmas
  import opened DataLemmas
  import opened Traces
  import opened Courses
  import opened Commits
  import opened Acquisition

  lemma RanAt(ms: seq<Moment>, es: seq<Event>, k: nat, r: Request)
    requires Course(ms, es) && k < |es| && es[k] == Ran(r)
    ensures LockInv(ms[k].st, {}) && Exec(ms[k].st, r) == Next(ms[k + 1].st)
  {
    assert Micro(ms[k], es[k], ms[k + 1]);
    CourseKeeps(ms, es, k);
  }

  // ----- Transactions that end -----

  /**
    * The transactions of `ts` leave with all their locks and the edges from them; a transaction that
    * waited for nobody else but one of them stops waiting. Nothing of the others changes.
    */
  ghost predicate Leave(st: State, st': State, ts: set<Tid>) {
    && st'.live == st.live - ts
    && (forall p: Replica :: st'.reps[p].shared == st.reps[p].shared - ts)
    && (forall p: Replica :: st'.reps[p].excl ==
          if st.reps[p].excl.Some? && st.reps[p].excl.value in ts then None else st.reps[p].excl)
    && (forall e :: e in st'.wait <==>
          && e in st.wait && e.0 !in ts
          && forall t | t in ts :: exists f | f in st.wait :: f.0 == e.0 && f.1 != t)
    && st'.siteWait == st.siteWait && st'.begun == st.begun && st'.ended == st.ended
  }

  /** The transactions of `ts` are aborted, and their queue entries are gone. */
  ghost predicate AbortsExactly(st: State, st': State, ts: set<Tid>) {
    Leave(st, st', ts) && SameValues(st, st') && st'.queue == st.queue - ts
  }

  lemma AbortLeaves(st: State, ts: set<Tid>)
    requires Tabled(st)
    ensures AbortsExactly(st, Abort(st, ts), ts)
    ensures Abort(st, ts).up == st.up && Abort(st, ts).readable == st.readable
  {
    AbortEffect(st, ts);
    AbortValues(st, ts);
    var st' := Abort(st, ts);
    forall p: Replica
      ensures st'.reps[p].excl ==
              if st.reps[p].excl.Some? && st.reps[p].excl.value in ts then None else st.reps[p].excl
    {
      if st'.reps[p].excl.Some? {
        assert Holds(st'.reps[p], st'.reps[p].excl.value);
      }
    }
  }

  lemma AbortValues(st: State, ts: set<Tid>)
    ensures SameValues(st, Abort(st, ts))
  {
  }

  /** A victim of a deadlock is a youngest live transaction, and nobody else ends with it. */
  lemma VictimOutcome(ms: seq<Moment>, es: seq<Event>, k: nat, t: Tid)
    requires Course(ms, es) && k < |es| && es[k] == Victim(t)
    ensures var a, b := ms[k].st, ms[k + 1].st;
      && t in a.live && (forall u | u in a.live :: a.live[u].ts <= a.live[t].ts)
      && AbortsExactly(a, b, {t}) && b.up == a.up && b.readable == a.readable
  {
    CourseKeeps(ms, es, k);
    AbortLeaves(ms[k].st, {t});
  }

  // ----- Sites -----

  /** Whom a failing site takes with it, and that it goes down with its replicas. */
  ghost predicate Fails(st: State, st': State, s: SiteId) {
    && (forall t :: t in st'.live <==> t in st.live && forall p | p in st.live[t].writes :: p.0 != s)
    && AbortsExactly(st, st', st.live.Keys - st'.live.Keys)
    && st'.up == st.up - {s}
    && (forall p :: p in st'.readable <==> p in st.readable && p.0 != s)
  }

  lemma FailDooms(st: State, s: SiteId)
    ensures Writers(st, s) <= st.live.Keys
    ensures forall t | t in st.live :: t !in Writers(st, s) <==> forall p | p in st.live[t].writes :: p.0 != s
  {
  }

  lemma FailIsExact(st: State, st': State, s: SiteId)
    requires LockInv(st, {}) && st' == FailSite(st, s)
    ensures Fails(st, st', s)
  {
    var mid, ts := TakeDown(st, s), Writers(st, s);
    TakeDownLocks(st, s);
    AbortLeaves(mid, ts);
    FailDooms(st, s);
    assert st.live.Keys - st'.live.Keys == ts;
    LeaveFrom(st, mid, st', ts);
  }

  lemma LeaveFrom(st: State, mid: State, st': State, ts: set<Tid>)
    requires AbortsExactly(mid, st', ts) && mid == st.(up := mid.up, readable := mid.readable)
    ensures AbortsExactly(st, st', ts)
  {
  }

  /**
    * The failure of a site ends exactly the live transactions that have buffered a write there. All
    * others keep buffer, history, locks and queue entry, whatever they have read at the site.
    */
  lemma FailOutcome(ms: seq<Moment>, es: seq<Event>, k: nat, ts: int, s: SiteId)
    requires Course(ms, es) && k < |es| && es[k] == Ran(Fail(ts, s))
    ensures Fails(ms[k].st, ms[k + 1].st, s)
  {
    RanAt(ms, es, k, es[k].r);
    FailIsExact(ms[k].st, ms[k + 1].st, s);
  }

  /** The site is up, the odd variables that live there are readable, and nobody awaits it any more. */
  ghost predicate Recovers(st: State, st': State, s: SiteId) {
    && st'.up == st.up + {s}
    && (forall p: Replica :: p in st'.readable <==> p in st.readable || (p.0 == s && Odd(p.1) && Home(p.1) == s))
    && (forall t :: t in st'.siteWait <==> t in st.siteWait && st.siteWait[t] != s)
    && (forall t | t in st'.siteWait :: st'.siteWait[t] == st.siteWait[t])
    && st' == st.(up := st'.up, readable := st'.readable, siteWait := st'.siteWait)
  }

  lemma RecoverIsExact(st: State, st': State, s: SiteId)
    requires st' == RecoverSite(st, s)
    ensures Recovers(st, st', s)
  {
    RestoredExact(s);
  }

  /** The recovery of a site, whether odd variables live there or not. */
  lemma RecoverOutcome(ms: seq<Moment>, es: seq<Event>, k: nat, ts: int, s: SiteId)
    requires Course(ms, es) && k < |es| && es[k] == Ran(Recover(ts, s))
    ensures Recovers(ms[k].st, ms[k + 1].st, s)
  {
    RanAt(ms, es, k, es[k].r);
    RecoverIsExact(ms[k].st, ms[k + 1].st, s);
  }

  // ----- Begin and End -----

  /** One transaction is new, of the given age and kind; it has neither read nor written. */
  ghost predicate Begins(st: State, st': State, ts: int, t: Tid, ro: bool) {
    && t !in st.begun && t !in st.live
    && st'.live == st.live[t := Tran(ts, ro, map[], map[])]
    && st' == st.(live := st'.live, begun := st.begun + {t})
  }

  lemma BeginOutcome(ms: seq<Moment>, es: seq<Event>, k: nat, ts: int, t: Tid, ro: bool)
    requires Course(ms, es) && k < |es| && es[k] == Ran(Begin(ts, t, ro))
    ensures Begins(ms[k].st, ms[k + 1].st, ts, t, ro)
  {
    assert Micro(ms[k], es[k], ms[k + 1]);
    CourseKeeps(ms, es, k);
  }

  /** A commit installs at `time` what is buffered, makes it readable, and logs it. */
  ghost predicate CommitsExactly(st: State, st': State, t: Tid, time: int)
    requires t in st.live
  {
    Success(st, st', t, time) && Leave(st, st', {t})
  }

  /** What the End of `t` does, issued at `time`. */
  ghost predicate Ended(st: State, st': State, t: Tid, time: int)
    requires t in st.live
  {
    && st'.up == st.up
    && if forall p | p in st.live[t].history :: p in st.readable then CommitsExactly(st, st', t, time)
       else AbortsExactly(st, st', {t}) && st'.readable == st.readable
  }

  lemma LeaveAfterCommit(st: State, t: Tid, time: int)
    requires LockInv(st, {}) && t in st.live && Validates(st, st.live[t])
    ensures Leave(st, EndTran(st, t, time), {t})
  {
    InstallLocks(st, t, time);
    var mid := Committed(st, t, time);
    AbortLeaves(mid, {t});
    CommitIsInstallThenAbort(st, t, time);
    LeaveFromInstalled(st, mid, Abort(mid, {t}), EndTran(st, t, time), t, time);
  }

  lemma SameHolders(st: State, mid: State, t: Tid, time: int)
    requires t in st.live && mid == Committed(st, t, time)
    ensures forall p: Replica :: mid.reps[p].excl == st.reps[p].excl && mid.reps[p].shared == st.reps[p].shared
    ensures mid == st.(reps := mid.reps, readable := mid.readable, log := mid.log)
  {
  }

  lemma LeaveFromInstalled(st: State, mid: State, ab: State, st': State, t: Tid, time: int)
    requires t in st.live && mid == Committed(st, t, time) && Leave(mid, ab, {t}) && st' == ab.(queue := st.queue)
    ensures Leave(st, st', {t})
  {
    assert st'.reps == ab.reps;
    SameHolders(st, mid, t, time);
  }

  lemma EndIsExact(st: State, st': State, t: Tid, time: int)
    requires LockInv(st, {}) && t in st.live && st' == EndTran(st, t, time)
    ensures Ended(st, st', t, time)
  {
    if Validates(st, st.live[t]) {
      CommitSucceeds(st, t, time);
      LeaveAfterCommit(st, t, time);
    } else {
      AbortLeaves(st, {t});
    }
  }

  /**
    * An End commits if and only if all that the transaction has read is readable still; otherwise it
    * aborts the transaction. Either way nothing of another transaction changes.
    */
  lemma EndOutcome(ms: seq<Moment>, es: seq<Event>, k: nat, time: int, t: Tid)
    requires Course(ms, es) && k < |es| && es[k] == Ran(End(time, t))
    ensures t in ms[k].st.live && Ended(ms[k].st, ms[k + 1].st, t, time)
  {
    RanAt(ms, es, k, es[k].r);
    EndIsExact(ms[k].st, ms[k + 1].st, t, time);
  }

  // ----- Snapshot reads -----

  /** Where a snapshot read of `v` looks: the home of an odd variable, or the least site with a readable replica. */
  predicate LooksAt(st: State, v: VarId, s: SiteId) {
    && (s, v) in st.readable
    && if Odd(v) then s == Home(v) else forall i: SiteId | (i, v) in st.readable :: s <= i
  }

  /** The version at the begin time of the reader is recorded for the replica at `s`; nothing else changes. */
  ghost predicate RecordsVersion(st: State, st': State, r: Request, s: SiteId)
    requires r.Read? && r.t in st.live
  {
    var p, tr := (s, r.v), st.live[r.t];
    exists k: int ::
      && IsFloor(st.reps[p].versions, tr.ts, k)
      && st' == st.(live := st.live[r.t := tr.(history := tr.history[p := st.reps[p].versions[k]])])
  }

  /** The three fates of a snapshot read. */
  ghost predicate SnapshotFate(st: State, st': State, r: Request)
    requires r.Read? && r.t in st.live
  {
    && (HomeUnreadable(st, r) ==> AwaitsHome(st, st', r))
    && (forall s: SiteId | LooksAt(st, r.v, s) :: RecordsVersion(st, st', r, s))
    && ((forall s: SiteId :: (s, r.v) !in st.readable) && !Odd(r.v) ==>
          AbortsExactly(st, st', {r.t}) && st'.up == st.up && st'.readable == st.readable)
  }

  lemma RecordsAtFloor(st: State, r: Request, s: SiteId)
    requires r.Read? && r.t in st.live && -1 in st.reps[(s, r.v)].versions && 0 <= st.live[r.t].ts
    ensures RecordsVersion(st, RecordRead(st, r.t, (s, r.v), ValueAt(st.reps[(s, r.v)], st.live[r.t].ts)), r, s)
  {
    var k := FloorKey(st.reps[(s, r.v)].versions, st.live[r.t].ts);
    assert IsFloor(st.reps[(s, r.v)].versions, st.live[r.t].ts, k);
  }

  lemma HasInitialVersions(st: State)
    requires StoreIsLog(st)
    ensures forall p: Replica :: -1 in st.reps[p].versions
  {
    forall p: Replica ensures -1 in st.reps[p].versions {
      VersionMapKeys(p.1 * 10, Installs(st.log, p));
    }
  }

  lemma SnapshotFates(st: State, r: Request)
    requires LockInv(st, {}) && StoreIsLog(st) && Ages(st)
    requires r.Read? && r.t in st.live && st.live[r.t].ro
    ensures Exec(st, r).Next? && SnapshotFate(st, Exec(st, r).st, r)
  {
    HasInitialVersions(st);
    if Odd(r.v) {
      if HomeUnreadable(st, r) {
        AwaitingFate(st, r);
      } else {
        RecordsAtFloor(st, r, Home(r.v));
      }
    } else {
      match FirstReadable(st, r.v, 1)
      case Some(s) =>
        RecordsAtFloor(st, r, s);
        assert forall i: SiteId | LooksAt(st, r.v, i) :: i == s;
      case None => AbortLeaves(st, {r.t});
    }
  }

  /**
    * Exactly what becomes of a snapshot read, at every moment: it waits for the home site, or it records
    * the version at the begin time, or its transaction is aborted because no site has a readable replica.
    */
  lemma SnapshotOutcome(ms: seq<Moment>, es: seq<Event>, k: nat, r: Request)
    requires Course(ms, es) && k < |ms| && r.Read? && r.t in ms[k].st.live && ms[k].st.live[r.t].ro
    ensures Exec(ms[k].st, r).Next? && SnapshotFate(ms[k].st, Exec(ms[k].st, r).st, r)
  {
    CourseKeeps(ms, es, k);
    SnapshotFates(ms[k].st, r);
  }
}
