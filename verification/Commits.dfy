/** Release is exact, commits are all-or-nothing, and nothing else installs a value. */
module Commits {
  import opened Base
  import opened Model
  import opened Locking
  import opened Execution
  import opened Invariant
  import opened LockLemmas
  import opened DataLemmas
  import opened Traces
  import opened Courses

  /**
    * Between `st` and `st'` every lock of `t` has gone and no other; of the edges exactly those from
    * `t`, and those from transactions that waited for nobody but `t`.
    */
  ghost predicate ReleasedExactly(st: State, st': State, t: Tid) {
    && (forall p: Replica, u :: Holds(st'.reps[p], u) <==> Holds(st.reps[p], u) && u != t)
    && (forall p: Replica, u :: st'.reps[p].excl == Some(u) <==> st.reps[p].excl == Some(u) && u != t)
    && (forall e :: e in st'.wait <==>
          e in st.wait && e.0 != t && exists f | f in st.wait :: f.0 == e.0 && f.1 != t)
  }

  lemma ReleaseIsExact(st: State, t: Tid)
    requires Tabled(st)
    ensures ReleasedExactly(st, Release(st, {t}), t)
  {
    ReleaseClears(st, {t});
  }

  lemma AbortReleases(st: State, t: Tid)
    requires Tabled(st)
    ensures ReleasedExactly(st, Abort(st, {t}), t)
  {
    AbortEffect(st, {t});
  }

  lemma FailingTabled(st: State, s: SiteId, doomed: set<Tid>)
    requires LockInv(st, {})
    ensures Tabled(Abort(TakeDown(st, s), doomed))
  {
    TakeDownLocks(st, s);
    AbortEffect(TakeDown(st, s), doomed);
    AbortedTabled(TakeDown(st, s), Abort(TakeDown(st, s), doomed), doomed);
  }

  /**
    * `release_locks` takes every lock of the transaction, wherever it is, and no lock of another:
    * when it is aborted, alone or among the victims of a failing site, and after its commit has
    * installed.
    */
  lemma ReleaseExact(ms: seq<Moment>, es: seq<Event>, k: nat, t: Tid, time: int, s: SiteId, doomed: set<Tid>)
    requires Course(ms, es) && k < |ms|
    ensures ReleasedExactly(ms[k].st, Abort(ms[k].st, {t}), t)
    ensures var failing := Abort(TakeDown(ms[k].st, s), doomed); ReleasedExactly(failing, Abort(failing, {t}), t)
    ensures t in ms[k].st.live ==>
              var installed := Committed(ms[k].st, t, time);
              ReleasedExactly(installed, Release(installed, {t}), t)
  {
    CourseKeeps(ms, es, k);
    AbortReleases(ms[k].st, t);
    FailingTabled(ms[k].st, s, doomed);
    AbortReleases(Abort(TakeDown(ms[k].st, s), doomed), t);
    if t in ms[k].st.live {
      InstallLocks(ms[k].st, t, time);
      ReleaseIsExact(Committed(ms[k].st, t, time), t);
    }
  }

  /** Neither locks nor edges nor an entry of the live set are left of `t`. */
  ghost predicate Gone(st: State, t: Tid) {
    && t !in st.live && t !in st.locks
    && (forall p: Replica :: !Holds(st.reps[p], t))
    && (forall e | e in st.wait :: e.0 != t)
  }

  /** The write buffer never makes a commit fail; only a read whose replica is unreadable does. */
  lemma CommitFailsOnlyOnReads(ms: seq<Moment>, es: seq<Event>, k: nat, t: Tid)
    requires Course(ms, es) && k < |ms| && t in ms[k].st.live
    ensures forall p | p in ms[k].st.live[t].writes :: p.0 in ms[k].st.up
    ensures Validates(ms[k].st, ms[k].st.live[t]) <==>
              forall p | p in ms[k].st.live[t].history :: p in ms[k].st.readable
  {
    CourseKeeps(ms, es, k);
  }

  /** A successful commit installs exactly the buffered values, at the commit time, and takes every lock away. */
  ghost predicate Success(st: State, st': State, t: Tid, time: int)
    requires t in st.live
  {
    var w := st.live[t].writes;
    && (forall p: Replica :: st'.reps[p].value == if p in w then w[p] else st.reps[p].value)
    && (forall p: Replica :: st'.reps[p].versions ==
          if p in w then st.reps[p].versions[time := w[p]] else st.reps[p].versions)
    && st'.readable == st.readable + w.Keys
    && st'.log == st.log + [Commit(t, st.live[t].ro, time, st.live[t].history, w)]
    && st'.queue == st.queue
  }

  ghost predicate Failure(st: State, st': State, t: Tid) {
    && SameValues(st, st')
    && st'.readable == st.readable
    && st'.queue == st.queue - {t}
  }

  lemma CommitAllOrNothing(st: State, t: Tid, time: int)
    requires LockInv(st, {}) && t in st.live
    ensures var st' := EndTran(st, t, time);
      && Gone(st', t) && st'.live == st.live - {t} && st'.up == st.up
      && if Validates(st, st.live[t]) then Success(st, st', t, time) else Failure(st, st', t)
  {
    if Validates(st, st.live[t]) {
      CommitSucceeds(st, t, time);
      CommitIsInstallThenAbort(st, t, time);
      InstallLocks(st, t, time);
      AbortedIsGone(Committed(st, t, time), t);
    } else {
      AbortedIsGone(st, t);
    }
  }

  lemma CommitSucceeds(st: State, t: Tid, time: int)
    requires t in st.live && Validates(st, st.live[t])
    ensures Success(st, EndTran(st, t, time), t, time)
  {
  }

  lemma AbortedIsGone(st: State, t: Tid)
    requires Tabled(st)
    ensures Gone(Abort(st, {t}), t) && t !in Abort(st, {t}).queue
  {
    AbortEffect(st, {t});
  }

  /** No change other than a successful commit installs anything. */
  lemma OnlyCommitsInstall(a: Moment, e: Event, b: Moment)
    requires Micro(a, e, b)
    requires e.Ran? && e.r.End? && e.r.t in a.st.live ==> !Validates(a.st, a.st.live[e.r.t])
    ensures forall p: Replica ::
              b.st.reps[p].value == a.st.reps[p].value && b.st.reps[p].versions == a.st.reps[p].versions
    ensures b.st.log == a.st.log
  {
    if e.Ran? {
      ExecInstallsNothing(a.st, e.r);
    }
  }

  ghost predicate SameValues(st: State, st': State) {
    && st'.log == st.log
    && forall p: Replica :: st'.reps[p].value == st.reps[p].value && st'.reps[p].versions == st.reps[p].versions
  }

  /**
    * What a read or write may do to transactions and data: a buffer grows, the reader records a
    * value, a transaction may go.
    */
  ghost predicate Harmless(st: State, st': State, r: Request) {
    && SameValues(st, st') && st'.begun == st.begun
    && forall u | u in st'.live ::
         && u in st.live && st'.live[u].ts == st.live[u].ts && st'.live[u].ro == st.live[u].ro
         && st.live[u].writes.Keys <= st'.live[u].writes.Keys
         && ((r.Read? && r.t == u) || st'.live[u].history == st.live[u].history)
  }

  lemma BufferHarmless(st: State, r: Request, sites: set<SiteId>)
    requires r.Write?
    ensures r.t in st.live ==> Harmless(st, Buffer(st, r.t, sites, r.v, r.val), r)
  {
  }

  lemma GrantHarmless(st: State, r: Request, sites: set<SiteId>)
    requires r.Write? && GrantWrite(st, r, sites).Next?
    ensures Harmless(st, GrantWrite(st, r, sites).st, r)
  {
    if sites != {} {
      var mid := Buffer(st, r.t, sites, r.v, r.val);
      BufferHarmless(st, r, sites);
      assert SameValues(mid, AssignWrite(mid, r.t, sites, r.v));
    }
  }

  lemma WriteHarmless(st: State, r: Request, a: LockStatus)
    requires r.Write? && WriteWith(st, r, a).Next?
    ensures Harmless(st, WriteWith(st, r, a).st, r)
  {
    if a.status == HasReadLock || a.status == AvailableToAssign {
      GrantHarmless(st, r, a.sites);
    } else if a.status == HasWriteLock {
      BufferHarmless(st, r, if Odd(r.v) then {Home(r.v)} else a.sites);
    }
  }

  lemma RecordHarmless(st: State, r: Request, p: Replica, val: int)
    requires r.Read? && r.t in st.live
    ensures Harmless(st, RecordRead(st, r.t, p, val), r)
  {
  }

  lemma ShareHarmless(st: State, r: Request, sites: set<SiteId>)
    requires r.Read?
    ensures Harmless(st, AssignShare(st, r.t, sites, r.v), r)
  {
  }

  lemma ReadHarmless(st: State, r: Request, a: LockStatus)
    requires r.Read? && r.t in st.live && ReadWith(st, r, a).Next?
    ensures Harmless(st, ReadWith(st, r, a).st, r)
  {
    var p := (Home(r.v), r.v);
    if a.status == AvailableToAssign {
      var mid := AssignShare(st, r.t, a.sites, r.v);
      ShareHarmless(st, r, a.sites);
      RecordHarmless(mid, r, p, mid.reps[p].value);
    } else if a.status == HasReadWriteLock {
      RecordHarmless(st, r, p, st.reps[p].value);
    }
  }

  lemma AbortHarmless(st: State, r: Request, ts: set<Tid>)
    ensures Harmless(st, Abort(st, ts), r)
  {
  }

  lemma ReadOnlyHarmless(st: State, r: Request)
    requires r.Read? && r.t in st.live && ReadOnly(st, r).Next?
    ensures Harmless(st, ReadOnly(st, r).st, r)
  {
    var ts := st.live[r.t].ts;
    if Odd(r.v) {
      var p := (Home(r.v), r.v);
      RecordHarmless(st, r, p, ValueAt(st.reps[p], ts));
    } else {
      match FirstReadable(st, r.v, 1)
      case Some(s) => RecordHarmless(st, r, (s, r.v), ValueAt(st.reps[(s, r.v)], ts));
      case None => AbortHarmless(st, r, {r.t});
    }
  }

  lemma ExecHarmless(st: State, r: Request)
    requires (r.Read? || r.Write?) && Exec(st, r).Next?
    ensures Harmless(st, Exec(st, r).st, r)
  {
    if r.Write? {
      WriteHarmless(st, r, Acquire(st, r.t, r.v));
    } else if st.live[r.t].ro {
      ReadOnlyHarmless(st, r);
    } else if !Odd(r.v) || (Home(r.v), r.v) in st.readable {
      ReadHarmless(st, r, Acquire(st, r.t, r.v));
    }
  }

  lemma ExecInstallsNothing(st: State, r: Request)
    requires Exec(st, r).Next?
    requires r.End? && r.t in st.live ==> !Validates(st, st.live[r.t])
    ensures SameValues(st, Exec(st, r).st)
  {
    if r.Read? || r.Write? {
      ExecHarmless(st, r);
    }
  }
}
