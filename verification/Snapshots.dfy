/** Read-only transactions: what a snapshot at a begin time shows for the rest of a run. */
module Snapshots {
  import opened Base
  import opened Versions
  import opened Model
  import opened Locking
  import opened Execution
  import opened Invariant
  import opened Traces
  import opened Courses
  import opened Commits

  /** What `get_value(s)` returns at a replica; the invariant makes the floor exist. */
  ghost predicate SameLookups(base: State, st: State, s: int) {
    forall p: Replica ::
      && -1 in base.reps[p].versions && -1 in st.reps[p].versions
      && (0 <= s ==> Lookup(st.reps[p].versions, s) == Lookup(base.reps[p].versions, s))
  }

  /** No End that is queued, or is being served, was issued at `s` or before. */
  ghost predicate EndsLater(m: Moment, s: int) {
    && (forall t, r | t in m.st.queue && r in m.st.queue[t] && r.End? :: r.ts > s)
    && (m.req.Some? && m.req.value.End? ==> m.req.value.ts > s)
    && s <= m.st.now
  }

  lemma HasInitial(st: State)
    requires StoreIsLog(st)
    ensures forall p: Replica :: -1 in st.reps[p].versions
  {
    forall p: Replica ensures -1 in st.reps[p].versions {
      VersionMapKeys(p.1 * 10, Installs(st.log, p));
    }
  }

  /** A commit is invisible at every time before its End was issued. */
  lemma CommitInvisible(st: State, t: Tid, time: int, s: int)
    requires StoreIsLog(st) && t in st.live && 0 <= s < time
    ensures SameLookups(st, EndTran(st, t, time), s)
  {
    HasInitial(st);
    var st' := EndTran(st, t, time);
    forall p: Replica
      ensures -1 in st'.reps[p].versions && Lookup(st'.reps[p].versions, s) == Lookup(st.reps[p].versions, s)
    {
      if Validates(st, st.live[t]) && p in st.live[t].writes {
        CommitSucceeds(st, t, time);
        InstallEffect(st.reps[p].versions, Stamp(time, st.live[t].writes[p]), s);
      }
    }
  }

  /** Exactly when a commit leaves a lookup at `s` alone. */
  lemma CommitVisibleIff(st: State, t: Tid, time: int, s: int, p: Replica)
    requires StoreIsLog(st) && t in st.live && Validates(st, st.live[t]) && p in st.live[t].writes
    requires 0 <= s && 0 <= time
    ensures -1 in st.reps[p].versions && -1 in EndTran(st, t, time).reps[p].versions
    ensures Lookup(EndTran(st, t, time).reps[p].versions, s) == Lookup(st.reps[p].versions, s) <==>
              time > s || FloorKey(st.reps[p].versions, s) > time
                || Lookup(st.reps[p].versions, s) == st.live[t].writes[p]
  {
    HasInitial(st);
    CommitSucceeds(st, t, time);
    InstallEffect(st.reps[p].versions, Stamp(time, st.live[t].writes[p]), s);
  }

  /** The change is a successful commit that writes `p`. */
  predicate CommitsTo(st: State, e: Event, p: Replica) {
    && e.Ran? && e.r.End? && e.r.t in st.live
    && Validates(st, st.live[e.r.t]) && p in st.live[e.r.t].writes
  }

  /**
    * A commit whose End was issued at `s` or before, with no later version in between, and with
    * another value than the lookup at `s` shows.
    */
  predicate Alters(a: Moment, e: Event, p: Replica, s: int)
    requires 0 <= s
  {
    var versions := a.st.reps[p].versions;
    && CommitsTo(a.st, e, p) && e.r.ts <= s
    && -1 in versions && FloorKey(versions, s) <= e.r.ts
    && a.st.live[e.r.t].writes[p] != Lookup(versions, s)
  }

  /** Exactly when a single change of a run alters the lookup at `s`. */
  lemma LookupChangesIff(a: Moment, e: Event, b: Moment, p: Replica, s: int)
    requires Micro(a, e, b) && StoreIsLog(a.st) && 0 <= s
    ensures -1 in a.st.reps[p].versions && -1 in b.st.reps[p].versions
    ensures Lookup(b.st.reps[p].versions, s) != Lookup(a.st.reps[p].versions, s) <==> Alters(a, e, p, s)
  {
    HasInitial(a.st);
    if CommitsTo(a.st, e, p) {
      CommitVisibleIff(a.st, e.r.t, e.r.ts, s, p);
    } else if e.Ran? && e.r.End? && e.r.t in a.st.live && Validates(a.st, a.st.live[e.r.t]) {
      CommitSucceeds(a.st, e.r.t, e.r.ts);
    } else {
      OnlyCommitsInstall(a, e, b);
    }
  }

  /** The lookup at `s`, as a moment of a run shows it. */
  function Shown(m: Moment, p: Replica, s: int): int
    requires 0 <= s
  {
    if -1 in m.st.reps[p].versions then Lookup(m.st.reps[p].versions, s) else 0
  }

  lemma ShownChangesIff(a: Moment, e: Event, b: Moment, p: Replica, s: int)
    requires Micro(a, e, b) && StoreIsLog(a.st) && 0 <= s
    ensures Shown(b, p, s) != Shown(a, p, s) <==> Alters(a, e, p, s)
  {
    LookupChangesIff(a, e, b, p, s);
  }

  lemma ShownStepIff(ms: seq<Moment>, es: seq<Event>, k: nat, p: Replica, s: int)
    requires Course(ms, es) && k < |es| && 0 <= s
    ensures Shown(ms[k + 1], p, s) != Shown(ms[k], p, s) <==> Alters(ms[k], es[k], p, s)
  {
    CourseKeeps(ms, es, k);
    ShownChangesIff(ms[k], es[k], ms[k + 1], p, s);
  }

  lemma {:induction false} ShownKept(ms: seq<Moment>, es: seq<Event>, i: nat, j: nat, p: Replica, s: int)
    requires Course(ms, es) && i <= j < |ms| && 0 <= s
    requires forall k {:trigger es[k]} | i <= k < j :: !Alters(ms[k], es[k], p, s)
    ensures Shown(ms[j], p, s) == Shown(ms[i], p, s)
  {
    if i < j {
      ShownKept(ms, es, i, j - 1, p, s);
      ShownStepIff(ms, es, j - 1, p, s);
    }
  }

  /**
    * From any moment of a run on, a lookup keeps its answer at every later moment if and only if
    * no later change is such a commit.
    */
  lemma LookupKeptIff(ms: seq<Moment>, es: seq<Event>, i: nat, p: Replica, s: int)
    requires Course(ms, es) && i < |ms| && 0 <= s
    ensures -1 in ms[i].st.reps[p].versions
    ensures (forall j {:trigger ms[j]} | i <= j < |ms| ::
               Shown(ms[j], p, s) == Lookup(ms[i].st.reps[p].versions, s)) <==>
            (forall k {:trigger es[k]} | i <= k < |es| :: !Alters(ms[k], es[k], p, s))
  {
    CourseKeeps(ms, es, i);
    HasInitial(ms[i].st);
    if forall k {:trigger es[k]} | i <= k < |es| :: !Alters(ms[k], es[k], p, s) {
      forall j {:trigger ms[j]} | i <= j < |ms| ensures Shown(ms[j], p, s) == Shown(ms[i], p, s) {
        ShownKept(ms, es, i, j, p, s);
      }
    } else {
      var k :| i <= k < |es| && Alters(ms[k], es[k], p, s);
      ShownStepIff(ms, es, k, p, s);
      assert Shown(ms[k + 1], p, s) != Shown(ms[k], p, s);
    }
  }

  lemma ExecQueueBound(st: State, r: Request)
    requires Exec(st, r).Next?
    ensures forall t, x | t in Exec(st, r).st.queue && x in Exec(st, r).st.queue[t] && x.End? ::
              t in st.queue && x in st.queue[t]
  {
    if r.Write? {
      WriteQueueBound(st, r, Acquire(st, r.t, r.v));
    } else if r.Read? {
      InsertKeeps(if r.t in st.queue then st.queue[r.t] else [], r);
      if !st.live[r.t].ro && !(Odd(r.v) && (Home(r.v), r.v) !in st.readable) {
        ReadQueueBound(st, r, Acquire(st, r.t, r.v));
      }
    }
  }

  ghost predicate NoNewEnds(st: State, st': State) {
    forall t, x | t in st'.queue && x in st'.queue[t] && x.End? :: t in st.queue && x in st.queue[t]
  }

  lemma WriteQueueBound(st: State, r: Request, a: LockStatus)
    requires r.Write? && WriteWith(st, r, a).Next?
    ensures NoNewEnds(st, WriteWith(st, r, a).st)
  {
    InsertKeeps(if r.t in st.queue then st.queue[r.t] else [], r);
  }

  lemma ReadQueueBound(st: State, r: Request, a: LockStatus)
    requires r.Read? && r.t in st.live && ReadWith(st, r, a).Next?
    ensures NoNewEnds(st, ReadWith(st, r, a).st)
  {
    InsertKeeps(if r.t in st.queue then st.queue[r.t] else [], r);
  }

  lemma RanEndsLater(a: Moment, r: Request, b: Moment, s: int)
    requires EndsLater(a, s) && Exec(a.st, r) == Next(b.st) && b.req == a.req
    ensures EndsLater(b, s)
  {
    ExecQueueBound(a.st, r);
    ExecNow(a.st, r);
  }

  lemma DeferredEndsLater(a: Moment, r: Request, b: Moment, s: int)
    requires EndsLater(a, s) && r.End? && a.req == Some(r) && b == a.(st := Enqueue(a.st, r))
    ensures EndsLater(b, s)
  {
    InsertKeeps(if r.t in a.st.queue then a.st.queue[r.t] else [], r);
  }

  lemma MicroEndsLater(a: Moment, e: Event, b: Moment, s: int)
    requires Micro(a, e, b) && EndsLater(a, s)
    ensures EndsLater(b, s)
  {
    match e
    case Ran(r) => RanEndsLater(a, r, b, s);
    case Deferred(r) => DeferredEndsLater(a, r, b, s);
    case _ =>
  }

  lemma ExecNow(st: State, r: Request)
    requires Exec(st, r).Next?
    ensures Exec(st, r).st.now == st.now
  {
    if r.Read? || r.Write? || r.End? {
      ExecScript(st, r);
    }
  }

  lemma MicroLookups(a: Moment, e: Event, b: Moment, s: int)
    requires Micro(a, e, b) && EndsLater(a, s) && StoreIsLog(a.st) && 0 <= s
    ensures SameLookups(a.st, b.st, s)
  {
    HasInitial(a.st);
    if e.Ran? && e.r.End? && e.r.t in a.st.live {
      CommitInvisible(a.st, e.r.t, e.r.ts, s);
    } else {
      OnlyCommitsInstall(a, e, b);
    }
  }

  lemma {:induction false} TraceLookups(ms: seq<Moment>, es: seq<Event>, s: int, k: nat)
    requires Chain(ms, es) && Sane(ms) && k < |ms| && EndsLater(ms[0], s) && 0 <= s
    ensures EndsLater(ms[k], s) && SameLookups(ms[0].st, ms[k].st, s)
  {
    if k == 0 {
      HasInitial(ms[0].st);
    } else {
      TraceLookups(ms, es, s, k - 1);
      assert Micro(ms[k - 1], es[k - 1], ms[k]);
      MicroEndsLater(ms[k - 1], es[k - 1], ms[k], s);
      MicroLookups(ms[k - 1], es[k - 1], ms[k], s);
    }
  }

  predicate NoEndQueued(st: State) {
    forall t | t in st.queue :: forall r | r in st.queue[t] :: !r.End?
  }

  /**
    * If no End is queued at some point of a run, every lookup at a time up to that point gives
    * the same answer, at every replica, for the rest of the run.
    */
  lemma SnapshotStability(states: seq<State>, inputs: seq<Input>, i: nat, j: nat, s: int)
    requires Run(states, inputs) && i <= j < |states|
    requires NoEndQueued(states[i]) && 0 <= s <= states[i].now
    ensures SameLookups(states[i], states[j], s)
  {
    RunKeeps(states, inputs, i);
    var ms, es := StepsTrace(states, inputs, i, j);
    TraceLookups(ms, es, s, |ms| - 1);
  }

  // ----- What a read-only transaction records -----

  /** Every value that `t` has read is what `base` shows at its begin time. */
  ghost predicate ReadsSnapshot(base: State, st: State, t: Tid, s: int) {
    t in st.live ==>
      && st.live[t].ro && st.live[t].ts == s
      && forall p | p in st.live[t].history ::
           -1 in base.reps[p].versions && -1 <= s && st.live[t].history[p] == Lookup(base.reps[p].versions, s)
  }

  /** Requests of others leave the history of `t` alone. */
  ghost predicate HistoryKept(st: State, st': State, t: Tid) {
    t in st'.live ==>
      t in st.live && st'.live[t].ro == st.live[t].ro && st'.live[t].ts == st.live[t].ts
      && st'.live[t].history == st.live[t].history
  }

  lemma ExecHistory(st: State, r: Request, t: Tid)
    requires Exec(st, r).Next? && (r.Begin? ==> r.t != t) && (r.Read? ==> r.t != t)
    ensures HistoryKept(st, Exec(st, r).st, t)
  {
    if r.Read? || r.Write? {
      ExecHarmless(st, r);
    }
  }

  lemma ReadOnlyRecords(base: State, st: State, r: Request, s: int)
    requires r.Read? && r.t in st.live && st.live[r.t].ro && ReadOnly(st, r).Next? && 0 <= s
    requires ReadsSnapshot(base, st, r.t, s) && SameLookups(base, st, s)
    ensures ReadsSnapshot(base, ReadOnly(st, r).st, r.t, s)
  {
    if Odd(r.v) {
      if (Home(r.v), r.v) in st.readable {
        RecordedFromSnapshot(base, st, r.t, (Home(r.v), r.v), s);
      }
    } else if FirstReadable(st, r.v, 1).Some? {
      RecordedFromSnapshot(base, st, r.t, (FirstReadable(st, r.v, 1).value, r.v), s);
    }
  }

  lemma RecordedFromSnapshot(base: State, st: State, t: Tid, p: Replica, s: int)
    requires t in st.live && 0 <= s && ReadsSnapshot(base, st, t, s) && SameLookups(base, st, s)
    ensures ReadsSnapshot(base, RecordRead(st, t, p, ValueAt(st.reps[p], s)), t, s)
  {
  }

  lemma MicroReads(base: State, a: Moment, e: Event, b: Moment, t: Tid, s: int)
    requires Micro(a, e, b) && t in a.st.begun && 0 <= s
    requires ReadsSnapshot(base, a.st, t, s) && SameLookups(base, a.st, s)
    ensures ReadsSnapshot(base, b.st, t, s)
  {
    if e.Ran? {
      if e.r.Read? && e.r.t == t {
        ReadOnlyRecords(base, a.st, e.r, s);
      } else {
        ExecHistory(a.st, e.r, t);
      }
    }
  }

  lemma {:induction false} TraceReads(ms: seq<Moment>, es: seq<Event>, t: Tid, s: int, k: nat)
    requires Chain(ms, es) && Sane(ms) && k < |ms| && EndsLater(ms[0], s) && 0 <= s
    requires t in ms[0].st.begun && ReadsSnapshot(ms[0].st, ms[0].st, t, s)
    ensures t in ms[k].st.begun && ReadsSnapshot(ms[0].st, ms[k].st, t, s)
  {
    if k > 0 {
      TraceReads(ms, es, t, s, k - 1);
      TraceLookups(ms, es, s, k - 1);
      assert Micro(ms[k - 1], es[k - 1], ms[k]);
      MicroReads(ms[0].st, ms[k - 1], es[k - 1], ms[k], t, s);
      if es[k - 1].Ran? {
        ExecBegunGrows(ms[k - 1].st, es[k - 1].r);
      }
    }
  }

  lemma ExecBegunGrows(st: State, r: Request)
    requires Exec(st, r).Next?
    ensures st.begun <= Exec(st, r).st.begun
  {
    if r.Read? || r.Write? || r.End? {
      ExecScript(st, r);
    }
  }

  /**
    * A read-only transaction that begins while no End is queued reads, at every replica and until
    * its own End, the state of the versions at its begin.
    */
  lemma SnapshotReads(states: seq<State>, inputs: seq<Input>, i: nat, j: nat, t: Tid)
    requires Run(states, inputs) && i <= j < |states|
    requires NoEndQueued(states[i])
    requires t in states[i].live && states[i].live[t].ro && states[i].live[t].history == map[]
    ensures t in states[j].live ==> ReadsSnapshot(states[i], states[j], t, states[i].live[t].ts)
  {
    RunKeeps(states, inputs, i);
    var ms, es := StepsTrace(states, inputs, i, j);
    TraceReads(ms, es, t, states[i].live[t].ts, |ms| - 1);
  }

  /**
    * A lookup at or after every stamp shows the committed value exactly when the newest stamp,
    * by time, carries the value that was installed last.
    */
  lemma SnapshotIsCommittedIff(st: State, p: Replica, s: int, n: nat)
    requires Inv(st) && Authoritative(st, p) && st.now <= s && Newest(Installs(st.log, p), s, n)
    ensures -1 in st.reps[p].versions
    ensures Lookup(st.reps[p].versions, s) == Replay(st.log, p.1) <==>
              Installs(st.log, p)[n].value == st.reps[p].value
  {
    HasInitial(st);
    InstallTimes(st.log, st.now, p);
    LookupRefinesLog(p.1 * 10, Installs(st.log, p), s);
  }

  lemma {:induction false} InstallTimes(log: seq<Commit>, now: int, p: Replica)
    requires LogTimes(log, now)
    ensures forall i :: 0 <= i < |Installs(log, p)| ==> 0 <= Installs(log, p)[i].time <= now
  {
    if log != [] {
      var n := |log| - 1;
      assert forall i :: 0 <= i < n ==> log[..n][i] == log[i];
      InstallTimes(log[..n], now, p);
    }
  }
}
