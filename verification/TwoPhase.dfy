/** Strict two-phase locking: locks are kept to the end of their transaction, and none is taken after it. */
module TwoPhase {
  import opened Base
  import opened Model
  import opened Locking
  import opened Execution
  import opened Invariant
  import opened LockLemmas
  import opened DataLemmas
  import opened Traces
  import opened Failures

  /** No lock is lost but those of transactions that are gone. */
  ghost predicate LocksStay(st: State, st': State) {
    forall p: Replica, t | t in st'.live && Holds(st.reps[p], t) :: Holds(st'.reps[p], t)
  }

  lemma AbortLocksStay(st: State, ts: set<Tid>)
    requires Tabled(st)
    ensures LocksStay(st, Abort(st, ts))
  {
    AbortEffect(st, ts);
  }

  lemma GrantLocksStay(st: State, r: Request, sites: set<SiteId>)
    requires r.Write? && Grantable(st, r.t, r.v, sites) && GrantWrite(st, r, sites).Next?
    ensures LocksStay(st, GrantWrite(st, r, sites).st)
  {
    if sites != {} {
      GrantingEffect(st, r.t, sites, r.v, r.val);
      HoldersStay(st, Granting(st, r.t, sites, r.v, r.val), r.t, sites, r.v);
    }
  }

  lemma WriteLocksStay(st: State, r: Request, a: LockStatus)
    requires r.Write? && r.t in st.live && Sound(st, r.t, r.v, a) && WriteWith(st, r, a).Next?
    ensures LocksStay(st, WriteWith(st, r, a).st)
  {
    if Granted(a) {
      GrantLocksStay(st, r, a.sites);
    }
  }

  lemma ReadLocksStay(st: State, r: Request, a: LockStatus)
    requires r.Read? && r.t in st.live && ReadWith(st, r, a).Next?
    ensures LocksStay(st, ReadWith(st, r, a).st)
  {
  }

  lemma ReadOnlyLocksStay(st: State, r: Request)
    requires r.Read? && r.t in st.live && Tabled(st) && ReadOnly(st, r).Next?
    ensures LocksStay(st, ReadOnly(st, r).st)
  {
    AbortLocksStay(st, {r.t});
  }

  lemma EndLocksStay(st: State, t: Tid, time: int)
    requires LockInv(st, {}) && t in st.live
    ensures LocksStay(st, EndTran(st, t, time))
  {
    if Validates(st, st.live[t]) {
      InstallLocks(st, t, time);
      AbortLocksStay(Committed(st, t, time), {t});
      CommitIsInstallThenAbort(st, t, time);
    } else {
      AbortLocksStay(st, {t});
    }
  }

  lemma FailLocksStay(st: State, s: SiteId)
    requires LockInv(st, {})
    ensures LocksStay(st, FailSite(st, s))
  {
    TakeDownLocks(st, s);
    AbortLocksStay(TakeDown(st, s), Writers(st, s));
  }

  lemma ExecLocksStay(st: State, r: Request)
    requires LockInv(st, {}) && Exec(st, r).Next? && (r.Write? ==> r.t in st.live)
    ensures LocksStay(st, Exec(st, r).st)
  {
    match r
    case Write(_, t, v, _) =>
      AcquireSound(st, t, v);
      WriteLocksStay(st, r, Acquire(st, t, v));
    case Read(_, t, v) =>
      if st.live[t].ro {
        ReadOnlyLocksStay(st, r);
      } else if !Odd(v) || (Home(v), v) in st.readable {
        ReadLocksStay(st, r, Acquire(st, t, v));
      }
    case End(ts, t) => EndLocksStay(st, t, ts);
    case Fail(_, s) => FailLocksStay(st, s);
    case _ =>
  }

  lemma MicroLocksStay(a: Moment, e: Event, b: Moment)
    requires Micro(a, e, b) && LockInv(a.st, {})
    ensures LocksStay(a.st, b.st)
  {
    match e
    case Victim(t) => AbortLocksStay(a.st, {t});
    case Ran(r) => ExecLocksStay(a.st, r);
    case _ =>
  }

  /** `t` has begun, and holds `p` as long as it lives. */
  ghost predicate KeepsLock(st: State, p: Replica, t: Tid) {
    t in st.begun && (t in st.live ==> Holds(st.reps[p], t))
  }

  lemma MicroKeepsLock(a: Moment, e: Event, b: Moment, p: Replica, t: Tid)
    requires Micro(a, e, b) && LockInv(a.st, {}) && KeepsLock(a.st, p, t)
    ensures KeepsLock(b.st, p, t)
  {
    MicroLocksStay(a, e, b);
    MicroGrows(a, e, b, t);
  }

  ghost predicate Linked(ms: seq<Moment>, k: int, p: Replica, t: Tid) {
    0 <= k < |ms| - 1 && KeepsLock(ms[k].st, p, t) ==> KeepsLock(ms[k + 1].st, p, t)
  }

  lemma ChainLinked(ms: seq<Moment>, es: seq<Event>, k: nat, p: Replica, t: Tid)
    requires Chain(ms, es) && Sane(ms) && k < |es|
    ensures Linked(ms, k, p, t)
  {
    if KeepsLock(ms[k].st, p, t) {
      MicroKeepsLock(ms[k], es[k], ms[k + 1], p, t);
    }
  }

  lemma {:induction false} LinksKeepLock(ms: seq<Moment>, j: nat, p: Replica, t: Tid)
    requires j < |ms| && KeepsLock(ms[0].st, p, t) && forall k :: Linked(ms, k, p, t)
    ensures KeepsLock(ms[j].st, p, t)
  {
    if j > 0 {
      LinksKeepLock(ms, j - 1, p, t);
      assert Linked(ms, j - 1, p, t);
    }
  }

  lemma ChainKeepsLock(ms: seq<Moment>, es: seq<Event>, p: Replica, t: Tid)
    requires Chain(ms, es) && Sane(ms) && KeepsLock(ms[0].st, p, t)
    ensures KeepsLock(ms[|ms| - 1].st, p, t)
  {
    forall k ensures Linked(ms, k, p, t) {
      if 0 <= k < |es| {
        ChainLinked(ms, es, k, p, t);
      }
    }
    LinksKeepLock(ms, |ms| - 1, p, t);
  }

  lemma HoldersLive(states: seq<State>, inputs: seq<Input>, i: nat, p: Replica, t: Tid)
    requires Run(states, inputs) && i < |states|
    ensures Holds(states[i].reps[p], t) ==> t in states[i].live && t in states[i].begun
  {
    RunKeeps(states, inputs, i);
    assert SingleHolder(states[i].reps[p], states[i].live);
  }

  /**
    * A lock is kept as long as its transaction lives, and a transaction that is gone never takes one
    * again: all locks are released together, at the end.
    */
  lemma TwoPhaseLocking(states: seq<State>, inputs: seq<Input>, i: nat, j: nat, t: Tid, p: Replica)
    requires Run(states, inputs) && i <= j < |states|
    ensures Holds(states[i].reps[p], t) && t in states[j].live ==> Holds(states[j].reps[p], t)
    ensures t in states[i].begun && t !in states[i].live ==> !Holds(states[j].reps[p], t)
  {
    RunKeeps(states, inputs, i);
    var ms, es := StepsTrace(states, inputs, i, j);
    HoldersLive(states, inputs, i, p, t);
    HoldersLive(states, inputs, j, p, t);
    if Holds(states[i].reps[p], t) {
      ChainKeepsLock(ms, es, p, t);
    }
    StepsGrow(states, inputs, i, j, t);
  }
}
