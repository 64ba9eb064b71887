/** What holds between any two requests, whatever the run. */
module Invariant {
  import opened Base
  import opened Versions
  import opened Model
  import opened Locking

  // ----- Locks, buffers and availability -----

  ghost predicate Availability(st: State) {
    && (forall p | p in st.readable :: p.0 in st.up)
    && (forall v: VarId | Odd(v) && Home(v) in st.up :: (Home(v), v) in st.readable)
  }

  ghost predicate OwnersBuffer(st: State) {
    forall p: Replica | st.reps[p].excl.Some? ::
      st.reps[p].excl.value in st.live && p in st.live[st.reps[p].excl.value].writes
  }

  ghost predicate BuffersOwned(st: State) {
    forall t, p | t in st.live && p in st.live[t].writes :: st.reps[p].excl == Some(t)
  }

  ghost predicate SingleHolder(rep: Rep, live: map<Tid, Tran>) {
    && (rep.excl.Some? ==> rep.shared == {})
    && (forall t | t in rep.shared :: t in live && !live[t].ro && rep.shared == {t})
  }

  ghost predicate Tabled(st: State) {
    && st.locks.Keys <= st.live.Keys
    && forall p: Replica, t | Holds(st.reps[p], t) :: Covered(st, t, p)
  }

  /** Buffered writes of the transactions outside `doomed` lie on sites that are up. */
  ghost predicate BuffersUp(live: map<Tid, Tran>, up: set<SiteId>, doomed: set<Tid>) {
    forall t, p | t in live && t !in doomed && p in live[t].writes :: p.0 in up
  }

  /** At most one live transaction buffers writes to an even variable, and with one value. */
  ghost predicate OneWriter(live: map<Tid, Tran>) {
    forall t, u, p, q {:trigger p in live[t].writes, q in live[u].writes} |
      t in live && u in live && p in live[t].writes && q in live[u].writes && p.1 == q.1 && !Odd(p.1) ::
      t == u && live[t].writes[p] == live[u].writes[q]
  }

  ghost predicate WriterCoversReadable(live: map<Tid, Tran>, readable: set<Replica>) {
    forall t, p, q {:trigger p in live[t].writes, q in readable} |
      t in live && p in live[t].writes && q in readable && p.1 == q.1 && !Odd(p.1) ::
      q in live[t].writes
  }

  ghost predicate LockInv(st: State, doomed: set<Tid>) {
    && Availability(st)
    && OwnersBuffer(st) && BuffersOwned(st)
    && (forall p: Replica :: SingleHolder(st.reps[p], st.live))
    && Tabled(st)
    && BuffersUp(st.live, st.up, doomed)
    && OneWriter(st.live) && WriterCoversReadable(st.live, st.readable)
  }

  // ----- Values, versions and the commit log -----

  predicate Wrote(writes: map<Replica, int>, v: VarId) {
    exists p | p in writes :: p.1 == v
  }

  ghost function WrittenValue(writes: map<Replica, int>, v: VarId): int
    requires Wrote(writes, v)
  {
    var p :| p in writes && p.1 == v;
    writes[p]
  }

  /** The value of `v` after a serial replay of the log, one transaction after another. */
  ghost function Replay(log: seq<Commit>, v: VarId): int {
    if log == [] then v * 10
    else if Wrote(log[|log| - 1].writes, v) then WrittenValue(log[|log| - 1].writes, v)
    else Replay(log[..|log| - 1], v)
  }

  /** The installs of the log at one replica. */
  function Installs(log: seq<Commit>, p: Replica): seq<Stamp> {
    if log == [] then []
    else
      var c := log[|log| - 1];
      Installs(log[..|log| - 1], p) + if p in c.writes then [Stamp(c.time, c.writes[p])] else []
  }

  ghost predicate StoreIsLog(st: State) {
    forall p: Replica ::
      && st.reps[p].value == CurrentValue(p.1 * 10, Installs(st.log, p))
      && st.reps[p].versions == VersionMap(p.1 * 10, Installs(st.log, p))
  }

  /** Replicas whose current value must be the last committed one. */
  predicate Authoritative(st: State, p: Replica) {
    if Odd(p.1) then p.0 == Home(p.1) else p in st.readable
  }

  ghost predicate OneCopy(st: State) {
    forall p: Replica | Authoritative(st, p) :: st.reps[p].value == Replay(st.log, p.1)
  }

  ghost predicate HistoryCurrent(st: State) {
    forall t, p | t in st.live && !st.live[t].ro && p in st.live[t].history ::
      Odd(p.1) && Holds(st.reps[p], t) && st.live[t].history[p] == st.reps[p].value
  }

  ghost predicate ReadsReplayed(log: seq<Commit>) {
    forall i | 0 <= i < |log| && !log[i].ro ::
      forall p | p in log[i].history :: Odd(p.1) && log[i].history[p] == Replay(log[..i], p.1)
  }

  ghost predicate LogTimes(log: seq<Commit>, now: int) {
    forall i | 0 <= i < |log| :: 0 <= log[i].time <= now
  }

  ghost predicate DataInv(st: State) {
    && StoreIsLog(st)
    && OneCopy(st)
    && HistoryCurrent(st)
    && ReadsReplayed(st.log)
    && LogTimes(st.log, st.now)
  }

  // ----- Wait-for graph, ages and queue -----

  ghost predicate Justified(st: State, e: (Tid, Tid)) {
    exists v: VarId :: (e.0, v) in st.asked && HoldsVar(st, e.1, v)
  }

  ghost predicate Waits(st: State) {
    forall e | e in st.wait ::
      e.0 in st.live && e.1 in st.begun && (e.1 in st.live ==> Justified(st, e))
  }

  ghost predicate Ages(st: State) {
    && 0 <= st.now
    && (forall t | t in st.live :: 0 <= st.live[t].ts <= st.now)
    && (forall t, u | t in st.live && u in st.live && st.live[t].ts == st.live[u].ts :: t == u)
    && st.live.Keys <= st.begun
    && st.ended <= st.begun
    && st.siteWait.Keys <= st.begun
  }

  /** A request that the script has issued. */
  predicate Issued(st: State, r: Request) {
    && 0 <= r.ts <= st.now
    && (r.Read? || r.Write? ==> (r.t, r.v) in st.asked)
    && (r.End? ==> r.t in st.ended)
  }

  /** A read-only transaction waits for the home sites of odd variables only. */
  predicate MayQueue(live: map<Tid, Tran>, r: Request) {
    r.Read? && r.t in live && live[r.t].ro ==> Odd(r.v)
  }

  ghost predicate QueuedFor(st: State, t: Tid, q: seq<Request>) {
    && (forall i | 0 <= i < |q| ::
          && (q[i].Read? || q[i].Write? || q[i].End?)
          && q[i].t == t
          && Issued(st, q[i])
          && MayQueue(st.live, q[i]))
    && (forall i, j | 0 <= i < j < |q| :: q[i].ts < q[j].ts && !q[i].End?)
  }

  /** Entries of the blocked queue, except those of `done`, which the drain is about to erase. */
  ghost predicate QueueInv(st: State, done: set<Tid>) {
    forall t | t in st.queue && t !in done :: t in st.live && QueuedFor(st, t, st.queue[t])
  }

  ghost predicate SchedInv(st: State, done: set<Tid>) {
    Waits(st) && Ages(st) && QueueInv(st, done)
  }

  /** Holds while the drain runs, `done` being the transactions drained so far. */
  ghost predicate InvWhile(st: State, done: set<Tid>) {
    LockInv(st, {}) && DataInv(st) && SchedInv(st, done)
  }

  /** Holds between steps. */
  ghost predicate Inv(st: State) {
    InvWhile(st, {})
  }

  lemma InitInv()
    ensures Inv(Init(START))
  {
    AllReplicas();
    var st := Init(START);
    assert forall p: Replica :: st.reps[p] == InitRep(p.1);
    assert StoreIsLog(st);
    assert LockInv(st, {});
  }
}
