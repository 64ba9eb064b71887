/** One-copy replication and serializability, over every run. */
module Replication {
  import opened Base
  import opened Versions
  import opened Model
  import opened Locking
  import opened Execution
  import opened Invariant
  import opened LockLemmas
  import opened Traces
  import opened Courses

  /** Whatever fails and recovers, readable replicas of an even variable hold the last committed value. */
  lemma OneCopyRefinement(states: seq<State>, inputs: seq<Input>, i: nat)
    requires Run(states, inputs) && i < |states|
    ensures forall p | p in states[i].readable && !Odd(p.1) ::
              states[i].reps[p].value == Replay(states[i].log, p.1)
    ensures forall p, q | p in states[i].readable && q in states[i].readable && p.1 == q.1 && !Odd(p.1) ::
              states[i].reps[p].value == states[i].reps[q].value
    ensures forall v: VarId | Odd(v) :: states[i].reps[(Home(v), v)].value == Replay(states[i].log, v)
  {
    RunKeeps(states, inputs, i);
    var st := states[i];
    forall p: Replica | Authoritative(st, p) ensures st.reps[p].value == Replay(st.log, p.1) {
    }
    forall v: VarId | Odd(v) ensures Authoritative(st, (Home(v), v)) {
    }
  }

  /**
    * Replaying the committed transactions one by one, in commit order, reproduces every recorded
    * locking read; only odd variables are recorded.
    */
  lemma SerializableInCommitOrder(states: seq<State>, inputs: seq<Input>, i: nat)
    requires Run(states, inputs) && i < |states|
    ensures forall k, p | 0 <= k < |states[i].log| && !states[i].log[k].ro && p in states[i].log[k].history ::
              Odd(p.1) && states[i].log[k].history[p] == Replay(states[i].log[..k], p.1)
  {
    RunKeeps(states, inputs, i);
  }

  /** Values and versions of every replica are a function of the commit log. */
  lemma StoreFollowsLog(states: seq<State>, inputs: seq<Input>, i: nat, p: Replica)
    requires Run(states, inputs) && i < |states|
    ensures states[i].reps[p].value == CurrentValue(p.1 * 10, Installs(states[i].log, p))
    ensures states[i].reps[p].versions == VersionMap(p.1 * 10, Installs(states[i].log, p))
  {
    RunKeeps(states, inputs, i);
  }

  /**
    * Live transactions buffer disjoint replicas; an even variable has one writer, one value, and
    * every readable replica.
    */
  lemma OneWriterPerVariable(states: seq<State>, inputs: seq<Input>, i: nat, t: Tid, u: Tid, p: Replica, q: Replica)
    requires Run(states, inputs) && i < |states| && p.1 == q.1
    requires t in states[i].live && p in states[i].live[t].writes
    ensures u in states[i].live && q in states[i].live[u].writes && (p == q || !Odd(p.1)) ==>
              t == u && states[i].live[t].writes[p] == states[i].live[u].writes[q]
    ensures q in states[i].readable ==> q in states[i].live[t].writes || Odd(p.1)
  {
    RunKeeps(states, inputs, i);
    WriterUnique(states[i], t, u, p, q);
  }

  lemma WriterUnique(st: State, t: Tid, u: Tid, p: Replica, q: Replica)
    requires BuffersOwned(st) && OneWriter(st.live) && WriterCoversReadable(st.live, st.readable)
    requires p.1 == q.1 && t in st.live && p in st.live[t].writes
    ensures u in st.live && q in st.live[u].writes && (p == q || !Odd(p.1)) ==>
              t == u && st.live[t].writes[p] == st.live[u].writes[q]
    ensures q in st.readable ==> q in st.live[t].writes || Odd(p.1)
  {
    assert st.reps[p].excl == Some(t);
    if u in st.live && q in st.live[u].writes {
      assert st.reps[q].excl == Some(u);
    }
  }

  /** A transaction owns a replica exclusively exactly when it is live and buffers a write to it. */
  lemma ExclusiveIffBuffered(states: seq<State>, inputs: seq<Input>, i: nat, t: Tid, p: Replica)
    requires Run(states, inputs) && i < |states|
    ensures states[i].reps[p].excl == Some(t) <==> t in states[i].live && p in states[i].live[t].writes
  {
    RunKeeps(states, inputs, i);
  }

  /** Each replica has at most one holder, shared and exclusive together, and it is live. */
  lemma AtMostOneHolder(states: seq<State>, inputs: seq<Input>, i: nat, t: Tid, u: Tid, p: Replica)
    requires Run(states, inputs) && i < |states|
    requires Holds(states[i].reps[p], t)
    ensures t in states[i].live && (t in states[i].reps[p].shared ==> !states[i].live[t].ro)
    ensures Holds(states[i].reps[p], u) ==> t == u
    ensures !(t in states[i].reps[p].shared && states[i].reps[p].excl == Some(t))
  {
    RunKeeps(states, inputs, i);
    HolderUnique(states[i], t, u, p);
  }

  lemma HolderUnique(st: State, t: Tid, u: Tid, p: Replica)
    requires SingleHolder(st.reps[p], st.live) && OwnersBuffer(st)
    requires Holds(st.reps[p], t)
    ensures t in st.live && (t in st.reps[p].shared ==> !st.live[t].ro)
    ensures Holds(st.reps[p], u) ==> t == u
    ensures !(t in st.reps[p].shared && st.reps[p].excl == Some(t))
  {
  }

  /** Where a lock is granted no exclusive owner is in the way, so `set_exclusive_transaction` never refuses. */
  lemma GrantNeverRefused(ms: seq<Moment>, es: seq<Event>, k: nat, t: Tid, v: VarId)
    requires Course(ms, es) && k < |ms| && Granted(Acquire(ms[k].st, t, v))
    ensures forall s | s in Acquire(ms[k].st, t, v).sites :: s in ms[k].st.up && ms[k].st.reps[(s, v)].excl == None
    ensures forall u, p | u in ms[k].st.live && p in ms[k].st.live[u].writes :: p.1 != v
  {
    CourseKeeps(ms, es, k);
    NothingRefused(ms[k].st, t, v);
  }

  lemma NothingRefused(st: State, t: Tid, v: VarId)
    requires LockInv(st, {}) && Granted(Acquire(st, t, v))
    ensures forall s | s in Acquire(st, t, v).sites :: s in st.up && st.reps[(s, v)].excl == None
    ensures forall u, p | u in st.live && p in st.live[u].writes :: p.1 != v
  {
    AcquireSound(st, t, v);
    NoOtherBuffer(st, t, v);
  }

  /** Readable means up; an odd variable is readable at its home exactly when that is up. */
  lemma AvailabilityAlways(states: seq<State>, inputs: seq<Input>, i: nat)
    requires Run(states, inputs) && i < |states|
    ensures forall p | p in states[i].readable :: p.0 in states[i].up
    ensures forall v: VarId | Odd(v) :: (Home(v), v) in states[i].readable <==> Home(v) in states[i].up
  {
    RunKeeps(states, inputs, i);
  }
}
