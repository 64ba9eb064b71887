/** Everything that happens in a run, change by change: the states that the operations really meet. */
module Courses {
  import opened Base
  import opened Model
  import opened Execution
  import opened Invariant
  import opened Preservation
  import opened Traces

  /**
    * A sequence of single changes from the initial state on. Its moments include those inside a
    * step: after the request has been noted, between the victims of a deadlock, and between the
    * requests of the drain.
    */
  ghost predicate Course(ms: seq<Moment>, es: seq<Event>) {
    Chain(ms, es) && ms[0] == Moment(Init(START), {}, None)
  }

  lemma MicroKeeps(a: Moment, e: Event, b: Moment)
    requires Micro(a, e, b) && InvWhile(a.st, a.done)
    ensures InvWhile(b.st, b.done)
  {
    match e
    case Seen(req) => ObserveKeeps(a.st, req);
    case Victim(t) => AbortKeeps(a.st, {t}, a.done);
    case Ran(r) => ExecKeeps(a.st, r, a.done);
    case Deferred(r) => DeferKeeps(a.st, r);
    case Draining(t) => DrainingMore(a.st, t, a.done);
    case Erased => EraseDone(a.st, a.done);
    case Finished =>
  }

  lemma DeferKeeps(st: State, r: Request)
    requires Inv(st) && Fresh(st, r) && r.End? && r.t in st.live
    ensures Inv(Enqueue(st, r))
  {
    EnqueueKeeps(st, r, {});
  }

  lemma ChainStep(ms: seq<Moment>, es: seq<Event>, k: nat)
    requires Chain(ms, es) && k < |es| && InvWhile(ms[k].st, ms[k].done)
    ensures InvWhile(ms[k + 1].st, ms[k + 1].done)
  {
    MicroKeeps(ms[k], es[k], ms[k + 1]);
  }

  lemma {:induction false} ChainKeeps(ms: seq<Moment>, es: seq<Event>, k: nat)
    requires Chain(ms, es) && k < |ms| && InvWhile(ms[0].st, ms[0].done)
    ensures InvWhile(ms[k].st, ms[k].done)
  {
    if k > 0 {
      ChainKeeps(ms, es, k - 1);
      ChainStep(ms, es, k - 1);
    }
  }

  /** The invariant holds at every moment of every course. */
  lemma CourseKeeps(ms: seq<Moment>, es: seq<Event>, k: nat)
    requires Course(ms, es) && k < |ms|
    ensures InvWhile(ms[k].st, ms[k].done)
  {
    InitInv();
    ChainKeeps(ms, es, k);
  }

  lemma CourseSane(ms: seq<Moment>, es: seq<Event>)
    requires Course(ms, es)
    ensures Sane(ms)
  {
    forall k | 0 <= k < |ms| ensures InvWhile(ms[k].st, ms[k].done) {
      CourseKeeps(ms, es, k);
    }
  }

  /** Every run is a course: each of its states is a moment of one. */
  lemma RunIsCourse(states: seq<State>, inputs: seq<Input>, i: nat) returns (ms: seq<Moment>, es: seq<Event>)
    requires Run(states, inputs) && i < |states|
    ensures Course(ms, es) && ms[|ms| - 1] == Moment(states[i], {}, None)
  {
    InitInv();
    ms, es := StepsTrace(states, inputs, 0, i);
  }
}
