/** Exactly what one call of `execute_instructions` does with the request that comes in. */
module Dispatch {
  import opened Base
  import opened Model
  import opened Execution
  import opened Invariant
  import opened Preservation
  import opened Traces
  import opened Failures
  import opened BlockedQueue
  import opened Acquisition
  import opened Effects

  /** `t` waits for another transaction, or has requests in the queue, or waits for a site. */
  predicate HeldBack(st: State, t: Tid) {
    (exists e | e in st.wait :: e.0 == t) || t in st.queue || t in st.siteWait
  }

  /** A step of a run with the request `r`; `mid` is the state after the deadlocks have been resolved. */
  ghost predicate Stepping(states: seq<State>, inputs: seq<Input>, input: Input, r: Request, mid: State) {
    && Run(states, inputs) && input.req == Some(r)
    && var last := states[|inputs|];
       && WellFormed(last, input.req) && MeetsAll(last, input)
       && Resolve(Observe(last, Some(r))) == Next(mid)
  }

  lemma SteppingKeeps(states: seq<State>, inputs: seq<Input>, input: Input, r: Request, mid: State)
    requires Stepping(states, inputs, input, r, mid)
    ensures Inv(mid) && Fresh(mid, r)
    ensures BeforeDrain(states[|inputs|], input.req) == Serve(mid, Some(r))
  {
    var last := states[|inputs|];
    RunKeeps(states, inputs, |inputs|);
    ObserveKeeps(last, input.req);
    var ms, es := ResolveTrace(Observe(last, input.req), None);
    assert ms[|ms| - 1] == Moment(mid, {}, None);
    ResolveFresh(Observe(last, input.req), r);
  }

  /** An instruction of a transaction that is gone ends the step: nothing happens, and nothing is drained. */
  lemma GoneIsIgnored(states: seq<State>, inputs: seq<Input>, input: Input, r: Request, mid: State)
    requires Stepping(states, inputs, input, r, mid)
    requires (r.Read? || r.Write? || r.End?) && r.t !in mid.live
    ensures Step(states[|inputs|], input) == Next(mid)
  {
    SteppingKeeps(states, inputs, input, r, mid);
  }

  /** The End joins the queue, and nothing else happens. */
  ghost predicate Deferred(st: State, st': State, r: Request)
    requires r.OfTran()
  {
    Joins(st, st', r) && r in st'.queue[r.t] && st' == st.(queue := st'.queue)
  }

  lemma DeferIsExact(st: State, r: Request)
    requires Inv(st) && Fresh(st, r) && r.End?
    ensures Deferred(st, Enqueue(st, r), r)
  {
    EnqueueJoins(st, r);
    if r.t in st.queue {
      assert QueuedFor(st, r.t, st.queue[r.t]);
      assert forall x | x in st.queue[r.t] :: x.ts < r.ts;
    }
  }

  /**
    * The End of a transaction that is held back joins the queue, and the step is over. If it is not
    * held back it takes effect at once, and then the queue is drained.
    */
  ghost predicate DeferredOrEnded(st: State, out: Outcome, r: Request, order: seq<Tid>)
    requires r.End? && r.t in st.live
  {
    && (if HeldBack(st, r.t) then out.Next? && Deferred(st, out.st, r)
        else exists st' :: Ended(st, st', r.t, r.ts) && out == Drain(st', order, {}))
    && (out.Next? ==> (r.t in out.st.live <==> HeldBack(st, r.t)))
  }

  /** So a live transaction outlives the step of its End if and only if it is held back. */
  lemma EndIffNotHeldBack(states: seq<State>, inputs: seq<Input>, input: Input, r: Request, mid: State)
    requires Stepping(states, inputs, input, r, mid) && r.End? && r.t in mid.live
    ensures DeferredOrEnded(mid, Step(states[|inputs|], input), r, input.order)
  {
    SteppingKeeps(states, inputs, input, r, mid);
    EndStep(states[|inputs|], input, r, mid, Step(states[|inputs|], input));
  }

  lemma EndStep(last: State, input: Input, r: Request, mid: State, out: Outcome)
    requires Inv(mid) && Fresh(mid, r) && r.End? && r.t in mid.live && out == Step(last, input)
    requires input.req == Some(r) && MeetsAll(last, input) && BeforeDrain(last, input.req) == Serve(mid, Some(r))
    ensures DeferredOrEnded(mid, out, r, input.order)
  {
    if HeldBack(mid, r.t) {
      HeldEndWaits(last, input, r, mid);
    } else {
      FreeEndRuns(last, input, r, mid, out);
    }
  }

  lemma FreeEndRuns(last: State, input: Input, r: Request, mid: State, out: Outcome)
    requires Inv(mid) && Fresh(mid, r) && r.End? && r.t in mid.live && !HeldBack(mid, r.t)
    requires input.req == Some(r) && MeetsAll(last, input) && BeforeDrain(last, input.req) == Serve(mid, Some(r))
    requires out == Step(last, input)
    ensures exists st' :: Ended(mid, st', r.t, r.ts) && out == Drain(st', input.order, {})
    ensures out.Next? ==> r.t !in out.st.live
  {
    var st := EndTran(mid, r.t, r.ts);
    EndIsExact(mid, st, r.t, r.ts);
    EndedStaysEnded(last, input, r, mid, st);
  }

  lemma HeldEndWaits(last: State, input: Input, r: Request, mid: State)
    requires Inv(mid) && Fresh(mid, r) && r.End? && r.t in mid.live && HeldBack(mid, r.t)
    requires input.req == Some(r) && BeforeDrain(last, input.req) == Serve(mid, Some(r))
    ensures Step(last, input) == Next(Enqueue(mid, r)) && Deferred(mid, Enqueue(mid, r), r)
  {
    DeferIsExact(mid, r);
  }

  lemma EndedStaysEnded(last: State, input: Input, r: Request, mid: State, st: State)
    requires Inv(mid) && Fresh(mid, r) && r.End? && r.t in mid.live && !HeldBack(mid, r.t)
    requires st == EndTran(mid, r.t, r.ts) && r.t !in st.live
    requires input.req == Some(r) && MeetsAll(last, input) && BeforeDrain(last, input.req) == Serve(mid, Some(r))
    ensures Step(last, input) == Drain(st, input.order, {})
    ensures Step(last, input).Next? ==> r.t !in Step(last, input).st.live
  {
    assert Serve(mid, Some(r)) == ToDrain(st);
    FreshMayExec(mid, r);
    EndKeeps(mid, r, {});
    DrainRevivesNobody(st, input.order, r.t);
  }

  /** What becomes of a read or write, according to the kind of its transaction. */
  ghost predicate Accessed(st: State, r: Request)
    requires (r.Read? || r.Write?) && r.t in st.live
  {
    if r.Write? then Exec(st, r).Next? && Fate(st, Exec(st, r).st, r)
    else if st.live[r.t].ro then Exec(st, r).Next? && SnapshotFate(st, Exec(st, r).st, r)
    else ReadFate(st, r)
  }

  lemma AccessIsExact(st: State, r: Request)
    requires Inv(st) && (r.Read? || r.Write?) && r.t in st.live
    ensures Accessed(st, r)
  {
    if r.Write? {
      WriteFates(st, r);
    } else if st.live[r.t].ro {
      SnapshotFates(st, r);
    } else {
      ReadFates(st, r);
    }
  }

  /**
    * A read or write of a live transaction always runs. If the transaction is held back the step is over
    * then; otherwise the queue is drained.
    */
  lemma AccessRuns(states: seq<State>, inputs: seq<Input>, input: Input, r: Request, mid: State)
    requires Stepping(states, inputs, input, r, mid) && (r.Read? || r.Write?) && r.t in mid.live
    ensures Accessed(mid, r)
    ensures Step(states[|inputs|], input) ==
            if HeldBack(mid, r.t) || Exec(mid, r) == Throws then Exec(mid, r)
            else Drain(Exec(mid, r).st, input.order, {})
  {
    SteppingKeeps(states, inputs, input, r, mid);
    AccessIsExact(mid, r);
  }

  /** What the instructions do that are neither reads nor writes nor Ends. */
  ghost predicate OtherEffect(st: State, st': State, r: Request) {
    match r
    case Begin(ts, t, ro) => !HeldBack(st, t) && Begins(st, st', ts, t, ro)
    case Fail(_, s) => Fails(st, st', s)
    case Recover(_, s) => Recovers(st, st', s)
    case Dump(_) => st' == st
    case _ => false
  }

  lemma OtherIsExact(st: State, r: Request)
    requires Inv(st) && Fresh(st, r) && !(r.Read? || r.Write? || r.End?)
    ensures Exec(st, r).Next? && OtherEffect(st, Exec(st, r).st, r)
  {
    match r
    case Begin(_, _, _) => BeginUnblocked(st, r);
    case Fail(_, s) => FailIsExact(st, Exec(st, r).st, s);
    case Recover(_, s) => RecoverIsExact(st, Exec(st, r).st, s);
    case _ =>
  }

  /** Every other instruction has its effect, and then the queue is drained. */
  lemma OthersRun(states: seq<State>, inputs: seq<Input>, input: Input, r: Request, mid: State)
    requires Stepping(states, inputs, input, r, mid) && !(r.Read? || r.Write? || r.End?)
    ensures exists st :: OtherEffect(mid, st, r) && Step(states[|inputs|], input) == Drain(st, input.order, {})
  {
    SteppingKeeps(states, inputs, input, r, mid);
    OtherIsExact(mid, r);
    OtherDrains(states[|inputs|], input, r, mid);
  }

  lemma OtherDrains(last: State, input: Input, r: Request, mid: State)
    requires !(r.Read? || r.Write? || r.End?) && Exec(mid, r).Next? && (r.Begin? ==> !HeldBack(mid, r.t))
    requires input.req == Some(r) && BeforeDrain(last, input.req) == Serve(mid, Some(r))
    ensures Step(last, input) == Drain(Exec(mid, r).st, input.order, {})
  {
  }

  /** A round of the final loop resolves deadlocks and drains the queue. */
  lemma RoundDrains(states: seq<State>, inputs: seq<Input>, order: seq<Tid>)
    requires Run(states, inputs)
    ensures var last := states[|inputs|];
      Resolve(last).Next? && Step(last, Input(None, order)) == Drain(Resolve(last).st, order, {})
  {
    RunKeeps(states, inputs, |inputs|);
    var ms, es := ResolveTrace(states[|inputs|], None);
  }
}
