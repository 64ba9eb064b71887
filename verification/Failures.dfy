/** What lives through failures, over every run. */
module Failures {
  import opened Base
  import opened Model
  import opened Execution
  import opened Graph
  import opened Invariant
  import opened Preservation
  import opened Traces
  import opened Commits

  /** Changes that no transaction can undo while it lives. */
  ghost predicate Grows(a: State, b: State, t: Tid) {
    && a.begun <= b.begun
    && (t in a.begun && t in b.live ==> t in a.live && a.live[t].writes.Keys <= b.live[t].writes.Keys)
  }

  lemma ExecGrows(st: State, r: Request, t: Tid)
    requires Exec(st, r).Next? && (r.Begin? ==> r.t !in st.begun)
    ensures Grows(st, Exec(st, r).st, t)
  {
    if r.Read? || r.Write? {
      ExecHarmless(st, r);
    }
  }

  lemma MicroGrows(a: Moment, e: Event, b: Moment, t: Tid)
    requires Micro(a, e, b)
    ensures Grows(a.st, b.st, t)
  {
    if e.Ran? {
      ExecGrows(a.st, e.r, t);
    }
  }

  lemma {:induction false} TraceGrows(ms: seq<Moment>, es: seq<Event>, t: Tid, k: nat)
    requires Chain(ms, es) && k < |ms|
    ensures Grows(ms[0].st, ms[k].st, t)
  {
    if k > 0 {
      TraceGrows(ms, es, t, k - 1);
      MicroGrows(ms[k - 1], es[k - 1], ms[k], t);
    }
  }

  lemma StepsGrow(states: seq<State>, inputs: seq<Input>, i: nat, j: nat, t: Tid)
    requires Run(states, inputs) && i <= j < |states|
    ensures Grows(states[i], states[j], t)
  {
    RunKeeps(states, inputs, i);
    var ms, es := StepsTrace(states, inputs, i, j);
    TraceGrows(ms, es, t, |ms| - 1);
  }

  lemma LiveAndUp(states: seq<State>, inputs: seq<Input>, i: nat)
    requires Run(states, inputs) && i < |states|
    ensures states[i].live.Keys <= states[i].begun && BuffersUp(states[i].live, states[i].up, {})
  {
    RunKeeps(states, inputs, i);
  }

  lemma StillBuffered(states: seq<State>, inputs: seq<Input>, i: nat, k: nat, j: nat, t: Tid, p: Replica)
    requires Run(states, inputs) && i <= k <= j < |states|
    requires t in states[i].live && p in states[i].live[t].writes && t in states[j].live
    ensures t in states[k].live && p in states[k].live[t].writes && p.0 in states[k].up
  {
    LiveAndUp(states, inputs, i);
    LiveAndUp(states, inputs, k);
    StepsGrow(states, inputs, i, k, t);
    StepsGrow(states, inputs, k, j, t);
  }

  /** A buffered write lies on a site that stays up, and is not failed, as long as the transaction lives. */
  lemma BufferedSitesStayUp(states: seq<State>, inputs: seq<Input>, i: nat, k: nat, j: nat, t: Tid, p: Replica)
    requires Run(states, inputs) && i <= k <= j < |states|
    requires t in states[i].live && p in states[i].live[t].writes && t in states[j].live
    ensures t in states[k].live && p in states[k].live[t].writes && p.0 in states[k].up
    ensures k < j && inputs[k].req.Some? && inputs[k].req.value.Fail? ==> inputs[k].req.value.site != p.0
  {
    StillBuffered(states, inputs, i, k, j, t, p);
    if k < j {
      StillBuffered(states, inputs, i, k + 1, j, t, p);
      FailedStep(states, inputs, k, t, p);
    }
  }

  lemma FailedStep(states: seq<State>, inputs: seq<Input>, k: nat, t: Tid, p: Replica)
    requires Run(states, inputs) && k < |inputs|
    requires t in states[k].live && p in states[k].live[t].writes && t in states[k + 1].live
    ensures inputs[k].req.Some? && inputs[k].req.value.Fail? ==> inputs[k].req.value.site != p.0
  {
    var input := inputs[k];
    if input.req.Some? && input.req.value.Fail? && input.req.value.site == p.0 {
      RunKeeps(states, inputs, k);
      FailKillsWriters(states[k], input, t, p);
      assert false;
    }
  }

  lemma FailKillsWriters(st: State, input: Input, t: Tid, p: Replica)
    requires Inv(st) && WellFormed(st, input.req) && MeetsAll(st, input)
    requires input.req.Some? && input.req.value.Fail? && input.req.value.site == p.0
    requires t in st.live && p in st.live[t].writes
    ensures Step(st, input).Next? ==> t !in Step(st, input).st.live
  {
    FailKillsBeforeDrain(st, input.req, t, p);
    DrainRevivesNobody(BeforeDrain(st, input.req).st, input.order, t);
  }

  lemma FailKillsBeforeDrain(st: State, req: Option<Request>, t: Tid, p: Replica)
    requires Inv(st) && WellFormed(st, req) && req.Some? && req.value.Fail? && req.value.site == p.0
    requires t in st.live && p in st.live[t].writes
    ensures var before := BeforeDrain(st, req);
      before.ToDrain? && Inv(before.st) && t in before.st.begun && t !in before.st.live
  {
    var seen := Observe(st, req);
    ObserveKeeps(st, req);
    SurvivorsKeepBuffers(seen, t, p);
    FailStep(st, req);
    FailKills(Resolve(seen).st, t, p);
  }

  lemma FailStep(st: State, req: Option<Request>)
    requires req.Some? && req.value.Fail? && Resolve(Observe(st, req)).Next?
    ensures BeforeDrain(st, req) == ToDrain(FailSite(Resolve(Observe(st, req)).st, req.value.site))
  {
  }

  lemma FailKills(st: State, t: Tid, p: Replica)
    requires Inv(st) && t in st.begun && (t in st.live ==> p in st.live[t].writes)
    ensures Inv(FailSite(st, p.0)) && t in FailSite(st, p.0).begun && t !in FailSite(st, p.0).live
  {
    assert t in st.live ==> WroteSite(st.live[t], p.0);
    FailKeeps(st, p.0, {});
  }

  lemma SurvivorsKeepBuffers(st: State, t: Tid, p: Replica)
    requires Inv(st) && t in st.live && p in st.live[t].writes
    ensures Resolve(st).Next? && Inv(Resolve(st).st) && t in Resolve(st).st.begun
    ensures t in Resolve(st).st.live ==> p in Resolve(st).st.live[t].writes
  {
    var ms, es := ResolveTrace(st, None);
    TraceGrows(ms, es, t, |ms| - 1);
    assert ms[|ms| - 1] == Moment(Resolve(st).st, {}, None);
    ResolveOnlyAborts(st);
  }

  lemma {:induction false} ResolveOnlyAborts(st: State)
    ensures Resolve(st).Next? ==>
      Resolve(st).st.begun == st.begun
      && forall t | t in Resolve(st).st.live :: t in st.live && Resolve(st).st.live[t] == st.live[t]
    decreases |st.live|
  {
    if HasCycle(st.wait) && st.live != map[] {
      ResolveOnlyAborts(Abort(st, {PickYoungest(st.live)}));
    }
  }

  lemma DrainRevivesNobody(st: State, order: seq<Tid>, t: Tid)
    requires Inv(st) && Distinct(order) && t in st.begun && t !in st.live
    ensures Drain(st, order, {}).Next? ==> t !in Drain(st, order, {}).st.live
  {
    var ms, es := DrainTrace(st, order, {}, None);
    if Drain(st, order, {}).Next? {
      TraceGrows(ms, es, t, |ms| - 1);
    }
  }
}
