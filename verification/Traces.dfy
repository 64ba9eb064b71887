/** A step cut into the single changes that it makes, with the invariant at every moment. */
module Traces {
  import opened Base
  import opened Model
  import opened Locking
  import opened Execution
  import opened Graph
  import opened Invariant
  import opened LockLemmas
  import opened DataLemmas
  import opened SchedLemmas
  import opened Preservation

  /**
    * A state, the transactions whose queue entries the drain has run but not yet erased,
    * and the request being served (`request_`).
    */
  datatype Moment = Moment(st: State, done: set<Tid>, req: Option<Request>)

  datatype Event =
    | Seen(req: Option<Request>)
    | Victim(t: Tid)
    | Ran(r: Request)
    | Deferred(r: Request)
    | Draining(t: Tid)
    | Erased
    | Finished

  predicate Queued(st: State, r: Request) {
    r.OfTran() && r.t in st.queue && r in st.queue[r.t]
  }

  ghost predicate Micro(a: Moment, e: Event, b: Moment) {
    match e
    case Seen(req) =>
      a.done == {} && a.req == None && WellFormed(a.st, req) && b == Moment(Observe(a.st, req), {}, req)
    case Victim(t) =>
      HasCycle(a.st.wait) && Youngest(a.st.live, t) && b == a.(st := Abort(a.st, {t}))
    case Ran(r) =>
      && (a.req == Some(r) || Queued(a.st, r))
      && MayExec(a.st, r, a.done) && Exec(a.st, r) == Next(b.st) && b == a.(st := b.st)
    case Deferred(r) =>
      && r.End? && a.req == Some(r) && a.done == {} && r.t in a.st.live && Fresh(a.st, r)
      && b == a.(st := Enqueue(a.st, r))
    case Draining(t) => Runnable(a.st, t) && b == a.(done := a.done + {t})
    case Erased => b == a.(st := a.st.(queue := a.st.queue - a.done), done := {})
    case Finished => a.done == {} && b == a.(req := None)
  }

  ghost predicate Sane(ms: seq<Moment>) {
    forall i :: 0 <= i < |ms| ==> InvWhile(ms[i].st, ms[i].done)
  }

  ghost predicate Chain(ms: seq<Moment>, es: seq<Event>) {
    |ms| == |es| + 1 && forall i {:trigger es[i]} :: 0 <= i < |es| ==> Micro(ms[i], es[i], ms[i + 1])
  }

  ghost predicate From(ms: seq<Moment>, es: seq<Event>, a: Moment, b: Moment) {
    Chain(ms, es) && Sane(ms) && ms[0] == a && ms[|ms| - 1] == b
  }

  lemma Single(a: Moment) returns (ms: seq<Moment>, es: seq<Event>)
    requires InvWhile(a.st, a.done)
    ensures From(ms, es, a, a)
  {
    ms, es := [a], [];
  }

  /** One more change in front of a trace. */
  lemma Prepend(a: Moment, e: Event, ms: seq<Moment>, es: seq<Event>, b: Moment, c: Moment)
    returns (ms': seq<Moment>, es': seq<Event>)
    requires InvWhile(a.st, a.done) && Micro(a, e, b) && From(ms, es, b, c)
    ensures From(ms', es', a, c)
  {
    ms', es' := [a] + ms, [e] + es;
    PrependChain(a, e, ms, es);
    PrependSane(a, ms);
  }

  lemma PrependChain(a: Moment, e: Event, ms: seq<Moment>, es: seq<Event>)
    requires Chain(ms, es) && Micro(a, e, ms[0])
    ensures Chain([a] + ms, [e] + es)
  {
    var ms', es' := [a] + ms, [e] + es;
    forall i | 0 <= i < |es'| ensures Micro(ms'[i], es'[i], ms'[i + 1]) {
      if i > 0 {
        assert Micro(ms[i - 1], es[i - 1], ms[i]);
      }
    }
  }

  lemma PrependSane(a: Moment, ms: seq<Moment>)
    requires InvWhile(a.st, a.done) && Sane(ms)
    ensures Sane([a] + ms)
  {
  }

  lemma JoinSane(ms1: seq<Moment>, ms2: seq<Moment>)
    requires Sane(ms1) && Sane(ms2) && ms2 != []
    ensures Sane(ms1 + ms2[1..])
  {
  }

  lemma JoinChain(ms1: seq<Moment>, es1: seq<Event>, ms2: seq<Moment>, es2: seq<Event>)
    requires Chain(ms1, es1) && Chain(ms2, es2) && ms1[|ms1| - 1] == ms2[0]
    ensures Chain(ms1 + ms2[1..], es1 + es2)
  {
    var ms, es, n := ms1 + ms2[1..], es1 + es2, |es1|;
    forall i | 0 <= i < |es| ensures Micro(ms[i], es[i], ms[i + 1]) {
      if i < n {
        assert ms[i] == ms1[i] && es[i] == es1[i] && ms[i + 1] == ms1[i + 1];
      } else {
        assert ms[i] == ms2[i - n] && es[i] == es2[i - n] && ms[i + 1] == ms2[i - n + 1];
      }
    }
  }

  lemma Join(ms1: seq<Moment>, es1: seq<Event>, ms2: seq<Moment>, es2: seq<Event>, a: Moment, b: Moment, c: Moment)
    returns (ms: seq<Moment>, es: seq<Event>)
    requires From(ms1, es1, a, b) && From(ms2, es2, b, c)
    ensures From(ms, es, a, c)
  {
    ms, es := ms1 + ms2[1..], es1 + es2;
    JoinSane(ms1, ms2);
    JoinChain(ms1, es1, ms2, es2);
  }

  // ----- What no request can do to the script or the queue -----

  /** No request touches what the script has issued, or revives or retypes a transaction. */
  ghost predicate SameScript(st: State, st': State) {
    && st'.now == st.now && st'.asked == st.asked && st'.ended == st.ended && st.begun <= st'.begun
    && (forall t | t in st'.live && t in st.begun :: t in st.live && st'.live[t].ro == st.live[t].ro)
    && (forall t | t in st.queue && t in st'.live && t in st.begun ::
          t in st'.queue && forall r | r in st.queue[t] :: r in st'.queue[t])
  }

  lemma {:induction false} InsertKeeps(q: seq<Request>, r: Request)
    ensures forall x | x in q :: x in InsertByTime(q, r)
    ensures forall x | x in InsertByTime(q, r) :: x in q || x == r
  {
    if q != [] && q[0].ts != r.ts && !(r.ts < q[0].ts) {
      InsertKeeps(q[1..], r);
      assert q == [q[0]] + q[1..];
    }
  }

  lemma EnqueueScript(st: State, mid: State, r: Request)
    requires r.OfTran() && SameScript(st, mid)
    ensures SameScript(st, Enqueue(mid, r))
  {
    InsertKeeps(if r.t in mid.queue then mid.queue[r.t] else [], r);
  }

  lemma WriteScript(st: State, r: Request, a: LockStatus)
    requires r.Write? && WriteWith(st, r, a).Next?
    ensures SameScript(st, WriteWith(st, r, a).st)
    ensures r.t in st.live ==> r.t in WriteWith(st, r, a).st.live
  {
    if a.status == NeedToWait {
      EnqueueScript(st, AddWaits(st, r.t, a.owners), r);
    }
  }

  lemma ReadScript(st: State, r: Request, a: LockStatus)
    requires r.Read? && r.t in st.live && ReadWith(st, r, a).Next?
    ensures SameScript(st, ReadWith(st, r, a).st)
    ensures r.t in ReadWith(st, r, a).st.live
  {
    if a.status == NeedToWait {
      EnqueueScript(st, AddWaits(st, r.t, a.owners), r);
    } else if a.status == AvailableToAssign {
      assert SameScript(st, AssignShare(st, r.t, a.sites, r.v));
    }
  }

  lemma LockingReadScript(st: State, r: Request)
    requires r.Read? && r.t in st.live && LockingRead(st, r).Next?
    ensures SameScript(st, LockingRead(st, r).st)
    ensures r.t in LockingRead(st, r).st.live
  {
    if Odd(r.v) && (Home(r.v), r.v) !in st.readable {
      EnqueueScript(st, AwaitSite(st, r.t, Home(r.v)), r);
    } else {
      ReadScript(st, r, Acquire(st, r.t, r.v));
    }
  }

  lemma ReadOnlyScript(st: State, r: Request)
    requires r.Read? && r.t in st.live && ReadOnly(st, r).Next?
    ensures SameScript(st, ReadOnly(st, r).st)
  {
    if Odd(r.v) && (Home(r.v), r.v) !in st.readable {
      EnqueueScript(st, AwaitSite(st, r.t, Home(r.v)), r);
    }
  }

  lemma ExecScript(st: State, r: Request)
    requires Exec(st, r).Next? && (r.Read? || r.Write? || r.End?)
    ensures SameScript(st, Exec(st, r).st)
  {
    if r.Write? {
      WriteScript(st, r, Acquire(st, r.t, r.v));
    } else if r.Read? {
      if st.live[r.t].ro {
        ReadOnlyScript(st, r);
      } else {
        LockingReadScript(st, r);
      }
    }
  }

  /** Only an End, or a read of an even variable by a read-only transaction, can end the transaction of its request. */
  lemma ExecSurvives(st: State, r: Request)
    requires Exec(st, r).Next? && (r.Read? || r.Write?) && r.t in st.live && MayQueue(st.live, r)
    ensures r.t in Exec(st, r).st.live
  {
    if r.Read? {
      if !st.live[r.t].ro {
        LockingReadScript(st, r);
      }
    } else {
      WriteScript(st, r, Acquire(st, r.t, r.v));
    }
  }

  // ----- The drain -----

  /** What is left to run of a queue entry of `t`. */
  ghost predicate Batch(st: State, t: Tid, rs: seq<Request>) {
    && (forall i | 0 <= i < |rs| :: (rs[i].Read? || rs[i].Write? || rs[i].End?) && rs[i].t == t && Issued(st, rs[i]))
    && (forall i | 0 <= i < |rs| - 1 :: !rs[i].End?)
    && t in st.begun
    && (forall i | 0 <= i < |rs| :: MayQueue(st.live, rs[i]))
    && (rs != [] ==> t in st.live && t in st.queue && forall i | 0 <= i < |rs| :: rs[i] in st.queue[t])
  }

  lemma BatchNext(st: State, t: Tid, rs: seq<Request>)
    requires rs != [] && Batch(st, t, rs) && Exec(st, rs[0]).Next?
    ensures Batch(Exec(st, rs[0]).st, t, rs[1..])
  {
    var st' := Exec(st, rs[0]).st;
    ExecScript(st, rs[0]);
    forall i | 0 <= i < |rs| - 1 ensures rs[1..][i] == rs[i + 1] {
    }
    if rs[0].End? {
      assert |rs| == 1;
    } else {
      ExecSurvives(st, rs[0]);
    }
  }

  lemma {:induction false} ExecAllTrace(st: State, t: Tid, rs: seq<Request>, done: set<Tid>, req: Option<Request>)
    returns (ms: seq<Moment>, es: seq<Event>)
    requires InvWhile(st, done) && t in done && Batch(st, t, rs)
    ensures ExecAll(st, rs) != EmptySet
    ensures ExecAll(st, rs).Next? ==> From(ms, es, Moment(st, done, req), Moment(ExecAll(st, rs).st, done, req))
    decreases rs
  {
    ms, es := Single(Moment(st, done, req));
    if rs != [] {
      var r := rs[0];
      ExecKeeps(st, r, done);
      if Exec(st, r).Next? {
        var st' := Exec(st, r).st;
        BatchNext(st, t, rs);
        ms, es := ExecAllTrace(st', t, rs[1..], done, req);
        if ExecAll(st, rs).Next? {
          ms, es := Prepend(Moment(st, done, req), Ran(r), ms, es, Moment(st', done, req),
                          Moment(ExecAll(st, rs).st, done, req));
        }
      }
    }
  }

  /** An entry that runs without an exception. */
  lemma EntryRuns(st: State, t: Tid, done: set<Tid>, req: Option<Request>)
    returns (mid: State, ms: seq<Moment>, es: seq<Event>)
    requires InvWhile(st, done) && t in done && t in st.queue && Batch(st, t, st.queue[t])
    requires ExecAll(st, st.queue[t]) != Throws
    ensures ExecAll(st, st.queue[t]) == Next(mid) && InvWhile(mid, done)
    ensures From(ms, es, Moment(st, done, req), Moment(mid, done, req))
  {
    ms, es := ExecAllTrace(st, t, st.queue[t], done, req);
    mid := ExecAll(st, st.queue[t]).st;
    assert ms[|ms| - 1] == Moment(mid, done, req);
  }

  lemma EntryIsBatch(st: State, t: Tid, done: set<Tid>)
    requires SchedInv(st, done) && t in st.queue && t !in done
    ensures Batch(st, t, st.queue[t])
  {
    var q := st.queue[t];
    assert QueuedFor(st, t, q);
    forall i | 0 <= i < |q| - 1 ensures !q[i].End? {
      assert q[i].ts < q[i + 1].ts;
    }
  }

  lemma DrainingMore(st: State, t: Tid, done: set<Tid>)
    requires InvWhile(st, done)
    ensures InvWhile(st, done + {t})
  {
  }

  lemma EraseDone(st: State, done: set<Tid>)
    requires InvWhile(st, done)
    ensures Inv(st.(queue := st.queue - done))
  {
    var st' := st.(queue := st.queue - done);
    FrameLocks(st, st');
    FrameData(st, st');
    EraseSched(st, done);
  }

  lemma EraseSched(st: State, done: set<Tid>)
    requires SchedInv(st, done)
    ensures SchedInv(st.(queue := st.queue - done), {})
  {
    var st' := st.(queue := st.queue - done);
    FrameWaits(st, st');
    forall u | u in st'.queue ensures u in st'.live && QueuedFor(st', u, st'.queue[u]) {
      assert QueuedFor(st, u, st.queue[u]);
    }
  }

  lemma {:induction false} DrainTrace(st: State, ts: seq<Tid>, done: set<Tid>, req: Option<Request>)
    returns (ms: seq<Moment>, es: seq<Event>)
    requires InvWhile(st, done) && Distinct(ts)
    requires forall i :: 0 <= i < |ts| ==> ts[i] !in done
    ensures Drain(st, ts, done) != EmptySet
    ensures Drain(st, ts, done).Next? ==> From(ms, es, Moment(st, done, req), Moment(Drain(st, ts, done).st, {}, req))
    decreases ts
  {
    var out := Drain(st, ts, done);
    if ts == [] {
      EraseDone(st, done);
      ms, es := Single(Moment(out.st, {}, req));
      ms, es := Prepend(Moment(st, done, req), Erased, ms, es, Moment(out.st, {}, req), Moment(out.st, {}, req));
    } else {
      var t := ts[0];
      assert forall i :: 0 <= i < |ts| - 1 ==> ts[1..][i] == ts[i + 1];
      if !Runnable(st, t) {
        ms, es := DrainTrace(st, ts[1..], done, req);
      } else {
        ms, es := DrainEntry(st, ts, done, req);
      }
    }
  }

  lemma {:induction false} DrainEntry(st: State, ts: seq<Tid>, done: set<Tid>, req: Option<Request>)
    returns (ms: seq<Moment>, es: seq<Event>)
    requires InvWhile(st, done) && Distinct(ts) && ts != [] && Runnable(st, ts[0])
    requires forall i :: 0 <= i < |ts| ==> ts[i] !in done
    ensures Drain(st, ts, done) != EmptySet
    ensures Drain(st, ts, done).Next? ==> From(ms, es, Moment(st, done, req), Moment(Drain(st, ts, done).st, {}, req))
    decreases ts, 0
  {
    var t, done' := ts[0], done + {ts[0]};
    EntryIsBatch(st, t, done);
    DrainingMore(st, t, done);
    ms, es := ExecAllTrace(st, t, st.queue[t], done', req);
    var mid := ExecAll(st, st.queue[t]);
    if mid.Next? {
      assert forall i :: 0 <= i < |ts| - 1 ==> ts[1..][i] == ts[i + 1];
      var ms2, es2 := DrainTrace(mid.st, ts[1..], done', req);
      if Drain(st, ts, done).Next? {
        var last := Moment(Drain(st, ts, done).st, {}, req);
        ms, es := Join(ms, es, ms2, es2, Moment(st, done', req), Moment(mid.st, done', req), last);
        ms, es := Prepend(Moment(st, done, req), Draining(t), ms, es, Moment(st, done', req), last);
      }
    }
  }

  // ----- Deadlock resolution -----

  lemma {:induction false} ResolveTrace(st: State, req: Option<Request>) returns (ms: seq<Moment>, es: seq<Event>)
    requires Inv(st)
    ensures Resolve(st).Next? && From(ms, es, Moment(st, {}, req), Moment(Resolve(st).st, {}, req))
    ensures !HasCycle(Resolve(st).st.wait)
    decreases |st.live|
  {
    if HasCycle(st.wait) {
      var p :| Cycle(st.wait, p);
      assert (p[0], p[1]) in st.wait;
      var t := PickYoungest(st.live);
      AbortKeeps(st, {t}, {});
      ms, es := ResolveTrace(Abort(st, {t}), req);
      ms, es := Prepend(Moment(st, {}, req), Victim(t), ms, es, Moment(Abort(st, {t}), {}, req),
                        Moment(Resolve(st).st, {}, req));
    } else {
      ms, es := Single(Moment(st, {}, req));
    }
  }

  // ----- One step -----

  /** `r` is the newest request and the script may issue it. */
  ghost predicate Fresh(st: State, r: Request) {
    && Issued(st, r) && r.ts == st.now
    && (!r.Dump? ==> forall u | u in st.live :: st.live[u].ts < r.ts)
    && (r.Begin? ==> r.t !in st.begun)
    && ((r.Read? || r.Write? || r.End?) && r.t in st.queue ==>
          forall i :: 0 <= i < |st.queue[r.t]| ==> st.queue[r.t][i].ts < r.ts && !st.queue[r.t][i].End?)
  }

  lemma ObserveKeeps(st: State, req: Option<Request>)
    requires Inv(st) && WellFormed(st, req)
    ensures Inv(Observe(st, req))
    ensures req.Some? ==> Fresh(Observe(st, req), req.value)
  {
    if req.Some? {
      var st' := Observe(st, req);
      FrameLocks(st, st');
      FrameData(st, st');
      ObserveSched(st, req.value);
      ObservedFresh(st, req.value);
    }
  }

  lemma ObserveSched(st: State, r: Request)
    requires SchedInv(st, {}) && WellFormed(st, Some(r))
    ensures SchedInv(Observe(st, Some(r)), {})
  {
    FrameWaits(st, Observe(st, Some(r)));
    FrameQueue(st, Observe(st, Some(r)), {});
  }

  lemma ObservedFresh(st: State, r: Request)
    requires Ages(st) && QueueInv(st, {}) && WellFormed(st, Some(r))
    ensures Fresh(Observe(st, Some(r)), r)
  {
    if (r.Read? || r.Write? || r.End?) && r.t in st.queue {
      assert QueuedFor(st, r.t, st.queue[r.t]);
    }
  }

  lemma {:induction false} ResolveFresh(st: State, r: Request)
    requires Fresh(st, r)
    ensures Resolve(st).Next? ==> Fresh(Resolve(st).st, r)
    decreases |st.live|
  {
    if HasCycle(st.wait) && st.live != map[] {
      AbortFresh(st, PickYoungest(st.live), r);
      ResolveFresh(Abort(st, {PickYoungest(st.live)}), r);
    }
  }

  lemma AbortFresh(st: State, t: Tid, r: Request)
    requires Fresh(st, r)
    ensures Fresh(Abort(st, {t}), r)
  {
  }

  lemma FreshMayExec(st: State, r: Request)
    requires Inv(st) && Fresh(st, r) && !Dropped(st, r)
    requires r.End? ==> !Blocked(st, r)
    ensures MayExec(st, r, {})
  {
  }

  lemma BeginUnblocked(st: State, r: Request)
    requires Inv(st) && Fresh(st, r) && r.Begin?
    ensures !Blocked(st, r)
  {
  }

  lemma OneChange(a: Moment, e: Event, b: Moment) returns (ms: seq<Moment>, es: seq<Event>)
    requires InvWhile(a.st, a.done) && Micro(a, e, b) && InvWhile(b.st, b.done)
    ensures From(ms, es, a, b)
  {
    ms, es := Single(b);
    ms, es := Prepend(a, e, ms, es, b, b);
  }

  /** An End of a blocked transaction joins the queue. */
  lemma DeferTrace(st: State, r: Request) returns (ms: seq<Moment>, es: seq<Event>)
    requires Inv(st) && Fresh(st, r) && r.End? && r.t in st.live
    ensures From(ms, es, Moment(st, {}, Some(r)), Moment(Enqueue(st, r), {}, Some(r)))
  {
    EnqueueKeeps(st, r, {});
    ms, es := OneChange(Moment(st, {}, Some(r)), Deferred(r), Moment(Enqueue(st, r), {}, Some(r)));
  }

  lemma RunTrace(st: State, r: Request) returns (ms: seq<Moment>, es: seq<Event>)
    requires Inv(st) && MayExec(st, r, {})
    ensures Exec(st, r) != EmptySet
    ensures Exec(st, r).Next? ==> From(ms, es, Moment(st, {}, Some(r)), Moment(Exec(st, r).st, {}, Some(r)))
  {
    ExecKeeps(st, r, {});
    ms, es := Single(Moment(st, {}, Some(r)));
    if Exec(st, r).Next? {
      ms, es := OneChange(Moment(st, {}, Some(r)), Ran(r), Moment(Exec(st, r).st, {}, Some(r)));
    }
  }

  lemma ServeTrace(st: State, req: Option<Request>) returns (ms: seq<Moment>, es: seq<Event>)
    requires Inv(st) && (req.Some? ==> Fresh(st, req.value))
    ensures Serve(st, req) != Over(EmptySet)
    ensures Serve(st, req).Over? && Serve(st, req).out.Next? ==>
              From(ms, es, Moment(st, {}, req), Moment(Serve(st, req).out.st, {}, req))
    ensures Serve(st, req).ToDrain? ==> From(ms, es, Moment(st, {}, req), Moment(Serve(st, req).st, {}, req))
  {
    ms, es := Single(Moment(st, {}, req));
    if req.Some? && !Dropped(st, req.value) {
      var r := req.value;
      if r.Begin? {
        BeginUnblocked(st, r);
      }
      if r.End? && Blocked(st, r) {
        ms, es := DeferTrace(st, r);
      } else {
        FreshMayExec(st, r);
        ms, es := RunTrace(st, r);
      }
    }
  }

  /** One call of `execute_instructions` never reads an empty set, and is a chain of single changes. */
  lemma StepTrace(st: State, input: Input) returns (ms: seq<Moment>, es: seq<Event>)
    requires Inv(st) && WellFormed(st, input.req) && MeetsAll(st, input)
    ensures Step(st, input) != EmptySet
    ensures Step(st, input).Next? ==> From(ms, es, Moment(st, {}, None), Moment(Step(st, input).st, {}, None))
  {
    var req := input.req;
    var seen := Observe(st, req);
    ObserveKeeps(st, req);
    ms, es := ResolveTrace(seen, req);
    var resolved := Resolve(seen).st;
    ms, es := Prepend(Moment(st, {}, None), Seen(req), ms, es, Moment(seen, {}, req), Moment(resolved, {}, req));
    if req.Some? {
      ResolveFresh(seen, req.value);
    }
    var ms2, es2 := ServeTrace(resolved, req);
    var before := BeforeDrain(st, req);
    if before.ToDrain? {
      ms, es := Join(ms, es, ms2, es2, Moment(st, {}, None), Moment(resolved, {}, req), Moment(before.st, {}, req));
      ms2, es2 := DrainTrace(before.st, input.order, {}, req);
      if Step(st, input).Next? {
        ms, es := Join(ms, es, ms2, es2, Moment(st, {}, None), Moment(before.st, {}, req),
                       Moment(Step(st, input).st, {}, req));
        ms, es := Finish(ms, es, Moment(st, {}, None), Moment(Step(st, input).st, {}, req));
      }
    } else if before.out.Next? {
      ms, es := Join(ms, es, ms2, es2, Moment(st, {}, None), Moment(resolved, {}, req), Moment(before.out.st, {}, req));
      ms, es := Finish(ms, es, Moment(st, {}, None), Moment(before.out.st, {}, req));
    }
  }

  lemma Finish(ms: seq<Moment>, es: seq<Event>, a: Moment, b: Moment) returns (ms': seq<Moment>, es': seq<Event>)
    requires From(ms, es, a, b) && b.done == {}
    ensures From(ms', es', a, b.(req := None))
  {
    var last := b.(req := None);
    ms', es' := Single(last);
    ms', es' := Prepend(b, Finished, ms', es', last, last);
    ms', es' := Join(ms, es, ms', es', a, b, last);
  }

  lemma AddStep(states: seq<State>, inputs: seq<Input>, i: nat, ms: seq<Moment>, es: seq<Event>, a: Moment)
    returns (ms': seq<Moment>, es': seq<Event>)
    requires Steps(states, inputs) && i < |inputs| && From(ms, es, a, Moment(states[i], {}, None))
    ensures From(ms', es', a, Moment(states[i + 1], {}, None))
  {
    var input := inputs[i];
    assert ms[|ms| - 1] == Moment(states[i], {}, None);
    ms', es' := StepTrace(states[i], input);
    ms', es' := Join(ms, es, ms', es', a, Moment(states[i], {}, None), Moment(states[i + 1], {}, None));
  }

  /** The part of a run from state `i` to state `j`. */
  lemma {:induction false} StepsTrace(states: seq<State>, inputs: seq<Input>, i: nat, j: nat)
    returns (ms: seq<Moment>, es: seq<Event>)
    requires Steps(states, inputs) && i <= j < |states| && Inv(states[i])
    ensures From(ms, es, Moment(states[i], {}, None), Moment(states[j], {}, None))
    decreases j - i
  {
    if i == j {
      ms, es := Single(Moment(states[i], {}, None));
    } else {
      ms, es := StepsTrace(states, inputs, i, j - 1);
      ms, es := AddStep(states, inputs, j - 1, ms, es, Moment(states[i], {}, None));
    }
  }

  /** The invariant holds in every state of every run. */
  lemma RunKeeps(states: seq<State>, inputs: seq<Input>, i: nat)
    requires Run(states, inputs) && i < |states|
    ensures Inv(states[i])
  {
    InitInv();
    var ms, es := StepsTrace(states, inputs, 0, i);
    assert ms[|ms| - 1] == Moment(states[i], {}, None);
  }
}
