/** Exactly which request lets an exception escape, and that only a repeated read ever does. */
module Exceptions {
  import opened Base
  import opened Model
  import opened Execution
  import opened Invariant
  import opened LockLemmas
  import opened Preservation
  import opened Traces
  import opened Courses
  import opened Acquisition

  lemma OwnLockHeld(st: State, t: Tid, v: VarId)
    requires MeetsOwnLock(st, t, v)
    ensures HoldsVar(st, t, v)
  {
    if s: SiteId :| OwnObstacle(st, t, v, s) {
      assert Holds(st.reps[(s, v)], t);
    } else {
      var s :| s in Targets(st, v) && t in st.reps[(s, v)].shared;
      assert Holds(st.reps[(s, v)], t);
    }
  }

  /** A locking read that meets a lock of its own transaction. */
  ghost predicate Rereads(st: State, r: Request) {
    && r.Read? && r.t in st.live && !st.live[r.t].ro
    && (Odd(r.v) ==> (Home(r.v), r.v) in st.readable)
    && MeetsOwnLock(st, r.t, r.v)
  }

  /** A request of a transaction that is gone, where it would look the transaction up. */
  predicate Orphaned(st: State, r: Request) {
    && (r.Read? || r.Write? || r.End?) && r.t !in st.live
    && (r.Write? ==> Targets(st, r.v) != {} && forall s | s in Targets(st, r.v) :: Passable(st, r.t, r.v, s))
  }

  lemma ReadThrows(st: State, r: Request)
    requires (forall p: Replica :: SingleHolder(st.reps[p], st.live)) && r.Read?
    ensures Exec(st, r) == Throws <==> Rereads(st, r) || Orphaned(st, r)
  {
    OwnLockStatus(st, r.t, r.v);
    AcquireSound(st, r.t, r.v);
  }

  lemma WriteThrows(st: State, r: Request)
    requires (forall p: Replica :: SingleHolder(st.reps[p], st.live)) && OwnersBuffer(st) && r.Write?
    ensures Exec(st, r) == Throws <==> Orphaned(st, r)
  {
    if r.t in st.live {
      WriteFates(st, r);
    } else {
      AcquireVerdict(st, r.t, r.v);
      AcquireSound(st, r.t, r.v);
    }
  }

  /** Exactly when a request throws, at every moment. */
  lemma ThrowsIff(ms: seq<Moment>, es: seq<Event>, k: nat, r: Request)
    requires Course(ms, es) && k < |ms|
    ensures Exec(ms[k].st, r) == Throws <==> Rereads(ms[k].st, r) || Orphaned(ms[k].st, r)
    ensures Rereads(ms[k].st, r) ==> HoldsVar(ms[k].st, r.t, r.v)
  {
    CourseKeeps(ms, es, k);
    if r.Read? {
      ReadThrows(ms[k].st, r);
      if Rereads(ms[k].st, r) {
        OwnLockHeld(ms[k].st, r.t, r.v);
      }
    } else if r.Write? {
      WriteThrows(ms[k].st, r);
    }
  }

  /** For an odd variable only its home counts. */
  lemma OddReadThrowsIff(ms: seq<Moment>, es: seq<Event>, k: nat, r: Request)
    requires Course(ms, es) && k < |ms|
    requires r.Read? && Odd(r.v) && r.t in ms[k].st.live && !ms[k].st.live[r.t].ro
    ensures var st, p := ms[k].st, (Home(r.v), r.v);
      Exec(st, r) == Throws <==>
        && p in st.readable
        && (st.reps[p].excl == Some(r.t) || (r.t in st.reps[p].shared && NobodyElseAwaits(st, r.t)))
  {
    CourseKeeps(ms, es, k);
    OddReadThrowsAt(ms[k].st, r);
  }

  lemma OddReadThrowsAt(st: State, r: Request)
    requires r.Read? && Odd(r.v) && r.t in st.live && !st.live[r.t].ro
    requires SingleHolder(st.reps[(Home(r.v), r.v)], st.live) && (forall p | p in st.readable :: p.0 in st.up)
    ensures var p := (Home(r.v), r.v);
      Exec(st, r) == Throws <==>
        && p in st.readable
        && (st.reps[p].excl == Some(r.t) || (r.t in st.reps[p].shared && NobodyElseAwaits(st, r.t)))
  {
    HomeVerdict(st, r.t, r.v);
  }

  /** For an even variable every site that is up counts. */
  lemma EvenReadThrowsIff(ms: seq<Moment>, es: seq<Event>, k: nat, r: Request)
    requires Course(ms, es) && k < |ms|
    requires r.Read? && !Odd(r.v) && r.t in ms[k].st.live && !ms[k].st.live[r.t].ro
    ensures var st := ms[k].st;
      Exec(st, r) == Throws <==>
        || ((forall s | s in st.up :: Passable(st, r.t, r.v, s))
            && exists s | s in st.up :: r.t in st.reps[(s, r.v)].shared)
        || exists s: SiteId :: Obstacle(st, r.t, r.v, s) && st.reps[(s, r.v)].excl == Some(r.t)
  {
    ThrowsIff(ms, es, k, r);
    var st := ms[k].st;
    forall s: SiteId
      ensures OwnObstacle(st, r.t, r.v, s) <==> Obstacle(st, r.t, r.v, s) && st.reps[(s, r.v)].excl == Some(r.t)
    {
    }
  }

  // ----- Steps that throw -----

  /** The exception escapes from `r`, whose transaction is live. */
  ghost predicate RaisedBy(m: Moment, r: Request) {
    Exec(m.st, r) == Throws && r.OfTran() && r.t in m.st.live
  }

  /** A trace from `a` to the moment at which the exception escapes. */
  ghost predicate LeadsTo(ms: seq<Moment>, es: seq<Event>, a: Moment, r: Request) {
    ms != [] && From(ms, es, a, ms[|ms| - 1]) && RaisedBy(ms[|ms| - 1], r)
  }

  lemma {:induction false} ExecAllThrows(st: State, t: Tid, rs: seq<Request>, done: set<Tid>, req: Option<Request>)
    returns (ms: seq<Moment>, es: seq<Event>, r: Request)
    requires InvWhile(st, done) && t in done && Batch(st, t, rs) && ExecAll(st, rs) == Throws
    ensures LeadsTo(ms, es, Moment(st, done, req), r)
    decreases rs
  {
    r := rs[0];
    ExecKeeps(st, r, done);
    if Exec(st, r) == Throws {
      ms, es := Single(Moment(st, done, req));
    } else {
      var st' := Exec(st, r).st;
      BatchNext(st, t, rs);
      var first := r;
      ms, es, r := ExecAllThrows(st', t, rs[1..], done, req);
      ms, es := PrependTo(Moment(st, done, req), Ran(first), ms, es, Moment(st', done, req), r);
    }
  }

  lemma PrependTo(a: Moment, e: Event, ms: seq<Moment>, es: seq<Event>, b: Moment, r: Request)
    returns (ms': seq<Moment>, es': seq<Event>)
    requires InvWhile(a.st, a.done) && Micro(a, e, b) && LeadsTo(ms, es, b, r)
    ensures LeadsTo(ms', es', a, r)
  {
    ms', es' := Prepend(a, e, ms, es, b, ms[|ms| - 1]);
  }

  lemma JoinTo(ms1: seq<Moment>, es1: seq<Event>, ms2: seq<Moment>, es2: seq<Event>, a: Moment, b: Moment, r: Request)
    returns (ms: seq<Moment>, es: seq<Event>)
    requires From(ms1, es1, a, b) && LeadsTo(ms2, es2, b, r)
    ensures LeadsTo(ms, es, a, r)
  {
    ms, es := Join(ms1, es1, ms2, es2, a, b, ms2[|ms2| - 1]);
  }

  lemma {:induction false} DrainThrows(st: State, ts: seq<Tid>, done: set<Tid>, req: Option<Request>)
    returns (ms: seq<Moment>, es: seq<Event>, r: Request)
    requires InvWhile(st, done) && Distinct(ts) && Drain(st, ts, done) == Throws
    requires forall i :: 0 <= i < |ts| ==> ts[i] !in done
    ensures LeadsTo(ms, es, Moment(st, done, req), r)
    decreases ts
  {
    var t := ts[0];
    assert forall i :: 0 <= i < |ts| - 1 ==> ts[1..][i] == ts[i + 1];
    if !Runnable(st, t) {
      ms, es, r := DrainThrows(st, ts[1..], done, req);
    } else {
      var done' := done + {t};
      EntryIsBatch(st, t, done);
      DrainingMore(st, t, done);
      if ExecAll(st, st.queue[t]) == Throws {
        ms, es, r := ExecAllThrows(st, t, st.queue[t], done', req);
      } else {
        var mid, ms1, es1 := EntryRuns(st, t, done', req);
        ms, es, r := DrainThrows(mid, ts[1..], done', req);
        ms, es := JoinTo(ms1, es1, ms, es, Moment(st, done', req), Moment(mid, done', req), r);
      }
      ms, es := PrependTo(Moment(st, done, req), Draining(t), ms, es, Moment(st, done', req), r);
    }
  }

  lemma ServeThrows(st: State, req: Option<Request>, order: seq<Tid>)
    returns (ms: seq<Moment>, es: seq<Event>, r: Request)
    requires Inv(st) && (req.Some? ==> Fresh(st, req.value))
    requires var served := Serve(st, req);
      if served.Over? then served.out == Throws
      else Distinct(order) && Drain(served.st, order, {}) == Throws
    ensures LeadsTo(ms, es, Moment(st, {}, req), r)
  {
    var served := Serve(st, req);
    if served.Over? {
      r := req.value;
      ms, es := Single(Moment(st, {}, req));
    } else {
      var ms1, es1 := ServeTrace(st, req);
      assert ms1[|ms1| - 1] == Moment(served.st, {}, req);
      ms, es, r := DrainThrows(served.st, order, {}, req);
      ms, es := JoinTo(ms1, es1, ms, es, Moment(st, {}, req), Moment(served.st, {}, req), r);
    }
  }

  lemma StepThrows(st: State, input: Input) returns (ms: seq<Moment>, es: seq<Event>, r: Request)
    requires Inv(st) && WellFormed(st, input.req) && MeetsAll(st, input) && Step(st, input) == Throws
    ensures LeadsTo(ms, es, Moment(st, {}, None), r)
  {
    var req := input.req;
    var seen := Observe(st, req);
    ObserveKeeps(st, req);
    var ms1, es1 := ResolveTrace(seen, req);
    var resolved := Resolve(seen).st;
    assert ms1[|ms1| - 1] == Moment(resolved, {}, req);
    if req.Some? {
      ResolveFresh(seen, req.value);
    }
    ms, es, r := ServeThrows(resolved, req, input.order);
    ms, es := JoinTo(ms1, es1, ms, es, Moment(seen, {}, req), Moment(resolved, {}, req), r);
    ms, es := PrependTo(Moment(st, {}, None), Seen(req), ms, es, Moment(seen, {}, req), r);
  }

  /**
    * A step of a run lets an exception escape only at a moment at which a live transaction reads
    * a variable that it has locked already.
    */
  lemma OnlyRereadsThrow(states: seq<State>, inputs: seq<Input>, input: Input)
    returns (ms: seq<Moment>, es: seq<Event>, r: Request)
    requires Run(states, inputs)
    requires var last := states[|inputs|];
      WellFormed(last, input.req) && MeetsAll(last, input) && Step(last, input) == Throws
    ensures Course(ms, es) && ms != []
    ensures Exec(ms[|ms| - 1].st, r) == Throws && Rereads(ms[|ms| - 1].st, r) && HoldsVar(ms[|ms| - 1].st, r.t, r.v)
  {
    var n := |inputs|;
    InitInv();
    var ms1, es1 := StepsTrace(states, inputs, 0, n);
    assert ms1[|ms1| - 1] == Moment(states[n], {}, None);
    ms, es, r := StepThrows(states[n], input);
    ms, es := JoinTo(ms1, es1, ms, es, Moment(states[0], {}, None), Moment(states[n], {}, None), r);
    ThrowsIff(ms, es, |ms| - 1, r);
  }
}
