/** A condition on scripts under which no exception ever escapes. */
module SafeScripts {
  import opened Base
  import opened Model
  import opened Locking
  import opened Execution
  import opened Invariant
  import opened Preservation
  import opened Traces
  import opened Commits
  import opened Deadlocks
  import opened Acquisition
  import opened BlockedQueue
  import opened Exceptions

  predicate Accesses(req: Option<Request>) {
    req.Some? && (req.value.Read? || req.value.Write?)
  }

  /** One of the first `n` instructions has begun `t` as read-only. */
  predicate BegunReadOnly(inputs: seq<Input>, n: nat, t: Tid)
    requires n <= |inputs|
  {
    exists k | 0 <= k < n && inputs[k].req.Some? ::
      inputs[k].req.value.Begin? && inputs[k].req.value.t == t && inputs[k].req.value.ro
  }

  /** Instruction `n` is a read by a transaction that is not read-only. */
  predicate LockingReadAt(inputs: seq<Input>, n: nat)
    requires n < |inputs|
  {
    Accesses(inputs[n].req) && inputs[n].req.value.Read? && !BegunReadOnly(inputs, n, inputs[n].req.value.t)
  }

  predicate SameAccess(r: Request, x: Request)
    requires (r.Read? || r.Write?) && (x.Read? || x.Write?)
  {
    r.t == x.t && r.v == x.v
  }

  /**
    * A transaction that reads a variable issues no other read or write of it, before or after;
    * read-only transactions may read as they like.
    */
  predicate ReadsOnce(inputs: seq<Input>) {
    forall i: nat, j: nat |
      && i < |inputs| && j < |inputs| && i != j && LockingReadAt(inputs, i) && Accesses(inputs[j].req) ::
      !SameAccess(inputs[i].req.value, inputs[j].req.value)
  }

  // ----- What a script has asked for -----

  /** What has been read or written, what has been read by transactions that lock, and who is read-only. */
  datatype Past = Past(accessed: set<(Tid, VarId)>, read: set<(Tid, VarId)>, ro: set<Tid>)

  function Adds(past: Past, r: Request): Past {
    match r
    case Begin(_, t, ro) => if ro then past.(ro := past.ro + {t}) else past
    case Read(_, t, v) =>
      past.(accessed := past.accessed + {(t, v)}, read := if t in past.ro then past.read else past.read + {(t, v)})
    case Write(_, t, v, _) => past.(accessed := past.accessed + {(t, v)})
    case _ => past
  }

  function After(inputs: seq<Input>, n: nat): Past
    requires n <= |inputs|
  {
    if n == 0 then Past({}, {}, {})
    else if inputs[n - 1].req == None then After(inputs, n - 1)
    else Adds(After(inputs, n - 1), inputs[n - 1].req.value)
  }

  /** What the script may access next. */
  ghost predicate MayAccess(r: Request, past: Past) {
    && (r.Read? || r.Write? ==> (r.t, r.v) !in past.read)
    && (r.Read? && r.t !in past.ro ==> (r.t, r.v) !in past.accessed)
  }

  lemma {:induction false} AfterKnows(inputs: seq<Input>, n: nat, t: Tid, v: VarId)
    requires n <= |inputs|
    ensures t in After(inputs, n).ro <==> BegunReadOnly(inputs, n, t)
    ensures (t, v) in After(inputs, n).accessed ==>
              exists k: nat | k < n && Accesses(inputs[k].req) ::
                inputs[k].req.value.t == t && inputs[k].req.value.v == v
    ensures (t, v) in After(inputs, n).read ==>
              exists k: nat | k < n && LockingReadAt(inputs, k) ::
                inputs[k].req.value.t == t && inputs[k].req.value.v == v
  {
    if n > 0 {
      AfterKnows(inputs, n - 1, t, v);
      assert BegunReadOnly(inputs, n - 1, t) ==> BegunReadOnly(inputs, n, t);
      var req := inputs[n - 1].req;
      assert (t, v) in After(inputs, n).read && (t, v) !in After(inputs, n - 1).read ==> LockingReadAt(inputs, n - 1);
    }
  }

  lemma ReadsOnceMayAccess(inputs: seq<Input>, n: nat)
    requires ReadsOnce(inputs) && n < |inputs| && inputs[n].req.Some?
    ensures MayAccess(inputs[n].req.value, After(inputs, n))
  {
    var r := inputs[n].req.value;
    if r.Read? || r.Write? {
      AfterKnows(inputs, n, r.t, r.v);
    }
  }

  // ----- Who can hold what -----

  ghost predicate SameKinds(st: State, st': State) {
    st'.begun == st.begun && forall u | u in st'.live :: u in st.live && st'.live[u].ro == st.live[u].ro
  }

  /** Between `st` and `st'` only `t` may have gained locks, and only on `v`. */
  ghost predicate LocksGained(st: State, st': State, t: Tid, v: VarId) {
    forall p: Replica, u: Tid | Holds(st'.reps[p], u) :: Holds(st.reps[p], u) || (u == t && p.1 == v)
  }

  ghost predicate Gains(st: State, st': State, t: Tid, v: VarId) {
    SameKinds(st, st') && LocksGained(st, st', t, v)
  }

  ghost predicate GainsNothing(st: State, st': State) {
    SameKinds(st, st') && forall p: Replica, u: Tid | Holds(st'.reps[p], u) :: Holds(st.reps[p], u)
  }

  lemma AbortGainsNothing(st: State, ts: set<Tid>)
    ensures GainsNothing(st, Abort(st, ts))
  {
  }

  lemma WriteLocks(st: State, r: Request, a: LockStatus)
    requires r.Write? && WriteWith(st, r, a).Next?
    ensures LocksGained(st, WriteWith(st, r, a).st, r.t, r.v)
  {
  }

  lemma ReadLocks(st: State, r: Request, a: LockStatus)
    requires r.Read? && r.t in st.live && ReadWith(st, r, a).Next?
    ensures LocksGained(st, ReadWith(st, r, a).st, r.t, r.v)
  {
  }

  lemma EndGainsNothing(st: State, t: Tid, time: int)
    requires t in st.live
    ensures GainsNothing(st, EndTran(st, t, time))
  {
  }

  lemma AccessLocks(st: State, r: Request)
    requires (r.Read? || r.Write?) && Exec(st, r).Next?
    ensures LocksGained(st, Exec(st, r).st, r.t, r.v)
  {
    if r.Write? {
      WriteLocks(st, r, Acquire(st, r.t, r.v));
    } else if st.live[r.t].ro {
      AbortGainsNothing(st, {r.t});
    } else if !HomeUnreadable(st, r) {
      ReadLocks(st, r, Acquire(st, r.t, r.v));
    }
  }

  lemma AccessKinds(st: State, r: Request)
    requires (r.Read? || r.Write?) && Exec(st, r).Next?
    ensures SameKinds(st, Exec(st, r).st)
  {
    ExecHarmless(st, r);
  }

  lemma AccessGains(st: State, r: Request)
    requires (r.Read? || r.Write?) && Exec(st, r).Next?
    ensures Gains(st, Exec(st, r).st, r.t, r.v)
  {
    AccessLocks(st, r);
    AccessKinds(st, r);
  }

  lemma OtherGainsNothing(st: State, r: Request)
    requires !r.Read? && !r.Write? && !r.Begin? && Exec(st, r).Next?
    ensures GainsNothing(st, Exec(st, r).st)
  {
    match r
    case End(ts, t) => EndGainsNothing(st, t, ts);
    case _ =>
  }

  // ----- What the queue and the locks know of the script -----

  /**
    * Locks are on accessed variables only; a queued locking read is of a variable that its transaction
    * does not hold and that no other queued access of it names.
    */
  ghost predicate Tidy(st: State, past: Past, done: set<Tid>) {
    && past.ro <= st.begun && (forall t | t in st.live && t in past.ro :: st.live[t].ro)
    && (forall p: Replica, u: Tid | Holds(st.reps[p], u) :: (u, p.1) in past.accessed)
    && (forall t | t in st.queue && t !in done :: TidyEntry(st, t, st.queue[t], past))
  }

  ghost predicate TidyEntry(st: State, t: Tid, q: seq<Request>, past: Past) {
    && (forall r | r in q && (r.Read? || r.Write?) :: (t, r.v) in past.accessed)
    && (t !in past.ro ==> forall r | r in q && r.Read? :: (t, r.v) in past.read && NotHeld(st, t, r.v))
    && (t !in past.ro ==> forall r, x {:trigger r in q, x in q} |
          r in q && x in q && r != x && r.Read? && (x.Read? || x.Write?) :: r.v != x.v)
  }

  ghost predicate NotHeld(st: State, t: Tid, v: VarId) {
    forall s: SiteId :: !Holds(st.reps[(s, v)], t)
  }

  lemma TidyFewer(st: State, st': State, past: Past, done: set<Tid>)
    requires Tidy(st, past, done) && GainsNothing(st, st')
    requires forall t | t in st'.queue && t !in done :: t in st.queue && st'.queue[t] == st.queue[t]
    ensures Tidy(st', past, done)
  {
    forall t | t in st'.queue && t !in done ensures TidyEntry(st', t, st'.queue[t], past) {
      assert TidyEntry(st, t, st.queue[t], past);
    }
  }

  lemma TidyMore(st: State, past: Past, past': Past, done: set<Tid>)
    requires Tidy(st, past, done)
    requires past.accessed <= past'.accessed && past.read <= past'.read && past.ro == past'.ro
    ensures Tidy(st, past', done)
  {
    forall t | t in st.queue && t !in done ensures TidyEntry(st, t, st.queue[t], past') {
      assert TidyEntry(st, t, st.queue[t], past);
    }
  }

  // ----- No exception -----

  lemma NoThrow(st: State, r: Request)
    requires LockInv(st, {}) && ((r.Read? || r.Write? || r.End?) ==> r.t in st.live)
    requires r.Read? && !st.live[r.t].ro ==> NotHeld(st, r.t, r.v)
    ensures Exec(st, r) != Throws
  {
    if r.Read? {
      ReadThrows(st, r);
      if MeetsOwnLock(st, r.t, r.v) {
        OwnLockHeld(st, r.t, r.v);
      }
    } else if r.Write? {
      WriteThrows(st, r);
    }
  }

  // ----- The drain -----

  /** The rest of an entry of `t`, while it runs. */
  ghost predicate TidyRest(st: State, t: Tid, rs: seq<Request>, past: Past) {
    && (forall i | 0 <= i < |rs| && (rs[i].Read? || rs[i].Write?) :: (t, rs[i].v) in past.accessed)
    && (t !in past.ro ==>
          && (forall i | 0 <= i < |rs| && rs[i].Read? :: NotHeld(st, t, rs[i].v))
          && (forall i, k | 0 <= i < k < |rs| && (rs[i].Read? || rs[i].Write?) && rs[k].Read? :: rs[i].v != rs[k].v))
  }

  lemma RestNext(st: State, st': State, t: Tid, rs: seq<Request>, past: Past)
    requires rs != [] && rs[0].OfTran() && rs[0].t == t && TidyRest(st, t, rs, past)
    requires if rs[0].Read? || rs[0].Write? then Gains(st, st', t, rs[0].v) else GainsNothing(st, st')
    ensures TidyRest(st', t, rs[1..], past)
  {
  }

  lemma TidyNext(st: State, r: Request, past: Past, done: set<Tid>)
    requires (r.Read? || r.Write? || r.End?) && Exec(st, r).Next? && Tidy(st, past, done) && r.t in done
    requires r.Read? || r.Write? ==> (r.t, r.v) in past.accessed
    ensures Tidy(Exec(st, r).st, past, done)
    ensures if r.Read? || r.Write? then Gains(st, Exec(st, r).st, r.t, r.v) else GainsNothing(st, Exec(st, r).st)
  {
    var st' := Exec(st, r).st;
    if r.Read? || r.Write? {
      AccessGains(st, r);
    } else {
      OtherGainsNothing(st, r);
    }
    forall u | u in st'.queue && u !in done ensures TidyEntry(st', u, st'.queue[u], past) {
      ExecEntries(st, r, u);
      assert TidyEntry(st, u, st.queue[u], past);
    }
  }

  lemma {:induction false} EntrySafe(st: State, t: Tid, rs: seq<Request>, done: set<Tid>, past: Past)
    requires InvWhile(st, done) && t in done && Batch(st, t, rs)
    requires Tidy(st, past, done) && TidyRest(st, t, rs, past)
    ensures ExecAll(st, rs).Next? && Tidy(ExecAll(st, rs).st, past, done)
    decreases rs
  {
    if rs != [] {
      var r := rs[0];
      ExecKeeps(st, r, done);
      NoThrow(st, r);
      BatchNext(st, t, rs);
      TidyNext(st, r, past, done);
      RestNext(st, Exec(st, r).st, t, rs, past);
      EntrySafe(Exec(st, r).st, t, rs[1..], done, past);
    }
  }

  lemma EntryIsTidy(st: State, t: Tid, past: Past, done: set<Tid>)
    requires Tidy(st, past, done) && t in st.queue && t !in done && QueuedFor(st, t, st.queue[t])
    ensures TidyRest(st, t, st.queue[t], past)
  {
    var q := st.queue[t];
    assert TidyEntry(st, t, q, past);
    forall i, k | 0 <= i < k < |q| && (q[i].Read? || q[i].Write?) && q[k].Read? && t !in past.ro
      ensures q[i].v != q[k].v
    {
      assert q[i].ts < q[k].ts;
      assert q[i] in q && q[k] in q;
    }
  }

  lemma TurnSafe(st: State, t: Tid, done: set<Tid>, past: Past) returns (mid: State)
    requires InvWhile(st, done) && t in st.queue && t !in done && Tidy(st, past, done)
    ensures ExecAll(st, st.queue[t]) == Next(mid) && InvWhile(mid, done + {t}) && Tidy(mid, past, done + {t})
  {
    EntryIsBatch(st, t, done);
    DrainingMore(st, t, done);
    EntryIsTidy(st, t, past, done);
    assert Tidy(st, past, done + {t});
    EntrySafe(st, t, st.queue[t], done + {t}, past);
    mid := EntryEffect(st, t, done);
  }

  lemma {:induction false} DrainSafe(st: State, ts: seq<Tid>, done: set<Tid>, past: Past)
    requires InvWhile(st, done) && Apart(ts, done) && Tidy(st, past, done)
    ensures Drain(st, ts, done).Next? && Tidy(Drain(st, ts, done).st, past, {})
    decreases ts
  {
    if ts == [] {
      TidyFewer(st, st.(queue := st.queue - done), past, done);
    } else {
      ApartTail(ts, done);
      if !Runnable(st, ts[0]) {
        DrainSafe(st, ts[1..], done, past);
      } else {
        var mid := TurnSafe(st, ts[0], done, past);
        DrainSafe(mid, ts[1..], done + {ts[0]}, past);
      }
    }
  }

  // ----- The incoming request -----

  lemma ResolveTidy(st: State, past: Past)
    requires Inv(st) && Tidy(st, past, {})
    ensures Resolve(st).Next? && Tidy(Resolve(st).st, past, {})
  {
    var victims := ResolutionIsMinimal(st);
    AbortGainsNothing(st, victims);
    TidyFewer(st, Abort(st, victims), past, {});
  }

  /** How the new access may enter the queue: behind what is there, and without a lock. */
  ghost predicate JoinsQueue(st: State, st': State, r: Request)
    requires r.OfTran()
  {
    forall u | u in st'.queue ::
      || (u in st.queue && st'.queue[u] == st.queue[u])
      || (u == r.t && st'.reps == st.reps && st'.queue[u] == InsertByTime(if u in st.queue then st.queue[u] else [], r))
  }

  lemma WriteJoins(st: State, r: Request, a: LockStatus)
    requires r.Write? && WriteWith(st, r, a).Next?
    ensures JoinsQueue(st, WriteWith(st, r, a).st, r)
  {
  }

  lemma ReadJoins(st: State, r: Request, a: LockStatus)
    requires r.Read? && r.t in st.live && ReadWith(st, r, a).Next?
    ensures JoinsQueue(st, ReadWith(st, r, a).st, r)
  {
  }

  lemma AccessJoins(st: State, r: Request)
    requires (r.Read? || r.Write?) && Exec(st, r).Next?
    ensures JoinsQueue(st, Exec(st, r).st, r)
  {
    if r.Write? {
      WriteJoins(st, r, Acquire(st, r.t, r.v));
    } else if !st.live[r.t].ro && !HomeUnreadable(st, r) {
      ReadJoins(st, r, Acquire(st, r.t, r.v));
    }
  }

  lemma JoinedTidy(st: State, st': State, r: Request, u: Tid, past: Past)
    requires (r.Read? || r.Write?) && Tidy(st, past, {}) && MayAccess(r, past)
    requires Gains(st, st', r.t, r.v) && JoinsQueue(st, st', r) && u in st'.queue
    ensures TidyEntry(st', u, st'.queue[u], Adds(past, r))
  {
    var q := if u in st.queue then st.queue[u] else [];
    InsertKeeps(q, r);
    assert u in st.queue ==> TidyEntry(st, u, q, past);
    if u == r.t && u !in past.ro && r.Read? {
      assert NotHeld(st, u, r.v);
    }
  }

  lemma AccessTidy(st: State, r: Request, past: Past)
    requires (r.Read? || r.Write?) && Exec(st, r).Next? && Tidy(st, past, {}) && MayAccess(r, past)
    ensures Tidy(Exec(st, r).st, Adds(past, r), {})
  {
    var st' := Exec(st, r).st;
    AccessGains(st, r);
    AccessJoins(st, r);
    forall u | u in st'.queue ensures TidyEntry(st', u, st'.queue[u], Adds(past, r)) {
      JoinedTidy(st, st', r, u, past);
    }
  }

  lemma BeginTidy(st: State, r: Request, past: Past)
    requires r.Begin? && r.t !in st.begun && Tidy(st, past, {})
    ensures Tidy(BeginTran(st, r.ts, r.t, r.ro), Adds(past, r), {})
  {
    var st' := BeginTran(st, r.ts, r.t, r.ro);
    forall u | u in st'.queue ensures TidyEntry(st', u, st'.queue[u], Adds(past, r)) {
      assert TidyEntry(st, u, st.queue[u], past);
    }
  }

  /** An End joins the queue. */
  lemma DeferTidy(st: State, r: Request, past: Past)
    requires r.End? && Tidy(st, past, {})
    ensures Tidy(Enqueue(st, r), past, {})
  {
    var st' := Enqueue(st, r);
    forall u | u in st'.queue ensures TidyEntry(st', u, st'.queue[u], past) {
      InsertKeeps(if u in st.queue then st.queue[u] else [], r);
      assert u in st.queue ==> TidyEntry(st, u, st.queue[u], past);
    }
  }

  lemma ExecSafe(st: State, r: Request, past: Past)
    requires LockInv(st, {}) && Tidy(st, past, {}) && MayAccess(r, past) && (r.Begin? ==> r.t !in st.begun)
    requires Exec(st, r) != EmptySet && ((r.Read? || r.Write? || r.End?) ==> r.t in st.live)
    ensures Exec(st, r).Next? && Tidy(Exec(st, r).st, Adds(past, r), {})
  {
    NoThrow(st, r);
    if r.Read? || r.Write? {
      AccessTidy(st, r, past);
    } else if r.Begin? {
      BeginTidy(st, r, past);
    } else {
      OtherGainsNothing(st, r);
      TidyFewer(st, Exec(st, r).st, past, {});
    }
  }

  /** What serving leaves behind, whether the step is over or goes on to the drain. */
  ghost predicate ServedTidy(served: Served, past: Past) {
    match served
    case Over(out) => out.Next? && Tidy(out.st, past, {})
    case ToDrain(st) => Tidy(st, past, {})
  }

  lemma ServeSafe(st: State, r: Request, past: Past)
    requires Inv(st) && Fresh(st, r) && Tidy(st, past, {}) && MayAccess(r, past)
    ensures ServedTidy(Serve(st, Some(r)), Adds(past, r))
  {
    if Dropped(st, r) {
      TidyMore(st, past, Adds(past, r), {});
    } else if r.End? && Blocked(st, r) {
      DeferTidy(st, r, past);
    } else {
      if r.Begin? {
        BeginUnblocked(st, r);
      }
      FreshMayExec(st, r);
      ExecKeeps(st, r, {});
      ExecSafe(st, r, past);
    }
  }

  function Extended(past: Past, req: Option<Request>): Past {
    match req
    case None => past
    case Some(r) => Adds(past, r)
  }

  lemma ResolvedSafe(seen: State, input: Input, past: Past)
    requires Inv(seen) && Resolve(seen).Next? && Tidy(Resolve(seen).st, past, {})
    requires input.req.Some? ==> Fresh(seen, input.req.value) && MayAccess(input.req.value, past)
    requires var served := Serve(Resolve(seen).st, input.req);
      served.ToDrain? ==> Distinct(input.order)
    ensures var served := Serve(Resolve(seen).st, input.req);
      var out := if served.Over? then served.out else Drain(served.st, input.order, {});
      out.Next? && Tidy(out.st, Extended(past, input.req), {})
  {
    var st, req := Resolve(seen).st, input.req;
    var ms, es := ResolveTrace(seen, req);
    assert ms[|ms| - 1] == Moment(st, {}, req);
    if req.Some? {
      ResolveFresh(seen, req.value);
      ServeSafe(st, req.value, past);
    }
    ms, es := ServeTrace(st, req);
    var served := Serve(st, req);
    if served.ToDrain? {
      assert ms[|ms| - 1] == Moment(served.st, {}, req);
      DrainSafe(served.st, input.order, {}, Extended(past, req));
    }
  }

  lemma StepSafe(st: State, input: Input, past: Past)
    requires Inv(st) && WellFormed(st, input.req) && MeetsAll(st, input) && Tidy(st, past, {})
    requires input.req.Some? ==> MayAccess(input.req.value, past)
    ensures Step(st, input).Next? && Tidy(Step(st, input).st, Extended(past, input.req), {})
  {
    var seen := Observe(st, input.req);
    ObserveKeeps(st, input.req);
    TidyFewer(st, seen, past, {});
    ResolveTidy(seen, past);
    ResolvedSafe(seen, input, past);
  }

  // ----- Runs -----

  lemma InitTidy()
    ensures Tidy(Init(START), Past({}, {}, {}), {})
  {
    AllReplicas();
    forall p: Replica ensures Init(START).reps[p] == InitRep(p.1) {
    }
  }

  /** One step of a run. */
  ghost predicate Taken(st: State, input: Input, st': State) {
    WellFormed(st, input.req) && MeetsAll(st, input) && Step(st, input) == Next(st')
  }

  lemma StepTaken(states: seq<State>, inputs: seq<Input>, k: nat)
    requires Run(states, inputs) && k < |inputs|
    ensures Taken(states[k], inputs[k], states[k + 1])
  {
    var input := inputs[k];
  }

  lemma PrefixAt(inputs: seq<Input>, script: seq<Input>, k: nat)
    requires inputs <= script && k < |inputs|
    ensures script[k] == inputs[k]
  {
  }

  lemma NextTidy(st: State, input: Input, st': State, script: seq<Input>, k: nat)
    requires k < |script| && script[k] == input && ReadsOnce(script)
    ensures Inv(st) && Taken(st, input, st') && Tidy(st, After(script, k), {}) ==> Tidy(st', After(script, k + 1), {})
  {
    if Inv(st) && Taken(st, input, st') && Tidy(st, After(script, k), {}) {
      if input.req.Some? {
        ReadsOnceMayAccess(script, k);
      }
      StepSafe(st, input, After(script, k));
    }
  }

  ghost predicate TidyAt(states: seq<State>, script: seq<Input>, k: nat)
    requires k < |states| && k <= |script|
  {
    Tidy(states[k], After(script, k), {})
  }

  lemma StartTidy(states: seq<State>, inputs: seq<Input>, script: seq<Input>)
    requires Run(states, inputs)
    ensures TidyAt(states, script, 0)
  {
    InitTidy();
    assert After(script, 0) == Past({}, {}, {});
  }

  lemma RunNext(states: seq<State>, inputs: seq<Input>, script: seq<Input>, k: nat)
    requires Run(states, inputs) && k < |inputs| && inputs <= script && ReadsOnce(script)
    ensures TidyAt(states, script, k) ==> TidyAt(states, script, k + 1)
  {
    PrefixAt(inputs, script, k);
    StepTaken(states, inputs, k);
    RunKeeps(states, inputs, k);
    NextTidy(states[k], inputs[k], states[k + 1], script, k);
  }

  lemma {:induction false} Climb(states: seq<State>, script: seq<Input>, n: nat)
    requires n < |states| && n <= |script| && TidyAt(states, script, 0)
    requires forall k: nat | k < n :: TidyAt(states, script, k) ==> TidyAt(states, script, k + 1)
    ensures TidyAt(states, script, n)
  {
    if n > 0 {
      var k := n - 1;
      Climb(states, script, k);
      assert TidyAt(states, script, k) ==> TidyAt(states, script, k + 1);
    }
  }

  lemma RunTidy(states: seq<State>, inputs: seq<Input>, script: seq<Input>, n: nat)
    requires Run(states, inputs) && n <= |inputs| && inputs <= script && ReadsOnce(script)
    ensures TidyAt(states, script, n)
  {
    StartTidy(states, inputs, script);
    forall k: nat | k < n ensures TidyAt(states, script, k) ==> TidyAt(states, script, k + 1) {
      RunNext(states, inputs, script, k);
    }
    Climb(states, script, n);
  }

  /**
    * If a transaction that reads a variable never accesses it otherwise, no exception escapes: every
    * next step of a run returns normally.
    */
  lemma ReadsOnceNeverThrows(states: seq<State>, inputs: seq<Input>, input: Input)
    requires Run(states, inputs) && ReadsOnce(inputs + [input])
    requires WellFormed(states[|inputs|], input.req) && MeetsAll(states[|inputs|], input)
    ensures Step(states[|inputs|], input).Next?
  {
    var script, n := inputs + [input], |inputs|;
    RunTidy(states, inputs, script, n);
    RunKeeps(states, inputs, n);
    if input.req.Some? {
      ReadsOnceMayAccess(script, n);
    }
    StepSafe(states[n], input, After(script, n));
  }
}
