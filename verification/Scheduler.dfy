/**
  * `execute_instructions` (repcrec/transaction_manager/transaction_manager.cc:63-117). It is kept
  * outside the manager's class because the requests that it runs use that class.
  */
module Scheduler {
  import opened Base
  import opened Model
  import opened Execution
  import opened Graph
  import opened Invariant
  import opened Preservation
  import opened Traces
  import opened Deadlocks
  import opened TransactionManagerObject
  import opened RequestObjects

  // ----- Deadlocks -----

  lemma OneYoungest(st: State, t: Tid)
    requires Ages(st) && Youngest(st.live, t)
    ensures t == PickYoungest(st.live)
  {
  }

  /** Aborts the first transaction of the ordered set, which is not empty. */
  method AbortFirst(tm: TransactionManager)
    requires tm.Valid() && Waits(tm.View()) && Ages(tm.View()) && HasCycle(tm.View().wait)
    modifies tm`transactions, tm`transactionsSet, tm`live, tm`blockedQueue, tm.lm, tm.sm`reps, tm.sm.Variables()
    ensures tm.Valid() && old(tm.live) != map[]
    ensures tm.View() == Abort(old(tm.View()), {PickYoungest(old(tm.live))})
    ensures tm.transactions.Values <= old(tm.transactions.Values) && |tm.live| < |old(tm.live)|
  {
    CycleMeansLive(tm.View());
    assert tm.transactionsSet != [] by {
      var u :| u in tm.live;
      assert Known(u);
    }
    var t := tm.First();
    OneYoungest(tm.View(), t);
    tm.AbortTransaction(t);
    assert tm.live == old(tm.live) - {t};
  }

  method Detect(tm: TransactionManager) returns (found: bool)
    requires tm.Valid()
    modifies tm.lm`waitForGraph
    ensures tm.Valid() && tm.View() == old(tm.View()) && (found <==> HasCycle(tm.View().wait))
  {
    found := tm.lm.DetectDeadlock();
  }

  lemma ResolveStep(st: State)
    requires Inv(st) && HasCycle(st.wait) && st.live != map[]
    ensures Inv(Abort(st, {PickYoungest(st.live)}))
    ensures Resolve(st) == Resolve(Abort(st, {PickYoungest(st.live)}))
  {
    AbortKeeps(st, {PickYoungest(st.live)}, {});
  }

  method ResolveDeadlocks(tm: TransactionManager)
    requires tm.Valid() && Inv(tm.View())
    modifies tm`transactions, tm`transactionsSet, tm`live, tm`blockedQueue, tm.lm, tm.sm`reps, tm.sm.Variables()
    ensures tm.Valid() && Inv(tm.View()) && Resolve(old(tm.View())) == Next(tm.View())
    ensures tm.transactions.Values <= old(tm.transactions.Values)
  {
    ghost var st := tm.View();
    var found := Detect(tm);
    while found
      invariant tm.Valid() && (found <==> HasCycle(tm.View().wait))
      invariant Inv(tm.View()) && Resolve(tm.View()) == Resolve(st)
      invariant tm.transactions.Values <= old(tm.transactions.Values)
      decreases |tm.live|, found
    {
      CycleMeansLive(tm.View());
      ResolveStep(tm.View());
      AbortFirst(tm);
      found := Detect(tm);
    }
  }

  // ----- The blocked queue -----

  /** The keys of the blocked queue, in whatever order the iteration meets them. */
  method KeysInSomeOrder(m: map<Tid, seq<Request>>) returns (order: seq<Tid>)
    ensures Distinct(order) && (set t | t in order) == m.Keys
  {
    order := [];
    var todo := m.Keys;
    while todo != {}
      invariant Distinct(order) && todo <= m.Keys && forall t :: t in order <==> t in m && t !in todo
      decreases |todo|
    {
      var t :| t in todo;
      order, todo := order + [t], todo - {t};
    }
  }

  method RunAll(tm: TransactionManager, rs: seq<Request>) returns (ok: bool)
    requires tm.Valid() && forall i | 0 <= i < |rs| :: !rs[i].Begin?
    modifies tm, tm.transactions.Values, tm.lm, tm.sm, tm.sm.Sites(), tm.sm.Variables()
    ensures tm.Valid() && ExecAll(old(tm.View()), rs) == Result(ok, tm.View())
    ensures fresh(tm.transactions.Values - old(tm.transactions.Values))
  {
    var i := 0;
    while i < |rs|
      invariant 0 <= i <= |rs| && tm.Valid()
      invariant ExecAll(old(tm.View()), rs) == ExecAll(tm.View(), rs[i..])
      invariant fresh(tm.transactions.Values - old(tm.transactions.Values))
    {
      ok := ExecRequest(tm, rs[i]);
      if !ok {
        return;
      }
      i := i + 1;
    }
    ok := true;
  }

  /** What the drain needs to know of an entry, before and after. */
  lemma EntryKeeps(st: State, t: Tid, done: set<Tid>)
    requires InvWhile(st, done) && t in st.queue && t !in done
    ensures forall i | 0 <= i < |st.queue[t]| :: !st.queue[t][i].Begin?
    ensures ExecAll(st, st.queue[t]).Next? ==> InvWhile(ExecAll(st, st.queue[t]).st, done + {t})
  {
    EntryIsBatch(st, t, done);
    DrainingMore(st, t, done);
    var ms, es := ExecAllTrace(st, t, st.queue[t], done + {t}, None);
    if ExecAll(st, st.queue[t]).Next? {
      assert ms[|ms| - 1] == Moment(ExecAll(st, st.queue[t]).st, done + {t}, None);
    }
  }

  method IsRunnable(tm: TransactionManager, t: Tid) returns (runnable: bool)
    ensures runnable <==> Runnable(tm.View(), t)
  {
    tm.lm.QueriesReadEdges(t);
    runnable := t in tm.blockedQueue && !tm.lm.IsWaitingForLock(t) && !tm.IsTransactionWaitingForSite(t);
  }

  /** One turn of the loop over the queue, `rest` being the keys still to come. */
  method DrainOne(tm: TransactionManager, t: Tid, finished0: set<Tid>, ghost rest: seq<Tid>)
    returns (ok: bool, finished: set<Tid>)
    requires tm.Valid() && InvWhile(tm.View(), finished0) && t !in finished0
    modifies tm, tm.transactions.Values, tm.lm, tm.sm, tm.sm.Sites(), tm.sm.Variables()
    ensures tm.Valid() && fresh(tm.transactions.Values - old(tm.transactions.Values))
    ensures Drain(old(tm.View()), [t] + rest, finished0) == if ok then Drain(tm.View(), rest, finished) else Throws
    ensures ok ==> InvWhile(tm.View(), finished) && finished <= finished0 + {t}
  {
    assert ([t] + rest)[1..] == rest;
    ok, finished := true, finished0;
    var runnable := IsRunnable(tm, t);
    if runnable {
      ok := RunEntry(tm, t, finished0);
      finished := finished + {t};
    }
  }

  method RunEntry(tm: TransactionManager, t: Tid, ghost finished: set<Tid>) returns (ok: bool)
    requires tm.Valid() && InvWhile(tm.View(), finished) && t in tm.blockedQueue && t !in finished
    modifies tm, tm.transactions.Values, tm.lm, tm.sm, tm.sm.Sites(), tm.sm.Variables()
    ensures tm.Valid() && fresh(tm.transactions.Values - old(tm.transactions.Values))
    ensures ExecAll(old(tm.View()), old(tm.blockedQueue[t])) == Result(ok, tm.View())
    ensures ok ==> InvWhile(tm.View(), finished + {t})
  {
    EntryKeeps(tm.View(), t, finished);
    ok := RunAll(tm, tm.blockedQueue[t]);
  }

  /** The loop over the queue, and the removal of the entries that it has run. */
  method DrainQueue(tm: TransactionManager, order: seq<Tid>) returns (ok: bool)
    requires tm.Valid() && Inv(tm.View()) && Distinct(order)
    modifies tm, tm.transactions.Values, tm.lm, tm.sm, tm.sm.Sites(), tm.sm.Variables()
    ensures tm.Valid() && Drain(old(tm.View()), order, {}) == Result(ok, tm.View())
    ensures fresh(tm.transactions.Values - old(tm.transactions.Values))
  {
    ghost var st := tm.View();
    var finished: set<Tid> := {};
    var i := 0;
    while i < |order|
      invariant 0 <= i <= |order| && tm.Valid() && InvWhile(tm.View(), finished)
      invariant forall j | i <= j < |order| :: order[j] !in finished
      invariant Drain(st, order, {}) == Drain(tm.View(), order[i..], finished)
      invariant fresh(tm.transactions.Values - old(tm.transactions.Values))
    {
      assert order[i..] == [order[i]] + order[i + 1..];
      ok, finished := DrainOne(tm, order[i], finished, order[i + 1..]);
      if !ok {
        return;
      }
      i := i + 1;
    }
    EraseFinished(tm, finished);
    ok := true;
  }

  method EraseFinished(tm: TransactionManager, finished: set<Tid>)
    requires tm.Valid()
    modifies tm`blockedQueue
    ensures tm.Valid() && Drain(old(tm.View()), [], finished) == Next(tm.View())
  {
    tm.blockedQueue := tm.blockedQueue - finished;
  }

  // ----- The incoming request -----

  /** History only. */
  method Note(tm: TransactionManager, req: Option<Request>)
    requires tm.Valid()
    modifies tm`now, tm`ended, tm`asked
    ensures tm.Valid() && tm.View() == Observe(old(tm.View()), req)
  {
    if req.Some? {
      var r := req.value;
      tm.now := r.ts;
      tm.ended := if r.End? then tm.ended + {r.t} else tm.ended;
      tm.asked := if r.Read? || r.Write? then tm.asked + {(r.t, r.v)} else tm.asked;
    }
  }

  method IsBlocked(tm: TransactionManager, r: Request) returns (blocked: bool)
    ensures blocked <==> Blocked(tm.View(), r)
  {
    if r.OfTran() {
      tm.lm.QueriesReadEdges(r.t);
      blocked := tm.lm.IsWaitingForLock(r.t) || r.t in tm.blockedQueue || tm.IsTransactionWaitingForSite(r.t);
    } else {
      blocked := false;
    }
  }

  lemma MayBeginFresh(st: State, r: Request)
    requires Inv(st) && Fresh(st, r)
    ensures MayBegin(st.live, r)
  {
  }

  /** Drops the request, defers it, or runs it; only after the last the queue is drained. */
  method ServeRequest(tm: TransactionManager, r: Request) returns (ok: bool, over: bool)
    requires tm.Valid() && MayBegin(tm.live, r)
    modifies tm, tm.transactions.Values, tm.lm, tm.sm, tm.sm.Sites(), tm.sm.Variables()
    ensures tm.Valid() && fresh(tm.transactions.Values - old(tm.transactions.Values))
    ensures Serve(old(tm.View()), Some(r)) == if over || !ok then Over(Result(ok, tm.View())) else ToDrain(tm.View())
  {
    if r.OfTran() && r.t !in tm.transactions && !r.Begin? {
      return true, true;
    }
    ok, over := ServeKnown(tm, r);
  }

  method ServeKnown(tm: TransactionManager, r: Request) returns (ok: bool, over: bool)
    requires tm.Valid() && MayBegin(tm.live, r) && !Dropped(tm.View(), r)
    modifies tm, tm.transactions.Values, tm.lm, tm.sm, tm.sm.Sites(), tm.sm.Variables()
    ensures tm.Valid() && fresh(tm.transactions.Values - old(tm.transactions.Values))
    ensures Serve(old(tm.View()), Some(r)) == if over || !ok then Over(Result(ok, tm.View())) else ToDrain(tm.View())
  {
    over := IsBlocked(tm, r);
    if over {
      ok := ServeBlocked(tm, r);
    } else {
      ok := ExecRequest(tm, r);
    }
  }

  /** A blocked read or write runs all the same; any other request joins the queue. */
  method ServeBlocked(tm: TransactionManager, r: Request) returns (ok: bool)
    requires tm.Valid() && r.OfTran() && MayBegin(tm.live, r)
    modifies tm, tm.transactions.Values, tm.lm, tm.sm, tm.sm.Sites(), tm.sm.Variables()
    ensures tm.Valid() && fresh(tm.transactions.Values - old(tm.transactions.Values))
    ensures Result(ok, tm.View()) ==
            if r.Read? || r.Write? then Exec(old(tm.View()), r) else Next(Enqueue(old(tm.View()), r))
  {
    if r.Read? || r.Write? {
      ok := ExecRequest(tm, r);
    } else {
      tm.AddRequestToBlockedQueue(r);
      ok := true;
    }
  }

  /** Serving a request keeps the invariant. */
  lemma ServeKeeps(st: State, req: Option<Request>)
    requires Inv(st) && (req.Some? ==> Fresh(st, req.value))
    ensures Serve(st, req).ToDrain? ==> Inv(Serve(st, req).st)
  {
    var ms, es := ServeTrace(st, req);
    if Serve(st, req).ToDrain? {
      assert ms[|ms| - 1] == Moment(Serve(st, req).st, {}, req);
    }
  }

  /** Observes the request and resolves the deadlocks. */
  method Prepare(tm: TransactionManager, req: Option<Request>)
    requires tm.Valid() && Inv(tm.View()) && WellFormed(tm.View(), req)
    modifies tm, tm.lm, tm.sm`reps, tm.sm.Variables()
    ensures tm.Valid() && tm.transactions.Values <= old(tm.transactions.Values)
    ensures Resolve(Observe(old(tm.View()), req)) == Next(tm.View())
    ensures ReadyToServe(tm.View(), req)
  {
    ghost var st := tm.View();
    ObserveKeeps(st, req);
    Note(tm, req);
    ResolveDeadlocks(tm);
    ResolvedReady(Observe(st, req), req, tm.View());
  }

  /** What serving the request needs to know. */
  ghost predicate ReadyToServe(st: State, req: Option<Request>) {
    && (req.Some? ==> MayBegin(st.live, req.value))
    && (Serve(st, req).ToDrain? ==> Inv(Serve(st, req).st))
  }

  lemma ResolvedReady(seen: State, req: Option<Request>, st: State)
    requires Inv(st) && (req.Some? ==> Fresh(seen, req.value)) && Resolve(seen) == Next(st)
    ensures ReadyToServe(st, req)
  {
    if req.Some? {
      ResolveFresh(seen, req.value);
      MayBeginFresh(st, req.value);
    }
    ServeKeeps(st, req);
  }

  ghost function AfterServing(served: Served, order: seq<Tid>): Outcome {
    match served
    case Over(out) => out
    case ToDrain(st) => Drain(st, order, {})
  }

  method ServeAndDrain(tm: TransactionManager, req: Option<Request>) returns (ok: bool, order: seq<Tid>)
    requires tm.Valid() && ReadyToServe(tm.View(), req)
    modifies tm, tm.transactions.Values, tm.lm, tm.sm, tm.sm.Sites(), tm.sm.Variables()
    ensures tm.Valid() && fresh(tm.transactions.Values - old(tm.transactions.Values))
    ensures AfterServing(Serve(old(tm.View()), req), order) == Result(ok, tm.View())
    ensures var served := Serve(old(tm.View()), req);
      served.ToDrain? ==> Distinct(order) && (set t | t in order) == served.st.queue.Keys
  {
    var over := false;
    order, ok := [], true;
    if req.Some? {
      ok, over := ServeRequest(tm, req.value);
    }
    if ok && !over {
      order := KeysInSomeOrder(tm.blockedQueue);
      ok := DrainQueue(tm, order);
    }
  }

  /**
    * One call of `execute_instructions` is one step of the model: it returns normally, or lets an
    * exception escape, exactly as the step does.
    */
  method ExecuteInstructions(tm: TransactionManager, req: Option<Request>) returns (ok: bool, order: seq<Tid>)
    requires tm.Valid() && Inv(tm.View()) && WellFormed(tm.View(), req)
    modifies tm, tm.transactions.Values, tm.lm, tm.sm, tm.sm.Sites(), tm.sm.Variables()
    ensures tm.Valid() && fresh(tm.transactions.Values - old(tm.transactions.Values))
    ensures MeetsAll(old(tm.View()), Input(req, order))
    ensures Step(old(tm.View()), Input(req, order)) == Result(ok, tm.View())
    ensures ok ==> Inv(tm.View())
  {
    ghost var st := tm.View();
    Prepare(tm, req);
    ghost var resolved := tm.View();
    ok, order := ServeAndDrain(tm, req);
    StepIs(st, Input(req, order), resolved, Result(ok, tm.View()));
  }

  lemma StepIs(st: State, input: Input, resolved: State, out: Outcome)
    requires Inv(st) && WellFormed(st, input.req) && Resolve(Observe(st, input.req)) == Next(resolved)
    requires var served := Serve(resolved, input.req);
      served.ToDrain? ==> Distinct(input.order) && (set t | t in input.order) == served.st.queue.Keys
    requires AfterServing(Serve(resolved, input.req), input.order) == out
    ensures MeetsAll(st, input) && Step(st, input) == out
    ensures out.Next? ==> Inv(out.st)
  {
    StepKeeps(st, input);
  }

  lemma StepKeeps(st: State, input: Input)
    requires Inv(st) && WellFormed(st, input.req) && MeetsAll(st, input)
    ensures Step(st, input).Next? ==> Inv(Step(st, input).st)
  {
    var ms, es := StepTrace(st, input);
    if Step(st, input).Next? {
      assert ms[|ms| - 1] == Moment(Step(st, input).st, {}, None);
    }
  }
}
