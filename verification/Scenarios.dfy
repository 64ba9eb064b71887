/** Steps of concrete runs: begins, writes of odd variables, and commits of one write. */
module Scenarios {
  import opened Base
  import opened Model
  import opened Locking
  import opened Execution
  import opened Graph
  import opened BlockedQueue
  import opened Deadlocks

  /** No edge goes on from where another ends. */
  predicate Shallow(wait: set<(Tid, Tid)>) {
    forall e, f {:trigger e in wait, f in wait} | e in wait && f in wait :: e.1 != f.0
  }

  lemma ShallowIsAcyclic(wait: set<(Tid, Tid)>)
    requires Shallow(wait)
    ensures !HasCycle(wait)
  {
    forall p: seq<Tid> ensures !Cycle(wait, p) {
      var n := |p|;
      assert Walk(wait, p) && n >= 2 ==> (p[0], p[1]) in wait && (p[n - 2], p[n - 1]) in wait;
    }
  }

  /** A step that resolves no deadlock. */
  lemma DrainStep(st: State, r: Request, mid: State, order: seq<Tid>, st': State)
    requires Shallow(st.wait) && Serve(Observe(st, Some(r)), Some(r)) == ToDrain(mid)
    requires Distinct(order) && (set t | t in order) == mid.queue.Keys && Drain(mid, order, {}) == Next(st')
    ensures MeetsAll(st, Input(Some(r), order)) && Step(st, Input(Some(r), order)) == Next(st')
  {
    ShallowIsAcyclic(st.wait);
  }

  /** A step that resolves no deadlock and drains nothing. */
  lemma QuietStep(st: State, r: Request, order: seq<Tid>, st': State)
    requires Shallow(st.wait) && Serve(Observe(st, Some(r)), Some(r)) == ToDrain(st')
    requires Distinct(order) && (set t | t in order) == st'.queue.Keys
    requires forall t | t in order :: !Runnable(st', t)
    ensures MeetsAll(st, Input(Some(r), order)) && Step(st, Input(Some(r), order)) == Next(st')
  {
    DrainNobody(st', order, {});
    assert st'.(queue := st'.queue - {}) == st';
    DrainStep(st, r, st', order, st');
  }

  /** An End of a blocked transaction joins the queue. */
  lemma DeferStep(st: State, r: Request)
    requires Shallow(st.wait) && r.End? && r.t in st.live && Waiting(st.wait, r.t)
    ensures MeetsAll(st, Input(Some(r), []))
    ensures Step(st, Input(Some(r), [])) == Next(Enqueue(Observe(st, Some(r)), r))
  {
    ShallowIsAcyclic(st.wait);
  }

  /** A read or write of a blocked transaction runs at once, and nothing is drained. */
  lemma BlockedStep(st: State, r: Request, st': State)
    requires Shallow(st.wait) && (r.Read? || r.Write?) && r.t in st.live && Blocked(st, r)
    requires Exec(Observe(st, Some(r)), r) == Next(st')
    ensures MeetsAll(st, Input(Some(r), [])) && Step(st, Input(Some(r), [])) == Next(st')
  {
    ShallowIsAcyclic(st.wait);
  }

  lemma BeginStep(st: State, r: Request, order: seq<Tid>)
    requires r.Begin? && r.t !in st.queue && !Waiting(st.wait, r.t) && r.t !in st.siteWait && Shallow(st.wait)
    requires Distinct(order) && (set t | t in order) == st.queue.Keys
    requires forall t | t in order :: Waiting(st.wait, t)
    ensures MeetsAll(st, Input(Some(r), order))
    ensures Step(st, Input(Some(r), order)) == Next(BeginTran(Observe(st, Some(r)), r.ts, r.t, r.ro))
  {
    QuietStep(st, r, order, BeginTran(Observe(st, Some(r)), r.ts, r.t, r.ro));
  }

  /** A write of a free odd variable is granted at its home site. */
  predicate Written(st: State, r: Request, st': State)
    requires r.Write? && r.t in st.live
  {
    var p := (Home(r.v), r.v);
    && st'.reps[p] == st.reps[p].(excl := Some(r.t))
    && st'.live == st.live[r.t := st.live[r.t].(writes := st.live[r.t].writes[p := r.val])]
    && st'.locks == AddLock(st.locks, r.t, r.v)
    && st' == st.(reps := st'.reps, live := st'.live, locks := st'.locks)
  }

  lemma WriteFree(st: State, r: Request) returns (st': State)
    requires r.Write? && Odd(r.v) && r.t in st.live && Home(r.v) in st.up
    requires st.reps[(Home(r.v), r.v)].excl == None && st.reps[(Home(r.v), r.v)].shared == {}
    ensures Exec(st, r) == Next(st') && Written(st, r, st')
  {
    var p, sites := (Home(r.v), r.v), {Home(r.v)};
    assert Acquire(st, r.t, r.v) == LockStatus(AvailableToAssign, sites, {});
    var mid := Buffer(st, r.t, sites, r.v, r.val);
    st' := AssignWrite(mid, r.t, sites, r.v);
    assert mid.live[r.t].writes == st.live[r.t].writes[p := r.val];
    assert Home(r.v) in sites * st.up;
  }

  lemma WriteSpares(st: State, r: Request, q: Replica)
    requires r.Write? && Exec(st, r).Next? && q.1 != r.v
    ensures Exec(st, r).st.reps[q] == st.reps[q]
  {
  }

  /** A granted write as a step, with nothing to drain. */
  lemma WriteStep(st: State, r: Request) returns (st': State)
    requires r.Write? && Odd(r.v) && r.t in st.live && Home(r.v) in st.up
    requires st.reps[(Home(r.v), r.v)].excl == None && st.reps[(Home(r.v), r.v)].shared == {}
    requires st.wait == {} && st.queue == map[] && st.siteWait == map[]
    ensures MeetsAll(st, Input(Some(r), [])) && Step(st, Input(Some(r), [])) == Next(st')
    ensures Written(Observe(st, Some(r)), r, st') && Exec(Observe(st, Some(r)), r) == Next(st')
  {
    var seen := Observe(st, Some(r));
    st' := WriteFree(seen, r);
    QuietStep(st, r, [], st');
  }

  /** A write of an odd variable that another transaction owns waits for it. */
  lemma WriteHeld(st: State, r: Request, u: Tid)
    requires r.Write? && Odd(r.v) && Home(r.v) in st.up && u != r.t
    requires st.reps[(Home(r.v), r.v)].excl == Some(u) && st.reps[(Home(r.v), r.v)].shared == {}
    ensures Exec(st, r) == Next(Enqueue(st.(wait := st.wait + {(r.t, u)}), r))
  {
    var a := Acquire(st, r.t, r.v);
    assert a.status == NeedToWait && a.owners == {u};
    assert (set w | w in a.owners :: (r.t, w)) == {(r.t, u)};
  }

  /** The commit of a transaction that has written one replica and read nothing. */
  predicate CommittedOne(st: State, t: Tid, p: Replica, val: int, time: int, st': State)
    requires t in st.live
  {
    && st'.reps[p] == Rep(val, st.reps[p].versions[time := val], None, {})
    && st'.live == st.live - {t} && st'.up == st.up && st'.queue == st.queue && st'.siteWait == st.siteWait
    && st'.begun == st.begun && st'.ended == st.ended && st'.now == st.now && st'.locks == st.locks - {t}
    && st'.log == st.log + [Commit(t, st.live[t].ro, time, map[], map[p := val])]
    && ((forall e | e in st.wait :: e.1 == t) ==> st'.wait == {})
  }

  lemma CommitOne(st: State, t: Tid, p: Replica, val: int, time: int) returns (st': State)
    requires t in st.live && st.live[t].writes == map[p := val] && st.live[t].history == map[] && p.0 in st.up
    requires t in st.locks && p.1 in st.locks[t] && Hosts(p.0, p.1)
    requires st.reps[p].excl == Some(t) && st.reps[p].shared == {}
    ensures EndTran(st, t, time) == st' && CommittedOne(st, t, p, val, time, st')
  {
    st' := EndTran(st, t, time);
    assert Validates(st, st.live[t]);
    assert st'.reps[p].shared == {};
  }

  /** What a commit leaves alone. */
  lemma CommitSpares(st: State, t: Tid, time: int, q: Replica)
    requires t in st.live && Validates(st, st.live[t])
    ensures (forall e | e in st.wait :: e.0 != t && HasOtherTarget(st.wait, e.0, t)) ==>
            EndTran(st, t, time).wait == st.wait
    ensures q !in st.live[t].writes && !Holds(st.reps[q], t) ==> EndTran(st, t, time).reps[q] == st.reps[q]
  {
    var st' := EndTran(st, t, time);
    if q !in st.live[t].writes && !Holds(st.reps[q], t) {
      assert st'.reps[q].shared == st.reps[q].shared;
    }
  }

  /** The instruction `r` is a step from `st` to `st'`. */
  ghost predicate Takes(st: State, r: Request, order: seq<Tid>, st': State) {
    && WellFormed(st, Some(r)) && MeetsAll(st, Input(Some(r), order))
    && Step(st, Input(Some(r), order)) == Next(st')
  }

  /** One more step of a run. */
  lemma ExtendBy(states: seq<State>, inputs: seq<Input>, input: Input, st': State)
    returns (states': seq<State>, inputs': seq<Input>)
    requires Run(states, inputs)
    requires var st := states[|inputs|];
      WellFormed(st, input.req) && MeetsAll(st, input) && Step(st, input) == Next(st')
    ensures Run(states', inputs') && states' == states + [st'] && inputs' == inputs + [input]
  {
    states', inputs' := states + [st'], inputs + [input];
    forall i {:trigger inputs'[i]} | 0 <= i < |inputs'|
      ensures WellFormed(states'[i], inputs'[i].req) && MeetsAll(states'[i], inputs'[i])
      ensures Step(states'[i], inputs'[i]) == Next(states'[i + 1])
    {
      if i < |inputs| {
        assert inputs'[i] == inputs[i] && states'[i] == states[i] && states'[i + 1] == states[i + 1];
      }
    }
  }

  lemma Extend(states: seq<State>, inputs: seq<Input>, r: Request, order: seq<Tid>, st': State)
    returns (states': seq<State>, inputs': seq<Input>)
    requires Run(states, inputs) && Takes(states[|inputs|], r, order, st')
    ensures Run(states', inputs') && states' == states + [st'] && inputs' == inputs + [Input(Some(r), order)]
  {
    states', inputs' := ExtendBy(states, inputs, Input(Some(r), order), st');
  }

  // ----- One transaction alone -----

  const SOLE: Tid := 1
  const IDLE := Tran(START + 1, false, map[], map[])

  /** The transaction alone is live, nobody waits, and every site is up and readable. */
  ghost predicate Alone(st: State, n: nat) {
    && st.now == START + n && st.wait == {} && st.queue == map[] && st.siteWait == map[]
    && SOLE in st.live && !st.live[SOLE].ro && SOLE in st.begun && SOLE !in st.ended
    && (forall s: SiteId :: s in st.up) && (forall p: Replica :: p in st.readable)
  }

  lemma BeginAlone() returns (st': State)
    ensures Takes(Init(START), Begin(START + 1, SOLE, false), [], st') && Alone(st', 1)
    ensures st'.live == map[SOLE := IDLE] && st'.log == []
    ensures forall p: Replica :: st'.reps[p] == InitRep(p.1)
  {
    var st, r := Init(START), Begin(START + 1, SOLE, false);
    AllReplicas();
    BeginStep(st, r, []);
    st' := BeginTran(Observe(st, Some(r)), r.ts, SOLE, false);
  }

  /** A site fails at which nobody has written. */
  lemma SiteFails(st: State, ts: int, s: SiteId) returns (st': State)
    requires st.live == map[SOLE := IDLE] && st.wait == {} && st.queue == map[] && st.siteWait == map[] && st.now < ts
    ensures Takes(st, Fail(ts, s), [], st') && st' == TakeDown(Observe(st, Some(Fail(ts, s))), s)
  {
    var r := Fail(ts, s);
    var seen := Observe(st, Some(r));
    st' := TakeDown(seen, s);
    assert Writers(seen, s) == {};
    AbortNobody(st');
    QuietStep(st, r, [], st');
  }

  /** The End of the only transaction, when nothing that it has read is unreadable. */
  lemma EndAlone(st: State, r: Request) returns (st': State)
    requires r.End? && r.t == SOLE && st.wait == {} && st.queue == map[] && st.siteWait == map[]
    requires SOLE in st.live && Validates(st, st.live[SOLE])
    ensures MeetsAll(st, Input(Some(r), [])) && Step(st, Input(Some(r), [])) == Next(st')
    ensures st' == EndTran(Observe(st, Some(r)), SOLE, r.ts)
  {
    st' := EndTran(Observe(st, Some(r)), SOLE, r.ts);
    QuietStep(st, r, [], st');
  }

  /** Two instructions more, with nothing to drain. */
  lemma ExtendTwice(states: seq<State>, inputs: seq<Input>, r: Request, s: State, r': Request, s': State)
    returns (states': seq<State>, inputs': seq<Input>)
    requires Run(states, inputs) && Takes(states[|inputs|], r, [], s) && Takes(s, r', [], s')
    ensures Run(states', inputs') && states' == states + [s, s']
    ensures inputs' == inputs + [Input(Some(r), []), Input(Some(r'), [])]
  {
    states', inputs' := Extend(states, inputs, r, [], s);
    states', inputs' := Extend(states', inputs', r', [], s');
    assert states + [s] + [s'] == states + [s, s'];
    assert inputs + [Input(Some(r), [])] + [Input(Some(r'), [])] == inputs + [Input(Some(r), []), Input(Some(r'), [])];
  }
}
