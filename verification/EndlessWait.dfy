/** A run after which the final loop never ends: a live transaction waits for two that are gone. */
module EndlessWait {
  import opened Base
  import opened Model
  import opened Execution
  import opened Scenarios
  import opened Waiters

  const T1: Tid := 1
  const T2: Tid := 2
  const T3: Tid := 3
  const X1: VarId := 1
  const X3: VarId := 3
  const COPY1: Replica := (2, 1)
  const COPY3: Replica := (4, 3)

  // T3 waits for T1; its next write runs at once, so that it waits for T2 too; then both end.

  const BEGIN1 := Begin(START + 1, T1, false)
  const BEGIN2 := Begin(START + 2, T2, false)
  const BEGIN3 := Begin(START + 3, T3, false)
  const WRITE1 := Write(START + 4, T1, X1, 11)
  const WRITE2 := Write(START + 5, T2, X3, 22)
  const WRITE3 := Write(START + 6, T3, X1, 33)
  const WRITE4 := Write(START + 7, T3, X3, 44)
  const END1 := End(START + 8, T1)
  const END2 := End(START + 9, T2)

  const IDLE1 := Tran(START + 1, false, map[], map[])
  const IDLE2 := Tran(START + 2, false, map[], map[])
  const IDLE3 := Tran(START + 3, false, map[], map[])
  const WROTE1 := Tran(START + 1, false, map[COPY1 := 11], map[])
  const WROTE2 := Tran(START + 2, false, map[COPY3 := 22], map[])

  ghost predicate OwnedBy(st: State, p: Replica, owner: Option<Tid>) {
    && p.0 in st.up && st.reps[p].excl == owner && st.reps[p].shared == {}
    && (owner.Some? ==> owner.value in st.locks && p.1 in st.locks[owner.value])
  }

  /** What the run needs to know of the state after instruction `n`. */
  ghost predicate Scene(st: State, n: nat, live: map<Tid, Tran>, wait: set<(Tid, Tid)>, queue: map<Tid, seq<Request>>,
                        owner1: Option<Tid>, owner3: Option<Tid>, ended: set<Tid>) {
    && st.now == START + n && st.live == live && st.wait == wait && st.queue == queue && st.siteWait == map[]
    && st.begun == (if n == 1 then {T1} else if n == 2 then {T1, T2} else {T1, T2, T3}) && st.ended == ended
    && OwnedBy(st, COPY1, owner1) && OwnedBy(st, COPY3, owner3)
  }

  lemma FirstBegin() returns (st': State)
    ensures Takes(Init(START), BEGIN1, [], st')
    ensures Scene(st', 1, map[T1 := IDLE1], {}, map[], None, None, {})
  {
    var st := Init(START);
    AllReplicas();
    BeginStep(st, BEGIN1, []);
    st' := BeginTran(Observe(st, Some(BEGIN1)), START + 1, T1, false);
    assert st.reps[COPY1] == InitRep(1) && st.reps[COPY3] == InitRep(3);
  }

  lemma SecondBegin(st: State) returns (st': State)
    requires Scene(st, 1, map[T1 := IDLE1], {}, map[], None, None, {})
    ensures Takes(st, BEGIN2, [], st')
    ensures Scene(st', 2, map[T1 := IDLE1, T2 := IDLE2], {}, map[], None, None, {})
  {
    BeginStep(st, BEGIN2, []);
    st' := BeginTran(Observe(st, Some(BEGIN2)), START + 2, T2, false);
  }

  lemma ThirdBegin(st: State) returns (st': State)
    requires Scene(st, 2, map[T1 := IDLE1, T2 := IDLE2], {}, map[], None, None, {})
    ensures Takes(st, BEGIN3, [], st')
    ensures Scene(st', 3, map[T1 := IDLE1, T2 := IDLE2, T3 := IDLE3], {}, map[], None, None, {})
  {
    BeginStep(st, BEGIN3, []);
    st' := BeginTran(Observe(st, Some(BEGIN3)), START + 3, T3, false);
  }

  /** A granted write; `q` is a replica of another variable. */
  lemma GrantStep(st: State, r: Request, q: Replica) returns (st': State)
    requires r.Write? && Odd(r.v) && r.t in st.live && Home(r.v) in st.up
    requires st.reps[(Home(r.v), r.v)].excl == None && st.reps[(Home(r.v), r.v)].shared == {}
    requires st.wait == {} && st.queue == map[] && st.siteWait == map[] && q.1 != r.v
    ensures MeetsAll(st, Input(Some(r), [])) && Step(st, Input(Some(r), [])) == Next(st')
    ensures Written(Observe(st, Some(r)), r, st') && st'.reps[q] == st.reps[q]
  {
    st' := WriteStep(st, r);
    WriteSpares(Observe(st, Some(r)), r, q);
  }

  lemma FirstGranted(st: State) returns (st': State)
    requires Scene(st, 3, map[T1 := IDLE1, T2 := IDLE2, T3 := IDLE3], {}, map[], None, None, {})
    ensures Takes(st, WRITE1, [], st')
    ensures Scene(st', 4, map[T1 := WROTE1, T2 := IDLE2, T3 := IDLE3], {}, map[], Some(T1), None, {})
  {
    st' := GrantStep(st, WRITE1, COPY3);
  }

  lemma SecondGranted(st: State) returns (st': State)
    requires Scene(st, 4, map[T1 := WROTE1, T2 := IDLE2, T3 := IDLE3], {}, map[], Some(T1), None, {})
    ensures Takes(st, WRITE2, [], st')
    ensures Scene(st', 5, map[T1 := WROTE1, T2 := WROTE2, T3 := IDLE3], {}, map[], Some(T1), Some(T2), {})
  {
    st' := GrantStep(st, WRITE2, COPY1);
  }

  lemma ThirdWaits(st: State) returns (st': State)
    requires Scene(st, 5, map[T1 := WROTE1, T2 := WROTE2, T3 := IDLE3], {}, map[], Some(T1), Some(T2), {})
    ensures Takes(st, WRITE3, [T3], st')
    ensures Scene(st', 6, map[T1 := WROTE1, T2 := WROTE2, T3 := IDLE3], {(T3, T1)},
                  map[T3 := [WRITE3]], Some(T1), Some(T2), {})
  {
    var r := WRITE3;
    var seen := Observe(st, Some(r));
    WriteHeld(seen, r, T1);
    st' := Enqueue(seen.(wait := seen.wait + {(T3, T1)}), r);
    assert (T3, T1) in st'.wait && st'.wait == {(T3, T1)};
    QuietStep(st, r, [T3], st');
  }

  const QUEUE: seq<Request> := [WRITE3, WRITE4]
  const EDGES: set<(Tid, Tid)> := {(T3, T1), (T3, T2)}

  lemma ThirdWaitsForTwo(st: State) returns (st': State)
    requires Scene(st, 6, map[T1 := WROTE1, T2 := WROTE2, T3 := IDLE3], {(T3, T1)},
                   map[T3 := [WRITE3]], Some(T1), Some(T2), {})
    ensures Takes(st, WRITE4, [], st')
    ensures Scene(st', 7, map[T1 := WROTE1, T2 := WROTE2, T3 := IDLE3], EDGES, map[T3 := QUEUE], Some(T1), Some(T2), {})
  {
    var r := WRITE4;
    var seen := Observe(st, Some(r));
    assert (T3, T1) in st.wait;
    WriteHeld(seen, r, T2);
    st' := Enqueue(seen.(wait := seen.wait + {(T3, T2)}), r);
    BlockedStep(st, r, st');
    var q := [WRITE3];
    assert q[1..] == [] && InsertByTime([], r) == [r];
    assert [q[0]] + [r] == QUEUE;
    assert st'.wait == EDGES;
  }

  /** A commit of one write whose waiters all wait for somebody else too; `q` is a replica it does not touch. */
  lemma EndSpares(st: State, t: Tid, p: Replica, val: int, time: int, q: Replica) returns (st': State)
    requires t in st.live && st.live[t].writes == map[p := val] && st.live[t].history == map[] && p.0 in st.up
    requires t in st.locks && p.1 in st.locks[t] && Hosts(p.0, p.1)
    requires st.reps[p].excl == Some(t) && st.reps[p].shared == {}
    requires st.wait == EDGES && t != T3 && q != p && !Holds(st.reps[q], t)
    ensures EndTran(st, t, time) == st' && CommittedOne(st, t, p, val, time, st')
    ensures st'.wait == EDGES && st'.reps[q] == st.reps[q]
  {
    assert (T3, T1) in st.wait && (T3, T2) in st.wait;
    CommitSpares(st, t, time, q);
    st' := CommitOne(st, t, p, val, time);
  }

  lemma EndStep(st: State, r: Request, st': State)
    requires r.End? && r.t in st.live && r.t != T3 && st.queue.Keys == {T3} && st.siteWait == map[] && st.wait == EDGES
    requires EndTran(Observe(st, Some(r)), r.t, r.ts) == st' && st'.wait == EDGES && st'.queue.Keys == {T3}
    ensures MeetsAll(st, Input(Some(r), [T3])) && Step(st, Input(Some(r), [T3])) == Next(st')
  {
    assert (T3, T1) in st'.wait;
    QuietStep(st, r, [T3], st');
  }

  lemma FirstEnds(st: State) returns (st': State)
    requires Scene(st, 7, map[T1 := WROTE1, T2 := WROTE2, T3 := IDLE3], EDGES, map[T3 := QUEUE], Some(T1), Some(T2), {})
    ensures Takes(st, END1, [T3], st')
    ensures Scene(st', 8, map[T2 := WROTE2, T3 := IDLE3], EDGES, map[T3 := QUEUE], None, Some(T2), {T1})
  {
    st' := EndSpares(Observe(st, Some(END1)), T1, COPY1, 11, START + 8, COPY3);
    FirstEndsScene(st, st');
    EndStep(st, END1, st');
  }

  lemma FirstEndsScene(st: State, st': State)
    requires Scene(st, 7, map[T1 := WROTE1, T2 := WROTE2, T3 := IDLE3], EDGES, map[T3 := QUEUE], Some(T1), Some(T2), {})
    requires CommittedOne(Observe(st, Some(END1)), T1, COPY1, 11, START + 8, st')
    requires st'.wait == EDGES && st'.reps[COPY3] == st.reps[COPY3]
    ensures Scene(st', 8, map[T2 := WROTE2, T3 := IDLE3], EDGES, map[T3 := QUEUE], None, Some(T2), {T1})
  {
    assert st'.live == map[T2 := WROTE2, T3 := IDLE3];
  }

  lemma SecondEnds(st: State) returns (st': State)
    requires Scene(st, 8, map[T2 := WROTE2, T3 := IDLE3], EDGES, map[T3 := QUEUE], None, Some(T2), {T1})
    ensures Takes(st, END2, [T3], st')
    ensures Scene(st', 9, map[T3 := IDLE3], EDGES, map[T3 := QUEUE], None, None, {T1, T2})
  {
    st' := EndSpares(Observe(st, Some(END2)), T2, COPY3, 22, START + 9, COPY1);
    SecondEndsScene(st, st');
    EndStep(st, END2, st');
  }

  lemma SecondEndsScene(st: State, st': State)
    requires Scene(st, 8, map[T2 := WROTE2, T3 := IDLE3], EDGES, map[T3 := QUEUE], None, Some(T2), {T1})
    requires CommittedOne(Observe(st, Some(END2)), T2, COPY3, 22, START + 9, st')
    requires st'.wait == EDGES && st'.reps[COPY1] == st.reps[COPY1]
    ensures Scene(st', 9, map[T3 := IDLE3], EDGES, map[T3 := QUEUE], None, None, {T1, T2})
  {
    assert st'.live == map[T3 := IDLE3];
  }

  // ----- The run -----

  lemma Begins() returns (states: seq<State>, inputs: seq<Input>)
    ensures Run(states, inputs) && |inputs| == 2
    ensures Scene(states[2], 2, map[T1 := IDLE1, T2 := IDLE2], {}, map[], None, None, {})
  {
    var s1 := FirstBegin();
    states, inputs := Extend([Init(START)], [], BEGIN1, [], s1);
    var s2 := SecondBegin(s1);
    states, inputs := Extend(states, inputs, BEGIN2, [], s2);
  }

  lemma FirstWrite() returns (states: seq<State>, inputs: seq<Input>)
    ensures Run(states, inputs) && |inputs| == 4
    ensures Scene(states[4], 4, map[T1 := WROTE1, T2 := IDLE2, T3 := IDLE3], {}, map[], Some(T1), None, {})
  {
    states, inputs := Begins();
    var s3 := ThirdBegin(states[2]);
    states, inputs := Extend(states, inputs, BEGIN3, [], s3);
    var s4 := FirstGranted(s3);
    states, inputs := Extend(states, inputs, WRITE1, [], s4);
  }

  lemma Writes() returns (states: seq<State>, inputs: seq<Input>)
    ensures Run(states, inputs) && |inputs| == 7
    ensures Scene(states[7], 7, map[T1 := WROTE1, T2 := WROTE2, T3 := IDLE3], EDGES, map[T3 := QUEUE],
                  Some(T1), Some(T2), {})
  {
    states, inputs := FirstWrite();
    var s5 := SecondGranted(states[4]);
    var s6 := ThirdWaits(s5);
    var s7 := ThirdWaitsForTwo(s6);
    states, inputs := Extend(states, inputs, WRITE2, [], s5);
    states, inputs := Extend(states, inputs, WRITE3, [T3], s6);
    states, inputs := Extend(states, inputs, WRITE4, [], s7);
  }

  lemma Script9() returns (states: seq<State>, inputs: seq<Input>)
    ensures Run(states, inputs) && |inputs| == 9
    ensures Scene(states[9], 9, map[T3 := IDLE3], EDGES, map[T3 := QUEUE], None, None, {T1, T2})
  {
    states, inputs := Writes();
    var s8 := FirstEnds(states[7]);
    var s9 := SecondEnds(s8);
    states, inputs := Extend(states, inputs, END1, [T3], s8);
    states, inputs := Extend(states, inputs, END2, [T3], s9);
  }

  /** An idle round repeats itself as often as one likes. */
  lemma {:induction false} IdleRounds(states: seq<State>, inputs: seq<Input>, order: seq<Tid>, n: nat)
    returns (states': seq<State>, inputs': seq<Input>)
    requires Run(states, inputs) && MeetsAll(states[|inputs|], Input(None, order))
    requires Step(states[|inputs|], Input(None, order)) == Next(states[|inputs|])
    ensures Run(states', inputs') && |inputs'| == |inputs| + n && states <= states' && inputs <= inputs'
    ensures forall k | |inputs| <= k < |inputs'| :: inputs'[k].req == None
    ensures states'[|inputs'|] == states[|inputs|]
  {
    if n == 0 {
      states', inputs' := states, inputs;
    } else {
      var s1, i1 := IdleRounds(states, inputs, order, n - 1);
      states', inputs' := ExtendBy(s1, i1, Input(None, order), states[|inputs|]);
    }
  }

  lemma LastIsIdle(st: State)
    requires Scene(st, 9, map[T3 := IDLE3], EDGES, map[T3 := QUEUE], None, None, {T1, T2})
    ensures MeetsAll(st, Input(None, [T3])) && Step(st, Input(None, [T3])) == Next(st)
  {
    ShallowIsAcyclic(st.wait);
    assert (T3, T1) in st.wait;
    RoundIdle(st, [T3]);
  }

  /**
    * After nine instructions T3 alone is live. It waits for two transactions that are gone, and
    * however many rounds the final loop makes, its queue is not empty and nothing changes.
    */
  lemma LoopNeverEnds(n: nat) returns (states: seq<State>, inputs: seq<Input>)
    ensures Run(states, inputs) && |inputs| == 9 + n
    ensures forall k | 9 <= k < |inputs| :: inputs[k].req == None
    ensures states[|inputs|] == states[9]
    ensures states[9].live.Keys == {T3} && states[9].wait == {(T3, T1), (T3, T2)} && states[9].queue.Keys == {T3}
  {
    states, inputs := Script9();
    LastIsIdle(states[9]);
    states, inputs := IdleRounds(states, inputs, [T3], n);
  }
}
