/** A run in which a transaction commits without a write that it has issued: the drain erased the request. */
module LostWrite {
  import opened Base
  import opened Model
  import opened Execution
  import opened Scenarios

  const T1: Tid := 1
  const T2: Tid := 2
  const T3: Tid := 3
  const X1: VarId := 1
  const COPY: Replica := (2, 1)

  /** T2 and T3 wait for T1. When it ends, the drain runs T2, T3 blocks again behind it, and both entries go. */
  function Script(): seq<Request> {
    [Begin(START + 1, T1, false), Begin(START + 2, T2, false), Begin(START + 3, T3, false),
     Write(START + 4, T1, X1, 11), Write(START + 5, T2, X1, 22), Write(START + 6, T3, X1, 33),
     End(START + 7, T1), End(START + 8, T3), End(START + 9, T2)]
  }

  const IDLE1 := Tran(START + 1, false, map[], map[])
  const IDLE2 := Tran(START + 2, false, map[], map[])
  const IDLE3 := Tran(START + 3, false, map[], map[])
  const WROTE1 := Tran(START + 1, false, map[COPY := 11], map[])
  const WROTE2 := Tran(START + 2, false, map[COPY := 22], map[])

  const COMMIT1 := Commit(T1, false, START + 7, map[], map[COPY := 11])
  const COMMIT2 := Commit(T2, false, START + 9, map[], map[COPY := 22])
  const COMMIT3 := Commit(T3, false, START + 8, map[], map[])

  /** What the run needs to know of the state after instruction `n`. */
  ghost predicate Scene(st: State, n: nat, live: map<Tid, Tran>, wait: set<(Tid, Tid)>, queue: map<Tid, seq<Request>>,
                        owner: Option<Tid>, ended: set<Tid>, log: seq<Commit>) {
    && st.now == START + n && st.live == live && st.wait == wait && st.queue == queue && st.siteWait == map[]
    && live.Keys <= st.begun && st.begun <= {T1, T2, T3} && (n < 3 ==> st.begun == live.Keys)
    && st.ended == ended && COPY.0 in st.up && st.log == log
    && st.reps[COPY].excl == owner && st.reps[COPY].shared == {}
    && (owner.Some? ==> owner.value in st.locks && X1 in st.locks[owner.value])
  }

  lemma FirstBegin() returns (st': State)
    ensures Takes(Init(START), Script()[0], [], st')
    ensures Scene(st', 1, map[T1 := IDLE1], {}, map[], None, {}, [])
  {
    var st := Init(START);
    AllReplicas();
    BeginStep(st, Script()[0], []);
    st' := BeginTran(Observe(st, Some(Script()[0])), START + 1, T1, false);
    assert st.reps[COPY] == InitRep(1);
  }

  lemma NextBegin(st: State, n: nat, live: map<Tid, Tran>) returns (st': State)
    requires 1 <= n < 3 && Scene(st, n, live, {}, map[], None, {}, []) && Script()[n].t !in live
    ensures Takes(st, Script()[n], [], st')
    ensures Scene(st', n + 1, live[Script()[n].t := Tran(START + n + 1, false, map[], map[])], {}, map[], None, {}, [])
  {
    var r := Script()[n];
    BeginStep(st, r, []);
    st' := BeginTran(Observe(st, Some(r)), r.ts, r.t, r.ro);
  }

  lemma Granted(st: State) returns (st': State)
    requires Scene(st, 3, map[T1 := IDLE1, T2 := IDLE2, T3 := IDLE3], {}, map[], None, {}, [])
    ensures Takes(st, Script()[3], [], st')
    ensures Scene(st', 4, map[T1 := WROTE1, T2 := IDLE2, T3 := IDLE3], {}, map[], Some(T1), {}, [])
  {
    st' := WriteStep(st, Script()[3]);
    GrantedScene(st, st');
  }

  lemma GrantedScene(st: State, st': State)
    requires Scene(st, 3, map[T1 := IDLE1, T2 := IDLE2, T3 := IDLE3], {}, map[], None, {}, [])
    requires Written(Observe(st, Some(Script()[3])), Script()[3], st')
    ensures Scene(st', 4, map[T1 := WROTE1, T2 := IDLE2, T3 := IDLE3], {}, map[], Some(T1), {}, [])
  {
  }

  lemma SecondWaits(st: State) returns (st': State)
    requires Scene(st, 4, map[T1 := WROTE1, T2 := IDLE2, T3 := IDLE3], {}, map[], Some(T1), {}, [])
    ensures Takes(st, Script()[4], [T2], st')
    ensures Scene(st', 5, map[T1 := WROTE1, T2 := IDLE2, T3 := IDLE3], {(T2, T1)}, map[T2 := [Script()[4]]],
                  Some(T1), {}, [])
  {
    var r := Script()[4];
    var seen := Observe(st, Some(r));
    WriteHeld(seen, r, T1);
    st' := Enqueue(seen.(wait := seen.wait + {(T2, T1)}), r);
    assert (T2, T1) in st'.wait && st'.wait == {(T2, T1)};
    QuietStep(st, r, [T2], st');
  }

  lemma ThirdWaits(st: State) returns (st': State)
    requires Scene(st, 5, map[T1 := WROTE1, T2 := IDLE2, T3 := IDLE3], {(T2, T1)}, map[T2 := [Script()[4]]],
                   Some(T1), {}, [])
    ensures Takes(st, Script()[5], [T2, T3], st')
    ensures Scene(st', 6, map[T1 := WROTE1, T2 := IDLE2, T3 := IDLE3], {(T2, T1), (T3, T1)},
                  map[T2 := [Script()[4]], T3 := [Script()[5]]], Some(T1), {}, [])
  {
    var r := Script()[5];
    var seen := Observe(st, Some(r));
    WriteHeld(seen, r, T1);
    st' := Enqueue(seen.(wait := seen.wait + {(T3, T1)}), r);
    assert (T2, T1) in st'.wait && (T3, T1) in st'.wait && st'.wait == {(T2, T1), (T3, T1)};
    assert (set t | t in [T2, T3]) == {T2, T3};
    QuietStep(st, r, [T2, T3], st');
  }

  /** The state in which the drain finds both waiting writes. */
  ghost predicate Released(st: State) {
    Scene(st, 7, map[T2 := IDLE2, T3 := IDLE3], {}, map[T2 := [Script()[4]], T3 := [Script()[5]]], None,
          {T1}, [COMMIT1])
  }

  lemma FirstCommits(st: State) returns (mid: State)
    requires Scene(st, 6, map[T1 := WROTE1, T2 := IDLE2, T3 := IDLE3], {(T2, T1), (T3, T1)},
                   map[T2 := [Script()[4]], T3 := [Script()[5]]], Some(T1), {}, [])
    ensures Serve(Observe(st, Some(Script()[6])), Some(Script()[6])) == ToDrain(mid) && Released(mid)
  {
    var seen := Observe(st, Some(Script()[6]));
    mid := CommitOne(seen, T1, COPY, 11, START + 7);
    assert mid.live == map[T2 := IDLE2, T3 := IDLE3];
  }

  lemma SecondRuns(st: State) returns (st': State)
    requires Released(st)
    ensures Runnable(st, T2) && ExecAll(st, st.queue[T2]) == Next(st')
    ensures Scene(st', 7, map[T2 := WROTE2, T3 := IDLE3], {}, map[T2 := [Script()[4]], T3 := [Script()[5]]],
                  Some(T2), {T1}, [COMMIT1])
  {
    st' := WriteFree(st, Script()[4]);
    assert ExecAll(st', [Script()[4]][1..]) == Next(st');
  }

  lemma ThirdBlocksAgain(st: State) returns (st': State)
    requires Scene(st, 7, map[T2 := WROTE2, T3 := IDLE3], {}, map[T2 := [Script()[4]], T3 := [Script()[5]]],
                   Some(T2), {T1}, [COMMIT1])
    ensures Runnable(st, T3) && ExecAll(st, st.queue[T3]) == Next(st')
    ensures Scene(st', 7, map[T2 := WROTE2, T3 := IDLE3], {(T3, T2)}, map[T2 := [Script()[4]], T3 := [Script()[5]]],
                  Some(T2), {T1}, [COMMIT1])
  {
    var r := Script()[5];
    WriteHeld(st, r, T2);
    st' := Enqueue(st.(wait := st.wait + {(T3, T2)}), r);
    assert InsertByTime([r], r) == [r];
    assert ExecAll(st', [r][1..]) == Next(st');
  }

  /** The drain erases both entries, although the write of T3 has not run. */
  lemma BothErased(st: State) returns (st': State)
    requires Released(st)
    ensures Drain(st, [T2, T3], {}) == Next(st')
    ensures Scene(st', 7, map[T2 := WROTE2, T3 := IDLE3], {(T3, T2)}, map[], Some(T2), {T1}, [COMMIT1])
  {
    var one := SecondRuns(st);
    var two := ThirdBlocksAgain(one);
    st' := two.(queue := two.queue - {T2, T3});
    assert [T2, T3][1..] == [T3] && [T3][1..] == [];
    assert {} + {T2} + {T3} == {T2, T3};
    assert Drain(two, [], {} + {T2} + {T3}) == Next(st');
    assert Drain(one, [T3], {} + {T2}) == Next(st');
  }

  lemma FirstEnds(st: State) returns (st': State)
    requires Scene(st, 6, map[T1 := WROTE1, T2 := IDLE2, T3 := IDLE3], {(T2, T1), (T3, T1)},
                   map[T2 := [Script()[4]], T3 := [Script()[5]]], Some(T1), {}, [])
    ensures Takes(st, Script()[6], [T2, T3], st')
    ensures Scene(st', 7, map[T2 := WROTE2, T3 := IDLE3], {(T3, T2)}, map[], Some(T2), {T1}, [COMMIT1])
  {
    var mid := FirstCommits(st);
    st' := BothErased(mid);
    assert (set t | t in [T2, T3]) == {T2, T3};
    DrainStep(st, Script()[6], mid, [T2, T3], st');
  }

  lemma ThirdEnds(st: State) returns (st': State)
    requires Scene(st, 7, map[T2 := WROTE2, T3 := IDLE3], {(T3, T2)}, map[], Some(T2), {T1}, [COMMIT1])
    ensures Takes(st, Script()[7], [], st')
    ensures Scene(st', 8, map[T2 := WROTE2, T3 := IDLE3], {(T3, T2)}, map[T3 := [Script()[7]]],
                  Some(T2), {T1, T3}, [COMMIT1])
  {
    var r := Script()[7];
    assert (T3, T2) in st.wait;
    DeferStep(st, r);
    st' := Enqueue(Observe(st, Some(r)), r);
    assert InsertByTime([], r) == [r];
  }

  /** The state in which the drain finds the End of T3. */
  ghost predicate LastDrain(st: State) {
    && st.wait == {} && st.queue == map[T3 := [Script()[7]]] && st.siteWait == map[]
    && T3 in st.live && st.live[T3] == IDLE3 && st.log == [COMMIT1, COMMIT2] && st.reps[COPY].value == 22
  }

  lemma SecondCommits(st: State) returns (mid: State)
    requires Scene(st, 8, map[T2 := WROTE2, T3 := IDLE3], {(T3, T2)}, map[T3 := [Script()[7]]],
                   Some(T2), {T1, T3}, [COMMIT1])
    ensures Serve(Observe(st, Some(Script()[8])), Some(Script()[8])) == ToDrain(mid) && LastDrain(mid)
  {
    var seen := Observe(st, Some(Script()[8]));
    mid := CommitOne(seen, T2, COPY, 22, START + 9);
    assert [COMMIT1] + [COMMIT2] == [COMMIT1, COMMIT2];
  }

  lemma ThirdCommits(st: State) returns (st': State)
    requires LastDrain(st)
    ensures Drain(st, [T3], {}) == Next(st')
    ensures st'.log == [COMMIT1, COMMIT2, COMMIT3] && st'.queue == map[] && st'.reps[COPY].value == 22
  {
    var done := EndTran(st, T3, START + 8);
    st' := done.(queue := done.queue - {T3});
    assert [Script()[7]][1..] == [] && [T3][1..] == [];
    assert ExecAll(st, st.queue[T3]) == Next(done);
    assert Drain(done, [], {} + {T3}) == Next(st');
    assert [COMMIT1, COMMIT2] + [COMMIT3] == [COMMIT1, COMMIT2, COMMIT3];
  }

  lemma SecondEnds(st: State) returns (st': State)
    requires Scene(st, 8, map[T2 := WROTE2, T3 := IDLE3], {(T3, T2)}, map[T3 := [Script()[7]]],
                   Some(T2), {T1, T3}, [COMMIT1])
    ensures Takes(st, Script()[8], [T3], st')
    ensures st'.log == [COMMIT1, COMMIT2, COMMIT3] && st'.queue == map[] && st'.reps[COPY].value == 22
  {
    var mid := SecondCommits(st);
    st' := ThirdCommits(mid);
    DrainStep(st, Script()[8], mid, [T3], st');
  }

  // ----- The run -----

  lemma Begins() returns (states: seq<State>, inputs: seq<Input>)
    ensures Run(states, inputs) && |inputs| == 2
    ensures Scene(states[2], 2, map[T1 := IDLE1, T2 := IDLE2], {}, map[], None, {}, [])
  {
    var s1 := FirstBegin();
    states, inputs := Extend([Init(START)], [], Script()[0], [], s1);
    var s2 := NextBegin(s1, 1, map[T1 := IDLE1]);
    states, inputs := Extend(states, inputs, Script()[1], [], s2);
  }

  lemma ThirdBegin() returns (states: seq<State>, inputs: seq<Input>)
    ensures Run(states, inputs) && |inputs| == 3
    ensures Scene(states[3], 3, map[T1 := IDLE1, T2 := IDLE2, T3 := IDLE3], {}, map[], None, {}, [])
  {
    states, inputs := Begins();
    var s3 := NextBegin(states[2], 2, map[T1 := IDLE1, T2 := IDLE2]);
    states, inputs := Extend(states, inputs, Script()[2], [], s3);
  }

  lemma Writes() returns (states: seq<State>, inputs: seq<Input>)
    ensures Run(states, inputs) && |inputs| == 6 && inputs[5].req == Some(Script()[5])
    ensures Scene(states[6], 6, map[T1 := WROTE1, T2 := IDLE2, T3 := IDLE3], {(T2, T1), (T3, T1)},
                  map[T2 := [Script()[4]], T3 := [Script()[5]]], Some(T1), {}, [])
  {
    states, inputs := ThirdBegin();
    var s4 := Granted(states[3]);
    var s5 := SecondWaits(s4);
    var s6 := ThirdWaits(s5);
    states, inputs := Extend(states, inputs, Script()[3], [], s4);
    states, inputs := Extend(states, inputs, Script()[4], [T2], s5);
    states, inputs := Extend(states, inputs, Script()[5], [T2, T3], s6);
  }

  lemma BeforeLast() returns (states: seq<State>, inputs: seq<Input>)
    ensures Run(states, inputs) && |inputs| == 8
    ensures inputs[5].req == Some(Script()[5]) && inputs[7].req == Some(Script()[7])
    ensures Scene(states[8], 8, map[T2 := WROTE2, T3 := IDLE3], {(T3, T2)}, map[T3 := [Script()[7]]],
                  Some(T2), {T1, T3}, [COMMIT1])
  {
    states, inputs := Writes();
    var s7 := FirstEnds(states[6]);
    states, inputs := Extend(states, inputs, Script()[6], [T2, T3], s7);
    var s8 := ThirdEnds(s7);
    states, inputs := Extend(states, inputs, Script()[7], [], s8);
  }

  /** T3 issues a write, ends and commits, and nothing of the write is left in the commit or the queue. */
  lemma WriteCanBeLost() returns (states: seq<State>, inputs: seq<Input>)
    ensures Run(states, inputs) && |inputs| == 9
    ensures Script()[5] == Write(START + 6, T3, X1, 33) && Script()[7] == End(START + 8, T3)
    ensures inputs[5].req == Some(Script()[5]) && inputs[7].req == Some(Script()[7])
    ensures states[9].log == [COMMIT1, COMMIT2, COMMIT3] && COMMIT3.t == T3 && COMMIT3.writes == map[]
    ensures states[9].queue == map[] && states[9].reps[COPY].value == 22
  {
    states, inputs := BeforeLast();
    var s9 := SecondEnds(states[8]);
    states, inputs := Extend(states, inputs, Script()[8], [T3], s9);
  }
}
