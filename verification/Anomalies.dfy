/** A run in which a snapshot changes, because a commit takes the time at which its End was issued. */
module Anomalies {
  import opened Base
  import opened Model
  import opened Execution
  import opened Scenarios

  const T1: Tid := 1
  const T2: Tid := 2
  const READER: Tid := 3
  const X1: VarId := 1
  const COPY: Replica := (2, 1)

  /** T1 writes after T2, so it waits; its End is issued, and queued, before the reader begins. */
  function Script(): seq<Request> {
    [Begin(START + 1, T1, false), Begin(START + 2, T2, false),
     Write(START + 3, T2, X1, 22), Write(START + 4, T1, X1, 11), End(START + 5, T1),
     Begin(START + 6, READER, true), End(START + 7, T2)]
  }

  const QUEUE: seq<Request> := [Script()[3], Script()[4]]

  /** What the run needs to know of the state after instruction `n`. */
  ghost predicate Scene(st: State, n: nat, live: map<Tid, Tran>, wait: set<(Tid, Tid)>, queue: map<Tid, seq<Request>>,
                        owner: Option<Tid>) {
    && st.now == START + n && st.live == live && st.wait == wait && st.queue == queue && st.siteWait == map[]
    && st.begun == live.Keys && st.ended == (if n >= 5 then {T1} else {}) && COPY.0 in st.up
    && st.reps[COPY] == Rep(10, map[-1 := 10], owner, {})
    && (owner.Some? ==> owner.value in st.locks && X1 in st.locks[owner.value])
  }

  const IDLE1 := Tran(START + 1, false, map[], map[])
  const IDLE2 := Tran(START + 2, false, map[], map[])
  const WROTE2 := Tran(START + 2, false, map[COPY := 22], map[])
  const READER3 := Tran(START + 6, true, map[], map[])

  lemma Begins() returns (st1: State, st2: State)
    ensures Takes(Init(START), Script()[0], [], st1) && Takes(st1, Script()[1], [], st2)
    ensures Scene(st2, 2, map[T1 := IDLE1, T2 := IDLE2], {}, map[], None)
  {
    var st := Init(START);
    AllReplicas();
    BeginStep(st, Script()[0], []);
    st1 := BeginTran(Observe(st, Some(Script()[0])), START + 1, T1, false);
    BeginStep(st1, Script()[1], []);
    st2 := BeginTran(Observe(st1, Some(Script()[1])), START + 2, T2, false);
    assert st.reps[COPY] == InitRep(1);
  }

  lemma FirstWrite(st: State) returns (st': State)
    requires Scene(st, 2, map[T1 := IDLE1, T2 := IDLE2], {}, map[], None)
    ensures Takes(st, Script()[2], [], st')
    ensures Scene(st', 3, map[T1 := IDLE1, T2 := WROTE2], {}, map[], Some(T2))
  {
    st' := WriteStep(st, Script()[2]);
  }

  lemma SecondWrite(st: State) returns (st': State)
    requires Scene(st, 3, map[T1 := IDLE1, T2 := WROTE2], {}, map[], Some(T2))
    ensures Takes(st, Script()[3], [T1], st')
    ensures Scene(st', 4, map[T1 := IDLE1, T2 := WROTE2], {(T1, T2)}, map[T1 := [Script()[3]]], Some(T2))
  {
    var r := Script()[3];
    var seen := Observe(st, Some(r));
    WriteHeld(seen, r, T2);
    st' := seen.(wait := seen.wait + {(T1, T2)}, queue := seen.queue[T1 := [r]]);
    assert (T1, T2) in st'.wait;
    QuietStep(st, r, [T1], st');
  }

  lemma EndQueued(st: State) returns (st': State)
    requires Scene(st, 4, map[T1 := IDLE1, T2 := WROTE2], {(T1, T2)}, map[T1 := [Script()[3]]], Some(T2))
    ensures Takes(st, Script()[4], [], st')
    ensures Scene(st', 5, map[T1 := IDLE1, T2 := WROTE2], {(T1, T2)}, map[T1 := QUEUE], Some(T2))
  {
    var r := Script()[4];
    assert (T1, T2) in st.wait;
    DeferStep(st, r);
    st' := Enqueue(Observe(st, Some(r)), r);
    var q := [Script()[3]];
    assert q[1..] == [] && InsertByTime([], r) == [r];
    assert [q[0]] + [r] == [Script()[3], Script()[4]];
  }

  lemma ReaderBegins(st: State) returns (st': State)
    requires Scene(st, 5, map[T1 := IDLE1, T2 := WROTE2], {(T1, T2)}, map[T1 := QUEUE], Some(T2))
    ensures Takes(st, Script()[5], [T1], st')
    ensures Scene(st', 6, map[T1 := IDLE1, T2 := WROTE2, READER := READER3], {(T1, T2)},
                  map[T1 := QUEUE], Some(T2))
  {
    var r := Script()[5];
    assert (T1, T2) in st.wait;
    BeginStep(st, r, [T1]);
    st' := BeginTran(Observe(st, Some(r)), r.ts, r.t, r.ro);
  }

  const LAST := Rep(11, map[-1 := 10, START + 7 := 22, START + 5 := 11], None, {})

  /** The state in which the drain runs the queue of T1. */
  ghost predicate Released(st: State) {
    && st.wait == {} && st.siteWait == map[] && st.queue == map[T1 := QUEUE]
    && T1 in st.live && st.live[T1] == IDLE1 && READER in st.live && COPY.0 in st.up && st.now == START + 7
    && st.reps[COPY] == Rep(22, map[-1 := 10, START + 7 := 22], None, {})
  }

  ghost predicate Last(st: State) {
    st.reps[COPY] == LAST && st.now == START + 7 && READER in st.live
  }

  /** The queued write of T1, and its commit at the earlier time. */
  lemma QueueRuns(st: State) returns (st': State)
    requires Released(st)
    ensures ExecAll(st, QUEUE) == Next(st') && Last(st')
  {
    var granted := WriteFree(st, QUEUE[0]);
    st' := CommitOne(granted, T1, COPY, 11, START + 5);
    assert Exec(granted, QUEUE[1]) == Next(st');
    assert QUEUE[1..] == [QUEUE[1]] && QUEUE[1..][1..] == [];
    assert ExecAll(granted, QUEUE[1..]) == Next(st');
    assert st'.reps[COPY].versions == LAST.versions;
  }

  lemma Drains(st: State) returns (st': State)
    requires Released(st)
    ensures Drain(st, [T1], {}) == Next(st') && Last(st')
  {
    var ran := QueueRuns(st);
    st' := ran.(queue := ran.queue - {T1});
    assert [T1][1..] == [];
    assert Drain(ran, [], {} + {T1}) == Next(st');
  }

  lemma Releases(st: State) returns (mid: State)
    requires Scene(st, 6, map[T1 := IDLE1, T2 := WROTE2, READER := READER3], {(T1, T2)}, map[T1 := QUEUE], Some(T2))
    ensures Serve(Observe(st, Some(Script()[6])), Some(Script()[6])) == ToDrain(mid) && Released(mid)
  {
    var seen := Observe(st, Some(Script()[6]));
    assert seen.wait == {(T1, T2)};
    mid := CommitOne(seen, T2, COPY, 22, START + 7);
  }

  /** The commit of T2 lets the queued requests of T1 run. */
  lemma WriterCommits(st: State) returns (st': State)
    requires Scene(st, 6, map[T1 := IDLE1, T2 := WROTE2, READER := READER3], {(T1, T2)}, map[T1 := QUEUE], Some(T2))
    ensures Takes(st, Script()[6], [T1], st') && Last(st')
  {
    var mid := Releases(st);
    st' := Drains(mid);
    DrainStep(st, Script()[6], mid, [T1], st');
  }

  lemma Lookups()
    ensures ValueAt(Rep(10, map[-1 := 10], Some(T2), {}), START + 6) == 10
    ensures ValueAt(LAST, START + 6) == 11 && ValueAt(LAST, START + 7) == 22
  {
    assert START + 5 in LAST.versions && START + 7 in LAST.versions;
  }

  lemma FirstHalf() returns (states: seq<State>, inputs: seq<Input>)
    ensures Run(states, inputs) && |inputs| == 4
    ensures Scene(states[4], 4, map[T1 := IDLE1, T2 := WROTE2], {(T1, T2)}, map[T1 := [Script()[3]]], Some(T2))
  {
    var s1, s2 := Begins();
    states, inputs := Extend([Init(START)], [], Script()[0], [], s1);
    states, inputs := Extend(states, inputs, Script()[1], [], s2);
    var s3 := FirstWrite(s2);
    states, inputs := Extend(states, inputs, Script()[2], [], s3);
    var s4 := SecondWrite(s3);
    states, inputs := Extend(states, inputs, Script()[3], [T1], s4);
  }

  /** The reader begins in `s6`, and the value that it would read changes in `s7`. */
  ghost predicate Changed(s6: State, s7: State) {
    && READER in s6.live && READER in s7.live && s6.live[READER].ro && s6.live[READER].ts == s6.now
    && ValueAt(s6.reps[COPY], s6.now) == 10 && ValueAt(s7.reps[COPY], s6.now) == 11
    && ValueAt(s7.reps[COPY], s7.now) == 22 && s7.reps[COPY].value == 11
  }

  lemma SecondHalf(s4: State) returns (s5: State, s6: State, s7: State)
    requires Scene(s4, 4, map[T1 := IDLE1, T2 := WROTE2], {(T1, T2)}, map[T1 := [Script()[3]]], Some(T2))
    ensures Takes(s4, Script()[4], [], s5) && Takes(s5, Script()[5], [T1], s6) && Takes(s6, Script()[6], [T1], s7)
    ensures Changed(s6, s7)
  {
    s5 := EndQueued(s4);
    s6 := ReaderBegins(s5);
    s7 := WriterCommits(s6);
    Lookups();
  }

  /**
    * A lookup at the begin time of a live read-only transaction changes after its begin, and the
    * newest version by time is not the value that was committed last.
    */
  lemma SnapshotCanChange() returns (states: seq<State>, inputs: seq<Input>)
    ensures Run(states, inputs) && |states| == 8 && Changed(states[6], states[7])
  {
    states, inputs := FirstHalf();
    var s5, s6, s7 := SecondHalf(states[4]);
    states, inputs := Extend(states, inputs, Script()[4], [], s5);
    states, inputs := Extend(states, inputs, Script()[5], [T1], s6);
    states, inputs := Extend(states, inputs, Script()[6], [T1], s7);
  }
}
