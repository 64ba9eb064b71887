/**
  * A run that throws although no transaction reads a variable that it has read or written before:
  * a read waits in the queue, and a later write of the same variable overtakes it.
  */
module QueuedReread {
  import opened Base
  import opened Model
  import opened Locking
  import opened Execution
  import opened LockLemmas
  import opened SafeScripts
  import opened Scenarios

  const X1: VarId := 1
  const X3: VarId := 3
  const COPY1: Replica := (2, 1)
  const COPY3: Replica := (4, 3)

  // Both home sites are down, and both reads wait; only the first is known to the site waiting map.

  const BEGIN := Begin(START + 1, SOLE, false)
  const FAIL2 := Fail(START + 2, 2)
  const FAIL4 := Fail(START + 3, 4)
  const READ1 := Read(START + 4, SOLE, X1)
  const READ3 := Read(START + 5, SOLE, X3)
  const RECOVER4 := Recover(START + 6, 4)
  const WRITE3 := Write(START + 7, SOLE, X3, 33)
  const RECOVER2 := Recover(START + 8, 2)

  ghost predicate FreeAt(st: State, p: Replica) {
    st.reps[p].excl == None && st.reps[p].shared == {}
  }

  /** What the run needs to know of the state after instruction `n`. */
  ghost predicate Scene(st: State, n: nat, queue: map<Tid, seq<Request>>, siteWait: map<Tid, SiteId>) {
    && st.now == START + n && st.wait == {} && st.queue == queue && st.siteWait == siteWait
    && SOLE in st.live && !st.live[SOLE].ro && SOLE in st.begun && SOLE !in st.ended
    && FreeAt(st, COPY1)
  }

  ghost predicate Down(st: State, s: SiteId) {
    s !in st.up && (s, s - 1) !in st.readable
  }

  lemma BothFail() returns (states: seq<State>, inputs: seq<Input>)
    ensures Run(states, inputs) && |inputs| == 3
    ensures forall k: nat | k < 3 :: !Accesses(inputs[k].req)
    ensures Scene(states[3], 3, map[], map[]) && Down(states[3], 2) && Down(states[3], 4) && FreeAt(states[3], COPY3)
  {
    var s1 := BeginAlone();
    var s2 := SiteFails(s1, START + 2, 2);
    var s3 := SiteFails(s2, START + 3, 4);
    states, inputs := Extend([Init(START)], [], BEGIN, [], s1);
    states, inputs := ExtendTwice(states, inputs, FAIL2, s2, FAIL4, s3);
  }

  lemma FirstReadWaits(st: State) returns (st': State)
    requires Scene(st, 3, map[], map[]) && Down(st, 2) && Down(st, 4) && FreeAt(st, COPY3)
    ensures Takes(st, READ1, [SOLE], st') && Scene(st', 4, map[SOLE := [READ1]], map[SOLE := 2])
    ensures Down(st', 2) && Down(st', 4) && FreeAt(st', COPY3)
  {
    var seen := Observe(st, Some(READ1));
    st' := Enqueue(AwaitSite(seen, SOLE, 2), READ1);
    assert InsertByTime([], READ1) == [READ1];
    QuietStep(st, READ1, [SOLE], st');
  }

  const QUEUE: seq<Request> := [READ1, READ3]

  lemma SecondReadWaits(st: State) returns (st': State)
    requires Scene(st, 4, map[SOLE := [READ1]], map[SOLE := 2]) && Down(st, 2) && Down(st, 4) && FreeAt(st, COPY3)
    ensures Takes(st, READ3, [], st') && Scene(st', 5, map[SOLE := QUEUE], map[SOLE := 2])
    ensures Down(st', 2) && Down(st', 4) && FreeAt(st', COPY3)
  {
    var seen := Observe(st, Some(READ3));
    st' := Enqueue(seen, READ3);
    var q := [READ1];
    assert q[1..] == [] && InsertByTime([], READ3) == [READ3];
    assert [q[0]] + [READ3] == QUEUE;
    BlockedStep(st, READ3, st');
  }

  lemma SecondHomeRecovers(st: State) returns (st': State)
    requires Scene(st, 5, map[SOLE := QUEUE], map[SOLE := 2]) && Down(st, 2) && FreeAt(st, COPY3)
    ensures Takes(st, RECOVER4, [SOLE], st') && Scene(st', 6, map[SOLE := QUEUE], map[SOLE := 2])
    ensures Down(st', 2) && 4 in st'.up && COPY3 in st'.readable && FreeAt(st', COPY3)
  {
    st' := RecoverSite(Observe(st, Some(RECOVER4)), 4);
    QuietStep(st, RECOVER4, [SOLE], st');
  }

  /** The state in which both reads are queued and the write has run. */
  ghost predicate Overtaken(st: State) {
    && Scene(st, 7, map[SOLE := QUEUE], map[SOLE := 2])
    && 4 in st.up && COPY3 in st.readable && st.reps[COPY3].excl == Some(SOLE) && st.reps[COPY3].shared == {}
  }

  /** The write of the blocked transaction runs at once, ahead of the queued read of its variable. */
  lemma WriteOvertakes(st: State) returns (st': State)
    requires Scene(st, 6, map[SOLE := QUEUE], map[SOLE := 2])
    requires Down(st, 2) && 4 in st.up && COPY3 in st.readable && FreeAt(st, COPY3)
    ensures Takes(st, WRITE3, [], st') && Overtaken(st')
  {
    var seen := Observe(st, Some(WRITE3));
    st' := WriteFree(seen, WRITE3);
    WriteSpares(seen, WRITE3, COPY1);
    BlockedStep(st, WRITE3, st');
  }

  lemma FirstReadRuns(st: State) returns (st': State)
    requires FreeAt(st, COPY1) && COPY1 in st.readable && 2 in st.up && SOLE in st.live && !st.live[SOLE].ro
    ensures Exec(st, READ1) == Next(st') && SOLE in st'.live && !st'.live[SOLE].ro
    ensures st'.reps[COPY3] == st.reps[COPY3] && st'.up == st.up && st'.readable == st.readable
  {
    assert Acquire(st, SOLE, X1) == LockStatus(AvailableToAssign, {2}, {});
    st' := ReadWith(st, READ1, Acquire(st, SOLE, X1)).st;
    ShareEffect(st, SOLE, {2}, X1);
  }

  lemma SecondReadThrows(st: State)
    requires COPY3 in st.readable && 4 in st.up && SOLE in st.live && !st.live[SOLE].ro
    requires st.reps[COPY3].excl == Some(SOLE) && st.reps[COPY3].shared == {}
    ensures Exec(st, READ3) == Throws
  {
    assert Acquire(st, SOLE, X3).status == HasWriteLock;
  }

  /** The script may go on with `input`, and the step throws. */
  ghost predicate Fails(st: State, input: Input) {
    WellFormed(st, input.req) && MeetsAll(st, input) && Step(st, input) == Throws
  }

  lemma DrainThrows(st: State)
    requires Overtaken(st)
    ensures Fails(st, Input(Some(RECOVER2), [SOLE]))
  {
    var mid := RecoverSite(Observe(st, Some(RECOVER2)), 2);
    ShallowIsAcyclic(st.wait);
    assert (set t | t in [SOLE]) == mid.queue.Keys;
    var next := FirstReadRuns(mid);
    SecondReadThrows(next);
    assert QUEUE[1..] == [READ3];
    assert ExecAll(mid, QUEUE) == Throws;
  }

  // ----- The run -----

  lemma BothWait(st: State) returns (s4: State, s5: State)
    requires Scene(st, 3, map[], map[]) && Down(st, 2) && Down(st, 4) && FreeAt(st, COPY3)
    ensures Takes(st, READ1, [SOLE], s4) && Takes(s4, READ3, [], s5)
    ensures Scene(s5, 5, map[SOLE := QUEUE], map[SOLE := 2]) && Down(s5, 2) && FreeAt(s5, COPY3)
  {
    s4 := FirstReadWaits(st);
    s5 := SecondReadWaits(s4);
  }

  lemma Overtakes(st: State) returns (s6: State, s7: State)
    requires Scene(st, 5, map[SOLE := QUEUE], map[SOLE := 2]) && Down(st, 2) && FreeAt(st, COPY3)
    ensures Takes(st, RECOVER4, [SOLE], s6) && Takes(s6, WRITE3, [], s7) && Overtaken(s7)
  {
    s6 := SecondHomeRecovers(st);
    s7 := WriteOvertakes(s6);
  }

  lemma Four(st: State) returns (s4: State, s5: State, s6: State, s7: State)
    requires Scene(st, 3, map[], map[]) && Down(st, 2) && Down(st, 4) && FreeAt(st, COPY3)
    ensures Takes(st, READ1, [SOLE], s4) && Takes(s4, READ3, [], s5)
    ensures Takes(s5, RECOVER4, [SOLE], s6) && Takes(s6, WRITE3, [], s7) && Overtaken(s7)
  {
    s4, s5 := BothWait(st);
    s6, s7 := Overtakes(s5);
  }

  /** The two instructions `r`, which drains one entry, and `r'`. */
  lemma ExtendPair(states: seq<State>, inputs: seq<Input>, r: Request, s: State, r': Request, s': State)
    returns (states': seq<State>, inputs': seq<Input>)
    requires Run(states, inputs) && Takes(states[|inputs|], r, [SOLE], s) && Takes(s, r', [], s')
    ensures Run(states', inputs') && inputs <= inputs' && |inputs'| == |inputs| + 2 && states'[|inputs'|] == s'
    ensures inputs'[|inputs|].req == Some(r) && inputs'[|inputs| + 1].req == Some(r')
  {
    states', inputs' := Extend(states, inputs, r, [SOLE], s);
    states', inputs' := Extend(states', inputs', r', [], s');
  }

  /** The script, its reads, and what it goes on with. */
  predicate Script(inputs: seq<Input>) {
    && |inputs| == 7 && (forall k: nat | k < 3 :: !Accesses(inputs[k].req))
    && inputs[3].req == Some(READ1) && inputs[4].req == Some(READ3)
    && inputs[5].req == Some(RECOVER4) && inputs[6].req == Some(WRITE3)
  }

  lemma BeforeLast() returns (states: seq<State>, inputs: seq<Input>)
    ensures Run(states, inputs) && Script(inputs) && Overtaken(states[7])
  {
    states, inputs := BothFail();
    var s4, s5, s6, s7 := Four(states[3]);
    states, inputs := ExtendPair(states, inputs, READ1, s4, READ3, s5);
    states, inputs := ExtendPair(states, inputs, RECOVER4, s6, WRITE3, s7);
  }

  /** No transaction reads a variable that it has read or written before. */
  predicate NoLaterRead(inputs: seq<Input>) {
    forall i: nat, j: nat | i < j < |inputs| && Accesses(inputs[i].req) && LockingReadAt(inputs, j) ::
      !SameAccess(inputs[i].req.value, inputs[j].req.value)
  }

  lemma ReadsComeFirst(inputs: seq<Input>, last: Input)
    requires Script(inputs) && last.req == Some(RECOVER2)
    ensures NoLaterRead(inputs + [last])
  {
    var all := inputs + [last];
    forall i: nat, j: nat | i < j < 8 && Accesses(all[i].req) && LockingReadAt(all, j)
      ensures !SameAccess(all[i].req.value, all[j].req.value)
    {
      assert all[j] == if j < 7 then inputs[j] else last;
      assert j == 3 || j == 4;
      assert all[i] == inputs[i];
    }
  }

  /**
    * The script reads x1 and x3 once each, and writes x3 after its read, and yet the eighth
    * instruction throws.
    */
  lemma OvertakenReadThrows() returns (states: seq<State>, inputs: seq<Input>, last: Input)
    ensures Run(states, inputs) && Script(inputs) && last.req == Some(RECOVER2) && NoLaterRead(inputs + [last])
    ensures Fails(states[7], last)
  {
    states, inputs := BeforeLast();
    last := Input(Some(RECOVER2), [SOLE]);
    ReadsComeFirst(inputs, last);
    DrainThrows(states[7]);
  }
}
