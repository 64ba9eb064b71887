/** A run that throws, for every variable: a transaction reads it twice. */
module RepeatedRead {
  import opened Base
  import opened Model
  import opened Locking
  import opened Execution
  import opened Invariant
  import opened LockLemmas
  import opened Traces
  import opened Acquisition
  import opened Exceptions
  import opened Scenarios

  /** The first read shares every usable replica of the variable. */
  lemma FirstRead(st: State, v: VarId) returns (st': State)
    requires Alone(st, 1) && forall p: Replica :: st.reps[p] == InitRep(p.1)
    ensures Takes(st, Read(START + 2, SOLE, v), [], st') && Alone(st', 2)
    ensures forall s | s in Targets(st', v) :: st'.reps[(s, v)].excl == None && st'.reps[(s, v)].shared == {SOLE}
  {
    var r := Read(START + 2, SOLE, v);
    var seen := Observe(st, Some(r));
    FreeToShare(seen, v);
    st' := Shares(seen, r, Targets(seen, v));
    QuietStep(st, r, [], st');
  }

  lemma FreeToShare(st: State, v: VarId)
    requires Alone(st, 2) && forall p: Replica :: st.reps[p] == InitRep(p.1)
    ensures Acquire(st, SOLE, v).status == AvailableToAssign && Acquire(st, SOLE, v).sites == Targets(st, v)
  {
    assert forall p: Replica :: SingleHolder(st.reps[p], st.live);
    AcquireVerdict(st, SOLE, v);
    AcquireSound(st, SOLE, v);
  }

  lemma Shares(st: State, r: Request, sites: set<SiteId>) returns (st': State)
    requires r.Read? && r.t == SOLE && Alone(st, 2) && sites == Targets(st, r.v)
    requires Acquire(st, SOLE, r.v).status == AvailableToAssign && Acquire(st, SOLE, r.v).sites == sites
    requires forall p: Replica :: st.reps[p] == InitRep(p.1)
    ensures Exec(st, r) == Next(st') && Alone(st', 2)
    ensures forall s | s in Targets(st', r.v) :: st'.reps[(s, r.v)].excl == None && st'.reps[(s, r.v)].shared == {SOLE}
  {
    var shared := AssignShare(st, SOLE, sites, r.v);
    ShareEffect(st, SOLE, sites, r.v);
    st' := if Odd(r.v) then RecordRead(shared, SOLE, (Home(r.v), r.v), shared.reps[(Home(r.v), r.v)].value) else shared;
    assert Exec(st, r) == Next(st');
  }

  /** A read that meets a lock of the transaction itself. */
  lemma OwnRead(st: State, v: VarId)
    requires Alone(st, 2) && forall p: Replica :: SingleHolder(st.reps[p], st.live)
    requires MeetsOwnLock(Observe(st, Some(Read(START + 3, SOLE, v))), SOLE, v)
    ensures ThrowsAlone(st, Input(Some(Read(START + 3, SOLE, v)), []))
  {
    var r := Read(START + 3, SOLE, v);
    ShallowIsAcyclic(st.wait);
    ReadThrows(Observe(st, Some(r)), r);
  }

  /** The script may go on with `input`, and the step throws. */
  ghost predicate ThrowsAlone(st: State, input: Input) {
    WellFormed(st, input.req) && MeetsAll(st, input) && Step(st, input) == Throws
  }

  lemma SecondRead(st: State, v: VarId)
    requires Alone(st, 2) && forall p: Replica :: SingleHolder(st.reps[p], st.live)
    requires forall s | s in Targets(st, v) :: st.reps[(s, v)].excl == None && st.reps[(s, v)].shared == {SOLE}
    ensures ThrowsAlone(st, Input(Some(Read(START + 3, SOLE, v)), []))
  {
    var seen := Observe(st, Some(Read(START + 3, SOLE, v)));
    assert Home(v) in Targets(st, v) && Targets(seen, v) == Targets(st, v);
    OwnRead(st, v);
  }

  /** Begin, read, read: the second read lets an exception escape, whatever the variable. */
  lemma RepeatedReadThrows(v: VarId) returns (states: seq<State>, inputs: seq<Input>, last: Input)
    ensures Run(states, inputs) && |inputs| == 2
    ensures inputs[1].req == Some(Read(START + 2, SOLE, v)) && last.req == Some(Read(START + 3, SOLE, v))
    ensures WellFormed(states[2], last.req) && MeetsAll(states[2], last) && Step(states[2], last) == Throws
  {
    var s1 := BeginAlone();
    var s2 := FirstRead(s1, v);
    states, inputs := Extend([Init(START)], [], Begin(START + 1, SOLE, false), [], s1);
    states, inputs := Extend(states, inputs, Read(START + 2, SOLE, v), [], s2);
    last := Input(Some(Read(START + 3, SOLE, v)), []);
    RunKeeps(states, inputs, 2);
    SecondRead(s2, v);
  }

  // ----- A read of what the transaction has written -----

  lemma OwnsAll(st: State, v: VarId, val: int)
    requires Alone(st, 2) && forall p: Replica :: st.reps[p] == InitRep(p.1)
    ensures var st' := Granting(st, SOLE, Targets(st, v), v, val);
      && Alone(st', 2)
      && forall s | s in Targets(st', v) :: st'.reps[(s, v)].excl == Some(SOLE) && st'.reps[(s, v)].shared == {}
  {
    GrantingEffect(st, SOLE, Targets(st, v), v, val);
  }

  lemma Owns(st: State, v: VarId, val: int, a: LockStatus)
    requires SOLE in st.live && a.status == AvailableToAssign && a.sites == Targets(st, v) && Targets(st, v) != {}
    ensures WriteWith(st, Write(START + 2, SOLE, v, val), a) == Next(Granting(st, SOLE, Targets(st, v), v, val))
  {
  }

  lemma FirstWrite(st: State, v: VarId, val: int) returns (st': State)
    requires Alone(st, 1) && forall p: Replica :: st.reps[p] == InitRep(p.1)
    ensures Takes(st, Write(START + 2, SOLE, v, val), [], st') && Alone(st', 2)
    ensures forall s | s in Targets(st', v) :: st'.reps[(s, v)].excl == Some(SOLE) && st'.reps[(s, v)].shared == {}
  {
    var r := Write(START + 2, SOLE, v, val);
    var seen := Observe(st, Some(r));
    FreeToShare(seen, v);
    assert Home(v) in Targets(seen, v);
    Owns(seen, v, val, Acquire(seen, SOLE, v));
    OwnsAll(seen, v, val);
    st' := Granting(seen, SOLE, Targets(seen, v), v, val);
    QuietStep(st, r, [], st');
  }

  lemma ReadOfOwned(st: State, v: VarId)
    requires Alone(st, 2) && forall p: Replica :: SingleHolder(st.reps[p], st.live)
    requires forall s | s in Targets(st, v) :: st.reps[(s, v)].excl == Some(SOLE) && st.reps[(s, v)].shared == {}
    ensures ThrowsAlone(st, Input(Some(Read(START + 3, SOLE, v)), []))
  {
    var seen := Observe(st, Some(Read(START + 3, SOLE, v)));
    assert Home(v) in Targets(st, v) && Targets(seen, v) == Targets(st, v);
    var s := LeastObstacle(seen, SOLE, v, Home(v));
    assert OwnObstacle(seen, SOLE, v, s);
    OwnRead(st, v);
  }

  /** Begin, write, read: a transaction that reads what it has written lets an exception escape too. */
  lemma ReadOfWrittenThrows(v: VarId, val: int) returns (states: seq<State>, inputs: seq<Input>, last: Input)
    ensures Run(states, inputs) && |inputs| == 2
    ensures inputs[1].req == Some(Write(START + 2, SOLE, v, val)) && last.req == Some(Read(START + 3, SOLE, v))
    ensures WellFormed(states[2], last.req) && MeetsAll(states[2], last) && Step(states[2], last) == Throws
  {
    var s1 := BeginAlone();
    var s2 := FirstWrite(s1, v, val);
    states, inputs := Extend([Init(START)], [], Begin(START + 1, SOLE, false), [], s1);
    states, inputs := Extend(states, inputs, Write(START + 2, SOLE, v, val), [], s2);
    last := Input(Some(Read(START + 3, SOLE, v)), []);
    RunKeeps(states, inputs, 2);
    ReadOfOwned(s2, v);
  }
}
