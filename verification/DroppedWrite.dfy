/** Runs in which a write is dropped: its variable has no site that is up, or is even and written before. */
module DroppedWrite {
  import opened Base
  import opened Model
  import opened Locking
  import opened Execution
  import opened Invariant
  import opened LockLemmas
  import opened Acquisition
  import opened Commits
  import opened Scenarios

  // ----- The home of an odd variable is down -----

  /** A write that finds no site is observed, and changes nothing. */
  lemma WriteFindsNoSite(st: State, r: Request)
    requires r.Write? && Odd(r.v) && Home(r.v) !in st.up && r.t in st.live
    requires st.wait == {} && st.queue == map[] && st.siteWait == map[]
    ensures LosesWrite(Observe(st, Some(r)), r)
    ensures MeetsAll(st, Input(Some(r), [])) && Step(st, Input(Some(r), [])) == Next(Observe(st, Some(r)))
  {
    var seen := Observe(st, Some(r));
    assert Targets(seen, r.v) == {};
    assert Exec(seen, r) == Next(seen);
    QuietStep(st, r, [], seen);
  }

  lemma WritesNothing(st: State, v: VarId, val: int) returns (s2: State, s3: State)
    requires Alone(st, 1) && st.live == map[SOLE := IDLE] && Odd(v) && st.log == []
    ensures Takes(st, Fail(START + 2, Home(v)), [], s2) && Takes(s2, Write(START + 3, SOLE, v, val), [], s3)
    ensures s2.live == s3.live == map[SOLE := IDLE] && s3.wait == {} && s3.queue == map[] && s3.siteWait == map[]
    ensures s3.log == []
    ensures s3.now == START + 3 && SOLE in s3.begun && SOLE !in s3.ended
  {
    s2 := SiteFails(st, START + 2, Home(v));
    WriteFindsNoSite(s2, Write(START + 3, SOLE, v, val));
    s3 := Observe(s2, Some(Write(START + 3, SOLE, v, val)));
  }

  lemma EndsEmpty(st: State) returns (st': State)
    requires st.live == map[SOLE := IDLE] && st.wait == {} && st.queue == map[] && st.siteWait == map[] && st.log == []
    requires st.now == START + 3 && SOLE in st.begun && SOLE !in st.ended
    ensures Takes(st, End(START + 4, SOLE), [], st') && st'.log == [Commit(SOLE, false, START + 4, map[], map[])]
  {
    st' := EndAlone(st, End(START + 4, SOLE));
  }

  /** Begin, fail the home site, write, end: for every odd variable the transaction commits without its write. */
  lemma OddWriteDropped(v: VarId, val: int) returns (states: seq<State>, inputs: seq<Input>)
    requires Odd(v)
    ensures Run(states, inputs) && |inputs| == 4
    ensures inputs[2].req == Some(Write(START + 3, SOLE, v, val))
    ensures states[3].live == states[2].live == map[SOLE := IDLE]
    ensures states[3].queue == map[] && states[4].log == [Commit(SOLE, false, START + 4, map[], map[])]
  {
    var s1 := BeginAlone();
    var s2, s3 := WritesNothing(s1, v, val);
    var s4 := EndsEmpty(s3);
    states, inputs := ExtendTwice([Init(START)], [], Begin(START + 1, SOLE, false), s1, Fail(START + 2, Home(v)), s2);
    states, inputs := ExtendTwice(states, inputs, Write(START + 3, SOLE, v, val), s3, End(START + 4, SOLE), s4);
  }

  // ----- The second write to an even variable -----

  /** The transaction owns every replica of `v` and has buffered `val` for it. */
  ghost predicate Owns(st: State, v: VarId, val: int) {
    && SOLE in st.live && st.live[SOLE] == WithWrites(IDLE, st.up, v, val)
    && (forall s: SiteId :: st.reps[(s, v)].excl == Some(SOLE) && st.reps[(s, v)].shared == {})
    && (forall p: Replica | p.1 != v :: st.reps[p].excl == None && st.reps[p].shared == {})
  }

  lemma FreeToWrite(st: State, v: VarId)
    requires Alone(st, 2) && !Odd(v) && forall p: Replica :: st.reps[p] == InitRep(p.1)
    ensures Acquire(st, SOLE, v).status == AvailableToAssign && Acquire(st, SOLE, v).sites == st.up
  {
    assert forall p: Replica :: SingleHolder(st.reps[p], st.live);
    AcquireVerdict(st, SOLE, v);
    AcquireSound(st, SOLE, v);
  }

  lemma WritesAll(st: State, r: Request) returns (st': State)
    requires Alone(st, 2) && st.live == map[SOLE := IDLE] && r.Write? && r.t == SOLE && !Odd(r.v)
    requires forall p: Replica :: st.reps[p] == InitRep(p.1)
    requires Acquire(st, SOLE, r.v).status == AvailableToAssign && Acquire(st, SOLE, r.v).sites == st.up
    ensures Exec(st, r) == Next(st') && Alone(st', 2) && Owns(st', r.v, r.val) && st'.log == st.log
  {
    st' := Granting(st, SOLE, st.up, r.v, r.val);
    assert 1 in st.up;
    GrantingEffect(st, SOLE, st.up, r.v, r.val);
  }

  lemma FirstWrite(st: State, v: VarId, val: int) returns (st': State)
    requires Alone(st, 1) && st.live == map[SOLE := IDLE] && !Odd(v) && forall p: Replica :: st.reps[p] == InitRep(p.1)
    ensures Takes(st, Write(START + 2, SOLE, v, val), [], st') && Alone(st', 2) && Owns(st', v, val)
    ensures st'.log == st.log
  {
    var r := Write(START + 2, SOLE, v, val);
    var seen := Observe(st, Some(r));
    FreeToWrite(seen, v);
    st' := WritesAll(seen, r);
    QuietStep(st, r, [], st');
  }

  /** The first site is an obstacle, and the lock on it is the transaction's own. */
  lemma OwnLockLoses(st: State, r: Request, first: int)
    requires r.Write? && r.t == SOLE && !Odd(r.v) && Owns(st, r.v, first) && forall s: SiteId :: s in st.up
    ensures LosesWrite(st, r) && Exec(st, r) == Next(st)
  {
    forall p: Replica ensures SingleHolder(st.reps[p], st.live) {
      assert p == (p.0, p.1);
    }
    assert OwnObstacle(st, SOLE, r.v, 1);
    WriteFates(st, r);
  }

  lemma SecondWrite(st: State, v: VarId, first: int, val: int) returns (st': State)
    requires Alone(st, 2) && Owns(st, v, first) && !Odd(v)
    ensures Takes(st, Write(START + 3, SOLE, v, val), [], st') && Alone(st', 3) && Owns(st', v, first)
    ensures st'.log == st.log
  {
    var r := Write(START + 3, SOLE, v, val);
    st' := Observe(st, Some(r));
    OwnLockLoses(st', r, first);
    QuietStep(st, r, [], st');
  }

  lemma Ends(st: State, v: VarId, val: int) returns (st': State)
    requires Alone(st, 3) && Owns(st, v, val)
    ensures Takes(st, End(START + 4, SOLE), [], st')
    ensures forall s: SiteId :: st'.reps[(s, v)].value == val
  {
    var r := End(START + 4, SOLE);
    st' := EndAlone(st, r);
    Installs(Observe(st, Some(r)), v, val);
  }

  lemma Installs(st: State, v: VarId, val: int)
    requires SOLE in st.live && Validates(st, st.live[SOLE])
    requires (forall s: SiteId :: s in st.up) && st.live[SOLE] == WithWrites(IDLE, st.up, v, val)
    ensures forall s: SiteId :: EndTran(st, SOLE, START + 4).reps[(s, v)].value == val
  {
    CommitSucceeds(st, SOLE, START + 4);
    forall s: SiteId ensures EndTran(st, SOLE, START + 4).reps[(s, v)].value == val {
      assert (s, v) in st.live[SOLE].writes && st.live[SOLE].writes[(s, v)] == val;
    }
  }

  lemma WritesOnce(v: VarId, val: int) returns (s1: State, s2: State)
    requires !Odd(v)
    ensures Takes(Init(START), Begin(START + 1, SOLE, false), [], s1)
    ensures Takes(s1, Write(START + 2, SOLE, v, val), [], s2)
    ensures Alone(s2, 2) && Owns(s2, v, val)
  {
    s1 := BeginAlone();
    s2 := FirstWrite(s1, v, val);
  }

  lemma WritesAgain(st: State, v: VarId, first: int, val: int) returns (s3: State, s4: State)
    requires Alone(st, 2) && Owns(st, v, first) && !Odd(v)
    ensures Takes(st, Write(START + 3, SOLE, v, val), [], s3) && Takes(s3, End(START + 4, SOLE), [], s4)
    ensures SOLE in s3.live && s3.live[SOLE] == WithWrites(IDLE, s3.up, v, first)
    ensures s3.queue == map[] && forall s: SiteId :: s in s3.up && s4.reps[(s, v)].value == first
  {
    s3 := SecondWrite(st, v, first, val);
    s4 := Ends(s3, v, first);
  }

  /** Begin, write, write, end: for every even variable and any two values the first value is committed. */
  lemma SecondEvenWriteDropped(v: VarId, first: int, second: int) returns (states: seq<State>, inputs: seq<Input>)
    requires !Odd(v)
    ensures Run(states, inputs) && |inputs| == 4
    ensures inputs[1].req == Some(Write(START + 2, SOLE, v, first))
    ensures inputs[2].req == Some(Write(START + 3, SOLE, v, second))
    ensures SOLE in states[3].live && states[3].live[SOLE] == WithWrites(IDLE, states[3].up, v, first)
    ensures states[3].queue == map[] && forall s: SiteId :: s in states[3].up && states[4].reps[(s, v)].value == first
  {
    var s1, s2 := WritesOnce(v, first);
    var s3, s4 := WritesAgain(s2, v, first, second);
    var begin, write := Begin(START + 1, SOLE, false), Write(START + 2, SOLE, v, first);
    states, inputs := ExtendTwice([Init(START)], [], begin, s1, write, s2);
    states, inputs := ExtendTwice(states, inputs, Write(START + 3, SOLE, v, second), s3, End(START + 4, SOLE), s4);
  }
}
