/** What becomes of each request of an entry that the drain runs: it is carried out, or it is lost. */
module DrainedRequests {
  import opened Base
  import opened Model
  import opened Execution
  import opened Invariant
  import opened Traces
  import opened Acquisition
  import opened BlockedQueue
  import opened Effects

  /** The request blocks again, at the state in which the drain runs it. */
  ghost predicate BlocksAgain(st: State, r: Request) {
    && (r.Read? || r.Write?) && r.t in st.live
    && if r.Write? then MustWait(st, r)
       else HomeUnreadable(st, r) || (!st.live[r.t].ro && MustWait(st, r))
  }

  /** It waits as it would have waited at first. */
  ghost predicate WaitsAgain(st: State, st': State, r: Request) {
    && (r.Read? || r.Write?)
    && if r.Read? && HomeUnreadable(st, r) then AwaitsHome(st, st', r) else WaitsFor(st, st', r)
  }

  /** The request has had its effect. */
  ghost predicate CarriedOut(st: State, st': State, r: Request) {
    match r
    case Write(_, t, _, _) => t in st.live && if LosesWrite(st, r) then st' == st else Buffers(st, st', r)
    case Read(_, t, v) =>
      t in st.live && if st.live[t].ro then RecordsVersion(st, st', r, Home(v)) else ReadShares(st, st', r)
    case End(time, t) => t in st.live && Ended(st, st', t, time)
    case _ => false
  }

  lemma RequestFate(st: State, r: Request)
    requires LockInv(st, {}) && StoreIsLog(st) && Ages(st) && MayQueue(st.live, r)
    requires Exec(st, r).Next? && (r.Read? || r.Write? || r.End?) && r.t in st.live
    ensures if BlocksAgain(st, r) then WaitsAgain(st, Exec(st, r).st, r) else CarriedOut(st, Exec(st, r).st, r)
  {
    match r
    case Write(_, _, _, _) =>
      WriteFates(st, r);
      if MustWait(st, r) {
        NoOwnThen(st, r);
      }
    case Read(_, t, v) =>
      if st.live[t].ro {
        SnapshotFates(st, r);
        assert !HomeUnreadable(st, r) ==> LooksAt(st, v, Home(v));
      } else {
        ReadFates(st, r);
      }
    case End(time, t) => EndIsExact(st, Exec(st, r).st, t, time);
  }

  // ----- Part of an entry -----

  lemma Slices(rs: seq<Request>, i: nat)
    requires 0 < i <= |rs|
    ensures rs[..i] == [rs[0]] + rs[1..][..i - 1] && rs[1..][i - 1..] == rs[i..]
  {
  }

  lemma ExecAllCons(st: State, r: Request, rs: seq<Request>)
    requires Exec(st, r).Next?
    ensures ExecAll(st, [r] + rs) == ExecAll(Exec(st, r).st, rs)
  {
    assert ([r] + rs)[1..] == rs;
  }

  lemma {:induction false} ExecAllPrefix(st: State, rs: seq<Request>, i: nat)
    requires i <= |rs| && ExecAll(st, rs).Next?
    ensures ExecAll(st, rs[..i]).Next? && ExecAll(st, rs) == ExecAll(ExecAll(st, rs[..i]).st, rs[i..])
    decreases i
  {
    if i == 0 {
      assert rs[..0] == [] && rs[0..] == rs;
    } else {
      var st' := Exec(st, rs[0]).st;
      ExecAllPrefix(st', rs[1..], i - 1);
      Slices(rs, i);
      ExecAllCons(st, rs[0], rs[1..][..i - 1]);
    }
  }

  lemma {:induction false} BatchAfter(st: State, t: Tid, rs: seq<Request>, i: nat)
    requires Batch(st, t, rs) && i <= |rs| && ExecAll(st, rs[..i]).Next?
    ensures Batch(ExecAll(st, rs[..i]).st, t, rs[i..])
    decreases i
  {
    if i == 0 {
      assert rs[..0] == [] && rs[0..] == rs;
    } else {
      var st' := BatchTail(st, t, rs, i);
      BatchAfter(st', t, rs[1..], i - 1);
    }
  }

  lemma ExecAllTail(st: State, rs: seq<Request>, i: nat) returns (st': State)
    requires 0 < i <= |rs| && ExecAll(st, rs[..i]).Next?
    ensures Exec(st, rs[0]) == Next(st') && ExecAll(st', rs[1..][..i - 1]) == ExecAll(st, rs[..i])
  {
    assert rs[..i][0] == rs[0];
    st' := Exec(st, rs[0]).st;
    Slices(rs, i);
    ExecAllCons(st, rs[0], rs[1..][..i - 1]);
  }

  /** The first request of a batch has run, and `i - 1` more are to run. */
  lemma BatchTail(st: State, t: Tid, rs: seq<Request>, i: nat) returns (st': State)
    requires Batch(st, t, rs) && 0 < i <= |rs| && ExecAll(st, rs[..i]).Next?
    ensures Batch(st', t, rs[1..]) && ExecAll(st', rs[1..][..i - 1]).Next?
    ensures Batch(ExecAll(st', rs[1..][..i - 1]).st, t, rs[1..][i - 1..]) ==> Batch(ExecAll(st, rs[..i]).st, t, rs[i..])
  {
    st' := ExecAllTail(st, rs, i);
    BatchNext(st, t, rs);
    Slices(rs, i);
  }

  lemma BatchPrefix(st: State, t: Tid, rs: seq<Request>, i: nat)
    requires Batch(st, t, rs) && i <= |rs|
    ensures Batch(st, t, rs[..i])
  {
  }

  /** The state in which request `i` of the entry runs. */
  lemma RequestMet(st: State, t: Tid, done: set<Tid>, i: nat) returns (at: State)
    requires InvWhile(st, done) && t in st.queue && t !in done && ExecAll(st, st.queue[t]).Next? && i < |st.queue[t]|
    ensures ExecAll(st, st.queue[t][..i]) == Next(at) && InvWhile(at, done + {t})
    ensures Batch(at, t, st.queue[t][i..]) && Exec(at, st.queue[t][i]).Next?
  {
    var rs := st.queue[t];
    EntryIsBatch(st, t, done);
    DrainingMore(st, t, done);
    ExecAllPrefix(st, rs, i);
    at := ExecAll(st, rs[..i]).st;
    BatchPrefix(st, t, rs, i);
    BatchAfter(st, t, rs, i);
    var ms, es := ExecAllTrace(st, t, rs[..i], done + {t}, None);
    assert ms[|ms| - 1] == Moment(at, done + {t}, None);
    assert rs[i..][0] == rs[i];
  }

  lemma FateInEntry(st: State, t: Tid, done: set<Tid>, i: nat)
    requires InvWhile(st, done) && t in st.queue && t !in done && ExecAll(st, st.queue[t]).Next? && i < |st.queue[t]|
    ensures EntryFate(st, st.queue[t], i)
  {
    var at := RequestMet(st, t, done, i);
    var r := st.queue[t][i];
    assert st.queue[t][i..][0] == r;
    RequestFate(at, r);
  }

  /** Request `i` of the entry is carried out, or waits again. */
  ghost predicate EntryFate(st: State, rs: seq<Request>, i: nat)
    requires i < |rs|
  {
    var at := ExecAll(st, rs[..i]);
    && at.Next? && Exec(at.st, rs[i]).Next?
    && if BlocksAgain(at.st, rs[i]) then WaitsAgain(at.st, Exec(at.st, rs[i]).st, rs[i])
       else CarriedOut(at.st, Exec(at.st, rs[i]).st, rs[i])
  }

  // ----- The entry at its turn -----

  lemma {:induction false} MetKeeps(st: State, ts: seq<Tid>, done: set<Tid>, t: Tid) returns (done': set<Tid>)
    requires InvWhile(st, done) && Apart(ts, done) && t !in done && t !in ts && Met(st, ts).Next?
    ensures InvWhile(Met(st, ts).st, done') && t !in done' && SameEntry(st, Met(st, ts).st, t)
    decreases ts
  {
    done' := done;
    if ts != [] {
      ApartTail(ts, done);
      if !Runnable(st, ts[0]) {
        done' := MetKeeps(st, ts[1..], done, t);
      } else {
        var mid := EntryEffect(st, ts[0], done);
        assert SameEntry(st, mid, t);
        done' := MetKeeps(mid, ts[1..], done + {ts[0]}, t);
      }
    }
  }

  lemma {:induction false} MetRuns(st: State, ts: seq<Tid>, done: set<Tid>, j: nat)
    requires j < |ts| && Drain(st, ts, done).Next? && Met(st, ts[..j]).Next?
    ensures Runnable(Met(st, ts[..j]).st, ts[j]) ==>
              ExecAll(Met(st, ts[..j]).st, Met(st, ts[..j]).st.queue[ts[j]]).Next?
    decreases ts
  {
    if j == 0 {
      assert ts[..0] == [];
    } else {
      MetNext(st, ts, j);
      if !Runnable(st, ts[0]) {
        MetRuns(st, ts[1..], done, j - 1);
      } else {
        MetRuns(ExecAll(st, st.queue[ts[0]]).st, ts[1..], done + {ts[0]}, j - 1);
      }
    }
  }

  lemma PrefixApart(ts: seq<Tid>, j: nat)
    requires Distinct(ts) && j < |ts|
    ensures Apart(ts[..j], {}) && ts[j] !in ts[..j]
  {
  }

  lemma TurnFate(st: State, ts: seq<Tid>, j: nat, i: nat)
    requires Inv(st) && Distinct(ts) && j < |ts| && ts[j] in st.queue && i < |st.queue[ts[j]]|
    requires Drain(st, ts, {}).Next? && Met(st, ts[..j]).Next? && AwaitsNothing(Met(st, ts[..j]).st, ts[j])
    ensures EntryFate(Met(st, ts[..j]).st, st.queue[ts[j]], i)
  {
    PrefixApart(ts, j);
    var done := MetKeeps(st, ts[..j], {}, ts[j]);
    MetRuns(st, ts, {}, j);
    FateInEntry(Met(st, ts[..j]).st, ts[j], done, i);
  }

  /**
    * Each request of an entry that the drain of a step runs is carried out at its turn, or waits again
    * and is in no entry afterwards: the lost requests are those that block again.
    */
  lemma LostIffBlocksAgain(states: seq<State>, inputs: seq<Input>, input: Input, j: nat, i: nat)
    requires Run(states, inputs)
    requires var last := states[|inputs|];
      WellFormed(last, input.req) && MeetsAll(last, input) && Step(last, input).Next?
    requires BeforeDrain(states[|inputs|], input.req).ToDrain? && j < |input.order|
    requires var before := BeforeDrain(states[|inputs|], input.req).st;
      && input.order[j] in before.queue && i < |before.queue[input.order[j]]|
      && Met(before, input.order[..j]).Next? && AwaitsNothing(Met(before, input.order[..j]).st, input.order[j])
    ensures var before := BeforeDrain(states[|inputs|], input.req).st;
      EntryFate(Met(before, input.order[..j]).st, before.queue[input.order[j]], i)
    ensures input.order[j] !in Step(states[|inputs|], input).st.queue
  {
    var last := states[|inputs|];
    RunKeeps(states, inputs, |inputs|);
    BeforeDrainKeeps(last, input.req);
    var before := BeforeDrain(last, input.req).st;
    TurnFate(before, input.order, j, i);
    EntrySurvivesIff(states, inputs, input, j);
  }
}
