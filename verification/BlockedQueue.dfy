/** Exactly which entries of the blocked queue outlive a drain. */
module BlockedQueue {
  import opened Base
  import opened Model
  import opened Locking
  import opened Execution
  import opened Invariant
  import opened Traces

  /** The state after the drain has met the transactions of `ts`; nothing has been erased yet. */
  function Met(st: State, ts: seq<Tid>): Outcome
    decreases ts
  {
    if ts == [] then Next(st)
    else if !Runnable(st, ts[0]) then Met(st, ts[1..])
    else
      match ExecAll(st, st.queue[ts[0]])
      case Next(st') => Met(st', ts[1..])
      case Throws => Throws
      case EmptySet => EmptySet
  }

  ghost predicate SameEntry(st: State, st': State, u: Tid) {
    (u in st'.queue <==> u in st.queue) && (u in st.queue ==> st'.queue[u] == st.queue[u])
  }

  // ----- Joining the queue -----

  predicate Increasing(q: seq<Request>) {
    forall i, j | 0 <= i < j < |q| :: q[i].ts < q[j].ts
  }

  function EntryOf(st: State, t: Tid): seq<Request> {
    if t in st.queue then st.queue[t] else []
  }

  /**
    * `r` joins the entry of its transaction and no other entry changes. Nothing leaves the entry, and a
    * request with the same time keeps `r` out; an entry ordered by time stays so.
    */
  ghost predicate Joins(st: State, st': State, r: Request)
    requires r.OfTran()
  {
    && (forall u | u != r.t :: SameEntry(st, st', u))
    && r.t in st'.queue && Joined(EntryOf(st, r.t), st'.queue[r.t], r)
  }

  ghost predicate Joined(q: seq<Request>, q': seq<Request>, r: Request) {
    && (forall x | x in q :: x in q') && (forall x | x in q' :: x in q || x == r)
    && (r in q' || exists x | x in q :: x.ts == r.ts)
    && (Increasing(q) ==> Increasing(q') && (r in q' <==> r in q || forall x | x in q :: x.ts != r.ts))
  }

  lemma {:induction false} InsertJoins(q: seq<Request>, r: Request)
    ensures Joined(q, InsertByTime(q, r), r)
  {
    InsertKeeps(q, r);
    if q != [] && q[0].ts != r.ts && !(r.ts < q[0].ts) {
      InsertJoins(q[1..], r);
      assert q == [q[0]] + q[1..];
      InsertedBehind(q, InsertByTime(q[1..], r), r);
    }
  }

  lemma InsertedBehind(q: seq<Request>, rest: seq<Request>, r: Request)
    requires q != [] && q[0].ts < r.ts && Joined(q[1..], rest, r)
    ensures Joined(q, [q[0]] + rest, r)
  {
    assert q == [q[0]] + q[1..];
    if Increasing(q) {
      assert Increasing(q[1..]);
      assert forall x | x in q[1..] :: q[0].ts < x.ts;
      assert forall x | x in rest :: q[0].ts < x.ts;
    }
  }

  lemma EnqueueJoins(st: State, r: Request)
    requires r.OfTran()
    ensures Joins(st, Enqueue(st, r), r)
  {
    InsertJoins(EntryOf(st, r.t), r);
  }

  // ----- What a request does to the entries of others -----

  lemma WriteEntries(st: State, r: Request, a: LockStatus, u: Tid)
    requires r.Write? && r.t != u && WriteWith(st, r, a).Next?
    ensures SameEntry(st, WriteWith(st, r, a).st, u)
  {
  }

  lemma ReadEntries(st: State, r: Request, a: LockStatus, u: Tid)
    requires r.Read? && r.t in st.live && r.t != u && ReadWith(st, r, a).Next?
    ensures SameEntry(st, ReadWith(st, r, a).st, u)
  {
  }

  /** A request touches no entry but that of its own transaction. */
  lemma ExecEntries(st: State, r: Request, u: Tid)
    requires (r.Read? || r.Write? || r.End?) && r.t != u && Exec(st, r).Next?
    ensures SameEntry(st, Exec(st, r).st, u)
  {
    if r.Write? {
      WriteEntries(st, r, Acquire(st, r.t, r.v), u);
    } else if r.Read? && !st.live[r.t].ro && !(Odd(r.v) && (Home(r.v), r.v) !in st.readable) {
      ReadEntries(st, r, Acquire(st, r.t, r.v), u);
    }
  }

  lemma {:induction false} ExecAllEntries(st: State, t: Tid, rs: seq<Request>, u: Tid)
    requires forall i | 0 <= i < |rs| :: (rs[i].Read? || rs[i].Write? || rs[i].End?) && rs[i].t == t
    requires t != u && ExecAll(st, rs).Next?
    ensures SameEntry(st, ExecAll(st, rs).st, u)
    decreases rs
  {
    if rs != [] {
      ExecEntries(st, rs[0], u);
      ExecAllEntries(Exec(st, rs[0]).st, t, rs[1..], u);
    }
  }

  /** One entry has run: the invariant holds and other entries are as they were. */
  lemma EntryEffect(st: State, t: Tid, done: set<Tid>) returns (mid: State)
    requires InvWhile(st, done) && t in st.queue && t !in done && ExecAll(st, st.queue[t]).Next?
    ensures ExecAll(st, st.queue[t]) == Next(mid) && InvWhile(mid, done + {t})
    ensures forall u | u != t :: SameEntry(st, mid, u)
  {
    EntryIsBatch(st, t, done);
    DrainingMore(st, t, done);
    var ms, es;
    mid, ms, es := EntryRuns(st, t, done + {t}, None);
    forall u | u != t ensures SameEntry(st, mid, u) {
      ExecAllEntries(st, t, st.queue[t], u);
    }
  }

  /** The keys still to be met are distinct, and none of them has been met. */
  predicate Apart(ts: seq<Tid>, done: set<Tid>) {
    Distinct(ts) && forall t | t in ts :: t !in done
  }

  lemma ApartTail(ts: seq<Tid>, done: set<Tid>)
    requires Apart(ts, done) && ts != []
    ensures Apart(ts[1..], done) && Apart(ts[1..], done + {ts[0]}) && ts[0] !in done && ts[0] !in ts[1..]
  {
    assert forall i | 0 <= i < |ts| - 1 :: ts[1..][i] == ts[i + 1];
  }

  lemma {:induction false} DrainNobody(st: State, order: seq<Tid>, done: set<Tid>)
    requires forall t | t in order :: !Runnable(st, t)
    ensures Drain(st, order, done) == Next(st.(queue := st.queue - done))
  {
    if order != [] {
      assert forall t | t in order[1..] :: t in order;
      DrainNobody(st, order[1..], done);
    }
  }

  lemma {:induction false} DrainErases(st: State, ts: seq<Tid>, done: set<Tid>, t: Tid)
    requires t in done && Drain(st, ts, done).Next?
    ensures t !in Drain(st, ts, done).st.queue
    decreases ts
  {
    if ts != [] {
      if !Runnable(st, ts[0]) {
        DrainErases(st, ts[1..], done, t);
      } else {
        DrainErases(ExecAll(st, st.queue[ts[0]]).st, ts[1..], done + {ts[0]}, t);
      }
    }
  }

  lemma SparedStep(st: State, mid: State, ts: seq<Tid>, done: set<Tid>, t: Tid)
    requires ts != [] && Runnable(st, ts[0]) && ExecAll(st, st.queue[ts[0]]) == Next(mid) && SameEntry(st, mid, t)
    requires Drain(st, ts, done).Next?
    ensures Drain(mid, ts[1..], done + {ts[0]}).Next?
    ensures SameEntry(mid, Drain(mid, ts[1..], done + {ts[0]}).st, t) ==> SameEntry(st, Drain(st, ts, done).st, t)
  {
  }

  lemma SparedSkip(st: State, ts: seq<Tid>, done: set<Tid>)
    requires ts != [] && !Runnable(st, ts[0])
    ensures Drain(st, ts, done) == Drain(st, ts[1..], done)
  {
  }

  lemma {:induction false} DrainSpares(st: State, ts: seq<Tid>, done: set<Tid>, t: Tid)
    requires InvWhile(st, done) && Apart(ts, done)
    requires t !in done && t !in ts && Drain(st, ts, done).Next?
    ensures SameEntry(st, Drain(st, ts, done).st, t)
    decreases ts
  {
    if ts == [] {
    } else if !Runnable(st, ts[0]) {
      ApartTail(ts, done);
      SparedSkip(st, ts, done);
      DrainSpares(st, ts[1..], done, t);
    } else {
      ApartTail(ts, done);
      var mid := EntryEffect(st, ts[0], done);
      SparedStep(st, mid, ts, done, t);
      DrainSpares(mid, ts[1..], done + {ts[0]}, t);
    }
  }

  /** `t` has no edge, and waits for no site. */
  predicate AwaitsNothing(st: State, t: Tid) {
    (forall e | e in st.wait :: e.0 != t) && t !in st.siteWait
  }

  /**
    * The entry met at place `j` is erased when its transaction waits neither for another nor for a site
    * then, and otherwise stays as it was.
    */
  ghost predicate ErasedIffRunnable(st: State, ts: seq<Tid>, j: nat, last: State)
    requires j < |ts| && ts[j] in st.queue
  {
    && Met(st, ts[..j]).Next?
    && if AwaitsNothing(Met(st, ts[..j]).st, ts[j]) then ts[j] !in last.queue
       else ts[j] in last.queue && last.queue[ts[j]] == st.queue[ts[j]]
  }

  lemma FirstMet(st: State, ts: seq<Tid>, done: set<Tid>)
    requires InvWhile(st, done) && Apart(ts, done)
    requires ts != [] && ts[0] in st.queue && Drain(st, ts, done).Next?
    ensures ErasedIffRunnable(st, ts, 0, Drain(st, ts, done).st)
  {
    assert ts[..0] == [];
    if Runnable(st, ts[0]) {
      DrainErases(ExecAll(st, st.queue[ts[0]]).st, ts[1..], done + {ts[0]}, ts[0]);
    } else {
      ApartTail(ts, done);
      DrainSpares(st, ts[1..], done, ts[0]);
    }
  }

  lemma MetNext(st: State, ts: seq<Tid>, j: nat)
    requires 0 < j < |ts|
    ensures Met(st, ts[..j]) ==
              if !Runnable(st, ts[0]) then Met(st, ts[1..][..j - 1])
              else match ExecAll(st, st.queue[ts[0]])
                   case Next(mid) => Met(mid, ts[1..][..j - 1])
                   case Throws => Throws
                   case EmptySet => EmptySet
  {
    assert ts[..j][0] == ts[0] && ts[..j][1..] == ts[1..][..j - 1];
  }

  lemma {:induction false} DrainExact(st: State, ts: seq<Tid>, done: set<Tid>, j: nat)
    requires InvWhile(st, done) && Apart(ts, done)
    requires j < |ts| && ts[j] in st.queue && Drain(st, ts, done).Next?
    ensures ErasedIffRunnable(st, ts, j, Drain(st, ts, done).st)
    decreases ts
  {
    if j == 0 {
      FirstMet(st, ts, done);
    } else {
      MetNext(st, ts, j);
      ApartTail(ts, done);
      if !Runnable(st, ts[0]) {
        DrainExact(st, ts[1..], done, j - 1);
      } else {
        var mid := EntryEffect(st, ts[0], done);
        assert SameEntry(st, mid, ts[j]);
        DrainExact(mid, ts[1..], done + {ts[0]}, j - 1);
      }
    }
  }

  /**
    * An entry outlives the drain of a step if and only if its transaction waits, for another or for a
    * site, when it is met; what blocks again while it runs is erased with its entry.
    */
  lemma EntrySurvivesIff(states: seq<State>, inputs: seq<Input>, input: Input, j: nat)
    requires Run(states, inputs)
    requires var last := states[|inputs|];
      WellFormed(last, input.req) && MeetsAll(last, input) && Step(last, input).Next?
    requires BeforeDrain(states[|inputs|], input.req).ToDrain? && j < |input.order|
    ensures var before, after := BeforeDrain(states[|inputs|], input.req).st, Step(states[|inputs|], input).st;
      && input.order[j] in before.queue && after.queue.Keys <= before.queue.Keys
      && ErasedIffRunnable(before, input.order, j, after)
  {
    var last := states[|inputs|];
    RunKeeps(states, inputs, |inputs|);
    BeforeDrainKeeps(last, input.req);
    var before := BeforeDrain(last, input.req).st;
    assert input.order[j] in (set t | t in input.order);
    DrainExact(before, input.order, {}, j);
    forall t | t !in before.queue ensures t !in Step(last, input).st.queue {
      assert t !in (set u | u in input.order);
      DrainSpares(before, input.order, {}, t);
    }
  }

  lemma BeforeDrainKeeps(st: State, req: Option<Request>)
    requires Inv(st) && WellFormed(st, req) && BeforeDrain(st, req).ToDrain?
    ensures Inv(BeforeDrain(st, req).st)
  {
    var seen := Observe(st, req);
    ObserveKeeps(st, req);
    var ms, es := ResolveTrace(seen, req);
    assert ms[|ms| - 1] == Moment(Resolve(seen).st, {}, req);
    if req.Some? {
      ResolveFresh(seen, req.value);
    }
    ms, es := ServeTrace(Resolve(seen).st, req);
    assert ms[|ms| - 1] == Moment(BeforeDrain(st, req).st, {}, req);
  }
}
