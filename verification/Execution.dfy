/** Requests and the transaction manager's step as functions of the state. */
module Execution {
  import opened Base
  import opened Versions
  import opened Model
  import opened Locking
  import opened Graph

  // ----- Transactions (repcrec/transaction/transaction.cc) -----

  function WithWrites(tr: Tran, sites: set<SiteId>, v: VarId, val: int): Tran {
    tr.(writes := tr.writes + (map s | s in sites :: (s, v) := val))
  }

  function Buffer(st: State, t: Tid, sites: set<SiteId>, v: VarId, val: int): State
    requires t in st.live
  {
    st.(live := st.live[t := WithWrites(st.live[t], sites, v, val)])
  }

  function RecordRead(st: State, t: Tid, p: Replica, val: int): State
    requires t in st.live
  {
    var tr := st.live[t];
    st.(live := st.live[t := tr.(history := tr.history[p := val])])
  }

  predicate Validates(st: State, tr: Tran) {
    && (forall p | p in tr.writes :: p.0 in st.up)
    && (forall p | p in tr.history :: p in st.readable)
  }

  function InstallRep(rep: Rep, val: int, time: int): Rep {
    rep.(value := val, versions := rep.versions[time := val])
  }

  function Install(st: State, writes: map<Replica, int>, time: int): State {
    st.(reps := map p | p in st.reps ::
          if p in writes then InstallRep(st.reps[p], writes[p], time) else st.reps[p],
        readable := st.readable + writes.Keys)
  }

  function Evict(st: State, t: Tid): State {
    st.(live := st.live - {t})
  }

  function LogCommit(st: State, t: Tid, time: int): State
    requires t in st.live
  {
    var tr := st.live[t];
    st.(log := st.log + [Commit(t, tr.ro, time, tr.history, tr.writes)])
  }

  /** `abort_transaction` run for each transaction of `ts`. */
  function Abort(st: State, ts: set<Tid>): State {
    Release(st.(live := st.live - ts, queue := st.queue - ts), ts)
  }

  function EndTran(st: State, t: Tid, time: int): State
    requires t in st.live
  {
    if Validates(st, st.live[t]) then
      Evict(Release(Install(LogCommit(st, t, time), st.live[t].writes, time), {t}), t)
    else Abort(st, {t})
  }

  // ----- Blocked queue and site waiting map -----

  /** Insertion into a set ordered by time: an entry with an equal time keeps the newcomer out. */
  function InsertByTime(q: seq<Request>, r: Request): seq<Request> {
    if q == [] then [r]
    else if q[0].ts == r.ts then q
    else if r.ts < q[0].ts then [r] + q
    else [q[0]] + InsertByTime(q[1..], r)
  }

  function Enqueue(st: State, r: Request): State
    requires r.OfTran()
  {
    st.(queue := st.queue[r.t := InsertByTime(if r.t in st.queue then st.queue[r.t] else [], r)])
  }

  function AwaitSite(st: State, t: Tid, s: SiteId): State {
    if t in st.siteWait then st else st.(siteWait := st.siteWait[t := s])
  }

  // ----- Requests (repcrec/request/request.cc) -----

  function BeginTran(st: State, ts: int, t: Tid, ro: bool): State {
    st.(live := st.live[t := Tran(ts, ro, map[], map[])], begun := st.begun + {t})
  }

  function ExecWrite(st: State, r: Request): Outcome
    requires r.Write?
  {
    WriteWith(st, r, Acquire(st, r.t, r.v))
  }

  /** The switch on what `try_acquire_write_lock` reported. */
  function WriteWith(st: State, r: Request, a: LockStatus): Outcome
    requires r.Write?
  {
    match a.status
    case SiteUnavailable => if Odd(r.v) then Next(st) else Throws
    case NeedToWait => Next(Enqueue(AddWaits(st, r.t, a.owners), r))
    case HasWriteLock =>
      var sites := if Odd(r.v) then {Home(r.v)} else a.sites;
      if sites == {} then Next(st)
      else if r.t !in st.live then Throws
      else Next(Buffer(st, r.t, sites, r.v, r.val))
    case HasReadLock => GrantWrite(st, r, a.sites)
    case AvailableToAssign => GrantWrite(st, r, a.sites)
    case HasReadWriteLock => Throws
  }

  function GrantWrite(st: State, r: Request, sites: set<SiteId>): Outcome
    requires r.Write?
  {
    if sites == {} then Next(st)
    else if r.t !in st.live then Throws
    else Next(AssignWrite(Buffer(st, r.t, sites, r.v, r.val), r.t, sites, r.v))
  }

  /** The least readable site from `s` on. */
  function FirstReadable(st: State, v: VarId, s: int): (first: Option<SiteId>)
    requires 1 <= s
    ensures first.Some? ==> s <= first.value && (first.value, v) in st.readable
    ensures forall i: SiteId | s <= i && (i, v) in st.readable :: first.Some? && first.value <= i
    decreases SITE_COUNT + 1 - s
  {
    if s > SITE_COUNT then None
    else if (s, v) in st.readable then Some(s)
    else FirstReadable(st, v, s + 1)
  }

  function ValueAt(rep: Rep, ts: int): int {
    if ts == -1 then rep.value
    else if -1 in rep.versions && -1 <= ts then Lookup(rep.versions, ts)
    else 0
  }

  function ExecRead(st: State, r: Request): Outcome
    requires r.Read?
  {
    if r.t !in st.live then Throws
    else if st.live[r.t].ro then ReadOnly(st, r)
    else LockingRead(st, r)
  }

  function ReadOnly(st: State, r: Request): Outcome
    requires r.Read? && r.t in st.live
  {
    var ts := st.live[r.t].ts;
    if Odd(r.v) then
      var p := (Home(r.v), r.v);
      if p in st.readable then Next(RecordRead(st, r.t, p, ValueAt(st.reps[p], ts)))
      else Next(Enqueue(AwaitSite(st, r.t, Home(r.v)), r))
    else
      match FirstReadable(st, r.v, 1)
      case Some(s) => Next(RecordRead(st, r.t, (s, r.v), ValueAt(st.reps[(s, r.v)], ts)))
      case None => Next(Abort(st, {r.t}))
  }

  function LockingRead(st: State, r: Request): Outcome
    requires r.Read? && r.t in st.live
  {
    if Odd(r.v) && (Home(r.v), r.v) !in st.readable then Next(Enqueue(AwaitSite(st, r.t, Home(r.v)), r))
    else ReadWith(st, r, Acquire(st, r.t, r.v))
  }

  function ReadWith(st: State, r: Request, a: LockStatus): Outcome
    requires r.Read? && r.t in st.live
  {
    var p := (Home(r.v), r.v);
    match a.status
    case SiteUnavailable => if Odd(r.v) then Next(st) else Throws
    case NeedToWait => Next(Enqueue(AddWaits(st, r.t, a.owners), r))
    case HasReadWriteLock => if Odd(r.v) then Next(RecordRead(st, r.t, p, st.reps[p].value)) else Next(st)
    case AvailableToAssign =>
      var st' := AssignShare(st, r.t, a.sites, r.v);
      Next(if Odd(r.v) then RecordRead(st', r.t, p, st'.reps[p].value) else st')
    case HasReadLock => Throws
    case HasWriteLock => Throws
  }

  function Writers(st: State, s: SiteId): set<Tid> {
    set t | t in st.live && WroteSite(st.live[t], s)
  }

  function TakeDown(st: State, s: SiteId): State {
    st.(readable := (set p | p in st.readable && p.0 != s), up := st.up - {s})
  }

  function FailSite(st: State, s: SiteId): State {
    Abort(TakeDown(st, s), Writers(st, s))
  }

  function Restored(s: SiteId): set<Replica> {
    if (s - 1) % 2 == 1 then {(s, s - 1), (s, s - 1 + 10)} else {}
  }

  function RecoverSite(st: State, s: SiteId): State {
    st.(up := st.up + {s}, readable := st.readable + Restored(s),
        siteWait := map t | t in st.siteWait && st.siteWait[t] != s :: st.siteWait[t])
  }

  function Exec(st: State, r: Request): Outcome {
    match r
    case Begin(ts, t, ro) => Next(BeginTran(st, ts, t, ro))
    case Read(_, _, _) => ExecRead(st, r)
    case Write(_, _, _, _) => ExecWrite(st, r)
    case End(ts, t) => if t in st.live then Next(EndTran(st, t, ts)) else Throws
    case Fail(_, s) => Next(FailSite(st, s))
    case Recover(_, s) => Next(RecoverSite(st, s))
    case Dump(_) => Next(st)
  }

  // ----- One call of execute_instructions (repcrec/transaction_manager/transaction_manager.cc:63-117) -----

  /** The first element of the set ordered by descending begin time. */
  predicate Youngest(live: map<Tid, Tran>, t: Tid) {
    t in live && forall u | u in live :: live[u].ts <= live[t].ts
  }

  lemma YoungestExists(live: map<Tid, Tran>)
    requires live != map[]
    ensures exists t :: Youngest(live, t)
  {
    var times := set t | t in live :: live[t].ts;
    var t :| t in live;
    assert live[t].ts in times;
    var k := Greatest(times);
    var u :| u in live && live[u].ts == k;
    forall w | w in live ensures live[w].ts <= live[u].ts {
      assert live[w].ts in times;
    }
    assert Youngest(live, u);
  }

  ghost function PickYoungest(live: map<Tid, Tran>): (t: Tid)
    requires live != map[]
    ensures Youngest(live, t)
  {
    YoungestExists(live);
    var t :| Youngest(live, t);
    t
  }

  ghost function Resolve(st: State): Outcome
    decreases |st.live|
  {
    if !HasCycle(st.wait) then Next(st)
    else if st.live == map[] then EmptySet
    else
      assert PickYoungest(st.live) in st.live;
      Resolve(Abort(st, {PickYoungest(st.live)}))
  }

  function ExecAll(st: State, rs: seq<Request>): Outcome
    decreases rs
  {
    if rs == [] then Next(st)
    else
      match Exec(st, rs[0])
      case Next(st') => ExecAll(st', rs[1..])
      case Throws => Throws
      case EmptySet => EmptySet
  }

  predicate Runnable(st: State, t: Tid) {
    t in st.queue && !Waiting(st.wait, t) && t !in st.siteWait
  }

  /** The drain in the order `ts`; `done` gathers the transactions whose entries are erased at the end. */
  function Drain(st: State, ts: seq<Tid>, done: set<Tid>): Outcome
    decreases ts
  {
    if ts == [] then Next(st.(queue := st.queue - done))
    else if !Runnable(st, ts[0]) then Drain(st, ts[1..], done)
    else
      match ExecAll(st, st.queue[ts[0]])
      case Next(st') => Drain(st', ts[1..], done + {ts[0]})
      case Throws => Throws
      case EmptySet => EmptySet
  }

  /** A request, or none while the final loop drains, and the order in which the drain meets the queue. */
  datatype Input = Input(req: Option<Request>, order: seq<Tid>)

  /** History only: what the script has issued. */
  function Observe(st: State, req: Option<Request>): State {
    match req
    case None => st
    case Some(r) =>
      st.(now := r.ts,
          ended := if r.End? then st.ended + {r.t} else st.ended,
          asked := if r.Read? || r.Write? then st.asked + {(r.t, r.v)} else st.asked)
  }

  predicate Dropped(st: State, r: Request) {
    r.OfTran() && r.t !in st.live && !r.Begin?
  }

  predicate Blocked(st: State, r: Request) {
    r.OfTran() && (Waiting(st.wait, r.t) || r.t in st.queue || r.t in st.siteWait)
  }

  /** Either the step is over, or the blocked queue is drained from the given state on. */
  datatype Served = Over(out: Outcome) | ToDrain(st: State)

  function Serve(st: State, req: Option<Request>): Served {
    match req
    case None => ToDrain(st)
    case Some(r) =>
      if Dropped(st, r) then Over(Next(st))
      else if Blocked(st, r) then
        Over(if r.Read? || r.Write? then Exec(st, r) else Next(Enqueue(st, r)))
      else
        match Exec(st, r)
        case Next(st') => ToDrain(st')
        case Throws => Over(Throws)
        case EmptySet => Over(EmptySet)
  }

  ghost function BeforeDrain(st: State, req: Option<Request>): Served {
    match Resolve(Observe(st, req))
    case Next(st') => Serve(st', req)
    case Throws => Over(Throws)
    case EmptySet => Over(EmptySet)
  }

  ghost function Step(st: State, input: Input): Outcome {
    match BeforeDrain(st, input.req)
    case Over(out) => out
    case ToDrain(st') => Drain(st', input.order, {})
  }

  predicate Distinct(ts: seq<Tid>) {
    forall i, j :: 0 <= i < j < |ts| ==> ts[i] != ts[j]
  }

  /** The drain meets every entry of the queue once, in some order. */
  ghost predicate MeetsAll(st: State, input: Input) {
    var before := BeforeDrain(st, input.req);
    before.ToDrain? ==> Distinct(input.order) && (set t | t in input.order) == before.st.queue.Keys
  }

  /** What a well-formed script may issue next; the final dump may repeat the last time stamp. */
  predicate WellFormed(st: State, req: Option<Request>) {
    match req
    case None => true
    case Some(r) =>
      && (if r.Dump? then st.now <= r.ts else st.now < r.ts)
      && (r.Begin? ==> r.t !in st.begun)
      && (r.Read? || r.Write? || r.End? ==> r.t in st.begun && r.t !in st.ended)
  }

  /** A finite run of the database from its initial state. */
  ghost predicate Run(states: seq<State>, inputs: seq<Input>) {
    && |states| == |inputs| + 1
    && states[0] == Init(START)
    && Steps(states, inputs)
  }

  ghost predicate Steps(states: seq<State>, inputs: seq<Input>) {
    && |states| == |inputs| + 1
    && forall i {:trigger inputs[i]} :: 0 <= i < |inputs| ==>
         && WellFormed(states[i], inputs[i].req)
         && MeetsAll(states[i], inputs[i])
         && Step(states[i], inputs[i]) == Next(states[i + 1])
  }
}
