/**
  * The state of the simulated database as one value: ten sites with their replicas, the lock
  * manager's tables, the live transactions, the blocked queue, and five history fields
  * (`now`, `begun`, `ended`, `asked`, `log`) that no operation reads.
  */
module Model {
  import opened Base
  import opened Versions

  /** One copy of one variable (repcrec/variable/variable.h:40-47). */
  datatype Rep = Rep(value: int, versions: map<int, int>, excl: Option<Tid>, shared: set<Tid>)

  /** A transaction object; `writes` is the write buffer, `history` the read history. */
  datatype Tran = Tran(ts: int, ro: bool, writes: map<Replica, int>, history: map<Replica, int>)

  /** History: one successful commit. */
  datatype Commit = Commit(t: Tid, ro: bool, time: int, history: map<Replica, int>, writes: map<Replica, int>)

  datatype Request =
    | Begin(ts: int, t: Tid, ro: bool)
    | Read(ts: int, t: Tid, v: VarId)
    | Write(ts: int, t: Tid, v: VarId, val: int)
    | End(ts: int, t: Tid)
    | Fail(ts: int, site: SiteId)
    | Recover(ts: int, site: SiteId)
    | Dump(ts: int)
  {
    /** Requests of sites and dumps carry the transaction id -1. */
    predicate OfTran() {
      Begin? || Read? || Write? || End?
    }
  }

  function InitRep(v: VarId): Rep {
    Rep(v * 10, VersionMap(v * 10, []), None, {})
  }

  function InitStore(sites: set<SiteId>): (m: map<Replica, Rep>)
    ensures sites == SitesUpTo(SITE_COUNT) ==> Complete(m)
  {
    AllReplicas();
    map p | p in ReplicasAt(sites) :: InitRep(p.1)
  }

  ghost predicate Complete(m: map<Replica, Rep>) {
    forall p: Replica :: p in m
  }

  type Store = m: map<Replica, Rep> | Complete(m) ghost witness InitStore(SitesUpTo(SITE_COUNT))

  datatype State = State(
    up: set<SiteId>,
    readable: set<Replica>,
    reps: Store,
    locks: map<Tid, set<VarId>>,
    wait: set<(Tid, Tid)>,
    live: map<Tid, Tran>,
    queue: map<Tid, seq<Request>>,
    siteWait: map<Tid, SiteId>,
    now: int,
    begun: set<Tid>,
    ended: set<Tid>,
    asked: set<(Tid, VarId)>,
    log: seq<Commit>)

  /** `Throws` is an escaping exception; `EmptySet` is a read of the first element of an empty set. */
  datatype Outcome = Next(st: State) | Throws | EmptySet

  /** The clock before the first instruction (repcrec/transaction_manager/transaction_manager.cc:10). */
  const START := 10000

  function Init(clock: int): State {
    var sites := SitesUpTo(SITE_COUNT);
    State(sites, ReplicasAt(sites), InitStore(sites), map[], {}, map[], map[], map[], clock, {}, {}, {}, [])
  }

  predicate Holds(rep: Rep, t: Tid) {
    t in rep.shared || rep.excl == Some(t)
  }

  /** `t` holds a lock, of either kind, on some replica of `v`. */
  ghost predicate HoldsVar(st: State, t: Tid, v: VarId) {
    exists s: SiteId :: Holds(st.reps[(s, v)], t)
  }

  predicate WroteSite(tr: Tran, s: SiteId) {
    exists p | p in tr.writes :: p.0 == s
  }
}
