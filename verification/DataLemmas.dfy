/** Every primitive change of the state keeps values, versions and read histories in step with the commit log. */
module DataLemmas {
  import opened Base
  import opened Versions
  import opened Model
  import opened Locking
  import opened Execution
  import opened Invariant
  import opened LockLemmas

  /** A change that installs nothing, makes no even replica readable, and drops no lock of a live reader. */
  ghost predicate SameData(st: State, st': State) {
    && st'.log == st.log && st.now <= st'.now
    && (forall p: Replica :: st'.reps[p].value == st.reps[p].value && st'.reps[p].versions == st.reps[p].versions)
    && (forall p | p in st'.readable && !Odd(p.1) :: p in st.readable)
    && (forall t, p: Replica | t in st'.live && !st'.live[t].ro && p in st'.live[t].history ::
          && t in st.live && !st.live[t].ro && p in st.live[t].history
          && st'.live[t].history[p] == st.live[t].history[p]
          && (Holds(st.reps[p], t) ==> Holds(st'.reps[p], t)))
  }

  lemma FrameData(st: State, st': State)
    requires DataInv(st) && SameData(st, st')
    ensures DataInv(st')
  {
    forall p | Authoritative(st', p) ensures st'.reps[p].value == Replay(st'.log, p.1) {
      assert Authoritative(st, p);
    }
    FrameHistory(st, st');
  }

  lemma FrameHistory(st: State, st': State)
    requires HistoryCurrent(st) && SameData(st, st')
    ensures HistoryCurrent(st')
  {
    forall t, p | t in st'.live && !st'.live[t].ro && p in st'.live[t].history
      ensures Odd(p.1) && Holds(st'.reps[p], t) && st'.live[t].history[p] == st'.reps[p].value
    {
      assert Holds(st.reps[p], t);
    }
  }

  lemma AbortData(st: State, ts: set<Tid>)
    requires Tabled(st) && DataInv(st)
    ensures DataInv(Abort(st, ts))
  {
    AbortEffect(st, ts);
    FrameData(st, Abort(st, ts));
  }

  lemma FailData(st: State, s: SiteId)
    requires LockInv(st, {}) && DataInv(st)
    ensures DataInv(FailSite(st, s))
  {
    TakeDownLocks(st, s);
    FrameData(st, TakeDown(st, s));
    AbortData(TakeDown(st, s), Writers(st, s));
  }

  lemma RecoverData(st: State, s: SiteId)
    requires DataInv(st)
    ensures DataInv(RecoverSite(st, s))
  {
    RestoredExact(s);
    FrameData(st, RecoverSite(st, s));
  }

  lemma BeginData(st: State, ts: int, t: Tid, ro: bool)
    requires DataInv(st) && t !in st.live
    ensures DataInv(BeginTran(st, ts, t, ro))
  {
    FrameData(st, BeginTran(st, ts, t, ro));
  }

  lemma GrantingData(st: State, t: Tid, sites: set<SiteId>, v: VarId, val: int)
    requires DataInv(st) && Grantable(st, t, v, sites)
    ensures DataInv(Granting(st, t, sites, v, val))
  {
    var st' := Granting(st, t, sites, v, val);
    GrantingEffect(st, t, sites, v, val);
    HoldersStay(st, st', t, sites, v);
    FrameData(st, st');
  }

  lemma BufferData(st: State, t: Tid, sites: set<SiteId>, v: VarId, val: int)
    requires DataInv(st) && t in st.live
    ensures DataInv(Buffer(st, t, sites, v, val))
  {
    FrameData(st, Buffer(st, t, sites, v, val));
  }

  lemma ShareData(st: State, t: Tid, sites: set<SiteId>, v: VarId)
    requires DataInv(st)
    ensures DataInv(AssignShare(st, t, sites, v))
  {
    FrameData(st, AssignShare(st, t, sites, v));
  }

  /** Recording a read of the current value under a lock, or any read of a read-only transaction. */
  lemma RecordReadData(st: State, t: Tid, p: Replica, val: int)
    requires DataInv(st) && t in st.live
    requires !st.live[t].ro ==> Odd(p.1) && Holds(st.reps[p], t) && val == st.reps[p].value
    ensures DataInv(RecordRead(st, t, p, val))
  {
    var st' := RecordRead(st, t, p, val);
    assert HistoryCurrent(st') by {
      forall u, q | u in st'.live && !st'.live[u].ro && q in st'.live[u].history
        ensures Odd(q.1) && Holds(st'.reps[q], u) && st'.live[u].history[q] == st'.reps[q].value
      {
        if u == t && q == p {
        } else {
          assert q in st.live[u].history;
        }
      }
    }
    forall q | Authoritative(st', q) ensures st'.reps[q].value == Replay(st'.log, q.1) {
      assert Authoritative(st, q);
    }
  }

  // ----- Commit -----

  lemma InstallsSnoc(log: seq<Commit>, c: Commit, p: Replica)
    ensures Installs(log + [c], p) == Installs(log, p) + if p in c.writes then [Stamp(c.time, c.writes[p])] else []
  {
    assert (log + [c])[..|log|] == log;
  }

  lemma ReplaySnoc(log: seq<Commit>, c: Commit, v: VarId)
    ensures Replay(log + [c], v) == if Wrote(c.writes, v) then WrittenValue(c.writes, v) else Replay(log, v)
  {
    assert (log + [c])[..|log|] == log;
  }

  function Committed(st: State, t: Tid, time: int): State
    requires t in st.live
  {
    Install(LogCommit(st, t, time), st.live[t].writes, time)
  }

  lemma CommitStore(st: State, t: Tid, time: int)
    requires t in st.live && StoreIsLog(st)
    ensures StoreIsLog(Committed(st, t, time))
  {
    var st' := Committed(st, t, time);
    var c := st'.log[|st.log|];
    forall p: Replica
      ensures st'.reps[p].value == CurrentValue(p.1 * 10, Installs(st'.log, p))
      ensures st'.reps[p].versions == VersionMap(p.1 * 10, Installs(st'.log, p))
    {
      InstallsSnoc(st.log, c, p);
      var before := Installs(st.log, p);
      assert st'.log == st.log + [c];
      assert st'.reps[p] == if p in c.writes then InstallRep(st.reps[p], c.writes[p], time) else st.reps[p];
      if p in c.writes {
        var after := before + [Stamp(time, c.writes[p])];
        assert after[..|after| - 1] == before;
        assert VersionMap(p.1 * 10, after) == VersionMap(p.1 * 10, before)[time := c.writes[p]];
      } else {
        assert before + [] == before;
      }
    }
  }

  /** What a transaction buffers for a variable is one value, held at every authoritative replica. */
  lemma BufferIsOneValue(st: State, t: Tid, p: Replica)
    requires LockInv(st, {}) && t in st.live
    requires Authoritative(st, p) || p in st.live[t].writes
    ensures p in st.live[t].writes <==> Wrote(st.live[t].writes, p.1)
    ensures Wrote(st.live[t].writes, p.1) ==> st.live[t].writes[p] == WrittenValue(st.live[t].writes, p.1)
  {
    var w := st.live[t].writes;
    forall q | q in w && q.1 == p.1 ensures p in w && w[p] == w[q] {
      assert Holds(st.reps[q], t) && Covered(st, t, q);
      if p in w {
        assert Holds(st.reps[p], t) && Covered(st, t, p);
      }
      if Odd(p.1) {
        assert q == p;
      }
    }
  }

  lemma CommitOneCopy(st: State, t: Tid, time: int)
    requires LockInv(st, {}) && t in st.live && OneCopy(st)
    ensures OneCopy(Committed(st, t, time))
  {
    var st' := Committed(st, t, time);
    var c := st'.log[|st.log|];
    forall p | Authoritative(st', p) ensures st'.reps[p].value == Replay(st'.log, p.1) {
      ReplaySnoc(st.log, c, p.1);
      assert Authoritative(st, p) || p in c.writes;
      BufferIsOneValue(st, t, p);
    }
  }

  lemma CommitReplays(st: State, t: Tid, time: int)
    requires LockInv(st, {}) && t in st.live && OneCopy(st) && HistoryCurrent(st) && ReadsReplayed(st.log)
    ensures ReadsReplayed(Committed(st, t, time).log)
  {
    var log' := Committed(st, t, time).log;
    var n := |st.log|;
    assert log'[..n] == st.log;
    forall i | 0 <= i < |log'| && !log'[i].ro
      ensures forall p | p in log'[i].history :: Odd(p.1) && log'[i].history[p] == Replay(log'[..i], p.1)
    {
      if i < n {
        assert log'[i] == st.log[i] && log'[..i] == st.log[..i];
      } else {
        forall p | p in log'[n].history ensures Odd(p.1) && log'[n].history[p] == Replay(log'[..n], p.1) {
          assert Holds(st.reps[p], t) && Covered(st, t, p);
          assert Authoritative(st, p);
        }
      }
    }
  }

  /** No other live transaction has read what a committing transaction overwrites. */
  lemma CommitHistory(st: State, t: Tid, time: int)
    requires t in st.live && Tabled(Committed(st, t, time)) && HistoryCurrent(st)
    requires BuffersOwned(st) && forall p: Replica :: SingleHolder(st.reps[p], st.live)
    ensures HistoryCurrent(Abort(Committed(st, t, time), {t}))
  {
    var mid := Committed(st, t, time);
    var st' := Abort(mid, {t});
    AbortEffect(mid, {t});
    forall u, p | u in st'.live && !st'.live[u].ro && p in st'.live[u].history
      ensures Odd(p.1) && Holds(st'.reps[p], u) && st'.live[u].history[p] == st'.reps[p].value
    {
      assert u != t && u in st.live && st'.live[u] == st.live[u];
      NotOverwritten(st, t, u, p);
      assert mid.reps[p] == st.reps[p];
    }
  }

  lemma NotOverwritten(st: State, t: Tid, u: Tid, p: Replica)
    requires BuffersOwned(st) && SingleHolder(st.reps[p], st.live)
    requires t in st.live && u != t && Holds(st.reps[p], u)
    ensures p !in st.live[t].writes
  {
  }

  lemma CommittedAndGone(st: State, t: Tid, time: int)
    requires LockInv(st, {}) && DataInv(st) && t in st.live && 0 <= time <= st.now
    ensures DataInv(Abort(Committed(st, t, time), {t}))
  {
    var mid := Committed(st, t, time);
    CommitStore(st, t, time);
    CommitOneCopy(st, t, time);
    CommitReplays(st, t, time);
    InstallLocks(st, t, time);
    CommitHistory(st, t, time);
    AbortValues(mid, {t});
    assert LogTimes(mid.log, mid.now);
  }

  lemma AbortValues(st: State, ts: set<Tid>)
    requires StoreIsLog(st) && OneCopy(st)
    ensures StoreIsLog(Abort(st, ts)) && OneCopy(Abort(st, ts))
    ensures Abort(st, ts).log == st.log && Abort(st, ts).now == st.now
  {
    var st' := Abort(st, ts);
    assert forall p: Replica :: st'.reps[p].value == st.reps[p].value && st'.reps[p].versions == st.reps[p].versions;
    forall p | Authoritative(st', p) ensures st'.reps[p].value == Replay(st'.log, p.1) {
      assert Authoritative(st, p);
    }
  }

  lemma CommitData(st: State, t: Tid, time: int)
    requires LockInv(st, {}) && DataInv(st) && t in st.live && Validates(st, st.live[t])
    requires 0 <= time <= st.now
    ensures DataInv(EndTran(st, t, time))
  {
    CommittedAndGone(st, t, time);
    CommitIsInstallThenAbort(st, t, time);
    FrameData(Abort(Committed(st, t, time), {t}), EndTran(st, t, time));
  }
}
