/** The ten sites (repcrec/site_manager/site_manager.cc) and what can be done to one site or one variable. */
module SiteManagerObject {
  import opened Base
  import opened Model
  import opened Locking
  import opened Execution
  import opened VariableObject
  import opened SiteObject

  /** Named in the triggers below, so that what `Valid` says of all replicas is used only where one is named. */
  predicate Named(p: Replica) {
    true
  }

  class SiteManager {
    const sites: map<SiteId, Site>

    /** The sites as values; `Valid` ties them to the objects. */
    ghost var up: set<SiteId>
    ghost var readable: set<Replica>
    ghost var reps: Store

    ghost predicate Wired() {
      forall p: Replica {:trigger Named(p)} :: Named(p) ==>
        && p.0 in sites && sites[p.0].id == p.0
        && p.1 in sites[p.0].variables
        && sites[p.0].variables[p.1].id == p.1 && sites[p.0].variables[p.1].at == p.0
    }

    /** Objects of different replicas differ, as their constants do. */
    ghost function Var(p: Replica): (x: Variable)
      requires Wired()
      ensures x.id == p.1 && x.at == p.0 && x in Variables()
    {
      assert Named(p);
      sites[p.0].variables[p.1]
    }

    ghost function Variables(): set<object> {
      set s, v | s in sites && v in sites[s].variables :: sites[s].variables[v]
    }

    ghost function Sites(): set<object> {
      set s | s in sites :: sites[s]
    }

    ghost predicate SitesMatch()
      requires Wired()
      reads this, Sites()
    {
      forall p: Replica {:trigger Named(p)} :: Named(p) ==>
        && sites[p.0].Valid()
        && (p.0 in up <==> sites[p.0].writeAvailable)
        && (p in readable <==> sites[p.0].readAvailable[p.1])
    }

    ghost predicate VariablesMatch()
      requires Wired()
      reads this, Variables()
    {
      forall p: Replica {:trigger Named(p)} :: Named(p) ==>
        Var(p).Valid() && reps[p] == Var(p).View()
    }

    ghost predicate Valid()
      reads this, Sites(), Variables()
    {
      Wired() && SitesMatch() && VariablesMatch()
    }

    /** Ten sites, all up and readable, holding the initial values. */
    constructor ()
      ensures Valid() && fresh(Sites()) && fresh(Variables())
      ensures up == SitesUpTo(SITE_COUNT) && readable == ReplicasAt(up) && reps == InitStore(up)
    {
      var built: map<SiteId, Site> := map[];
      var i := 1;
      while i <= SITE_COUNT
        invariant 1 <= i <= SITE_COUNT + 1
        invariant forall s | s in built :: s < i
        invariant forall s: SiteId | s < i ::
          && s in built && fresh(built[s]) && built[s].id == s && built[s].Valid() && built[s].writeAvailable
          && forall v: VarId ::
               && built[s].readAvailable[v] && fresh(built[s].variables[v])
               && built[s].variables[v].Valid() && built[s].variables[v].View() == InitRep(v)
        invariant forall s | s in built :: forall v | v in built[s].variables :: fresh(built[s].variables[v])
      {
        var s: SiteId := i;
        var site := new Site(s);
        built := built[s := site];
        i := i + 1;
      }
      sites := built;
      ghost var all := SitesUpTo(SITE_COUNT);
      up, readable, reps := all, ReplicasAt(all), InitStore(all);
      new;
      AllReplicas();
    }

    // ----- Queries -----

    predicate IsWriteAvailable(s: SiteId)
      requires Valid()
      reads this, Sites(), Variables()
      ensures IsWriteAvailable(s) <==> s in up
    {
      assert Named((s, 1));
      sites[s].writeAvailable
    }

    predicate IsReadAvailable(s: SiteId, v: VarId)
      requires Valid()
      reads this, Sites(), Variables()
      ensures IsReadAvailable(s, v) <==> (s, v) in readable
    {
      assert Named((s, v));
      sites[s].IsReadAvailable(v)
    }

    function GetVariable(s: SiteId, v: VarId): (x: Variable)
      requires Valid()
      reads this, Sites(), Variables()
      ensures x == Var((s, v)) && x.Valid() && x.View() == reps[(s, v)]
    {
      assert Named((s, v));
      sites[s].variables[v]
    }

    // ----- One variable -----

    method Promote(s: SiteId, v: VarId, t: Tid)
      requires Valid()
      modifies this`reps, Variables()
      ensures Valid() && reps == old(reps)[(s, v) := GrantExclusive(old(reps[(s, v)]), t)]
    {
      assert Named((s, v));
      var x := sites[s].variables[v];
      x.Promote(t);
      reps := reps[(s, v) := x.View()];
      forall p: Replica | Named(p) ensures Var(p).Valid() && reps[p] == Var(p).View() {
        assert p != (s, v) ==> Var(p) != x;
      }
    }

    method Share(s: SiteId, v: VarId, t: Tid)
      requires Valid()
      modifies this`reps, Variables()
      ensures Valid() && reps == old(reps)[(s, v) := SharedRep(old(reps[(s, v)]), t)]
    {
      assert Named((s, v));
      var x := sites[s].variables[v];
      var added := x.AddShared(t);
      reps := reps[(s, v) := x.View()];
      forall p: Replica | Named(p) ensures Var(p).Valid() && reps[p] == Var(p).View() {
        assert p != (s, v) ==> Var(p) != x;
      }
    }

    method Drop(s: SiteId, v: VarId, t: Tid)
      requires Valid()
      modifies this`reps, Variables()
      ensures Valid() && reps == old(reps)[(s, v) := DropRep(old(reps[(s, v)]), t)]
    {
      assert Named((s, v));
      var x := sites[s].variables[v];
      x.Drop(t);
      reps := reps[(s, v) := x.View()];
      forall p: Replica | Named(p) ensures Var(p).Valid() && reps[p] == Var(p).View() {
        assert p != (s, v) ==> Var(p) != x;
      }
    }

    method AssignVar(s: SiteId, v: VarId, val: int, time: int)
      requires Valid()
      modifies this`reps, Variables()
      ensures Valid() && reps == old(reps)[(s, v) := InstallRep(old(reps[(s, v)]), val, time)]
    {
      assert Named((s, v));
      var x := sites[s].variables[v];
      sites[s].AssignVar(v, val, time);
      reps := reps[(s, v) := x.View()];
      forall p: Replica | Named(p) ensures Var(p).Valid() && reps[p] == Var(p).View() {
        assert p != (s, v) ==> Var(p) != x;
      }
    }

    // ----- One site -----

    method SetReadAvailable(s: SiteId, v: VarId)
      requires Valid()
      modifies this`readable, Sites()
      ensures Valid() && readable == old(readable) + {(s, v)}
    {
      assert Named((s, v));
      sites[s].SetReadAvailable(v);
      readable := readable + {(s, v)};
      forall p: Replica | Named(p)
        ensures sites[p.0].Valid() && (p.0 in up <==> sites[p.0].writeAvailable)
        ensures p in readable <==> sites[p.0].readAvailable[p.1]
      {
        assert p.0 != s ==> sites[p.0] != sites[s];
      }
    }

    method SetWriteAvailable(s: SiteId)
      requires Valid()
      modifies this`up, Sites()
      ensures Valid() && up == old(up) + {s}
    {
      assert Named((s, 1));
      sites[s].SetWriteAvailable();
      up := up + {s};
    }

    method SetUnavailable(s: SiteId)
      requires Valid()
      modifies this`up, this`readable, Sites()
      ensures Valid() && up == old(up) - {s} && readable == set p | p in old(readable) && p.0 != s
    {
      assert Named((s, 1));
      sites[s].SetUnavailable();
      up, readable := up - {s}, set p | p in readable && p.0 != s;
      forall p: Replica | Named(p)
        ensures sites[p.0].Valid() && (p.0 in up <==> sites[p.0].writeAvailable)
        ensures p in readable <==> sites[p.0].readAvailable[p.1]
      {
        assert p.0 != s ==> sites[p.0] != sites[s];
      }
    }
  }
}
