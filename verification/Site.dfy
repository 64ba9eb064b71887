/** Site objects (repcrec/site/site.cc). */
module SiteObject {
  import opened Base
  import opened Model
  import opened Execution
  import opened VariableObject

  class Site {
    const id: SiteId
    const variables: map<VarId, Variable>
    var writeAvailable: bool
    var readAvailable: map<VarId, bool>

    /** The site owns one object per variable; the objects of different sites differ in `at`. */
    ghost predicate Built() {
      && (forall v: VarId :: v in variables)
      && (forall v: VarId :: variables[v].id == v && variables[v].at == id)
    }

    ghost predicate Valid()
      reads this
    {
      Built() && forall v: VarId :: v in readAvailable
    }

    constructor (id: SiteId)
      ensures Valid() && this.id == id && writeAvailable
      ensures forall v: VarId :: readAvailable[v]
      ensures forall v: VarId :: fresh(variables[v]) && variables[v].Valid() && variables[v].View() == InitRep(v)
    {
      var vars: map<VarId, Variable>, readable: map<VarId, bool> := map[], map[];
      var i := 1;
      while i <= VAR_COUNT
        invariant 1 <= i <= VAR_COUNT + 1
        invariant forall v: VarId | v < i ::
          && v in vars && fresh(vars[v]) && vars[v].id == v && vars[v].at == id
          && vars[v].Valid() && vars[v].View() == InitRep(v)
          && v in readable && readable[v]
      {
        var v: VarId := i;
        var obj := new Variable(v, id);
        vars, readable := vars[v := obj], readable[v := true];
        i := i + 1;
      }
      this.id := id;
      variables := vars;
      writeAvailable, readAvailable := true, readable;
    }

    predicate IsReadAvailable(v: VarId)
      requires Valid()
      reads this
    {
      readAvailable[v]
    }

    method AssignVar(v: VarId, val: int, time: int)
      requires Valid() && variables[v].Valid()
      modifies variables[v]
      ensures variables[v].Valid() && variables[v].View() == InstallRep(old(variables[v].View()), val, time)
    {
      variables[v].SetValue(val, time);
    }

    method SetUnavailable()
      requires Valid()
      modifies this
      ensures Valid() && !writeAvailable && forall v: VarId :: !readAvailable[v]
    {
      var i := 1;
      while i <= VAR_COUNT
        invariant 1 <= i <= VAR_COUNT + 1
        invariant Valid() && forall v: VarId | v < i :: !readAvailable[v]
      {
        readAvailable := readAvailable[i := false];
        i := i + 1;
      }
      writeAvailable := false;
    }

    method SetReadAvailable(v: VarId)
      requires Valid()
      modifies this`readAvailable
      ensures Valid() && readAvailable == old(readAvailable)[v := true]
    {
      readAvailable := readAvailable[v := true];
    }

    method SetWriteAvailable()
      requires Valid()
      modifies this`writeAvailable
      ensures Valid() && writeAvailable
    {
      writeAvailable := true;
    }
  }
}
