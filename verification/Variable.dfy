/** Variable objects (repcrec/variable/variable.cc). */
module VariableObject {
  import opened Base
  import opened Versions
  import opened Model
  import opened Locking
  import opened Execution

  class Variable {
    const id: VarId
    ghost const at: SiteId
    var value: int
    var versions: map<int, int>
    var exclusiveOwner: Option<Tid>
    var sharedOwners: set<Tid>

    /** The value of the object as one copy of the variable. */
    ghost function View(): Rep
      reads this
    {
      Rep(value, versions, exclusiveOwner, sharedOwners)
    }

    ghost predicate Valid()
      reads this
    {
      -1 in versions
    }

    constructor (id: VarId, ghost at: SiteId)
      ensures Valid() && this.id == id && this.at == at
      ensures View() == InitRep(id)
    {
      this.id, this.at := id, at;
      value := id * 10;
      versions := map[-1 := id * 10];
      exclusiveOwner, sharedOwners := None, {};
    }

    predicate HasSharedLock(t: Tid)
      reads this
    {
      t in sharedOwners
    }

    predicate HasExclusiveLock(t: Tid)
      reads this
    {
      exclusiveOwner.Some? && exclusiveOwner.value == t
    }

    predicate HasSharedLockExcludeSelf(t: Tid)
      reads this
    {
      sharedOwners != {} && t !in sharedOwners
    }

    predicate HasExclusiveLockExcludeSelf(t: Tid)
      reads this
    {
      exclusiveOwner.Some? && exclusiveOwner.value != t
    }

    /** `true` unless `t` shares the lock already. */
    method AddShared(t: Tid) returns (added: bool)
      modifies this`sharedOwners
      ensures added <==> t !in old(sharedOwners)
      ensures View() == old(View()).(shared := old(sharedOwners) + {t})
    {
      if t in sharedOwners {
        assert sharedOwners + {t} == sharedOwners;
        return false;
      }
      sharedOwners := sharedOwners + {t};
      return true;
    }

    /** Refuses when there is an owner. */
    method SetExclusive(t: Tid) returns (set_: bool)
      modifies this`exclusiveOwner
      ensures set_ <==> old(exclusiveOwner) == None
      ensures View() == if set_ then old(View()).(excl := Some(t)) else old(View())
    {
      if exclusiveOwner.Some? {
        return false;
      }
      exclusiveOwner := Some(t);
      return true;
    }

    /** `t` gives up its shared lock for the exclusive one, unless that has an owner. */
    method Promote(t: Tid)
      requires Valid()
      modifies this
      ensures Valid() && View() == GrantExclusive(old(View()), t)
    {
      if HasSharedLock(t) {
        var removed := RemoveShared(t);
      }
      assert sharedOwners == old(sharedOwners) - {t};
      var granted := SetExclusive(t);
    }

    /** `t` gives up whatever lock it has here. */
    method Drop(t: Tid)
      requires Valid()
      modifies this
      ensures Valid() && View() == DropRep(old(View()), t)
    {
      if HasExclusiveLock(t) {
        RemoveExclusive();
      }
      if HasSharedLock(t) {
        var removed := RemoveShared(t);
      }
      assert sharedOwners == old(sharedOwners) - {t};
    }

    method RemoveExclusive()
      modifies this`exclusiveOwner
      ensures View() == old(View()).(excl := None)
    {
      exclusiveOwner := None;
    }

    method RemoveShared(t: Tid) returns (removed: bool)
      modifies this`sharedOwners
      ensures removed <==> t in old(sharedOwners)
      ensures View() == old(View()).(shared := old(sharedOwners) - {t})
    {
      if t !in sharedOwners {
        assert sharedOwners - {t} == sharedOwners;
        return false;
      }
      sharedOwners := sharedOwners - {t};
      return true;
    }

    /** The current value for -1, and otherwise the version that a snapshot at `ts` sees. */
    function GetValue(ts: int): (val: int)
      requires Valid() && -1 <= ts
      reads this
      ensures ts == -1 ==> val == value
      ensures ts != -1 ==> exists k :: IsFloor(versions, ts, k) && val == versions[k]
      ensures val == ValueAt(View(), ts)
    {
      if ts == -1 then value else versions[FloorKey(versions, ts)]
    }

    method SetValue(val: int, time: int)
      requires Valid()
      modifies this
      ensures Valid() && View() == InstallRep(old(View()), val, time)
    {
      value := val;
      versions := versions[time := val];
    }
  }
}
