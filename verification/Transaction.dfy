/** Transaction objects (repcrec/transaction/transaction.cc). */
module TransactionObject {
  import opened Base
  import opened Model

  class Transaction {
    const id: Tid
    const ts: int
    const readOnly: bool
    var writeRecords: map<Replica, int>
    var writeAccessed: map<Replica, int>
    var readAccessed: map<Replica, int>

    ghost function View(): Tran
      reads this
    {
      Tran(ts, readOnly, writeRecords, readAccessed)
    }

    /** Both write maps are kept in step. */
    ghost predicate Valid()
      reads this
    {
      0 <= ts && writeAccessed == writeRecords
    }

    constructor (id: Tid, ts: int, readOnly: bool)
      requires 0 <= ts
      ensures Valid() && this.id == id && View() == Tran(ts, readOnly, map[], map[])
    {
      this.id, this.ts, this.readOnly := id, ts, readOnly;
      writeRecords, writeAccessed, readAccessed := map[], map[], map[];
    }

    method UpdateValues(s: SiteId, v: VarId, val: int)
      requires Valid()
      modifies this
      ensures Valid() && View() == old(View()).(writes := old(writeRecords)[(s, v) := val])
    {
      writeRecords := writeRecords[(s, v) := val];
      writeAccessed := writeAccessed[(s, v) := val];
    }

    method AddReadHistory(s: SiteId, v: VarId, val: int)
      requires Valid()
      modifies this
      ensures Valid() && View() == old(View()).(history := old(readAccessed)[(s, v) := val])
    {
      readAccessed := readAccessed[(s, v) := val];
    }

    predicate IsWrittenIntoSite(s: SiteId)
      reads this
    {
      exists p | p in writeAccessed :: p.0 == s
    }
  }
}
