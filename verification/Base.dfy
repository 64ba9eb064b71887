/** Identifiers and constants shared by every component (repcrec/global.h). */
module Base {
  datatype Option<+T> = None | Some(value: T)

  const SITE_COUNT := 10
  const VAR_COUNT := 20

  type SiteId = s: int | 1 <= s <= 10 witness 1
  type VarId = v: int | 1 <= v <= 20 witness 1
  type Tid = nat

  /** One copy of one variable: the site that holds it and the variable. */
  type Replica = (SiteId, VarId)

  /** Also names a site in the triggers of `SitesUpTo`. */
  predicate AmongFirst(s: SiteId, n: int) {
    s <= n
  }

  function SitesUpTo(n: int): set<SiteId> {
    set s: SiteId | 1 <= s <= SITE_COUNT && AmongFirst(s, n)
  }

  function ReplicasAt(sites: set<SiteId>): set<Replica> {
    set s, v: VarId | s in sites && 1 <= v <= VAR_COUNT :: (s, v)
  }

  lemma AllReplicas()
    ensures forall s: SiteId :: s in SitesUpTo(SITE_COUNT)
    ensures forall p: Replica :: p in ReplicasAt(SitesUpTo(SITE_COUNT))
  {
    assert forall s: SiteId :: AmongFirst(s, SITE_COUNT);
    forall p: Replica ensures p in ReplicasAt(SitesUpTo(SITE_COUNT)) {
      assert p == (p.0, p.1);
    }
  }

  /** A loop over the set `all` that moves `x` from what is still to do to what is done. */
  lemma MoveOver<T>(all: set<T>, todo: set<T>, done: set<T>, x: T)
    requires todo + done == all && todo !! done && x in todo
    ensures x !in done && (todo - {x}) + (done + {x}) == all && (todo - {x}) !! (done + {x})
    ensures |todo - {x}| < |todo|
  {
  }

  predicate Odd(v: VarId) {
    v % 2 == 1
  }

  /** The only site an odd variable is used at. */
  function Home(v: VarId): SiteId {
    1 + v % 10
  }

  /** The sites at which a variable is locked, read and written: all of them, or the home site. */
  predicate Hosts(s: SiteId, v: VarId) {
    Odd(v) ==> s == Home(v)
  }
}
