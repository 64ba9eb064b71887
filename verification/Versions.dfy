/** The multiversion store of one replica: floor lookup by time stamp. */
module Versions {

  /** One call of `set_value`. */
  datatype Stamp = Stamp(time: int, value: int)

  /** The version map that a sequence of installs leaves behind; -1 stamps the initial value. */
  function VersionMap(initial: int, writes: seq<Stamp>): map<int, int> {
    if writes == [] then map[-1 := initial]
    else VersionMap(initial, writes[..|writes| - 1])[writes[|writes| - 1].time := writes[|writes| - 1].value]
  }

  /** The current value that a sequence of installs leaves behind. */
  function CurrentValue(initial: int, writes: seq<Stamp>): int {
    if writes == [] then initial else writes[|writes| - 1].value
  }

  /** `k` is the greatest stamp not after `ts`. */
  predicate IsFloor(versions: map<int, int>, ts: int, k: int) {
    k in versions && k <= ts && forall j | j in versions && j <= ts :: j <= k
  }

  function FloorKey(versions: map<int, int>, ts: int): (k: int)
    requires -1 in versions && -1 <= ts
    ensures IsFloor(versions, ts, k)
  {
    FloorKeyExists(versions, ts);
    var k :| k in versions.Keys && k <= ts && forall j | j in versions.Keys && j <= ts :: j <= k;
    k
  }

  lemma FloorKeyExists(versions: map<int, int>, ts: int)
    requires -1 in versions && -1 <= ts
    ensures exists k :: k in versions.Keys && k <= ts && forall j | j in versions.Keys && j <= ts :: j <= k
  {
    var below := set k | k in versions.Keys && k <= ts;
    assert -1 in below;
    var k := Greatest(below);
    assert k in versions.Keys && k <= ts;
    forall j | j in versions.Keys && j <= ts ensures j <= k {
      assert j in below;
    }
  }

  lemma {:induction false} Greatest(s: set<int>) returns (k: int)
    requires exists x :: x in s
    ensures k in s && forall j :: j in s ==> j <= k
    decreases |s|
  {
    var x :| x in s;
    k := x;
    if y :| y in s - {x} {
      var m := Greatest(s - {x});
      k := if m > x then m else x;
    }
    forall j | j in s ensures j <= k {
      assert j == x || j in s - {x};
    }
  }

  function Lookup(versions: map<int, int>, ts: int): int
    requires -1 in versions && -1 <= ts
  {
    versions[FloorKey(versions, ts)]
  }

  /** Entry `i` is the newest one visible at `ts`: greatest time not after it, latest among equal times. */
  predicate Newest(writes: seq<Stamp>, ts: int, i: nat) {
    && i < |writes|
    && writes[i].time <= ts
    && forall j :: 0 <= j < |writes| && writes[j].time <= ts ==>
         writes[j].time < writes[i].time || (writes[j].time == writes[i].time && j <= i)
  }

  predicate Visible(writes: seq<Stamp>, ts: int) {
    exists i :: 0 <= i < |writes| && writes[i].time <= ts
  }

  lemma {:induction false} VersionMapKeys(initial: int, writes: seq<Stamp>)
    ensures -1 in VersionMap(initial, writes)
    ensures forall k :: k in VersionMap(initial, writes) <==>
              k == -1 || exists i :: 0 <= i < |writes| && writes[i].time == k
  {
    if writes != [] {
      var n := |writes| - 1;
      VersionMapKeys(initial, writes[..n]);
      assert forall i :: 0 <= i < n ==> writes[..n][i] == writes[i];
    }
  }

  /** Floor lookup agrees with the log of installs, whatever the order of their times. */
  lemma {:induction false} LookupRefinesLog(initial: int, writes: seq<Stamp>, ts: int)
    requires 0 <= ts
    requires forall i :: 0 <= i < |writes| ==> 0 <= writes[i].time
    ensures -1 in VersionMap(initial, writes)
    ensures !Visible(writes, ts) ==> Lookup(VersionMap(initial, writes), ts) == initial
    ensures Visible(writes, ts) ==> exists i: nat :: Newest(writes, ts, i)
    ensures forall i: nat :: Newest(writes, ts, i) ==> Lookup(VersionMap(initial, writes), ts) == writes[i].value
  {
    VersionMapKeys(initial, writes);
    if !Visible(writes, ts) {
      FloorOfNothing(initial, writes, ts);
    } else {
      var i := NewestExists(writes, ts);
      NewestIsFloor(initial, writes, ts, i);
      forall j: nat | Newest(writes, ts, j) ensures j == i {
      }
    }
  }

  lemma FloorOfNothing(initial: int, writes: seq<Stamp>, ts: int)
    requires 0 <= ts && !Visible(writes, ts)
    requires forall i :: 0 <= i < |writes| ==> 0 <= writes[i].time
    requires -1 in VersionMap(initial, writes)
    ensures Lookup(VersionMap(initial, writes), ts) == initial
  {
    VersionMapKeys(initial, writes);
    LastWriter(initial, writes, -1);
  }

  lemma {:induction false} NewestExists(writes: seq<Stamp>, ts: int) returns (i: nat)
    requires Visible(writes, ts)
    ensures Newest(writes, ts, i)
  {
    var n := |writes| - 1;
    var init := writes[..n];
    assert forall j :: 0 <= j < n ==> init[j] == writes[j];
    if Visible(init, ts) {
      i := NewestExists(init, ts);
      if writes[i].time <= writes[n].time <= ts {
        i := n;
      }
    } else {
      i := n;
    }
  }

  lemma NewestIsFloor(initial: int, writes: seq<Stamp>, ts: int, i: nat)
    requires 0 <= ts && Newest(writes, ts, i)
    requires forall j :: 0 <= j < |writes| ==> 0 <= writes[j].time
    requires -1 in VersionMap(initial, writes)
    ensures Lookup(VersionMap(initial, writes), ts) == writes[i].value
  {
    VersionMapKeys(initial, writes);
    LastWriter(initial, writes, writes[i].time);
  }

  /** A stamp of the version map carries the value of the last install with that time. */
  lemma {:induction false} LastWriter(initial: int, writes: seq<Stamp>, time: int)
    requires forall j :: 0 <= j < |writes| ==> 0 <= writes[j].time
    ensures forall i {:trigger writes[i]} ::
              && 0 <= i < |writes| && writes[i].time == time
              && (forall j :: i < j < |writes| ==> writes[j].time != time)
              ==> time in VersionMap(initial, writes) && VersionMap(initial, writes)[time] == writes[i].value
    ensures -1 in VersionMap(initial, writes) && VersionMap(initial, writes)[-1] == initial
  {
    if writes != [] {
      var n := |writes| - 1;
      LastWriter(initial, writes[..n], time);
      assert forall j :: 0 <= j < n ==> writes[..n][j] == writes[j];
    }
  }

  /** The exact effect of one more install on lookups at `ts`. */
  lemma InstallEffect(versions: map<int, int>, w: Stamp, ts: int)
    requires -1 in versions && 0 <= ts && 0 <= w.time
    ensures w.time > ts ==> Lookup(versions[w.time := w.value], ts) == Lookup(versions, ts)
    ensures w.time <= ts && FloorKey(versions, ts) > w.time ==>
              Lookup(versions[w.time := w.value], ts) == Lookup(versions, ts)
    ensures w.time <= ts && FloorKey(versions, ts) <= w.time ==>
              Lookup(versions[w.time := w.value], ts) == w.value
  {
    var k, k' := FloorKey(versions, ts), FloorKey(versions[w.time := w.value], ts);
    assert k in versions[w.time := w.value] && k <= ts;
    assert w.time in versions[w.time := w.value];
    assert k' == w.time || k' in versions;
  }
}
