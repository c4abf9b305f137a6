/**
 * Counters keyed by strings, as Python's `defaultdict(int)` keeps them, and
 * their sums. `MapSum` is the order-independent total of a counter map;
 * `SumAlong` totals it along an explicit key order (a dict's insertion order).
 */
module Tally {

  /** The value of a counter map at `k`; an absent key reads as 0, as in `defaultdict(int)`. */
  function Get(m: map<string, nat>, k: string): nat {
    if k in m then m[k] else 0
  }

  /** Some key of a non-empty set, chosen once and for all so every use agrees. */
  ghost function Pick(s: set<string>): (k: string)
    requires s != {}
    ensures k in s
  {
    var k :| k in s; k
  }

  /** The sum of all values of `m`. */
  ghost function MapSum(m: map<string, nat>): nat
    decreases |m|
  {
    if m == map[] then 0
    else
      var k := Pick(m.Keys);
      m[k] + MapSum(m - {k})
  }

  /** Any key may be taken out first: the sum does not depend on the choice made by `Pick`. */
  lemma {:induction false} MapSumRemove(m: map<string, nat>, k: string)
    requires k in m
    ensures MapSum(m) == m[k] + MapSum(m - {k})
    decreases |m|
  {
    var j := Pick(m.Keys);
    assert (m - {j}).Keys == m.Keys - {j};
    if j != k {
      assert (m - {k}).Keys == m.Keys - {k};
      assert m - {j} - {k} == m - {k} - {j};
      MapSumRemove(m - {j}, k);
      MapSumRemove(m - {k}, j);
    }
  }

  /** Setting one counter to `v` (creating it if absent) moves the total by the change in that counter alone. */
  lemma MapSumUpdate(m: map<string, nat>, k: string, v: nat)
    ensures MapSum(m[k := v]) + Get(m, k) == MapSum(m) + v
  {
    var m' := m[k := v];
    MapSumRemove(m', k);
    assert m' - {k} == m - {k};
    if k in m {
      MapSumRemove(m, k);
    } else {
      assert m - {k} == m;
    }
  }

  /** Pointwise smaller counters over the same keys have a smaller total. */
  lemma {:induction false} MapSumMono(a: map<string, nat>, b: map<string, nat>)
    requires a.Keys == b.Keys
    requires forall k :: k in a ==> a[k] <= b[k]
    ensures MapSum(a) <= MapSum(b)
    decreases |a|
  {
    if |a| != 0 {
      var k := Pick(a.Keys);
      MapSumRemove(a, k);
      MapSumRemove(b, k);
      assert (a - {k}).Keys == (b - {k}).Keys;
      MapSumMono(a - {k}, b - {k});
    }
  }

  /** `order` lists every key of `keys` exactly once. */
  ghost predicate Enumerates(order: seq<string>, keys: set<string>) {
    (forall i, j :: 0 <= i < j < |order| ==> order[i] != order[j]) &&
    (forall k :: k in order <==> k in keys)
  }

  /** The total of `m`'s counters taken along `order`. */
  function SumAlong(order: seq<string>, m: map<string, nat>): nat {
    if order == [] then 0
    else SumAlong(order[..|order| - 1], m) + Get(m, order[|order| - 1])
  }

  /** Two maps that agree on the keys of `order` have the same total along it. */
  lemma {:induction false} SumAlongAgree(order: seq<string>, a: map<string, nat>, b: map<string, nat>)
    requires forall k :: k in order ==> Get(a, k) == Get(b, k)
    ensures SumAlong(order, a) == SumAlong(order, b)
  {
    if order != [] {
      SumAlongAgree(order[..|order| - 1], a, b);
    }
  }

  /** Appending a new key to an enumeration enumerates the keys with it; re-adding a listed key changes nothing. */
  lemma EnumeratesAdd(order: seq<string>, keys: set<string>, k: string)
    requires Enumerates(order, keys)
    ensures k in keys ==> Enumerates(order, keys + {k})
    ensures k !in keys ==> Enumerates(order + [k], keys + {k})
  {
    if k !in keys {
      var order' := order + [k];
      forall i, j | 0 <= i < j < |order'| ensures order'[i] != order'[j] {
        if j == |order| {
          assert order[i] in order;
        }
      }
      forall x ensures x in order' <==> x in keys + {k} {
        if x in order' && x != k {
          var i :| 0 <= i < |order'| && order'[i] == x;
          assert i < |order| && order[i] == x;
        }
        if x in order {
          var i :| 0 <= i < |order| && order[i] == x;
          assert order'[i] == x;
        }
      }
    } else {
      assert keys + {k} == keys;
    }
  }

  /** Dropping the last key of an enumeration enumerates the remaining keys. */
  lemma EnumeratesDropLast(order: seq<string>, keys: set<string>)
    requires order != [] && Enumerates(order, keys)
    ensures order[|order| - 1] !in order[..|order| - 1]
    ensures Enumerates(order[..|order| - 1], keys - {order[|order| - 1]})
  {
    var n := |order| - 1;
    var k, rest := order[n], order[..n];
    forall i | 0 <= i < n ensures rest[i] != k {
      assert order[i] != order[n];
    }
    forall x | x in keys - {k} ensures x in rest {
      var i :| 0 <= i < |order| && order[i] == x;
      assert i < n && rest[i] == x;
    }
  }

  /** Summing along an enumeration of the keys gives the map's total, whatever the order. */
  lemma {:induction false} SumAlongIsMapSum(order: seq<string>, m: map<string, nat>)
    requires Enumerates(order, m.Keys)
    ensures SumAlong(order, m) == MapSum(m)
    decreases |order|
  {
    if order == [] {
      assert m.Keys == {};
    } else {
      var n := |order| - 1;
      var k, rest := order[n], order[..n];
      EnumeratesDropLast(order, m.Keys);
      assert (m - {k}).Keys == m.Keys - {k};
      SumAlongIsMapSum(rest, m - {k});
      SumAlongAgree(rest, m - {k}, m);
      MapSumRemove(m, k);
    }
  }
}
