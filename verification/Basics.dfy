/** Shared vocabulary: identifiers, optional values, and finite sums.

    Identifiers, terms and texts are strings.  Python compares strings code point by
    code point, which is what `IdLess` does; the ranking order is built on it. */
module Basics {

  type Id = string
  type Term = string
  type Text = string
  type Vector = seq<real>

  datatype Option<+T> = None | Some(value: T)

  datatype Result<+T, +E> = Success(value: T) | Failure(error: E)

  // ---------------------------------------------------------------------------
  // String order
  // ---------------------------------------------------------------------------

  predicate IdLess(a: Id, b: Id)
    decreases |a|
  {
    && |b| > 0
    && (|a| == 0 || a[0] < b[0] || (a[0] == b[0] && IdLess(a[1..], b[1..])))
  }

  lemma {:induction false} IdLessIrreflexive(a: Id)
    ensures !IdLess(a, a)
    decreases |a|
  {
    if |a| > 0 {
      IdLessIrreflexive(a[1..]);
    }
  }

  lemma {:induction false} IdLessTransitive(a: Id, b: Id, c: Id)
    requires IdLess(a, b) && IdLess(b, c)
    ensures IdLess(a, c)
    decreases |a|
  {
    if |a| > 0 && a[0] == b[0] && b[0] == c[0] {
      IdLessTransitive(a[1..], b[1..], c[1..]);
    }
  }

  lemma {:induction false} IdLessTotal(a: Id, b: Id)
    ensures IdLess(a, b) || a == b || IdLess(b, a)
    decreases |a|
  {
    if |a| > 0 && |b| > 0 && a[0] == b[0] {
      IdLessTotal(a[1..], b[1..]);
      assert a == [a[0]] + a[1..] && b == [b[0]] + b[1..];
    }
  }

  /** Position `k` decides: the strings agree before it, and there `a` ends or has the lower
      code point. */
  ghost predicate DecidesAt(a: Id, b: Id, k: nat) {
    k <= |a| && k < |b| && a[..k] == b[..k] && (k == |a| || a[k] < b[k])
  }

  /** The order is the lexicographic one, by code point, a prefix before its extensions. */
  lemma {:induction false} IdLessIsLexicographic(a: Id, b: Id)
    ensures IdLess(a, b) <==> exists k: nat :: DecidesAt(a, b, k)
    decreases |a|
  {
    if IdLess(a, b) {
      var k := DecidingPosition(a, b);
    }
    forall k: nat | DecidesAt(a, b, k) ensures IdLess(a, b) {
      DecidedIsLess(a, b, k);
    }
  }

  lemma {:induction false} DecidingPosition(a: Id, b: Id) returns (k: nat)
    requires IdLess(a, b)
    ensures DecidesAt(a, b, k)
    decreases |a|
  {
    if |a| == 0 || a[0] < b[0] {
      k := 0;
    } else {
      var rest := DecidingPosition(a[1..], b[1..]);
      k := rest + 1;
      assert a[..k] == [a[0]] + a[1..][..rest] && b[..k] == [b[0]] + b[1..][..rest];
    }
  }

  lemma {:induction false} DecidedIsLess(a: Id, b: Id, k: nat)
    requires DecidesAt(a, b, k)
    ensures IdLess(a, b)
    decreases k
  {
    if k > 0 {
      assert a[0] == a[..k][0] && b[0] == b[..k][0];
      assert a[1..][..k - 1] == a[..k][1..] && b[1..][..k - 1] == b[..k][1..];
      DecidedIsLess(a[1..], b[1..], k - 1);
    }
  }

  // ---------------------------------------------------------------------------
  // Sums over finite maps
  // ---------------------------------------------------------------------------

  ghost function AnyKey<K, V>(m: map<K, V>): (k: K)
    requires m != map[]
    ensures k in m
  {
    var k :| k in m;
    k
  }

  /** The sum of a map's values. */
  ghost function Sum<K>(m: map<K, int>): int
    decreases |m|
  {
    if m == map[] then 0
    else
      var k := AnyKey(m);
      RemoveShrinks(m, k);
      m[k] + Sum(m - {k})
  }

  lemma RemoveShrinks<K, V>(m: map<K, V>, k: K)
    requires k in m
    ensures |m - {k}| == |m| - 1
  {
    assert (m - {k}).Keys == m.Keys - {k};
  }

  /** A sum does not depend on the order in which keys are visited. */
  lemma {:induction false} SumRemove<K>(m: map<K, int>, k: K)
    requires k in m
    ensures Sum(m) == m[k] + Sum(m - {k})
    decreases |m|
  {
    var j := AnyKey(m);
    if j != k {
      RemoveShrinks(m, j);
      RemoveShrinks(m, k);
      SumRemove(m - {j}, k);
      SumRemove(m - {k}, j);
      assert m - {j} - {k} == m - {k} - {j};
    }
  }

  lemma SumInsert<K>(m: map<K, int>, k: K, v: int)
    requires k !in m
    ensures Sum(m[k := v]) == Sum(m) + v
  {
    SumRemove(m[k := v], k);
    assert m[k := v] - {k} == m;
  }

  /** Writing one key changes the sum by the difference at that key. */
  lemma SumUpdate<K>(m: map<K, int>, k: K, v: int)
    ensures Sum(m[k := v]) == Sum(m) - (if k in m then m[k] else 0) + v
  {
    var base := m - {k};
    assert m[k := v] == base[k := v];
    SumInsert(base, k, v);
    if k in m {
      SumRemove(m, k);
    } else {
      assert base == m;
    }
  }

  lemma MapsAgree<K, V>(a: map<K, V>, b: map<K, V>)
    requires forall k :: k in a <==> k in b
    requires forall k :: k in a ==> a[k] == b[k]
    ensures a == b
  {
  }

  lemma MapWithKey<K, V>(was: map<K, V>, now: map<K, V>, k: K, v: V)
    requires now.Keys == was.Keys + {k} && now[k] == v
    requires forall x :: x in was && x != k ==> now[x] == was[x]
    ensures now == was[k := v]
  {
  }

  lemma RemoveThenInsert<K, V>(m: map<K, V>, k: K, v: V)
    ensures (m - {k})[k := v] == m[k := v]
  {
    assert (m - {k})[k := v].Keys == m[k := v].Keys;
  }

  lemma UnionRemove<K, V>(a: map<K, V>, b: map<K, V>, k: K)
    requires k in b && k !in a
    ensures a + b - {k} == a + (b - {k})
  {
    var left, right := a + b - {k}, a + (b - {k});
    assert forall x :: x in left <==> x in right;
  }

  lemma {:induction false} SumUnion<K>(a: map<K, int>, b: map<K, int>)
    requires a.Keys !! b.Keys
    ensures Sum(a + b) == Sum(a) + Sum(b)
    decreases |b|
  {
    if b == map[] {
      assert a + b == a;
    } else {
      var k := AnyKey(b);
      RemoveShrinks(b, k);
      SumUnion(a, b - {k});
      SumRemove(a + b, k);
      UnionRemove(a, b, k);
    }
  }

  lemma {:induction false} SumNonNegative<K>(m: map<K, int>)
    requires forall k :: k in m ==> m[k] >= 0
    ensures Sum(m) >= 0
    ensures forall k :: k in m ==> m[k] <= Sum(m)
    decreases |m|
  {
    if m != map[] {
      var j := AnyKey(m);
      RemoveShrinks(m, j);
      SumNonNegative(m - {j});
      forall k | k in m ensures m[k] <= Sum(m) {
        if k != j {
          assert k in m - {j};
        }
      }
    }
  }

  /** Cardinality of a disjoint union of maps. */
  lemma UnionSize<K, V>(a: map<K, V>, b: map<K, V>)
    requires a.Keys !! b.Keys
    ensures |a + b| == |a| + |b|
  {
    assert (a + b).Keys == a.Keys + b.Keys;
  }

  // ---------------------------------------------------------------------------
  // Disjoint unions of a family of maps (one map per logical shard)
  // ---------------------------------------------------------------------------

  ghost predicate PairwiseDisjoint<V>(parts: seq<map<Id, V>>) {
    forall i, j :: 0 <= i < j < |parts| ==> parts[i].Keys !! parts[j].Keys
  }

  ghost function UnionAll<V>(parts: seq<map<Id, V>>): map<Id, V> {
    if parts == [] then map[] else UnionAll(parts[..|parts| - 1]) + parts[|parts| - 1]
  }

  lemma {:induction false} UnionAllKeys<V>(parts: seq<map<Id, V>>)
    ensures forall d :: d in UnionAll(parts) <==> exists i :: 0 <= i < |parts| && d in parts[i]
  {
    if parts != [] {
      var init := parts[..|parts| - 1];
      UnionAllKeys(init);
      forall d ensures d in UnionAll(parts) <==> exists i :: 0 <= i < |parts| && d in parts[i] {
        if d in UnionAll(init) {
          var i :| 0 <= i < |init| && d in init[i];
          assert d in parts[i];
        }
        if i :| 0 <= i < |parts| && d in parts[i] {
          assert i < |init| ==> d in init[i];
        }
      }
    }
  }

  /** Each part keeps its own values in a disjoint union. */
  lemma {:induction false} UnionAllAt<V>(parts: seq<map<Id, V>>, i: nat, d: Id)
    requires PairwiseDisjoint(parts)
    requires i < |parts| && d in parts[i]
    ensures d in UnionAll(parts) && UnionAll(parts)[d] == parts[i][d]
    decreases |parts|
  {
    var init := parts[..|parts| - 1];
    if i < |init| {
      UnionAllAt(init, i, d);
      assert d !in parts[|parts| - 1];
    }
  }

  /** The last part is disjoint from the union of the earlier ones. */
  lemma UnionAllLast<V>(parts: seq<map<Id, V>>)
    requires PairwiseDisjoint(parts) && parts != []
    ensures UnionAll(parts[..|parts| - 1]).Keys !! parts[|parts| - 1].Keys
    ensures PairwiseDisjoint(parts[..|parts| - 1])
  {
    var init := parts[..|parts| - 1];
    UnionAllKeys(init);
    forall d | d in UnionAll(init) ensures d !in parts[|parts| - 1] {
      var i :| 0 <= i < |init| && d in init[i];
      assert d in parts[i];
    }
  }
}
