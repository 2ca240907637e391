/** The exact vector index: a dense row buffer with a position map, removed from by swapping
    the last row into the hole.  Its abstract value is a map from identifiers to vectors. */
module VectorIndexes {
  import opened Basics
  import opened Hits

  const INITIAL_CAPACITY: nat := 64

  datatype VectorError = WrongDimension | BadLimit

  function Dot(a: Vector, b: Vector): real
    requires |a| == |b|
  {
    if a == [] then 0.0 else a[0] * b[0] + Dot(a[1..], b[1..])
  }

  // ---------------------------------------------------------------------------
  // The dot product
  // ---------------------------------------------------------------------------

  function Plus(a: Vector, b: Vector): Vector
    requires |a| == |b|
  {
    seq(|a|, i requires 0 <= i < |a| => a[i] + b[i])
  }

  function Times(c: real, a: Vector): Vector {
    seq(|a|, i requires 0 <= i < |a| => c * a[i])
  }

  /** The vector that is one at coordinate `i` and zero elsewhere. */
  function Axis(n: nat, i: nat): Vector {
    seq(n, j => if j == i then 1.0 else 0.0)
  }

  lemma {:induction false} DotIsSymmetric(a: Vector, b: Vector)
    requires |a| == |b|
    ensures Dot(a, b) == Dot(b, a)
    decreases |a|
  {
    if a != [] {
      DotIsSymmetric(a[1..], b[1..]);
    }
  }

  lemma {:induction false} DotIsAdditive(a: Vector, b: Vector, c: Vector)
    requires |a| == |b| == |c|
    ensures Dot(Plus(a, b), c) == Dot(a, c) + Dot(b, c)
    decreases |a|
  {
    if a != [] {
      DotIsAdditive(a[1..], b[1..], c[1..]);
      assert Plus(a, b)[1..] == Plus(a[1..], b[1..]);
    }
  }

  lemma {:induction false} DotIsHomogeneous(r: real, a: Vector, b: Vector)
    requires |a| == |b|
    ensures Dot(Times(r, a), b) == r * Dot(a, b)
    decreases |a|
  {
    if a != [] {
      DotIsHomogeneous(r, a[1..], b[1..]);
      TailOfTimes(r, a);
      Distributes(r, a[0], b[0], Dot(a[1..], b[1..]));
    }
  }

  lemma TailOfTimes(r: real, a: Vector)
    requires a != []
    ensures Times(r, a)[1..] == Times(r, a[1..]) && Times(r, a)[0] == r * a[0]
  {
    forall i | 0 <= i < |a| - 1 ensures Times(r, a)[1..][i] == Times(r, a[1..])[i] {
      assert a[1..][i] == a[i + 1];
    }
  }

  lemma Distributes(r: real, x: real, y: real, z: real)
    ensures r * (x * y + z) == (r * x) * y + r * z
  {
  }

  lemma {:induction false} DotPicksCoordinate(a: Vector, i: nat)
    requires i < |a|
    ensures Dot(Axis(|a|, i), a) == a[i]
    decreases |a|
  {
    var rest := Axis(|a|, i)[1..];
    if i == 0 {
      DotWithZeros(rest, a[1..]);
    } else {
      assert rest == Axis(|a| - 1, i - 1);
      DotPicksCoordinate(a[1..], i - 1);
    }
  }

  lemma {:induction false} DotWithZeros(zeros: Vector, a: Vector)
    requires |zeros| == |a| && forall i :: 0 <= i < |zeros| ==> zeros[i] == 0.0
    ensures Dot(zeros, a) == 0.0
    decreases |a|
  {
    if a != [] {
      DotWithZeros(zeros[1..], a[1..]);
    }
  }

  /** Linear, symmetric, and picking coordinates against the axes: there is one such product,
      and it is the sum over the coordinates. */
  lemma {:induction false} DotIsSumOfProducts(a: Vector, b: Vector)
    requires |a| == |b|
    ensures Dot(a, b) == SumOfProducts(a, b, |a|)
    decreases |a|
  {
    DotAccumulates(a, b, |a|);
    assert a[..|a|] == a && b[..|a|] == b;
  }

  /** The first `n` products, accumulated from the left. */
  function SumOfProducts(a: Vector, b: Vector, n: nat): real
    requires n <= |a| == |b|
  {
    if n == 0 then 0.0 else SumOfProducts(a, b, n - 1) + a[n - 1] * b[n - 1]
  }

  lemma {:induction false} DotAccumulates(a: Vector, b: Vector, n: nat)
    requires n <= |a| == |b|
    ensures Dot(a[..n], b[..n]) == SumOfProducts(a, b, n)
    decreases n
  {
    if n > 0 {
      DotAccumulates(a, b, n - 1);
      assert a[..n] == a[..n - 1] + [a[n - 1]] && b[..n] == b[..n - 1] + [b[n - 1]];
      DotAppend(a[..n - 1], b[..n - 1], a[n - 1], b[n - 1]);
    }
  }

  lemma {:induction false} DotAppend(a: Vector, b: Vector, x: real, y: real)
    requires |a| == |b|
    ensures Dot(a + [x], b + [y]) == Dot(a, b) + x * y
    decreases |a|
  {
    if a == [] {
      assert a + [x] == [x] && b + [y] == [y];
      assert Dot([x], [y]) == x * y + Dot([], []);
    } else {
      DotAppend(a[1..], b[1..], x, y);
      assert (a + [x])[1..] == a[1..] + [x] && (b + [y])[1..] == b[1..] + [y];
    }
  }

  /** Every document with its similarity to the query. */
  ghost function Similarities(vectors: map<Id, Vector>, query: Vector): set<Hit<()>>
    requires forall d :: d in vectors ==> |vectors[d]| == |query|
  {
    set d | d in vectors :: Hit(d, Dot(vectors[d], query), ())
  }

  /** Rows and positions are mutual inverses. */
  ghost predicate Inverse(ids: seq<Id>, positions: map<Id, nat>) {
    && (forall i :: 0 <= i < |ids| ==> ids[i] in positions && positions[ids[i]] == i)
    && (forall d :: d in positions ==> positions[d] < |ids| && ids[positions[d]] == d)
  }

  ghost predicate Forward(ids: seq<Id>, positions: map<Id, nat>) {
    forall i :: 0 <= i < |ids| ==> ids[i] in positions && positions[ids[i]] == i
  }

  /** Equal counts make the one-directional check complete: no position is left over. */
  lemma ForwardAndCountIsInverse(ids: seq<Id>, positions: map<Id, nat>)
    ensures Inverse(ids, positions) <==> Forward(ids, positions) && |ids| == |positions|
  {
    if Forward(ids, positions) {
      var rows := set i | 0 <= i < |ids| :: ids[i];
      DistinctRows(ids, positions);
      assert rows <= positions.Keys;
      if |ids| == |positions| {
        if rows != positions.Keys {
          SmallerSubset(rows, positions.Keys);
          assert false;
        }
      }
      if Inverse(ids, positions) {
        assert rows == positions.Keys;
      }
    }
  }

  lemma SmallerSubset<T>(a: set<T>, b: set<T>)
    requires a < b
    ensures |a| < |b|
  {
    assert b == a + (b - a);
  }

  lemma {:induction false} DistinctRows(ids: seq<Id>, positions: map<Id, nat>)
    requires Forward(ids, positions)
    ensures |set i | 0 <= i < |ids| :: ids[i]| == |ids|
  {
    if ids != [] {
      var n := |ids| - 1;
      var init := ids[..n];
      DistinctRows(init, positions);
      var all, most := set i | 0 <= i < |ids| :: ids[i], set i | 0 <= i < |init| :: init[i];
      assert all == most + {ids[n]};
      assert ids[n] !in most;
    }
  }

  class ExactVectorIndex {
    const dimension: nat
    var ids: seq<Id>
    var positions: map<Id, nat>
    var matrix: array<Vector>

    ghost var vectors: map<Id, Vector>

    ghost predicate Valid()
      reads this, matrix
    {
      && dimension >= 1
      && |ids| <= matrix.Length
      && Inverse(ids, positions)
      && vectors.Keys == positions.Keys
      && (forall i :: 0 <= i < |ids| ==> matrix[i] == vectors[ids[i]])
      && (forall d :: d in vectors ==> |vectors[d]| == dimension)
    }

    constructor (dimension: nat)
      requires dimension >= 1
      ensures Valid() && vectors == map[] && this.dimension == dimension
      ensures fresh(matrix)
    {
      this.dimension := dimension;
      ids, positions, vectors := [], map[], map[];
      matrix := new Vector[INITIAL_CAPACITY](_ => seq(dimension, _ => 0.0));
    }

    function Count(): nat
      reads this
    {
      |ids|
    }

    /** Stores a vector in place of any the document had; a vector of the wrong width is
        refused and nothing changes. */
    method Add(id: Id, vector: Vector) returns (added: bool)
      requires Valid()
      modifies this, matrix
      ensures Valid() && (matrix == old(matrix) || fresh(matrix))
      ensures added <==> |vector| == dimension
      ensures vectors == if added then old(vectors)[id := vector] else old(vectors)
    {
      if |vector| != dimension {
        return false;
      }
      var position: nat;
      if id in positions {
        position := positions[id];
      } else {
        position := |ids|;
        GrowIfNeeded(position + 1);
        ids := ids + [id];
        positions := positions[id := position];
      }
      matrix[position] := vector;
      vectors := vectors[id := vector];
      added := true;
    }

    /** Doubles the buffer when it runs out of rows, keeping every live row. */
    method GrowIfNeeded(required: nat)
      requires Valid()
      modifies this`matrix
      ensures Valid() && required <= matrix.Length
      ensures matrix == old(matrix) || fresh(matrix)
    {
      var capacity := matrix.Length;
      if required <= capacity {
        return;
      }
      var newCapacity := if required < capacity * 2 then capacity * 2 else required;
      var blank := seq(dimension, _ => 0.0);
      var grown := new Vector[newCapacity](_ => blank);
      forall i | 0 <= i < capacity {
        grown[i] := matrix[i];
      }
      matrix := grown;
    }

    /** Removes a document's vector, moving the last live row into the hole. */
    method Remove(id: Id) returns (removed: bool)
      requires Valid()
      modifies this, matrix
      ensures Valid() && matrix == old(matrix)
      ensures removed <==> id in old(vectors)
      ensures vectors == old(vectors) - {id}
    {
      if id !in positions {
        assert vectors - {id} == vectors;
        return false;
      }
      var position := positions[id];
      positions := positions - {id};
      var last := |ids| - 1;
      if position != last {
        matrix[position] := matrix[last];
        var moved := ids[last];
        ids := ids[position := moved];
        positions := positions[moved := position];
      }
      ids := ids[..last];
      assert Inverse(ids, positions);
      vectors := vectors - {id};
      removed := true;
    }

    method Clear()
      requires Valid()
      modifies this
      ensures Valid() && vectors == map[] && fresh(matrix)
    {
      ids, positions, vectors := [], map[], map[];
      var blank := seq(dimension, _ => 0.0);
      matrix := new Vector[INITIAL_CAPACITY](_ => blank);
    }

    /** The `limit` most similar documents.  The answer is a function of the stored map, so
        two indexes holding the same vectors agree whatever their histories. */
    method Search(query: Vector, limit: int) returns (r: Result<seq<Hit<()>>, VectorError>)
      requires Valid()
      ensures limit < 1 ==> r == Failure(BadLimit)
      ensures limit >= 1 && vectors == map[] ==> r == Success([])
      ensures limit >= 1 && vectors != map[] && |query| != dimension ==> r == Failure(WrongDimension)
      ensures limit >= 1 && |query| == dimension ==>
                r == Success(Take(Ranking(Similarities(vectors, query)), limit))
    {
      if limit < 1 {
        return Failure(BadLimit);
      }
      assert forall i :: 0 <= i < |ids| ==> ids[i] in vectors;
      if ids == [] {
        assert vectors == map[];
        assert |query| == dimension ==> Similarities(vectors, query) == {};
        return Success([]);
      }
      assert ids[0] in vectors;
      if |query| != dimension {
        return Failure(WrongDimension);
      }
      var scored: seq<Hit<()>> := [];
      var i := 0;
      while i < |ids|
        invariant 0 <= i <= |ids| && |scored| == i
        invariant forall k :: 0 <= k < i ==>
                    scored[k] == Hit(ids[k], Dot(vectors[ids[k]], query), ())
      {
        scored := scored + [Hit(ids[i], Dot(matrix[i], query), ())];
        i := i + 1;
      }
      assert Elements(scored) == Similarities(vectors, query) by {
        forall h | h in Similarities(vectors, query) ensures h in scored {
          assert scored[positions[h.documentId]] == h;
        }
      }
      SortRanks(scored);
      r := Success(Take(Sort(scored), limit));
    }

    /** The consistency check on rows and positions misses nothing. */
    method Validate() returns (ok: bool)
      requires |ids| <= matrix.Length
      ensures ok <==> (Inverse(ids, positions)
                       && forall i :: 0 <= i < |ids| ==> |matrix[i]| == dimension)
    {
      ForwardAndCountIsInverse(ids, positions);
      if |ids| != |positions| {
        return false;
      }
      var i := 0;
      while i < |ids|
        invariant 0 <= i <= |ids|
        invariant Forward(ids[..i], positions)
      {
        if ids[i] !in positions || positions[ids[i]] != i {
          return false;
        }
        i := i + 1;
      }
      assert ids[..i] == ids;
      ok := forall k :: 0 <= k < |ids| ==> |matrix[k]| == dimension;
    }
  }
}
