/** The diagnostic shrink of one layer-0 list: a greedy pass in order of distance, stopped at a size. */
module MirageShrink {
  import opened MirageGraph

  /** Squared Euclidean distance of two stored vectors over their first `dim` components. */
  function L2(vectors: seq<seq<real>>, dim: nat, a: nat, b: nat): (r: real)
    requires a < |vectors| && b < |vectors| && dim <= |vectors[a]| && dim <= |vectors[b]|
  {
    if dim == 0 then 0.0
    else
      var diff := vectors[a][dim - 1] - vectors[b][dim - 1];
      L2(vectors, dim - 1, a, b) + Times(diff, diff)
  }

  function Times(x: real, y: real): real {
    x * y
  }

  /** The one property of the distance that the builder's proofs use. */
  lemma {:induction false} L2Symmetric(vectors: seq<seq<real>>, dim: nat, a: nat, b: nat)
    requires a < |vectors| && b < |vectors| && dim <= |vectors[a]| && dim <= |vectors[b]|
    ensures L2(vectors, dim, a, b) == L2(vectors, dim, b, a)
  {
    if dim != 0 {
      L2Symmetric(vectors, dim - 1, a, b);
      var x, y := vectors[a][dim - 1], vectors[b][dim - 1];
      TimesNegated(x - y, x - y);
      assert y - x == -(x - y);
    }
  }

  ghost predicate Agree(vectors: seq<seq<real>>, dim: nat, a: nat, b: nat)
    requires a < |vectors| && b < |vectors| && dim <= |vectors[a]| && dim <= |vectors[b]|
  {
    forall i :: 0 <= i < dim ==> vectors[a][i] == vectors[b][i]
  }

  /** It is zero between vectors that agree, and positive between any others. */
  lemma {:induction false} L2ZeroIff(vectors: seq<seq<real>>, dim: nat, a: nat, b: nat)
    requires a < |vectors| && b < |vectors| && dim <= |vectors[a]| && dim <= |vectors[b]|
    ensures if Agree(vectors, dim, a, b) then L2(vectors, dim, a, b) == 0.0 else L2(vectors, dim, a, b) > 0.0
  {
    if dim != 0 {
      L2ZeroIff(vectors, dim - 1, a, b);
      var diff := vectors[a][dim - 1] - vectors[b][dim - 1];
      SquareSign(diff);
      hide Times;
      assert Agree(vectors, dim, a, b) <==> Agree(vectors, dim - 1, a, b) && diff == 0.0;
    }
  }

  lemma SquareSign(x: real)
    ensures if x == 0.0 then Times(x, x) == 0.0 else Times(x, x) > 0.0
  {
    hide Times;
    TimesZero(x);
    if x > 0.0 {
      TimesPositive(x, x);
    } else if x < 0.0 {
      TimesPositive(-x, -x);
      TimesNegated(x, x);
    }
  }

  lemma TimesZero(y: real)
    ensures Times(0.0, y) == 0.0
  {
  }

  lemma TimesPositive(x: real, y: real)
    requires x > 0.0 && y > 0.0
    ensures Times(x, y) > 0.0
  {
  }

  lemma TimesNegated(x: real, y: real)
    ensures Times(-x, -y) == Times(x, y)
  {
  }

  /** Every component counts alike: between vectors that differ in one it is the square of that difference. */
  lemma {:induction false} L2OneApart(vectors: seq<seq<real>>, dim: nat, a: nat, b: nat, k: nat)
    requires a < |vectors| && b < |vectors| && k < dim <= |vectors[a]| && dim <= |vectors[b]|
    requires forall i :: 0 <= i < dim && i != k ==> vectors[a][i] == vectors[b][i]
    ensures var diff := vectors[a][k] - vectors[b][k];
            L2(vectors, dim, a, b) == diff * diff
  {
    TimesZero(0.0);
    if k < dim - 1 {
      L2OneApart(vectors, dim - 1, a, b, k);
    } else {
      L2ZeroIff(vectors, dim - 1, a, b);
      assert Agree(vectors, dim - 1, a, b);
    }
  }

  predicate Blocked(d: Distance, kept: Pool, v: Neighbor) {
    exists i :: 0 <= i < |kept| && d(kept[i].id, v.id) < v.distance
  }

  /** Keeps each entry that no kept one is nearer to than the owner is. */
  function Greedy(d: Distance, order: Pool): (r: Pool)
    ensures |r| <= |order|
  {
    if order == [] then []
    else
      var k := |order| - 1;
      var r := Greedy(d, order[..k]);
      if Blocked(d, r, order[k]) then r else r + [order[k]]
  }

  /** On a pool without repeated ids the shrink keeps what the update pass would keep. */
  lemma {:induction false} GreedyIsPrune(d: Distance, order: Pool)
    requires Symmetric(d) && DistinctIds(order)
    ensures Greedy(d, order) == Prune(d, order, false).kept
  {
    if order != [] {
      var k := |order| - 1;
      GreedyIsPrune(d, order[..k]);
      var kept := Prune(d, order[..k], false).kept;
      var nn := order[k];
      forall e | e in kept ensures e.id != nn.id {
        var j :| 0 <= j < k && order[..k][j] == e;
        assert order[j].id != nn.id;
      }
      assert !HasId(kept, nn.id);
      var i := FirstBeating(d, kept, nn, false, 0);
      assert forall j :: 0 <= j < |kept| ==> d(kept[j].id, nn.id) == d(nn.id, kept[j].id);
      assert Blocked(d, kept, nn) <==> i < |kept| by {
        if i < |kept| { assert d(kept[i].id, nn.id) < nn.distance; }
        else { assert forall j :: 0 <= j < |kept| ==> !Beats(d, kept[j], nn, false); }
      }
    }
  }

  /** Shrinking what survived a shrink changes nothing. */
  lemma {:induction false} GreedyIdempotent(d: Distance, order: Pool)
    ensures Greedy(d, Greedy(d, order)) == Greedy(d, order)
  {
    if order != [] {
      var k := |order| - 1;
      GreedyIdempotent(d, order[..k]);
      var r := Greedy(d, order[..k]);
      if !Blocked(d, r, order[k]) {
        var s := r + [order[k]];
        assert s[..|s| - 1] == r;
      }
    }
  }

  lemma {:induction false} GreedyGrows(d: Distance, order: Pool, k: nat)
    requires k <= |order|
    ensures Greedy(d, order[..k]) <= Greedy(d, order)
  {
    if k == |order| {
      assert order[..k] == order;
    } else {
      var m := |order| - 1;
      GreedyGrows(d, order[..m], k);
      assert order[..m][..k] == order[..k];
    }
  }

  function Bound(maxSize: nat): nat {
    if maxSize == 0 then 1 else maxSize
  }

  /** The list is the first `maxSize` survivors of the full greedy pass (one, if `maxSize` is 0). */
  method Shrink(s: Setup, u: nat, candidates: seq<nat>, maxSize: nat) returns (ids: seq<nat>)
    requires Sorts(s.sort)
    ensures ids == Ids(Capped(Greedy(s.d, s.sort(PoolOf(s.d, u, candidates))), Bound(maxSize)))
  {
    var queue := s.sort(PoolOf(s.d, u, candidates));
    var output: Pool := [];
    var i := 0;
    var full := false;
    while i < |queue| && !full
      invariant 0 <= i <= |queue| && output == Greedy(s.d, queue[..i])
      invariant |output| <= Bound(maxSize) && (full <==> |output| == Bound(maxSize))
      decreases |queue| - i
    {
      var v1 := queue[i];
      assert queue[..i + 1][..i] == queue[..i];
      var good := true;
      var j := 0;
      while j < |output| && good
        invariant 0 <= j <= |output|
        invariant good ==> forall k :: 0 <= k < j ==> !(s.d(output[k].id, v1.id) < v1.distance)
        invariant !good ==> Blocked(s.d, output, v1)
        decreases |output| - j, good
      {
        if s.d(output[j].id, v1.id) < v1.distance {
          good := false;
        } else {
          j := j + 1;
        }
      }
      if good {
        output := output + [v1];
        full := |output| >= maxSize;
      }
      i := i + 1;
    }
    GreedyGrows(s.d, queue, i);
    assert output == Capped(Greedy(s.d, queue), Bound(maxSize)) by {
      assert i == |queue| ==> queue[..i] == queue;
    }
    ids := Ids(output);
  }
}
