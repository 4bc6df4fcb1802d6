/** What a position is worth in numbers, and what that decides between points of different lists. */
module RankWorth {
  import opened Options
  import opened RankFusion

  /** The documented formula: one over the position, counted from one and divided by the weight, plus k less one. */
  lemma WorthFormula(p: nat, k: nat, weight: real)
    ensures weight <= 0.0 ==> PositionScore(p, k, weight) == ZERO
    ensures weight > 0.0 ==>
              var x := (p + 1) as real / weight + k as real - 1.0;
              var worth := PositionScore(p, k, weight);
              (worth.Infinite? <==> x == 0.0) && (worth.Finite? ==> worth.value * x == 1.0)
  {
    if weight > 0.0 {
      var x := (p + 1) as real / weight + k as real - 1.0;
      assert Rank(p, k, weight) == x;
      assert x != 0.0 ==> 1.0 / x * x == 1.0;
    }
  }

  lemma UnweightedWorth(p: nat, k: nat)
    ensures PositionScore(p, k, 1.0) == if p + k == 0 then Infinite else Finite(1.0 / (p + k) as real)
  {
    assert (p + 1) as real / 1.0 == (p + 1) as real;
    assert Rank(p, k, 1.0) == (p + k) as real;
  }

  lemma CrossMultiplied(a: real, w: real, b: real, v: real)
    requires w > 0.0 && v > 0.0
    ensures a / w == b / v <==> a * v == b * w
  {
    var x, y := a / w, b / v;
    assert x * w == a && y * v == b;
    assert a * v == x * (w * v) && b * w == y * (w * v);
    if a * v == b * w {
      assert (x - y) * (w * v) == 0.0;
    }
  }

  /**
   What a weight means: a position of one list is worth as much as a position of another exactly when the two, counted
   from one, are to each other as the weights. With weights 3 and 1 three results of one list stand against one.
   */
  lemma EqualWorthIff(p: nat, w: real, q: nat, v: real, k: nat)
    requires w > 0.0 && v > 0.0
    ensures PositionScore(p, k, w) == PositionScore(q, k, v) <==> (p + 1) as real * v == (q + 1) as real * w
  {
    var a, b := Rank(p, k, w), Rank(q, k, v);
    CrossMultiplied((p + 1) as real, w, (q + 1) as real, v);
    assert a == b <==> (p + 1) as real / w == (q + 1) as real / v;
    if a != 0.0 && b != 0.0 {
      var x, y := 1.0 / a, 1.0 / b;
      assert x * a == 1.0 && y * b == 1.0;
      assert x == y ==> x * (a - b) == 0.0;
    }
  }

  // ----- scores as sums

  /** What a list is worth to a point: nothing if the point is not in it or the list has no weight. */
  ghost function ListWorth(list: Points, k: nat, weight: real, id: nat): real
    requires k >= 1
  {
    if weight > 0.0 && exists i :: 0 <= i < |list| && list[i].id == id then
      var i :| 0 <= i < |list| && list[i].id == id;
      WeightedWorth(i, k, weight)
    else 0.0
  }

  function WeightedWorth(p: nat, k: nat, weight: real): real
    requires k >= 1 && weight > 0.0
  {
    QuotientGrows(0.0, (p + 1) as real, weight);
    1.0 / ((p + 1) as real / weight + (k - 1) as real)
  }

  ghost function SumOfWorths(lists: seq<Points>, k: nat, weights: Option<seq<real>>, id: nat): real
    requires k >= 1 && Enough(weights, lists)
  {
    if lists == [] then 0.0
    else
      var n := |lists| - 1;
      ListWorth(lists[n], k, if weights.Some? then weights.value[n] else 1.0, id)
      + SumOfWorths(lists[..n], k, weights, id)
  }

  lemma PositionIsWorth(p: nat, k: nat, weight: real)
    requires k >= 1 && weight > 0.0
    ensures PositionScore(p, k, weight) == Finite(WeightedWorth(p, k, weight))
  {
    QuotientGrows(0.0, (p + 1) as real, weight);
    assert Rank(p, k, weight) == (p + 1) as real / weight + (k - 1) as real;
  }

  lemma ListIsWorth(list: Points, k: nat, weight: real, id: nat)
    requires k >= 1 && DistinctPoints(list)
    ensures ListScore(list, k, weight, id) == Finite(ListWorth(list, k, weight, id))
  {
    if i :| 0 <= i < |list| && list[i].id == id {
      ListedScore(list, k, weight, i);
      if weight > 0.0 {
        PositionIsWorth(i, k, weight);
        assert forall j :: 0 <= j < |list| && list[j].id == id ==> j == i;
      }
    } else {
      OneListIds(list);
      UnseenScoresNothing(list, k, weight, id);
    }
  }

  lemma {:induction false} TotalIsSum(lists: seq<Points>, k: nat, weights: Option<seq<real>>, id: nat)
    requires k >= 1 && Enough(weights, lists) && forall i :: 0 <= i < |lists| ==> DistinctPoints(lists[i])
    ensures TotalScore(lists, k, weights, id) == Finite(SumOfWorths(lists, k, weights, id))
  {
    hide ListScore, ListWorth, DistinctPoints;
    if lists != [] {
      var n := |lists| - 1;
      TotalIsSum(lists[..n], k, weights, id);
      ListIsWorth(lists[n], k, WeightAt(weights, n), id);
    }
  }

  /** Every point of the result has the sum, over the lists, of what its position in the list is worth. */
  lemma FusedSums(order: Order, lists: seq<Points>, k: nat, weights: Option<seq<real>>)
    requires ValidOrder(order) && k >= 1 && forall i :: 0 <= i < |lists| ==> DistinctPoints(lists[i])
    requires weights.Some? ==> |weights.value| == |lists|
    ensures FuseRanks(order, lists, k, weights).Some?
    ensures forall p :: p in FuseRanks(order, lists, k, weights).value ==>
              p.score == Finite(SumOfWorths(lists, k, weights, p.id))
  {
    RrfFuses(order, lists, k, weights);
    hide FuseRanks, TotalScore, SumOfWorths;
    forall p | p in FuseRanks(order, lists, k, weights).value
      ensures p.score == Finite(SumOfWorths(lists, k, weights, p.id))
    {
      TotalIsSum(lists, k, weights, p.id);
    }
  }

  // ----- one list against two

  lemma ReciprocalAgainstTwo(a: real, b: real, c: real)
    requires a > 0.0 && b > 0.0 && c > 0.0
    ensures 1.0 / a > 1.0 / b + 1.0 / c <==> b * c > a * (b + c)
    ensures 1.0 / a == 1.0 / b + 1.0 / c <==> b * c == a * (b + c)
  {
    var x, y, z := 1.0 / a, 1.0 / b, 1.0 / c;
    assert x * a == 1.0 && y * b == 1.0 && z * c == 1.0;
    var m := a * (b * c);
    assert m > 0.0 by {
      assert b * c > 0.0;
    }
    assert x * m == b * c by {
      assert x * m == (x * a) * (b * c);
    }
    assert y * m == a * c by {
      assert y * m == (y * b) * (a * c);
    }
    assert z * m == a * b by {
      assert z * m == (z * c) * (a * b);
    }
    SignOfProduct(x - y - z, m);
    assert (x - y - z) * m == b * c - a * (b + c);
  }

  lemma SignOfProduct(t: real, m: real)
    requires m > 0.0
    ensures t > 0.0 <==> t * m > 0.0
    ensures t == 0.0 <==> t * m == 0.0
  {
  }

  /**
   When a point at position p of one list beats a point at positions q and r of two: exactly when
   (q + k)(r + k) > (p + k)(q + r + 2k).
   */
  lemma OneAgainstTwoIff(p: nat, q: nat, r: nat, k: nat)
    requires k >= 1
    ensures Above(PositionScore(p, k, 1.0), Plus(PositionScore(q, k, 1.0), PositionScore(r, k, 1.0)))
       <==> (q + k) * (r + k) > (p + k) * (q + r + 2 * k)
    ensures Above(Plus(PositionScore(q, k, 1.0), PositionScore(r, k, 1.0)), PositionScore(p, k, 1.0))
       <==> (q + k) * (r + k) < (p + k) * (q + r + 2 * k)
  {
    UnweightedWorth(p, k);
    UnweightedWorth(q, k);
    UnweightedWorth(r, k);
    hide PositionScore;
    var a, b, c := (p + k) as real, (q + k) as real, (r + k) as real;
    ReciprocalAgainstTwo(a, b, c);
    assert b * c == ((q + k) * (r + k)) as real;
    assert b + c == (q + r + 2 * k) as real;
    assert a * (b + c) == ((p + k) * (q + r + 2 * k)) as real;
  }

  /** The same of a fusion of two lists: which of the two points stands first in the result. */
  lemma OneListOrBoth(order: Order, a: Points, b: Points, k: nat, p: nat, q: nat, r: nat, i: nat, j: nat)
    requires ValidOrder(order) && k >= 1 && DistinctPoints(a) && DistinctPoints(b)
    requires p < |a| && q < |a| && r < |b| && a[q].id == b[r].id && a[p].id !in Ids([b])
    requires var fused := FuseRanks(order, [a, b], k, None);
             fused.Some? && i < |fused.value| && j < |fused.value|
             && fused.value[i].id == a[p].id && fused.value[j].id == b[r].id
    ensures (q + k) * (r + k) > (p + k) * (q + r + 2 * k) ==> i < j
    ensures (q + k) * (r + k) < (p + k) * (q + r + 2 * k) ==> j < i
  {
    hide FuseRanks, Ids, ListScore, PositionScore, ValidOrder, Descending, DistinctPoints;
    var lists := [a, b];
    RrfFuses(order, lists, k, None);
    var fused := FuseRanks(order, lists, k, None).value;
    assert fused[i] in fused && fused[j] in fused;
    OneListScore(a, b, k, p);
    BothListsScore(a, b, k, q, r);
    OneAgainstTwoIff(p, q, r, k);
    OrderFollows(fused, i, j);
  }

  lemma OrderFollows(fused: Points, i: nat, j: nat)
    requires Descending(fused) && i < |fused| && j < |fused|
    ensures Above(fused[i].score, fused[j].score) ==> i < j
    ensures Above(fused[j].score, fused[i].score) ==> j < i
  {
  }

  lemma OneListScore(a: Points, b: Points, k: nat, p: nat)
    requires k >= 1 && DistinctPoints(a) && p < |a| && a[p].id !in Ids([b])
    ensures TotalScore([a, b], k, None, a[p].id) == PositionScore(p, k, 1.0)
  {
    TwoListsScore(a, b, k, a[p].id);
    ListedScore(a, k, 1.0, p);
    UnseenScoresNothing(b, k, 1.0, a[p].id);
    UnweightedWorth(p, k);
    hide PositionScore, ListScore, TotalScore;
  }

  lemma BothListsScore(a: Points, b: Points, k: nat, q: nat, r: nat)
    requires DistinctPoints(a) && DistinctPoints(b) && q < |a| && r < |b| && a[q].id == b[r].id
    ensures TotalScore([a, b], k, None, b[r].id) == Plus(PositionScore(q, k, 1.0), PositionScore(r, k, 1.0))
  {
    hide PositionScore, ListScore, TotalScore;
    TwoListsScore(a, b, k, b[r].id);
    ListedScore(a, k, 1.0, q);
    ListedScore(b, k, 1.0, r);
  }

  lemma TwoListsScore(a: Points, b: Points, k: nat, id: nat)
    ensures TotalScore([a, b], k, None, id) == Plus(ListScore(a, k, 1.0, id), ListScore(b, k, 1.0, id))
  {
    hide ListScore;
    assert [a, b][..1] == [a] && [a][..0] == [];
    assert TotalScore([a], k, None, id) == ListScore(a, k, 1.0, id);
  }
}
