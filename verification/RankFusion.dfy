/** Reciprocal rank fusion: one list of points out of several, scored by the positions the points hold in them. */
module RankFusion {
  import opened Options
  import opened FiniteSets

  /** Dividing by a rank of zero gives an infinite score, which absorbs whatever is added to it. */
  datatype Score = Finite(value: real) | Infinite

  datatype Point = Point(id: nat, score: Score)
  type Points = seq<Point>

  const ZERO: Score := Finite(0.0)

  function Plus(a: Score, b: Score): Score {
    if a.Infinite? || b.Infinite? then Infinite else Finite(a.value + b.value)
  }

  predicate AtLeast(a: Score, b: Score) {
    a.Infinite? || (b.Finite? && a.value >= b.value)
  }

  predicate Above(a: Score, b: Score) {
    !AtLeast(b, a)
  }

  function Ids(lists: seq<Points>): set<nat> {
    set s, p | s in lists && p in s :: p.id
  }

  ghost predicate Descending(ps: Points) {
    forall i, j :: 0 <= i < j < |ps| ==> AtLeast(ps[i].score, ps[j].score)
  }

  ghost predicate DistinctPoints(ps: Points) {
    forall i, j :: 0 <= i < j < |ps| ==> ps[i].id != ps[j].id
  }

  // ----- what a position is worth

  /** One over the rank; a list of no weight is worth nothing. */
  function PositionScore(position: nat, k: nat, weight: real): Score {
    if weight <= 0.0 then ZERO
    else
      var rank := Rank(position, k, weight);
      if rank == 0.0 then Infinite else Finite(1.0 / rank)
  }

  function Rank(position: nat, k: nat, weight: real): real
    requires weight > 0.0
  {
    (position + 1) as real / weight + k as real - 1.0
  }

  lemma QuotientGrows(a: real, b: real, w: real)
    requires w > 0.0 && a < b
    ensures a / w < b / w
  {
    assert a / w * w == a && b / w * w == b;
  }

  lemma RankGrows(p: nat, q: nat, k: nat, weight: real)
    requires weight > 0.0 && p < q
    ensures Rank(p, k, weight) < Rank(q, k, weight)
  {
    QuotientGrows((p + 1) as real, (q + 1) as real, weight);
  }

  lemma ReciprocalSign(a: real)
    requires a != 0.0
    ensures 1.0 / a > 0.0 <==> a > 0.0
  {
    assert 1.0 / a * a == 1.0;
  }

  lemma ReciprocalFalls(a: real, b: real)
    requires a < b && (a > 0.0 || b < 0.0)
    ensures 1.0 / a > 1.0 / b
  {
    var x, y := 1.0 / a, 1.0 / b;
    assert x * a == 1.0 && y * b == 1.0;
    ReciprocalSign(a);
    ReciprocalSign(b);
    assert (x - y) * (a * b) == b - a;
    assert a * b > 0.0;
  }

  /** An earlier position in a list that counts is worth more than a later one iff ranks do not change sign. */
  lemma EarlierIsWorthMoreIff(p: nat, q: nat, k: nat, weight: real)
    requires p < q && weight > 0.0
    ensures Above(PositionScore(p, k, weight), PositionScore(q, k, weight))
       <==> Rank(p, k, weight) >= 0.0 || Rank(q, k, weight) < 0.0
  {
    var a, b := Rank(p, k, weight), Rank(q, k, weight);
    RankGrows(p, q, k, weight);
    if a > 0.0 || b < 0.0 {
      ReciprocalFalls(a, b);
    } else if a < 0.0 && b > 0.0 {
      ReciprocalSign(a);
      ReciprocalSign(b);
    }
  }

  /** A list ranks its points as they stand in it: the rank constant is not zero, or the list weighs at most one. */
  predicate Fair(k: nat, weight: real) {
    k >= 1 || weight <= 1.0
  }

  lemma FirstRank(k: nat, weight: real)
    requires weight > 0.0
    ensures Rank(0, k, weight) >= 0.0 <==> Fair(k, weight)
    ensures Rank(0, k, weight) > 0.0 <==> k >= 1 || weight < 1.0
  {
    var x := 1.0 / weight;
    assert x * weight == 1.0 && x > 0.0;
    assert Rank(0, k, weight) == x + k as real - 1.0;
    if weight <= 1.0 {
      assert x >= 1.0;
      assert weight < 1.0 ==> x > 1.0;
    } else {
      assert x < 1.0;
    }
  }

  /** Every rank of a list is positive if and only if the constant is not zero or the list weighs less than one. */
  lemma RanksPositiveIff(k: nat, weight: real)
    requires weight > 0.0
    ensures (forall p: nat :: Rank(p, k, weight) > 0.0) <==> k >= 1 || weight < 1.0
  {
    FirstRank(k, weight);
    if k >= 1 || weight < 1.0 {
      forall p: nat ensures Rank(p, k, weight) > 0.0 {
        if p > 0 {
          RankGrows(0, p, k, weight);
        }
      }
    } else {
      assert !(Rank(0, k, weight) > 0.0);
    }
  }

  /** In a fair list every position is worth something, and only the first can be worth infinitely much. */
  lemma FairPositive(p: nat, k: nat, weight: real)
    requires Fair(k, weight)
    ensures AtLeast(PositionScore(p, k, weight), ZERO)
    ensures weight > 0.0 ==> Above(PositionScore(p, k, weight), ZERO)
    ensures p > 0 ==> PositionScore(p, k, weight).Finite?
  {
    if weight > 0.0 {
      FirstRank(k, weight);
      if p > 0 {
        RankGrows(0, p, k, weight);
      }
      if Rank(p, k, weight) > 0.0 {
        ReciprocalSign(Rank(p, k, weight));
      }
    }
  }

  // ----- what a point scores

  function ListScore(list: Points, k: nat, weight: real, id: nat): Score {
    if list == [] then ZERO
    else
      var n := |list| - 1;
      Plus(ListScore(list[..n], k, weight, id), if list[n].id == id then PositionScore(n, k, weight) else ZERO)
  }

  function WeightAt(weights: Option<seq<real>>, i: nat): real
    requires weights.Some? ==> i < |weights.value|
  {
    if weights.Some? then weights.value[i] else 1.0
  }

  predicate Enough(weights: Option<seq<real>>, lists: seq<Points>) {
    weights.Some? ==> |lists| <= |weights.value|
  }

  function TotalScore(lists: seq<Points>, k: nat, weights: Option<seq<real>>, id: nat): Score
    requires Enough(weights, lists)
  {
    if lists == [] then ZERO
    else
      var n := |lists| - 1;
      Plus(TotalScore(lists[..n], k, weights, id), ListScore(lists[n], k, WeightAt(weights, n), id))
  }

  /** Every id of the lists once, with the score its positions give it, in order of score. */
  ghost predicate Fused(r: Points, lists: seq<Points>, k: nat, weights: Option<seq<real>>)
    requires Enough(weights, lists)
  {
    Descending(r) && DistinctPoints(r) && Ids([r]) == Ids(lists)
    && forall p :: p in r ==> p.score == TotalScore(lists, k, weights, p.id)
  }

  // ----- fusing

  function AddPoint(byId: map<nat, Point>, id: nat, score: Score): map<nat, Point> {
    byId[id := Point(id, if id in byId then Plus(byId[id].score, score) else score)]
  }

  /** A map of points by id, after the first points of a list were added. */
  function WithList(byId: map<nat, Point>, list: Points, k: nat, weight: real): map<nat, Point> {
    if list == [] then byId
    else
      var n := |list| - 1;
      AddPoint(WithList(byId, list[..n], k, weight), list[n].id, PositionScore(n, k, weight))
  }

  function WithLists(lists: seq<Points>, k: nat, weights: Option<seq<real>>): map<nat, Point>
    requires Enough(weights, lists)
  {
    if lists == [] then map[]
    else
      var n := |lists| - 1;
      WithList(WithLists(lists[..n], k, weights), lists[n], k, WeightAt(weights, n))
  }

  /** `values` lists the points of a map in the order the map happens to give; `sort` orders points by score. */
  datatype Order = Order(values: map<nat, Point> -> Points, sort: Points -> Points)

  ghost predicate Lists(values: map<nat, Point> -> Points) {
    forall m: map<nat, Point> :: ListsAll(values(m), m)
  }

  ghost predicate ListsAll(ps: Points, m: map<nat, Point>) {
    (forall id :: id in m ==> m[id].id == id)
    ==> DistinctPoints(ps) && forall p: Point :: p in ps <==> p.id in m && m[p.id] == p
  }

  /** The sort by score is any descending permutation: ties may fall either way. */
  ghost predicate SortsByScore(sort: Points -> Points) {
    forall ps :: Descending(sort(ps)) && multiset(sort(ps)) == multiset(ps)
  }

  ghost predicate ValidOrder(order: Order) {
    Lists(order.values) && SortsByScore(order.sort)
  }

  function FuseRanks(order: Order, lists: seq<Points>, k: nat, weights: Option<seq<real>>): Option<Points> {
    if weights.Some? && |weights.value| != |lists| then None
    else Some(order.sort(order.values(WithLists(lists, k, weights))))
  }

  // ----- the loops

  method AddList(byId: map<nat, Point>, list: Points, k: nat, weight: real) returns (r: map<nat, Point>)
    ensures r == WithList(byId, list, k, weight)
  {
    r := byId;
    for i := 0 to |list|
      invariant r == WithList(byId, list[..i], k, weight)
    {
      assert list[..i + 1][..i] == list[..i];
      var score := PositionScore(i, k, weight);
      if list[i].id in r {
        r := r[list[i].id := Point(list[i].id, Plus(r[list[i].id].score, score))];
      } else {
        r := r[list[i].id := Point(list[i].id, score)];
      }
    }
    assert list[..|list|] == list;
  }

  method RrfScoring(order: Order, lists: seq<Points>, k: nat, weights: Option<seq<real>>) returns (r: Option<Points>)
    ensures r == FuseRanks(order, lists, k, weights)
  {
    if weights.Some? && |weights.value| != |lists| {
      return None;
    }
    var byId: map<nat, Point> := map[];
    for i := 0 to |lists|
      invariant byId == WithLists(lists[..i], k, weights)
    {
      assert lists[..i + 1][..i] == lists[..i];
      byId := AddList(byId, lists[i], k, WeightAt(weights, i));
    }
    assert lists[..|lists|] == lists;
    r := Some(order.sort(order.values(byId)));
  }

  // ----- what the loops gather

  /** Points met so far, by id, with the scores gathered so far. */
  ghost predicate Gathered(byId: map<nat, Point>, lists: seq<Points>, list: Points, k: nat,
                           weights: Option<seq<real>>, weight: real)
    requires Enough(weights, lists)
  {
    && byId.Keys == Ids(lists) + Ids([list])
    && forall id :: id in byId ==>
         byId[id] == Point(id, Plus(TotalScore(lists, k, weights, id), ListScore(list, k, weight, id)))
  }

  lemma {:induction false} UnseenScoresNothing(list: Points, k: nat, weight: real, id: nat)
    requires id !in Ids([list])
    ensures ListScore(list, k, weight, id) == ZERO
  {
    hide PositionScore, Ids;
    if list != [] {
      var n := |list| - 1;
      SnocIds(list);
      UnseenScoresNothing(list[..n], k, weight, id);
    }
  }

  lemma {:induction false} UnlistedScoresNothing(lists: seq<Points>, k: nat, weights: Option<seq<real>>, id: nat)
    requires Enough(weights, lists) && id !in Ids(lists)
    ensures TotalScore(lists, k, weights, id) == ZERO
  {
    if lists != [] {
      var n := |lists| - 1;
      SnocListIds(lists);
      UnlistedScoresNothing(lists[..n], k, weights, id);
      UnseenScoresNothing(lists[n], k, WeightAt(weights, n), id);
    }
  }

  lemma OneListIds(list: Points)
    ensures forall x :: x in Ids([list]) <==> exists p :: p in list && p.id == x
  {
    forall x | exists p :: p in list && p.id == x ensures x in Ids([list]) {
      var p :| p in list && p.id == x;
      assert list in [list];
    }
  }

  lemma SnocIds(list: Points)
    requires list != []
    ensures Ids([list]) == Ids([list[..|list| - 1]]) + {list[|list| - 1].id}
  {
    var n := |list| - 1;
    OneListIds(list);
    OneListIds(list[..n]);
    assert forall p :: p in list <==> p in list[..n] || p == list[n] by {
      assert list == list[..n] + [list[n]];
    }
  }

  lemma SnocListIds(lists: seq<Points>)
    requires lists != []
    ensures Ids(lists) == Ids(lists[..|lists| - 1]) + Ids([lists[|lists| - 1]])
  {
    var n := |lists| - 1;
    assert forall l :: l in lists <==> l in lists[..n] || l == lists[n] by {
      assert lists == lists[..n] + [lists[n]];
    }
  }

  lemma {:induction false} WithListGathers(byId: map<nat, Point>, lists: seq<Points>, list: Points, k: nat,
                                           weights: Option<seq<real>>, weight: real)
    requires Enough(weights, lists) && Gathered(byId, lists, [], k, weights, weight)
    ensures Gathered(WithList(byId, list, k, weight), lists, list, k, weights, weight)
  {
    if list != [] {
      var n := |list| - 1;
      WithListGathers(byId, lists, list[..n], k, weights, weight);
      hide WithList, Gathered;
      AddPointGathers(WithList(byId, list[..n], k, weight), lists, list, k, weights, weight);
      assert WithList(byId, list, k, weight)
          == AddPoint(WithList(byId, list[..n], k, weight), list[n].id, PositionScore(n, k, weight)) by {
        WithListStep(byId, list, k, weight);
      }
    }
  }

  lemma WithListStep(byId: map<nat, Point>, list: Points, k: nat, weight: real)
    requires list != []
    ensures var n := |list| - 1;
            WithList(byId, list, k, weight)
            == AddPoint(WithList(byId, list[..n], k, weight), list[n].id, PositionScore(n, k, weight))
  {
  }

  lemma AddPointGathers(byId: map<nat, Point>, lists: seq<Points>, list: Points, k: nat,
                        weights: Option<seq<real>>, weight: real)
    requires list != [] && Enough(weights, lists) && Gathered(byId, lists, list[..|list| - 1], k, weights, weight)
    ensures var n := |list| - 1;
            Gathered(AddPoint(byId, list[n].id, PositionScore(n, k, weight)), lists, list, k, weights, weight)
  {
    hide Ids, TotalScore, PositionScore, ListScore;
    var n := |list| - 1;
    var id, score := list[n].id, PositionScore(n, k, weight);
    SnocIds(list);
    if id !in byId {
      UnlistedScoresNothing(lists, k, weights, id);
      UnseenScoresNothing(list[..n], k, weight, id);
    }
    var r := AddPoint(byId, id, score);
    forall x | x in r ensures r[x] == Point(x, Plus(TotalScore(lists, k, weights, x), ListScore(list, k, weight, x))) {
      ListScoreStep(list, k, weight, x);
    }
  }

  lemma ListScoreStep(list: Points, k: nat, weight: real, id: nat)
    requires list != []
    ensures var n := |list| - 1;
            ListScore(list, k, weight, id)
            == Plus(ListScore(list[..n], k, weight, id), if list[n].id == id then PositionScore(n, k, weight) else ZERO)
  {
    hide PositionScore;
  }

  lemma {:induction false} WithListsGathers(lists: seq<Points>, k: nat, weights: Option<seq<real>>, weight: real)
    requires Enough(weights, lists)
    ensures Gathered(WithLists(lists, k, weights), lists, [], k, weights, weight)
  {
    if lists == [] {
      OneListIds([]);
    } else {
      hide Gathered, WithList;
      var n := |lists| - 1;
      var w := WeightAt(weights, n);
      WithListsGathers(lists[..n], k, weights, w);
      WithListGathers(WithLists(lists[..n], k, weights), lists[..n], lists[n], k, weights, w);
      ListDone(WithLists(lists, k, weights), lists, k, weights, weight);
    }
  }

  lemma ListDone(byId: map<nat, Point>, lists: seq<Points>, k: nat, weights: Option<seq<real>>, weight: real)
    requires lists != [] && Enough(weights, lists)
    requires var n := |lists| - 1; Gathered(byId, lists[..n], lists[n], k, weights, WeightAt(weights, n))
    ensures Gathered(byId, lists, [], k, weights, weight)
  {
    SnocListIds(lists);
    OneListIds([]);
    NothingScores(k, weight);
    hide ListScore, Ids;
  }

  lemma NothingScores(k: nat, weight: real)
    ensures forall id :: ListScore([], k, weight, id) == ZERO
  {
  }

  lemma SortedIsFused(ps: Points, r: Points, lists: seq<Points>, k: nat, weights: Option<seq<real>>)
    requires Enough(weights, lists) && DistinctPoints(ps) && Ids([ps]) == Ids(lists)
    requires forall p :: p in ps ==> p.score == TotalScore(lists, k, weights, p.id)
    requires Descending(r) && multiset(r) == multiset(ps)
    ensures Fused(r, lists, k, weights)
  {
    assert forall p :: p in r <==> p in ps by {
      assert forall p :: (p in r <==> p in multiset(r)) && (p in ps <==> p in multiset(ps));
    }
    assert Ids([r]) == Ids([ps]);
    assert NoDup(ps);
    forall p ensures multiset(r)[p] <= 1 {
      NoDupOnce(ps, p);
    }
    OnceNoDup(r);
    forall i, j | 0 <= i < j < |r| ensures r[i].id != r[j].id {
      assert r[i] in ps && r[j] in ps && r[i] != r[j];
    }
  }

  /**
   Fusing fails exactly when the number of weights is wrong, and otherwise returns every id of the lists once, with the
   sum of what its positions are worth, in order of score: whatever the rank constant, the weights and the hash order.
   */
  lemma RrfFuses(order: Order, lists: seq<Points>, k: nat, weights: Option<seq<real>>)
    requires ValidOrder(order)
    ensures FuseRanks(order, lists, k, weights).None? <==> weights.Some? && |weights.value| != |lists|
    ensures FuseRanks(order, lists, k, weights).Some? ==>
              Fused(FuseRanks(order, lists, k, weights).value, lists, k, weights)
  {
    if FuseRanks(order, lists, k, weights).Some? {
      var byId := WithLists(lists, k, weights);
      WithListsGathers(lists, k, weights, 0.0);
      NothingScores(k, 0.0);
      OneListIds([]);
      hide WithLists, ListScore, TotalScore, Fused;
      var ps := order.values(byId);
      assert ListsAll(ps, byId);
      assert Ids([ps]) == byId.Keys by {
        OneListIds(ps);
        forall id | id in byId ensures id in Ids([ps]) {
          assert byId[id] in ps;
        }
      }
      SortedIsFused(ps, order.sort(ps), lists, k, weights);
    }
  }

  predicate Reaches(score: Score, threshold: real) {
    score.Infinite? || score.value >= threshold
  }

  // ----- fusion respects a unanimous preference

  /** `a` stands before `b` in the list wherever `b` stands in it. */
  ghost predicate Before(list: Points, a: nat, b: nat) {
    forall q :: 0 <= q < |list| && list[q].id == b ==> exists p :: 0 <= p < q && list[p].id == a
  }

  lemma {:induction false} ListedScore(list: Points, k: nat, weight: real, q: nat)
    requires q < |list| && DistinctPoints(list)
    ensures ListScore(list, k, weight, list[q].id) == PositionScore(q, k, weight)
  {
    hide PositionScore, Ids;
    var n := |list| - 1;
    if q < n {
      ListedScore(list[..n], k, weight, q);
    } else {
      OneListIds(list[..n]);
      UnseenScoresNothing(list[..n], k, weight, list[q].id);
    }
  }

  lemma BeforeScoresMore(list: Points, k: nat, weight: real, a: nat, b: nat)
    requires DistinctPoints(list) && Before(list, a, b) && Fair(k, weight)
    ensures AtLeast(ListScore(list, k, weight, a), ListScore(list, k, weight, b))
    ensures ListScore(list, k, weight, b).Finite?
    ensures b in Ids([list]) && weight > 0.0 ==> Above(ListScore(list, k, weight, a), ListScore(list, k, weight, b))
  {
    FairNonNegative(list, k, weight, a);
    if q :| 0 <= q < |list| && list[q].id == b {
      var p :| 0 <= p < q && list[p].id == a;
      ListedScore(list, k, weight, p);
      ListedScore(list, k, weight, q);
      FairPositive(q, k, weight);
      if weight > 0.0 {
        FirstRank(k, weight);
        if p > 0 {
          RankGrows(0, p, k, weight);
        }
        EarlierIsWorthMoreIff(p, q, k, weight);
      }
    } else {
      OneListIds(list);
      UnseenScoresNothing(list, k, weight, b);
    }
  }

  lemma {:induction false} FairNonNegative(list: Points, k: nat, weight: real, id: nat)
    requires Fair(k, weight)
    ensures AtLeast(ListScore(list, k, weight, id), ZERO)
  {
    if list != [] {
      FairPositive(|list| - 1, k, weight);
      FairNonNegative(list[..|list| - 1], k, weight, id);
    }
  }

  ghost predicate Prefers(k: nat, weight: real) {
    forall list: Points, a, b :: DistinctPoints(list) && Before(list, a, b) ==>
      AtLeast(ListScore(list, k, weight, a), ListScore(list, k, weight, b))
  }

  /** No list scores a point below one that stands behind it iff the constant is not zero or the weight at most one. */
  lemma PrefersIff(k: nat, weight: real)
    ensures Prefers(k, weight) <==> Fair(k, weight)
  {
    if Fair(k, weight) {
      forall list: Points, a, b | DistinctPoints(list) && Before(list, a, b)
        ensures AtLeast(ListScore(list, k, weight, a), ListScore(list, k, weight, b))
      {
        BeforeScoresMore(list, k, weight, a, b);
      }
    } else {
      var list := UnfairList(weight);
      assert !AtLeast(ListScore(list, k, weight, list[0].id), ListScore(list, k, weight, list[|list| - 1].id));
    }
  }

  /** The failing input: a constant of zero, a weight above one, and a list as long as the weight. */
  lemma UnfairList(weight: real) returns (list: Points)
    requires weight > 1.0
    ensures DistinctPoints(list) && |list| >= 2 && Before(list, list[0].id, list[|list| - 1].id)
    ensures Above(ListScore(list, 0, weight, list[|list| - 1].id), ListScore(list, 0, weight, list[0].id))
  {
    var q: nat := weight.Floor + 1;
    list := seq(q + 1, i requires 0 <= i <= q => Point(i, ZERO));
    assert list[0].id == 0 && list[q].id == q;
    ListedScore(list, 0, weight, 0);
    ListedScore(list, 0, weight, q);
    hide ListScore;
    FirstRank(0, weight);
    RankPastWeight(q, weight);
    ReciprocalSign(Rank(0, 0, weight));
    ReciprocalSign(Rank(q, 0, weight));
  }

  lemma RankPastWeight(q: nat, weight: real)
    requires 0.0 < weight < (q + 1) as real
    ensures Rank(q, 0, weight) > 0.0
  {
    QuotientGrows(weight, (q + 1) as real, weight);
    assert weight / weight == 1.0;
  }

  /** The failing input of the whole fusion: of that one list, the last point comes out before the first. */
  lemma UnfairFusion(order: Order, weight: real) returns (list: Points)
    requires ValidOrder(order) && weight > 1.0
    ensures DistinctPoints(list) && |list| >= 2
    ensures var r := FuseRanks(order, [list], 0, Some([weight]));
            r.Some? && forall i, j :: 0 <= i < |r.value| && 0 <= j < |r.value|
                                      && r.value[i].id == list[0].id && r.value[j].id == list[|list| - 1].id
                                      ==> j < i
  {
    list := UnfairList(weight);
    var lists, weights := [list], Some([weight]);
    RrfFuses(order, lists, 0, weights);
    var first, last := list[0].id, list[|list| - 1].id;
    hide ListScore, FuseRanks;
    assert lists[..0] == [];
    assert TotalScore(lists, 0, weights, first) == Plus(ZERO, ListScore(list, 0, weight, first));
    assert TotalScore(lists, 0, weights, last) == Plus(ZERO, ListScore(list, 0, weight, last));
    var r := FuseRanks(order, lists, 0, weights).value;
    assert forall i :: 0 <= i < |r| ==> r[i] in r;
  }

  ghost predicate AllFair(lists: seq<Points>, k: nat, weights: Option<seq<real>>)
    requires Enough(weights, lists)
  {
    forall i :: 0 <= i < |lists| ==> Fair(k, WeightAt(weights, i))
  }

  /** A point that stands before another in every list that has the other scores at least as much. */
  lemma {:induction false} UnanimousScores(lists: seq<Points>, k: nat, weights: Option<seq<real>>, a: nat, b: nat)
    requires Enough(weights, lists) && AllFair(lists, k, weights)
    requires forall i :: 0 <= i < |lists| ==> DistinctPoints(lists[i]) && Before(lists[i], a, b)
    ensures AtLeast(TotalScore(lists, k, weights, a), TotalScore(lists, k, weights, b))
    ensures TotalScore(lists, k, weights, b).Finite?
    ensures b in Ids(lists) && (weights.Some? ==> forall i :: 0 <= i < |lists| ==> weights.value[i] > 0.0)
            ==> Above(TotalScore(lists, k, weights, a), TotalScore(lists, k, weights, b))
  {
    if lists != [] {
      var n := |lists| - 1;
      UnanimousScores(lists[..n], k, weights, a, b);
      BeforeScoresMore(lists[n], k, WeightAt(weights, n), a, b);
      SnocListIds(lists);
      hide ListScore, Before, DistinctPoints;
    }
  }

  /** Then, if every list counts, it also stands before the other in the result. */
  lemma FusionRespectsUnanimity(r: Points, lists: seq<Points>, k: nat, weights: Option<seq<real>>, i: nat, j: nat)
    requires Enough(weights, lists) && Fused(r, lists, k, weights) && i < |r| && j < |r| && AllFair(lists, k, weights)
    requires forall l :: 0 <= l < |lists| ==> DistinctPoints(lists[l]) && Before(lists[l], r[i].id, r[j].id)
    requires weights.Some? ==> forall l :: 0 <= l < |lists| ==> weights.value[l] > 0.0
    ensures i < j
  {
    UnanimousScores(lists, k, weights, r[i].id, r[j].id);
    assert r[j] in r && r[j].id in Ids([r]);
  }
}
