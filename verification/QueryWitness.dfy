/**
 A shard of one point that honours every request, and what it shows: a query whose results do not meet its filter.
 */
module QueryWitness {
  import opened Options
  import opened Filters
  import opened RankFusion
  import opened QueryPlans
  import opened QueryPlanner

  // ----- an order

  ghost function Enumerated(m: map<nat, Point>): Points
    decreases |m|
  {
    if m == map[] then [] else var id :| id in m; [m[id]] + Enumerated(m - {id})
  }

  lemma {:induction false} EnumeratedLists(m: map<nat, Point>)
    requires forall id :: id in m ==> m[id].id == id
    ensures DistinctPoints(Enumerated(m)) && forall p: Point :: p in Enumerated(m) <==> p.id in m && m[p.id] == p
    decreases |m|
  {
    if m != map[] {
      var id :| id in m && Enumerated(m) == [m[id]] + Enumerated(m - {id});
      EnumeratedLists(m - {id});
      var rest := Enumerated(m - {id});
      assert forall i :: 0 <= i < |rest| ==> rest[i] in rest;
    }
  }

  function Insert(ps: Points, p: Point): Points {
    if ps == [] || AtLeast(p.score, ps[0].score) then [p] + ps else [ps[0]] + Insert(ps[1..], p)
  }

  function Sorted(ps: Points): Points {
    if ps == [] then [] else Insert(Sorted(ps[1..]), ps[0])
  }

  lemma {:induction false} InsertKeeps(ps: Points, p: Point)
    ensures multiset(Insert(ps, p)) == multiset(ps) + multiset{p}
  {
    hide AtLeast;
    if ps != [] {
      InsertKeeps(ps[1..], p);
      assert ps == [ps[0]] + ps[1..];
    }
  }

  lemma {:induction false} InsertDescends(ps: Points, p: Point)
    requires Descending(ps)
    ensures Descending(Insert(ps, p)) && Insert(ps, p) != []
    ensures Insert(ps, p)[0] == p || (ps != [] && Insert(ps, p)[0] == ps[0])
  {
    if ps != [] && !AtLeast(p.score, ps[0].score) {
      InsertDescends(ps[1..], p);
      var r := Insert(ps[1..], p);
      assert AtLeast(ps[0].score, r[0].score);
      assert forall j :: 0 <= j < |r| ==> AtLeast(r[0].score, r[j].score);
      assert forall j :: 0 <= j < |r| ==> AtLeast(ps[0].score, r[j].score);
      assert Insert(ps, p) == [ps[0]] + r;
      hide Insert;
    }
  }

  lemma {:induction false} SortedKeeps(ps: Points)
    ensures multiset(Sorted(ps)) == multiset(ps)
  {
    if ps != [] {
      var rest := Sorted(ps[1..]);
      assert Sorted(ps) == Insert(rest, ps[0]);
      hide Insert, Sorted;
      SortedKeeps(ps[1..]);
      InsertKeeps(rest, ps[0]);
      HeadAndTail(ps);
    }
  }

  lemma HeadAndTail(ps: Points)
    requires ps != []
    ensures multiset(ps) == multiset(ps[1..]) + multiset{ps[0]}
  {
    assert ps == [ps[0]] + ps[1..];
  }

  lemma {:induction false} SortedDescends(ps: Points)
    ensures Descending(Sorted(ps))
  {
    if ps != [] {
      hide Descending, Insert;
      SortedDescends(ps[1..]);
      InsertDescends(Sorted(ps[1..]), ps[0]);
    }
  }

  ghost function SomeOrder(): Order {
    Order(m => Enumerated(m), ps => Sorted(ps))
  }

  lemma SomeOrderValid()
    ensures ValidOrder(SomeOrder())
  {
    var order := SomeOrder();
    forall m: map<nat, Point> ensures ListsAll(order.values(m), m) {
      if forall id :: id in m ==> m[id].id == id {
        EnumeratedLists(m);
      }
    }
    forall ps ensures Descending(order.sort(ps)) && multiset(order.sort(ps)) == multiset(ps) {
      SortedDescends(ps);
      SortedKeeps(ps);
    }
  }

  // ----- a shard

  function Checks(holds: int -> bool): Checker {
    (c: Condition) => if c.HasId? then 0 in c.ids else c.Field? && holds(c.c)
  }

  function OneIf(accepted: bool, limit: nat): Option<Points> {
    Some(if accepted && limit > 0 then [Point(0, ZERO)] else [])
  }

  /** The only point is 0; it meets the field conditions that `holds` says. */
  ghost function OnePoint(holds: int -> bool): Shard {
    Shard((c, id) => holds(c),
          (s: Search) => OneIf(Accepts(Checks(holds), s.filter), s.limit),
          (s: Scroll) => OneIf(Accepts(Checks(holds), s.filter), s.limit),
          SomeOrder(), ss => [], (q, ss, l, t) => Some([]), (q, ss, l) => Some([]))
  }

  lemma SameChecker(holds: int -> bool, filter: Option<Filter>)
    ensures Accepts(Checks(holds), filter) <==> Meets(OnePoint(holds), 0, filter)
  {
    if filter.Some? {
      SameOnFilter(Checks(holds), CheckerOf(OnePoint(holds), 0), filter.value);
    }
  }

  lemma {:induction false} SameOnCondition(v: Checker, w: Checker, c: Condition)
    requires forall x :: v(x) == w(x)
    ensures CheckCondition(v, c) == CheckCondition(w, c)
    decreases c, 0
  {
    if c.Sub? {
      SameOnFilter(v, w, c.filter);
    }
  }

  lemma {:induction false} SameOnFilter(v: Checker, w: Checker, f: Filter)
    requires forall x :: v(x) == w(x)
    ensures CheckFilter(v, f) == CheckFilter(w, f)
    decreases f, 0
  {
    if f.should.Given? { SameOnAll(v, w, f.should.value); }
    if f.minShould.Some? { SameOnMin(v, w, f.minShould.value); }
    if f.must.Given? { SameOnAll(v, w, f.must.value); }
    if f.mustNot.Given? { SameOnAll(v, w, f.mustNot.value); }
  }

  lemma {:induction false} SameOnMin(v: Checker, w: Checker, m: MinShould)
    requires forall x :: v(x) == w(x)
    ensures CountMet(v, m.conditions) == CountMet(w, m.conditions)
    decreases m, 0
  {
    SameOnAll(v, w, m.conditions);
  }

  lemma {:induction false} SameOnAll(v: Checker, w: Checker, cs: seq<Condition>)
    requires forall x :: v(x) == w(x)
    ensures CountMet(v, cs) == CountMet(w, cs)
    decreases cs, 0
  {
    if cs != [] {
      SameOnCondition(v, w, cs[0]);
      SameOnAll(v, w, cs[1..]);
    }
  }

  lemma OnePointHonest(holds: int -> bool)
    ensures Honest(OnePoint(holds))
  {
    var sh := OnePoint(holds);
    SomeOrderValid();
    hide ValidOrder, Accepts, Checks;
    forall s ensures Selects(sh, sh.search(s).value, s.filter, s.limit) {
      SameChecker(holds, s.filter);
    }
    forall s ensures Selects(sh, sh.scroll(s).value, s.filter, s.limit) {
      SameChecker(holds, s.filter);
    }
    OneListIds([]);
  }

  // ----- a query whose results do not meet its filter

  predicate Fields(cs: seq<Condition>) {
    forall c :: c in cs ==> c.Field?
  }

  /** A query with a `should` filter over one prefetch with another. */
  function TwoShoulds(a: seq<Condition>, b: seq<Condition>): Request {
    Request([Prefetch([], None, 1, 0, Some(OnlyShould(b)), None)], Some(Vector(0)), Some(OnlyShould(a)), None, 1, 0, 0)
  }

  ghost predicate AlwaysMeets(r: Request) {
    forall sh :: Honest(sh) && MeanRoot(sh, r).Some? ==> AllMeet(sh, Ids([MeanRoot(sh, r).value]), r.filter)
  }

  /**
   Exactly when all results of such a query meet its filter on every shard: each condition of the prefetch is one of the
   query. Otherwise a point that meets the prefetch's condition alone passes the merged filter and is returned.
   */
  lemma ShouldLeaksIff(a: seq<Condition>, b: seq<Condition>)
    requires Fields(a) && Fields(b)
    ensures AlwaysMeets(TwoShoulds(a, b)) <==> Narrows(OnlyShould(a), OnlyShould(b))
  {
    var r := TwoShoulds(a, b);
    if Narrows(OnlyShould(a), OnlyShould(b)) {
      hide Honest, MeanRoot, AllMeet;
      var p := r.prefetches[0];
      assert NarrowsDownAll(p.prefetches, MergeOpts(r.filter, p.filter));
      assert NarrowsDown(p, r.filter) && r.prefetches[1..] == [] && NarrowsDownAll([], r.filter);
      forall sh | Honest(sh) && MeanRoot(sh, r).Some? ensures AllMeet(sh, Ids([MeanRoot(sh, r).value]), r.filter) {
        RootMeets(sh, r);
      }
    } else {
      var bad :| bad in b && bad !in a;
      var holds := (c: int) => c == bad.c;
      Leaks(a, b, bad, holds);
      assert !AllMeet(OnePoint(holds), Ids([MeanRoot(OnePoint(holds), r).value]), r.filter);
      OnePointHonest(holds);
    }
  }

  lemma Leaks(a: seq<Condition>, b: seq<Condition>, bad: Condition, holds: int -> bool)
    requires Fields(a) && Fields(b) && bad in b && bad !in a && forall c :: holds(c) <==> c == bad.c
    ensures var sh, r := OnePoint(holds), TwoShoulds(a, b);
            MeanRoot(sh, r) == Some([Point(0, ZERO)]) && 0 in Ids([MeanRoot(sh, r).value]) && !Meets(sh, 0, r.filter)
  {
    var sh, r, v := OnePoint(holds), TwoShoulds(a, b), Checks(holds);
    var fa, fb := OnlyShould(a), OnlyShould(b);
    CountMeans(v, a);
    CountMeans(v, a + b);
    assert CheckCondition(v, bad) && bad in a + b;
    assert forall c :: c in a ==> !CheckCondition(v, c);
    assert CheckFilter(v, Merge(fa, fb)) && !CheckFilter(v, fa);
    SameChecker(holds, r.filter);
    hide CheckFilter, CountMet;
    var p := r.prefetches[0];
    var found := [Point(0, ZERO)];
    assert Mean(sh, p, r.filter) == Some(found);
    assert r.prefetches[1..] == [] && MeanAll(sh, [], r.filter) == Some([]);
    assert MeanAll(sh, r.prefetches, r.filter) == Some([found] + []) && [found] + [] == [found];
    OneListIds(found);
    assert found[0] in found;
    assert Ids([found]) == {0};
    OnlyIdsMeans(v, Ids([found]));
    assert DepthAll(r.prefetches) == 1 by {
      assert Depth(p) == 1 + DepthAll([]) && DepthAll([]) == 0;
    }
    assert MeanRoot(sh, r) == Rescore(sh, Params(Vector(0), 1, None, 0), [found]);
  }
}
