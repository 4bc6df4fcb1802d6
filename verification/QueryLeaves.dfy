/** What a planned query asks of the segments: one request for every leaf of the tree, with all filters on its path. */
module QueryLeaves {
  import opened Options
  import opened Filters
  import opened QueryPlans
  import opened QueryPlanner

  /** The prefetch at the end of a path of child positions. */
  function At(ps: seq<Prefetch>, path: seq<nat>): Option<Prefetch> {
    if path == [] || path[0] >= |ps| then None
    else if |path| == 1 then Some(ps[path[0]])
    else At(ps[path[0]].prefetches, path[1..])
  }

  /** The filters of the prefetches on the path, the outermost first. */
  function FiltersOn(ps: seq<Prefetch>, path: seq<nat>): seq<Option<Filter>> {
    if path == [] || path[0] >= |ps| then []
    else [ps[path[0]].filter] + FiltersOn(ps[path[0]].prefetches, path[1..])
  }

  function MergedOn(filter: Option<Filter>, fs: seq<Option<Filter>>): Option<Filter>
    decreases |fs|
  {
    if fs == [] then filter else MergedOn(MergeOpts(filter, fs[0]), fs[1..])
  }

  /** The search was added between two states of the batch. */
  ghost predicate Searched(b: Batch, b': Batch, s: Search) {
    exists i :: |b.searches| <= i < |b'.searches| && b'.searches[i] == s
  }

  ghost predicate Scrolled(b: Batch, b': Batch, s: Scroll) {
    exists i :: |b.scrolls| <= i < |b'.scrolls| && b'.scrolls[i] == s
  }

  /** A request was added that asks for what the leaf asks for, under this filter. */
  ghost predicate Asked(b: Batch, b': Batch, leaf: Prefetch, filter: Option<Filter>) {
    match leaf.query
    case Some(Vector(q)) => Searched(b, b', Search(q, filter, leaf.limit, leaf.threshold, leaf.params))
    case Some(Mmr(_, near, candidates)) =>
      Searched(b, b', Search(near, filter, candidates, leaf.threshold, leaf.params))
    case Some(OrderBy(q)) => Scrolled(b, b', Scroll(ByField(q), filter, leaf.limit))
    case Some(Sample(draw)) => Scrolled(b, b', Scroll(Random(draw), filter, leaf.limit))
    case None => Scrolled(b, b', Scroll(ById, filter, leaf.limit))
    case Some(Fuse(_)) => false
    case Some(Formula(_)) => false
  }

  lemma AskedWithin(b0: Batch, b: Batch, b': Batch, b1: Batch, leaf: Prefetch, filter: Option<Filter>)
    requires Extends(b0, b) && Extends(b', b1) && Asked(b, b', leaf, filter)
    ensures Asked(b0, b1, leaf, filter)
  {
    assert forall i :: 0 <= i < |b'.searches| ==> b1.searches[i] == b'.searches[i];
    assert forall i :: 0 <= i < |b'.scrolls| ==> b1.scrolls[i] == b'.scrolls[i];
  }

  lemma LeafAsked(b: Batch, p: Prefetch, filter: Option<Filter>)
    requires p.prefetches == [] && Plan(b, p, filter).value.Some?
    ensures Asked(b, Plan(b, p, filter).batch, p, MergeOpts(filter, p.filter))
  {
    hide MergeOpts;
    var b' := Plan(b, p, filter).batch;
    assert |b'.searches| > |b.searches| ==> b'.searches[|b.searches|] == b'.searches[|b'.searches| - 1];
    assert |b'.scrolls| > |b.scrolls| ==> b'.scrolls[|b.scrolls|] == b'.scrolls[|b'.scrolls| - 1];
  }

  /** Every leaf of the tree gets its request, with the filters on the way to it merged from the outside in. */
  lemma {:induction false} EveryLeafAsked(b: Batch, ps: seq<Prefetch>, filter: Option<Filter>, path: seq<nat>)
    requires PlanAll(b, ps, filter).value.Some? && At(ps, path).Some? && At(ps, path).value.prefetches == []
    ensures Asked(b, PlanAll(b, ps, filter).batch, At(ps, path).value, MergedOn(filter, FiltersOn(ps, path)))
    decreases ps, |path|
  {
    hide Plan, MergeOpts, Asked, MergedOn;
    var first := Plan(b, ps[0], filter);
    var all := PlanAll(b, ps, filter);
    PlanNamesAll(b, ps[0], filter);
    PlanAllNamesAll(first.batch, ps[1..], filter);
    hide SearchIdxs, ScrollIdxs, SearchIdxsAll, ScrollIdxsAll, Range;
    var leaf, fs := At(ps, path).value, FiltersOn(ps, path);
    if path[0] == 0 {
      FirstAsked(b, ps[0], filter, path);
      assert ps[0].filter == fs[0];
      AskedWithin(b, b, first.batch, all.batch, leaf, MergedOn(filter, fs));
    } else {
      SkipFirst(ps, path);
      EveryLeafAsked(first.batch, ps[1..], filter, [path[0] - 1] + path[1..]);
      AskedWithin(b, first.batch, all.batch, all.batch, leaf, MergedOn(filter, fs));
    }
  }

  lemma SkipFirst(ps: seq<Prefetch>, path: seq<nat>)
    requires ps != [] && path != [] && path[0] > 0
    ensures var rest := [path[0] - 1] + path[1..];
            At(ps[1..], rest) == At(ps, path) && FiltersOn(ps[1..], rest) == FiltersOn(ps, path)
  {
    var rest := [path[0] - 1] + path[1..];
    assert rest[1..] == path[1..];
    assert path[0] < |ps| ==> ps[1..][rest[0]] == ps[path[0]];
  }

  lemma {:induction false} FirstAsked(b: Batch, p: Prefetch, filter: Option<Filter>, path: seq<nat>)
    requires path != [] && Plan(b, p, filter).value.Some?
    requires var leaf := if |path| == 1 then Some(p) else At(p.prefetches, path[1..]);
             leaf.Some? && leaf.value.prefetches == []
    ensures var leaf := if |path| == 1 then Some(p) else At(p.prefetches, path[1..]);
            Asked(b, Plan(b, p, filter).batch, leaf.value,
                  MergedOn(filter, [p.filter] + FiltersOn(p.prefetches, path[1..])))
    decreases p, |path|
  {
    var fs := [p.filter] + FiltersOn(p.prefetches, path[1..]);
    assert fs[1..] == FiltersOn(p.prefetches, path[1..]);
    assert MergedOn(filter, fs) == MergedOn(MergeOpts(filter, p.filter), fs[1..]);
    if |path| == 1 {
      LeafAsked(b, p, filter);
    } else {
      hide MergeOpts, Asked;
      EveryLeafAsked(b, p.prefetches, MergeOpts(filter, p.filter), path[1..]);
    }
  }

  // ----- and nothing else is asked for

  function Leaves(p: Prefetch): nat
    decreases p, 0
  {
    if p.prefetches == [] then 1 else LeavesAll(p.prefetches)
  }

  function LeavesAll(ps: seq<Prefetch>): nat
    decreases ps, 0
  {
    if ps == [] then 0 else Leaves(ps[0]) + LeavesAll(ps[1..])
  }

  function Size(b: Batch): nat {
    |b.searches| + |b.scrolls|
  }

  lemma {:induction false} OneRequestALeaf(b: Batch, p: Prefetch, filter: Option<Filter>)
    requires Plan(b, p, filter).value.Some?
    ensures Size(Plan(b, p, filter).batch) == Size(b) + Leaves(p)
    decreases p, 0
  {
    hide MergeOpts;
    if p.prefetches != [] {
      OneRequestALeafAll(b, p.prefetches, MergeOpts(filter, p.filter));
    }
  }

  /** The batch grows by exactly as many requests as the tree has leaves. */
  lemma {:induction false} OneRequestALeafAll(b: Batch, ps: seq<Prefetch>, filter: Option<Filter>)
    requires PlanAll(b, ps, filter).value.Some?
    ensures Size(PlanAll(b, ps, filter).batch) == Size(b) + LeavesAll(ps)
    decreases ps, 0
  {
    hide Plan;
    if ps != [] {
      OneRequestALeaf(b, ps[0], filter);
      OneRequestALeafAll(Plan(b, ps[0], filter).batch, ps[1..], filter);
    }
  }

  // ----- what the merged filter of a path accepts

  /** Down the path every filter is apart from what is merged above it. */
  predicate ApartOn(filter: Option<Filter>, fs: seq<Option<Filter>>)
    decreases |fs|
  {
    fs == [] || (ApartOpt(filter, fs[0]) && ApartOn(MergeOpts(filter, fs[0]), fs[1..]))
  }

  /** Then a leaf's request accepts exactly the points that all filters on its path accept. */
  lemma {:induction false} MergedOnIsAll(v: Checker, filter: Option<Filter>, fs: seq<Option<Filter>>)
    requires ApartOn(filter, fs)
    ensures Accepts(v, MergedOn(filter, fs)) <==> Accepts(v, filter) && forall f :: f in fs ==> Accepts(v, f)
    decreases |fs|
  {
    hide Accepts, MergeOpts, ApartOpt;
    if fs != [] {
      MergeOptsIsBoth(v, filter, fs[0]);
      MergedOnIsAll(v, MergeOpts(filter, fs[0]), fs[1..]);
      assert forall f :: f in fs <==> f == fs[0] || f in fs[1..];
    }
  }

  // ----- whole queries

  /** A query over prefetches asks for each leaf of its tree once, under its own filter and those on the leaf's path. */
  lemma RootAsks(b: Batch, r: Request, path: seq<nat>)
    requires r.prefetches != [] && PlanRoot(b, r).value.Some?
    ensures Size(PlanRoot(b, r).batch) == Size(b) + LeavesAll(r.prefetches)
    ensures At(r.prefetches, path).Some? && At(r.prefetches, path).value.prefetches == [] ==>
              Asked(b, PlanRoot(b, r).batch, At(r.prefetches, path).value,
                    MergedOn(r.filter, FiltersOn(r.prefetches, path)))
  {
    hide Asked, MergedOn;
    OneRequestALeafAll(b, r.prefetches, r.filter);
    if At(r.prefetches, path).Some? && At(r.prefetches, path).value.prefetches == [] {
      EveryLeafAsked(b, r.prefetches, r.filter, path);
    }
  }

  /** A query without prefetches is itself the leaf; it asks for the points to skip as well. */
  lemma RootIsLeaf(b: Batch, r: Request)
    requires r.prefetches == [] && PlanRoot(b, r).value.Some?
    ensures Size(PlanRoot(b, r).batch) == Size(b) + 1
    ensures Asked(b, PlanRoot(b, r).batch, Prefetch([], r.query, r.limit + r.offset, r.params, None, r.threshold),
        r.filter)
  {
    var p := Prefetch([], r.query, r.limit + r.offset, r.params, None, r.threshold);
    assert PlanRoot(b, r).batch == Plan(b, p, r.filter).batch;
    OneRequestALeaf(b, p, r.filter);
    LeafAsked(b, p, r.filter);
    assert MergeOpts(r.filter, None) == r.filter;
  }
}
