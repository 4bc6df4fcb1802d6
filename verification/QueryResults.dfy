/** What each stage of a query owes its results: its own limit, threshold, parameters and sources. */
module QueryResults {
  import opened Options
  import opened RankFusion
  import opened Filters
  import opened QueryPlans
  import opened QueryPlanner
  import opened QueryWitness

  // ----- thresholds

  /** Whether a score of a vector query reaches a threshold, which depends on the distance it is made of. */
  type Passes = (int, Score, real) -> bool

  ghost predicate HonorsThresholds(sh: Shard, passes: Passes) {
    && (forall s, x :: sh.search(s).Some? && s.threshold.Some? && x in sh.search(s).value ==>
          passes(s.q, x.score, s.threshold.value))
    && (forall q, ss, l, t: real, x :: sh.formula(q, ss, l, Some(t)).Some? && x in sh.formula(q, ss, l, Some(t)).value
          ==> AtLeast(x.score, Finite(t)))
  }

  lemma OnePointHonors(holds: int -> bool)
    ensures HonorsThresholds(OnePoint(holds), (q, score, t) => true)
  {
  }

  lemma {:induction false} TakeWhileReaches(ps: Points, threshold: real)
    ensures forall x :: x in TakeWhile(ps, threshold) ==> AtLeast(x.score, Finite(threshold))
  {
    if ps != [] && Reaches(ps[0].score, threshold) {
      TakeWhileReaches(ps[1..], threshold);
    }
  }

  /** What reaching the threshold means to each kind of query; ordering, sampling and MMR have none. */
  ghost predicate ReachesFor(passes: Passes, query: Scoring, threshold: Option<real>, x: Point) {
    threshold.Some? ==>
      match query
      case Vector(q) => passes(q, x.score, threshold.value)
      case Fuse(_) => AtLeast(x.score, Finite(threshold.value))
      case Formula(_) => AtLeast(x.score, Finite(threshold.value))
      case _ => true
  }

  /** Every result of a rescoring reaches its threshold; where there is none to reach, the threshold plays no part. */
  lemma RescoreReaches(sh: Shard, passes: Passes, p: Params, sources: seq<Points>)
    requires HonorsThresholds(sh, passes) && Rescore(sh, p, sources).Some?
    ensures forall x :: x in Rescore(sh, p, sources).value ==> ReachesFor(passes, p.rescore, p.threshold, x)
    ensures p.rescore.OrderBy? || p.rescore.Sample? || p.rescore.Mmr? ==>
              Rescore(sh, p, sources) == Rescore(sh, p.(threshold := None), sources)
  {
    if p.rescore.Fuse? && p.threshold.Some? {
      var fused := FuseSources(sh, p.rescore.fusion, sources).value;
      TakeWhileReaches(fused, p.threshold.value);
    }
  }

  /** A prefetch returns at most its limit, and each result reaches its own threshold, at any depth of the tree. */
  lemma PrefetchReaches(sh: Shard, passes: Passes, p: Prefetch, filter: Option<Filter>)
    requires Honest(sh) && HonorsThresholds(sh, passes) && Mean(sh, p, filter).Some? && p.query.Some?
    requires !(p.prefetches == [] && p.query.value.Mmr?)
    ensures |Mean(sh, p, filter).value| <= p.limit
    ensures forall x :: x in Mean(sh, p, filter).value ==> ReachesFor(passes, p.query.value, p.threshold, x)
  {
    hide Rescore, MeanAll, MergeOpts, Accepts;
    if p.prefetches != [] {
      var params := Params(p.query.value, p.limit, p.threshold, p.params);
      var sources := MeanAll(sh, p.prefetches, MergeOpts(filter, p.filter)).value;
      RescoreReaches(sh, passes, params, sources);
      RescoreClosed(sh, params, sources);
    }
  }

  /** A leaf that asks for MMR is the search for its candidates. */
  lemma MmrLeafReaches(sh: Shard, passes: Passes, p: Prefetch, filter: Option<Filter>)
    requires Honest(sh) && HonorsThresholds(sh, passes) && Mean(sh, p, filter).Some?
    requires p.prefetches == [] && p.query.Some? && p.query.value.Mmr?
    ensures |Mean(sh, p, filter).value| <= p.query.value.candidates
    ensures forall x :: x in Mean(sh, p, filter).value ==>
              ReachesFor(passes, Vector(p.query.value.nearest), p.threshold, x)
  {
    hide MergeOpts, Accepts;
  }

  // ----- what a stage works on

  lemma {:induction false} ResultsOf(sh: Shard, ps: seq<Prefetch>, filter: Option<Filter>, i: nat)
    requires MeanAll(sh, ps, filter).Some? && i < |ps|
    ensures Mean(sh, ps[i], filter) == Some(MeanAll(sh, ps, filter).value[i])
    decreases |ps|
  {
    hide Mean;
    if i > 0 {
      ResultsOf(sh, ps[1..], filter, i - 1);
    }
  }

  /**
   A vector query over prefetches is one search among exactly the points they returned, with the query's own limit,
   threshold and parameters.
   */
  lemma NestedIsSearch(sh: Shard, p: Prefetch, filter: Option<Filter>) returns (sources: seq<Points>, s: Search)
    requires p.prefetches != [] && p.query.Some? && p.query.value.Vector? && Mean(sh, p, filter).Some?
    ensures |sources| == |p.prefetches|
    ensures forall i :: 0 <= i < |sources| ==>
              Mean(sh, p.prefetches[i], MergeOpts(filter, p.filter)) == Some(sources[i])
    ensures Mean(sh, p, filter) == sh.search(s)
    ensures s.q == p.query.value.q && s.limit == p.limit && s.threshold == p.threshold && s.params == p.params
    ensures forall id :: Meets(sh, id, s.filter) <==> id in Ids(sources)
  {
    var f := MergeOpts(filter, p.filter);
    sources := MeanAll(sh, p.prefetches, f).value;
    s := Search(p.query.value.q, FilterByPointIds(sources), p.limit, p.threshold, p.params);
    forall i | 0 <= i < |sources| ensures Mean(sh, p.prefetches[i], f) == Some(sources[i]) {
      ResultsOf(sh, p.prefetches, f, i);
    }
    forall id ensures Meets(sh, id, s.filter) <==> id in Ids(sources) {
      OnlyIdsMeans(CheckerOf(sh, id), Ids(sources));
    }
  }

  /** An ordering or sampling query over prefetches is one scroll among exactly the points they returned. */
  lemma NestedIsScroll(sh: Shard, p: Prefetch, filter: Option<Filter>) returns (sources: seq<Points>, s: Scroll)
    requires p.prefetches != [] && p.query.Some? && Mean(sh, p, filter).Some?
    requires p.query.value.OrderBy? || p.query.value.Sample?
    ensures MeanAll(sh, p.prefetches, MergeOpts(filter, p.filter)) == Some(sources)
    ensures Mean(sh, p, filter) == sh.scroll(s) && s.limit == p.limit
    ensures s.order == if p.query.value.OrderBy? then ByField(p.query.value.q) else Random(p.query.value.draw)
    ensures forall id :: Meets(sh, id, s.filter) <==> id in Ids(sources)
  {
    sources := MeanAll(sh, p.prefetches, MergeOpts(filter, p.filter)).value;
    var order := if p.query.value.OrderBy? then ByField(p.query.value.q) else Random(p.query.value.draw);
    s := Scroll(order, FilterByPointIds(sources), p.limit);
    forall id ensures Meets(sh, id, s.filter) <==> id in Ids(sources) {
      OnlyIdsMeans(CheckerOf(sh, id), Ids(sources));
    }
  }

  /** A formula over prefetches scores what they returned, with the query's own limit and threshold. */
  lemma NestedIsFormula(sh: Shard, p: Prefetch, filter: Option<Filter>) returns (sources: seq<Points>)
    requires p.prefetches != [] && p.query.Some? && p.query.value.Formula? && Mean(sh, p, filter).Some?
    ensures |sources| == |p.prefetches|
    ensures forall i :: 0 <= i < |sources| ==>
              Mean(sh, p.prefetches[i], MergeOpts(filter, p.filter)) == Some(sources[i])
    ensures Mean(sh, p, filter) == sh.formula(p.query.value.q, sources, p.limit, p.threshold)
  {
    var f := MergeOpts(filter, p.filter);
    sources := MeanAll(sh, p.prefetches, f).value;
    forall i | 0 <= i < |sources| ensures Mean(sh, p.prefetches[i], f) == Some(sources[i]) {
      ResultsOf(sh, p.prefetches, f, i);
    }
  }

  // ----- the root of a query

  /** A query as the prefetch it would be: its limit includes the points to skip. */
  function AsPrefetch(r: Request): Prefetch {
    Prefetch(r.prefetches, r.query, r.limit + r.offset, r.params, None, r.threshold)
  }

  /** But for MMR, a query within the depth bound means what it would mean as a prefetch of no further filter. */
  lemma RootIsPrefetch(sh: Shard, r: Request)
    requires DepthAll(r.prefetches) <= MAX_PREFETCH_DEPTH && !(r.query.Some? && r.query.value.Mmr?)
    ensures MeanRoot(sh, r) == Mean(sh, AsPrefetch(r), r.filter)
  {
    hide Rescore, MeanAll;
    assert MergeOpts(r.filter, None) == r.filter;
  }

  /**
   An MMR query diversifies, down to its limit and the points to skip, the nearest candidates: those of the whole
   collection under its filter, or of exactly the points its prefetches returned.
   */
  lemma RootMmr(sh: Shard, r: Request) returns (s: Search, near: Points)
    requires r.query.Some? && r.query.value.Mmr? && MeanRoot(sh, r).Some?
    ensures s.q == r.query.value.nearest && s.limit == r.query.value.candidates && s.threshold == r.threshold
    ensures s.params == r.params && sh.search(s) == Some(near)
    ensures MeanRoot(sh, r) == sh.mmr(r.query.value.q, [near], r.limit + r.offset)
    ensures r.prefetches == [] ==> s.filter == r.filter
    ensures r.prefetches != [] ==> MeanAll(sh, r.prefetches, r.filter).Some?
    ensures r.prefetches != [] ==>
              forall id :: Meets(sh, id, s.filter) <==> id in Ids(MeanAll(sh, r.prefetches, r.filter).value)
  {
    var sources := if r.prefetches == [] then [] else MeanAll(sh, r.prefetches, r.filter).value;
    var filter := if r.prefetches == [] then r.filter else FilterByPointIds(sources);
    s := Search(r.query.value.nearest, filter, r.query.value.candidates, r.threshold, r.params);
    near := sh.search(s).value;
    if r.prefetches != [] {
      forall id ensures Meets(sh, id, s.filter) <==> id in Ids(sources) {
        OnlyIdsMeans(CheckerOf(sh, id), Ids(sources));
      }
    }
  }

  /**
   A query that fuses its prefetches by rank returns, of the points they returned, exactly the first `limit + offset` in
   order of score that reach its threshold; it fails exactly if the tree is too deep, a prefetch fails or the number of
   weights is wrong.
   */
  lemma RootFusionExact(sh: Shard, r: Request, k: nat, weights: Option<seq<real>>)
    requires ValidOrder(sh.order) && r.prefetches != [] && r.query == Some(Fuse(Rrf(k, weights)))
    ensures MeanRoot(sh, r).None?
       <==> DepthAll(r.prefetches) > MAX_PREFETCH_DEPTH || MeanAll(sh, r.prefetches, r.filter).None?
            || (weights.Some? && |weights.value| != |r.prefetches|)
    ensures MeanRoot(sh, r).Some? ==>
              FusedTop(MeanRoot(sh, r).value, MeanAll(sh, r.prefetches, r.filter).value, k, weights,
                       r.limit + r.offset, r.threshold)
  {
    hide MeanAll, DepthAll;
    var sources := MeanAll(sh, r.prefetches, r.filter);
    if sources.Some? {
      var params := Params(r.query.value, r.limit + r.offset, r.threshold, r.params);
      RankFusionExact(sh, params, sources.value, k, weights);
      hide Rescore, FusedTop;
    }
  }

  /** The same for a prefetch that fuses its own prefetches, at any depth. */
  lemma PrefetchFusionExact(sh: Shard, p: Prefetch, filter: Option<Filter>, k: nat, weights: Option<seq<real>>)
    requires ValidOrder(sh.order) && p.prefetches != [] && p.query == Some(Fuse(Rrf(k, weights)))
    ensures var sources := MeanAll(sh, p.prefetches, MergeOpts(filter, p.filter));
            && (Mean(sh, p, filter).None?
                <==> sources.None? || (weights.Some? && |weights.value| != |p.prefetches|))
            && (Mean(sh, p, filter).Some? ==>
                  FusedTop(Mean(sh, p, filter).value, sources.value, k, weights, p.limit, p.threshold))
  {
    hide MeanAll, MergeOpts;
    var sources := MeanAll(sh, p.prefetches, MergeOpts(filter, p.filter));
    if sources.Some? {
      RankFusionExact(sh, Params(p.query.value, p.limit, p.threshold, p.params), sources.value, k, weights);
      hide Rescore, FusedTop;
    }
  }

  // ----- depth

  /** A chain of prefetches, each the child of the one before. */
  ghost predicate Chain(ps: seq<Prefetch>, chain: seq<Prefetch>)
    decreases |chain|
  {
    chain == [] || (chain[0] in ps && Chain(chain[0].prefetches, chain[1..]))
  }

  lemma {:induction false} ChainsWithinDepth(ps: seq<Prefetch>, chain: seq<Prefetch>)
    requires Chain(ps, chain)
    ensures |chain| <= DepthAll(ps)
    decreases |chain|, |ps|
  {
    if chain != [] {
      if chain[0] == ps[0] {
        ChainsWithinDepth(ps[0].prefetches, chain[1..]);
      } else {
        assert chain[0] in ps[1..];
        ChainsWithinDepth(ps[1..], chain);
      }
    }
  }

  lemma {:induction false} DeepestChain(ps: seq<Prefetch>) returns (chain: seq<Prefetch>)
    ensures Chain(ps, chain) && |chain| == DepthAll(ps)
    decreases ps
  {
    chain := [];
    if ps != [] {
      if Depth(ps[0]) > DepthAll(ps[1..]) {
        var below := DeepestChain(ps[0].prefetches);
        chain := [ps[0]] + below;
        assert chain[1..] == below && chain[0] in ps;
      } else {
        chain := DeepestChain(ps[1..]);
        ChainOfMore(ps, chain);
      }
    }
  }

  lemma ChainOfMore(ps: seq<Prefetch>, chain: seq<Prefetch>)
    requires ps != [] && Chain(ps[1..], chain)
    ensures Chain(ps, chain)
  {
    assert chain != [] ==> chain[0] in ps;
  }

  /** A query is refused for its depth exactly when its prefetches nest more than 64 deep. */
  lemma TooDeepIff(r: Request)
    ensures DepthAll(r.prefetches) > MAX_PREFETCH_DEPTH <==> exists chain :: Chain(r.prefetches, chain) && |chain| > 64
  {
    var deepest := DeepestChain(r.prefetches);
    forall chain | Chain(r.prefetches, chain) ensures |chain| <= DepthAll(r.prefetches) {
      ChainsWithinDepth(r.prefetches, chain);
    }
  }
}
