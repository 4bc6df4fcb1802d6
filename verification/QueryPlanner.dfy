/** Flattening a nested query into a plan, and the proof that the plan means what the query means. */
module QueryPlanner {
  import opened Options
  import opened RankFusion
  import opened Filters
  import opened QueryPlans

  const MAX_PREFETCH_DEPTH: nat := 64

  // ----- what a query means, read directly off its tree

  /** A query without prefetches is answered by one search or scroll; fusion and formulas need prefetches. */
  function MeanLeaf(sh: Shard, query: Option<Scoring>, limit: nat, params: int, threshold: Option<real>,
      filter: Option<Filter>): Option<Points> {
    match query
    case Some(Vector(q)) => sh.search(Search(q, filter, limit, threshold, params))
    case Some(Mmr(_, nearest, candidates)) => sh.search(Search(nearest, filter, candidates, threshold, params))
    case Some(OrderBy(q)) => sh.scroll(Scroll(ByField(q), filter, limit))
    case Some(Sample(draw)) => sh.scroll(Scroll(Random(draw), filter, limit))
    case None => sh.scroll(Scroll(ById, filter, limit))
    case Some(Fuse(_)) => None
    case Some(Formula(_)) => None
  }

  /** A fusion with weights needs one per source. */
  predicate WeightsFit(p: Params, sources: nat) {
    p.rescore.Fuse? && p.rescore.fusion.Rrf? && p.rescore.fusion.weights.Some? ==>
        |p.rescore.fusion.weights.value| == sources
  }

  function Mean(sh: Shard, p: Prefetch, filter: Option<Filter>): Option<Points>
    decreases p, 0
  {
    var f := MergeOpts(filter, p.filter);
    if p.prefetches == [] then MeanLeaf(sh, p.query, p.limit, p.params, p.threshold, f)
    else if p.query.None? then None
    else
      var params := Params(p.query.value, p.limit, p.threshold, p.params);
      match MeanAll(sh, p.prefetches, f)
      case None => None
      case Some(sources) => if WeightsFit(params, |p.prefetches|) then Rescore(sh, params, sources) else None
  }

  function MeanAll(sh: Shard, ps: seq<Prefetch>, filter: Option<Filter>): (r: Option<seq<Points>>)
    ensures r.Some? ==> |r.value| == |ps|
    decreases ps, 0
  {
    if ps == [] then Some([])
    else
      match (Mean(sh, ps[0], filter), MeanAll(sh, ps[1..], filter))
      case (Some(a), Some(b)) => Some([a] + b)
      case _ => None
  }

  function Depth(p: Prefetch): nat
    decreases p, 0
  {
    1 + DepthAll(p.prefetches)
  }

  function DepthAll(ps: seq<Prefetch>): nat
    decreases ps, 0
  {
    if ps == [] then 0
    else
      var a, b := Depth(ps[0]), DepthAll(ps[1..]);
      if a > b then a else b
  }

  /**
   The rescoring stages of a query over prefetches: MMR first narrows by nearest neighbours, fusion works on all
   sources.
   */
  function RootStages(query: Scoring, limit: nat, threshold: Option<real>, params: int): Stages {
    if query.Mmr? then
      Stages(Some(Params(Vector(query.nearest), query.candidates, threshold, params)),
          Some(Params(query, limit, threshold, params)))
    else if query.Fuse? then Stages(None, Some(Params(query, limit, threshold, params)))
    else Stages(Some(Params(query, limit, threshold, params)), None)
  }

  function MeanRoot(sh: Shard, r: Request): Option<Points> {
    var limit := r.limit + r.offset;
    if DepthAll(r.prefetches) > MAX_PREFETCH_DEPTH then None
    else if r.prefetches == [] then
      match MeanLeaf(sh, r.query, limit, r.params, r.threshold, r.filter)
      case None => None
      case Some(leaf) =>
        if r.query.Some? && r.query.value.Mmr?
            then Rescore(sh, Params(r.query.value, limit, r.threshold, r.params), [leaf])
        else Some(leaf)
    else if r.query.None? then None
    else
      var params := Params(r.query.value, limit, r.threshold, r.params);
      match MeanAll(sh, r.prefetches, r.filter)
      case None => None
      case Some(sources) =>
        if !WeightsFit(params, |r.prefetches|) then None
        else if r.query.value.Mmr? then
          match Rescore(sh, Params(Vector(r.query.value.nearest), r.query.value.candidates, r.threshold, r.params),
              sources)
          case None => None
          case Some(near) => Rescore(sh, params, [near])
        else Rescore(sh, params, sources)
  }

  // ----- the planner

  datatype Batch = Batch(searches: seq<Search>, scrolls: seq<Scroll>)

  /** The batch as planning leaves it, and what was planned unless there was an error. */
  datatype Planned<T> = Planned(batch: Batch, value: Option<T>)

  function PlanSearch(b: Batch, s: Search): Planned<Source> {
    Planned(b.(searches := b.searches + [s]), Some(SearchesIdx(|b.searches|)))
  }

  function PlanScroll(b: Batch, s: Scroll): Planned<Source> {
    Planned(b.(scrolls := b.scrolls + [s]), Some(ScrollsIdx(|b.scrolls|)))
  }

  function PlanLeaf(b: Batch, query: Option<Scoring>, limit: nat, params: int, threshold: Option<real>,
      filter: Option<Filter>): Planned<Source>
  {
    match query
    case Some(Vector(q)) => PlanSearch(b, Search(q, filter, limit, threshold, params))
    case Some(Mmr(_, nearest, candidates)) => PlanSearch(b, Search(nearest, filter, candidates, threshold, params))
    case Some(OrderBy(q)) => PlanScroll(b, Scroll(ByField(q), filter, limit))
    case Some(Sample(draw)) => PlanScroll(b, Scroll(Random(draw), filter, limit))
    case None => PlanScroll(b, Scroll(ById, filter, limit))
    case Some(Fuse(_)) => Planned(b, None)
    case Some(Formula(_)) => Planned(b, None)
  }

  /** The validation of a new merge plan: both stages are checked against the number of sources. */
  predicate StagesFit(st: Stages, sources: nat) {
    && (st.shard.Some? ==> WeightsFit(st.shard.value, sources))
    && (st.collection.Some? ==> WeightsFit(st.collection.value, sources))
  }

  function Plan(b: Batch, p: Prefetch, filter: Option<Filter>): Planned<Source>
    decreases p, 0
  {
    var f := MergeOpts(filter, p.filter);
    if p.prefetches == [] then PlanLeaf(b, p.query, p.limit, p.params, p.threshold, f)
    else
      var inner := PlanAll(b, p.prefetches, f);
      if inner.value.None? || p.query.None? then Planned(inner.batch, None)
      else
        var st := Stages(Some(Params(p.query.value, p.limit, p.threshold, p.params)), None);
        Planned(inner.batch,
                if StagesFit(st, |inner.value.value|) then Some(Nested(MergePlan(inner.value.value, Some(st))))
                else None)
  }

  function PlanAll(b: Batch, ps: seq<Prefetch>, filter: Option<Filter>): (r: Planned<seq<Source>>)
    ensures r.value.Some? ==> |r.value.value| == |ps|
    decreases ps, 0
  {
    if ps == [] then Planned(b, Some([]))
    else
      var first := Plan(b, ps[0], filter);
      if first.value.None? then Planned(first.batch, None)
      else
        var rest := PlanAll(first.batch, ps[1..], filter);
        Planned(rest.batch, if rest.value.None? then None else Some([first.value.value] + rest.value.value))
  }

  function PlanRoot(b: Batch, r: Request): Planned<MergePlan> {
    var limit := r.limit + r.offset;
    if DepthAll(r.prefetches) > MAX_PREFETCH_DEPTH then Planned(b, None)
    else if r.prefetches == [] then
      var stages := if r.query.Some? && r.query.value.Mmr?
                    then Some(Stages(None, Some(Params(r.query.value, limit, r.threshold, r.params)))) else None;
      var leaf := PlanLeaf(b, r.query, limit, r.params, r.threshold, r.filter);
      Planned(leaf.batch, if leaf.value.None? then None else Some(MergePlan([leaf.value.value], stages)))
    else if r.query.None? then Planned(b, None)
    else
      var inner := PlanAll(b, r.prefetches, r.filter);
      var st := RootStages(r.query.value, limit, r.threshold, r.params);
      Planned(inner.batch,
              if inner.value.Some? && StagesFit(st, |inner.value.value|)
              then Some(MergePlan(inner.value.value, Some(st)))
              else None)
  }

  // ----- plans name every slot of their batch once, in order

  ghost function Range(lo: nat, hi: nat): (r: seq<nat>)
    requires lo <= hi
    ensures |r| == hi - lo && forall i :: 0 <= i < |r| ==> r[i] == lo + i
  {
    seq(hi - lo, i => lo + i)
  }

  ghost predicate Extends(b: Batch, b': Batch) {
    b.searches <= b'.searches && b.scrolls <= b'.scrolls
  }

  lemma LeafNamesAll(b: Batch, query: Option<Scoring>, limit: nat, params: int, threshold: Option<real>,
      filter: Option<Filter>)
    requires PlanLeaf(b, query, limit, params, threshold, filter).value.Some?
    ensures var r := PlanLeaf(b, query, limit, params, threshold, filter);
            Extends(b, r.batch)
            && SearchIdxs(r.value.value) == Range(|b.searches|, |r.batch.searches|)
            && ScrollIdxs(r.value.value) == Range(|b.scrolls|, |r.batch.scrolls|)
  {
  }

  lemma OneSourceIdxs(s: Source)
    ensures SearchIdxsAll([s]) == SearchIdxs(s) && ScrollIdxsAll([s]) == ScrollIdxs(s)
  {
    assert [s][1..] == [];
    assert SearchIdxs(s) + [] == SearchIdxs(s) && ScrollIdxs(s) + [] == ScrollIdxs(s);
  }

  lemma {:induction false} PlanNamesAll(b: Batch, p: Prefetch, filter: Option<Filter>)
    requires Plan(b, p, filter).value.Some?
    ensures var r := Plan(b, p, filter);
            Extends(b, r.batch)
            && SearchIdxs(r.value.value) == Range(|b.searches|, |r.batch.searches|)
            && ScrollIdxs(r.value.value) == Range(|b.scrolls|, |r.batch.scrolls|)
    decreases p, 0
  {
    if p.prefetches == [] {
      LeafNamesAll(b, p.query, p.limit, p.params, p.threshold, MergeOpts(filter, p.filter));
    } else {
      PlanAllNamesAll(b, p.prefetches, MergeOpts(filter, p.filter));
    }
  }

  lemma {:induction false} PlanAllNamesAll(b: Batch, ps: seq<Prefetch>, filter: Option<Filter>)
    requires PlanAll(b, ps, filter).value.Some?
    ensures var r := PlanAll(b, ps, filter);
            Extends(b, r.batch)
            && SearchIdxsAll(r.value.value) == Range(|b.searches|, |r.batch.searches|)
            && ScrollIdxsAll(r.value.value) == Range(|b.scrolls|, |r.batch.scrolls|)
    decreases ps, 0
  {
    hide Plan, MergeOpts;
    if ps != [] {
      PlanNamesAll(b, ps[0], filter);
      var first := Plan(b, ps[0], filter);
      PlanAllNamesAll(first.batch, ps[1..], filter);
      var r := PlanAll(b, ps, filter);
      assert r.value.value[1..] == PlanAll(first.batch, ps[1..], filter).value.value;
    }
  }

  // ----- plans mean what the query means

  /** The leaf requests from `b` on up to `b'`, answered: `sr` and `cr` hold the answers of all of `b'`. */
  ghost predicate Answered(sh: Shard, b: Batch, b': Batch, sr: seq<Points>, cr: seq<Points>) {
    && |sr| >= |b'.searches| && |cr| >= |b'.scrolls|
    && (forall i :: |b.searches| <= i < |b'.searches| ==> sh.search(b'.searches[i]) == Some(sr[i]))
    && (forall i :: |b.scrolls| <= i < |b'.scrolls| ==> sh.scroll(b'.scrolls[i]) == Some(cr[i]))
  }

  ghost predicate SomeFails(sh: Shard, b: Batch, b': Batch) {
    (exists i :: |b.searches| <= i < |b'.searches| && sh.search(b'.searches[i]).None?)
    || exists i :: |b.scrolls| <= i < |b'.scrolls| && sh.scroll(b'.scrolls[i]).None?
  }

  lemma LeafMeans(sh: Shard, b: Batch, p: Prefetch, filter: Option<Filter>, sr: seq<Points>, cr: seq<Points>)
    requires p.prefetches == []
    ensures Plan(b, p, filter).value.None? ==> Mean(sh, p, filter).None?
    ensures Plan(b, p, filter).value.Some? && SomeFails(sh, b, Plan(b, p, filter).batch) ==> Mean(sh, p, filter).None?
    ensures Plan(b, p, filter).value.Some? && Answered(sh, b, Plan(b, p, filter).batch, sr, cr)
            ==> EvalSource(sh, Plan(b, p, filter).value.value, sr, cr) == Mean(sh, p, filter)
  {
    hide Rescore, MergeOpts;
  }

  lemma {:induction false} PlanMeans(sh: Shard, b: Batch, p: Prefetch, filter: Option<Filter>, sr: seq<Points>,
      cr: seq<Points>)
    ensures Plan(b, p, filter).value.None? ==> Mean(sh, p, filter).None?
    ensures Plan(b, p, filter).value.Some? && SomeFails(sh, b, Plan(b, p, filter).batch) ==> Mean(sh, p, filter).None?
    ensures Plan(b, p, filter).value.Some? && Answered(sh, b, Plan(b, p, filter).batch, sr, cr)
            ==> EvalSource(sh, Plan(b, p, filter).value.value, sr, cr) == Mean(sh, p, filter)
    decreases p, 0
  {
    hide Rescore, MergeOpts, Answered, SomeFails;
    if p.prefetches == [] {
      LeafMeans(sh, b, p, filter, sr, cr);
    } else {
      PlanAllMeans(sh, b, p.prefetches, MergeOpts(filter, p.filter), sr, cr);
    }
  }

  lemma {:induction false} PlanAllMeans(sh: Shard, b: Batch, ps: seq<Prefetch>, filter: Option<Filter>, sr: seq<Points>,
      cr: seq<Points>)
    ensures PlanAll(b, ps, filter).value.None? ==> MeanAll(sh, ps, filter).None?
    ensures PlanAll(b, ps, filter).value.Some? && SomeFails(sh, b, PlanAll(b, ps, filter).batch) ==>
              MeanAll(sh, ps, filter).None?
    ensures PlanAll(b, ps, filter).value.Some? && Answered(sh, b, PlanAll(b, ps, filter).batch, sr, cr)
            ==> EvalSources(sh, PlanAll(b, ps, filter).value.value, sr, cr) == MeanAll(sh, ps, filter)
    decreases ps, 0
  {
    hide Plan, Mean, MergeOpts, EvalPlan;
    if ps != [] {
      PlanMeans(sh, b, ps[0], filter, sr, cr);
      if Plan(b, ps[0], filter).value.Some? {
        var first := Plan(b, ps[0], filter);
        PlanAllMeans(sh, first.batch, ps[1..], filter, sr, cr);
        if PlanAll(first.batch, ps[1..], filter).value.Some? {
          var rest := PlanAll(first.batch, ps[1..], filter);
          PlanNamesAll(b, ps[0], filter);
          PlanAllNamesAll(first.batch, ps[1..], filter);
          AnsweredSplits(sh, b, first.batch, rest.batch, sr, cr);
          var r := PlanAll(b, ps, filter);
          assert r.value.value[0] == first.value.value && r.value.value[1..] == rest.value.value;
        }
      }
    }
  }

  lemma AnsweredSplits(sh: Shard, b: Batch, m: Batch, e: Batch, sr: seq<Points>, cr: seq<Points>)
    requires Extends(b, m) && Extends(m, e)
    ensures Answered(sh, b, e, sr, cr) ==> Answered(sh, b, m, sr, cr) && Answered(sh, m, e, sr, cr)
    ensures SomeFails(sh, b, e) ==> SomeFails(sh, b, m) || SomeFails(sh, m, e)
  {
    assert forall i :: 0 <= i < |m.searches| ==> e.searches[i] == m.searches[i];
    assert forall i :: 0 <= i < |m.scrolls| ==> e.scrolls[i] == m.scrolls[i];
  }

  lemma RootNamesAll(b: Batch, r: Request)
    requires PlanRoot(b, r).value.Some?
    ensures var p := PlanRoot(b, r);
            Extends(b, p.batch)
            && SearchIdxsAll(p.value.value.sources) == Range(|b.searches|, |p.batch.searches|)
            && ScrollIdxsAll(p.value.value.sources) == Range(|b.scrolls|, |p.batch.scrolls|)
  {
    if r.prefetches != [] {
      PlanAllNamesAll(b, r.prefetches, r.filter);
      hide PlanAll, SearchIdxsAll, ScrollIdxsAll, RootStages, StagesFit;
    } else {
      var limit := r.limit + r.offset;
      LeafNamesAll(b, r.query, limit, r.params, r.threshold, r.filter);
      OneSourceIdxs(PlanLeaf(b, r.query, limit, r.params, r.threshold, r.filter).value.value);
      hide PlanLeaf, SearchIdxsAll, ScrollIdxsAll;
    }
  }

  lemma OneSource(sh: Shard, s: Source, sr: seq<Points>, cr: seq<Points>)
    ensures EvalSources(sh, [s], sr, cr)
            == if EvalSource(sh, s, sr, cr).None? then None else Some([EvalSource(sh, s, sr, cr).value])
  {
    hide EvalPlan;
    assert [s][1..] == [];
    if EvalSource(sh, s, sr, cr).Some? {
      var v, nil: seq<Points> := EvalSource(sh, s, sr, cr).value, [];
      assert [v] + nil == [v];
    }
  }

  lemma RootMeans(sh: Shard, b: Batch, r: Request, sr: seq<Points>, cr: seq<Points>)
    ensures PlanRoot(b, r).value.None? ==> MeanRoot(sh, r).None?
    ensures PlanRoot(b, r).value.Some? && SomeFails(sh, b, PlanRoot(b, r).batch) ==> MeanRoot(sh, r).None?
    ensures PlanRoot(b, r).value.Some? && Answered(sh, b, PlanRoot(b, r).batch, sr, cr)
            ==> EvalPlan(sh, PlanRoot(b, r).value.value, sr, cr) == MeanRoot(sh, r)
  {
    hide Rescore;
    if r.prefetches != [] {
      PlanAllMeans(sh, b, r.prefetches, r.filter, sr, cr);
    } else if PlanRoot(b, r).value.Some? {
      OneSource(sh, PlanRoot(b, r).value.value.sources[0], sr, cr);
    }
  }

  // ----- batches of queries

  function MeanBatch(sh: Shard, rs: seq<Request>): Option<seq<Points>> {
    if rs == [] then Some([])
    else
      match (MeanRoot(sh, rs[0]), MeanBatch(sh, rs[1..]))
      case (Some(a), Some(rest)) => Some([a] + rest)
      case _ => None
  }

  /** One root plan per query, each wrapped as a source. */
  function PlanBatch(b: Batch, rs: seq<Request>): Planned<seq<Source>>
    decreases rs
  {
    if rs == [] then Planned(b, Some([]))
    else
      var first := PlanRoot(b, rs[0]);
      if first.value.None? then Planned(first.batch, None)
      else
        var rest := PlanBatch(first.batch, rs[1..]);
        Planned(rest.batch, if rest.value.None? then None else Some([Nested(first.value.value)] + rest.value.value))
  }

  lemma {:induction false} BatchNamesAll(b: Batch, rs: seq<Request>)
    requires PlanBatch(b, rs).value.Some?
    ensures var p := PlanBatch(b, rs);
            Extends(b, p.batch)
            && SearchIdxsAll(p.value.value) == Range(|b.searches|, |p.batch.searches|)
            && ScrollIdxsAll(p.value.value) == Range(|b.scrolls|, |p.batch.scrolls|)
    decreases rs
  {
    hide PlanRoot;
    if rs != [] {
      RootNamesAll(b, rs[0]);
      var first := PlanRoot(b, rs[0]);
      BatchNamesAll(first.batch, rs[1..]);
      assert PlanBatch(b, rs).value.value[1..] == PlanBatch(first.batch, rs[1..]).value.value;
    }
  }

  lemma {:induction false} BatchMeans(sh: Shard, b: Batch, rs: seq<Request>, sr: seq<Points>, cr: seq<Points>)
    ensures PlanBatch(b, rs).value.None? ==> MeanBatch(sh, rs).None?
    ensures PlanBatch(b, rs).value.Some? && SomeFails(sh, b, PlanBatch(b, rs).batch) ==> MeanBatch(sh, rs).None?
    ensures PlanBatch(b, rs).value.Some? && Answered(sh, b, PlanBatch(b, rs).batch, sr, cr)
            ==> EvalSources(sh, PlanBatch(b, rs).value.value, sr, cr) == MeanBatch(sh, rs)
    decreases rs
  {
    hide PlanRoot, MeanRoot, EvalPlan;
    if rs != [] {
      RootMeans(sh, b, rs[0], sr, cr);
      if PlanRoot(b, rs[0]).value.Some? {
        var first := PlanRoot(b, rs[0]);
        BatchMeans(sh, first.batch, rs[1..], sr, cr);
        if PlanBatch(first.batch, rs[1..]).value.Some? {
          var rest := PlanBatch(first.batch, rs[1..]);
          RootNamesAll(b, rs[0]);
          BatchNamesAll(first.batch, rs[1..]);
          AnsweredSplits(sh, b, first.batch, rest.batch, sr, cr);
          var p := PlanBatch(b, rs);
          assert p.value.value[0] == Nested(first.value.value) && p.value.value[1..] == rest.value.value;
        }
      }
    }
  }

  /**
   Evaluating the plans of a batch one after the other out of the shared results gives, for every query, what the query
   means; and if any request of any leaf fails, the batch means an error.
   */
  lemma PlannedBatchMeans(sh: Shard, rs: seq<Request>, sr: seq<Points>, cr: seq<Points>)
    ensures PlanBatch(Batch([], []), rs).value.None? ==> MeanBatch(sh, rs).None?
    ensures PlanBatch(Batch([], []), rs).value.Some? ==>
              var p := PlanBatch(Batch([], []), rs);
              && (SomeFails(sh, Batch([], []), p.batch) ==> MeanBatch(sh, rs).None?)
              && (Answered(sh, Batch([], []), p.batch, sr, cr) ==>
                    RunSources(sh, p.value.value, Slots(sr, cr)).value == MeanBatch(sh, rs))
  {
    hide EvalPlan, RunPlan, PlanRoot, MeanRoot, Answered, SomeFails;
    var b := Batch([], []);
    BatchMeans(sh, b, rs, sr, cr);
    if PlanBatch(b, rs).value.Some? {
      BatchNamesAll(b, rs);
      RunSourcesIsEval(sh, PlanBatch(b, rs).value.value, Slots(sr, cr), sr, cr);
    }
  }

  // ----- limits and filters of the whole query

  /** A query returns at most its limit plus its offset of points, whatever is prefetched. */
  lemma RootWithinLimit(sh: Shard, r: Request)
    requires Honest(sh) && MeanRoot(sh, r).Some?
    ensures |MeanRoot(sh, r).value| <= r.limit + r.offset
  {
    hide Rescore;
    var limit := r.limit + r.offset;
    if r.prefetches == [] {
      if r.query.Some? && r.query.value.Mmr? {
        var leaf := MeanLeaf(sh, r.query, limit, r.params, r.threshold, r.filter).value;
        RescoreClosed(sh, Params(r.query.value, limit, r.threshold, r.params), [leaf]);
      }
    } else {
      var params := Params(r.query.value, limit, r.threshold, r.params);
      var sources := MeanAll(sh, r.prefetches, r.filter).value;
      if r.query.value.Mmr? {
        var near := Params(Vector(r.query.value.nearest), r.query.value.candidates, r.threshold, r.params);
        RescoreClosed(sh, params, [Rescore(sh, near, sources).value]);
      } else {
        RescoreClosed(sh, params, sources);
      }
    }
  }

  ghost predicate AllMeet(sh: Shard, ids: set<nat>, filter: Option<Filter>) {
    forall id :: id in ids ==> Meets(sh, id, filter)
  }

  lemma LeafMeets(sh: Shard, query: Option<Scoring>, limit: nat, params: int, threshold: Option<real>,
                  filter: Option<Filter>)
    requires Honest(sh) && MeanLeaf(sh, query, limit, params, threshold, filter).Some?
    ensures AllMeet(sh, Ids([MeanLeaf(sh, query, limit, params, threshold, filter).value]), filter)
  {
    hide Accepts;
  }

  /** On every path down from a prefetch each filter narrows what was merged above it. */
  predicate NarrowsDown(p: Prefetch, filter: Option<Filter>)
    decreases p, 0
  {
    NarrowsOpt(filter, p.filter) && NarrowsDownAll(p.prefetches, MergeOpts(filter, p.filter))
  }

  predicate NarrowsDownAll(ps: seq<Prefetch>, filter: Option<Filter>)
    decreases ps, 0
  {
    ps == [] || (NarrowsDown(ps[0], filter) && NarrowsDownAll(ps[1..], filter))
  }

  /**
   A result of a prefetch meets the prefetch's own filter, and the one merged above it, if the other one narrows it and
   the filters below narrow both.
   */
  lemma MeanMeets(sh: Shard, p: Prefetch, filter: Option<Filter>)
    requires Honest(sh) && Mean(sh, p, filter).Some? && NarrowsDownAll(p.prefetches, MergeOpts(filter, p.filter))
    ensures NarrowsOpt(p.filter, filter) ==> AllMeet(sh, Ids([Mean(sh, p, filter).value]), p.filter)
    ensures NarrowsOpt(filter, p.filter) ==> AllMeet(sh, Ids([Mean(sh, p, filter).value]), filter)
  {
    MeanMeetsMerged(sh, p, filter);
    hide Honest, Mean, NarrowsDownAll, MergeOpts, NarrowsOpt, Accepts;
    forall id | id in Ids([Mean(sh, p, filter).value])
      ensures NarrowsOpt(p.filter, filter) ==> Meets(sh, id, p.filter)
      ensures NarrowsOpt(filter, p.filter) ==> Meets(sh, id, filter)
    {
      if NarrowsOpt(p.filter, filter) {
        NarrowedByFirst(CheckerOf(sh, id), filter, p.filter);
      }
      if NarrowsOpt(filter, p.filter) {
        NarrowsOptImplies(CheckerOf(sh, id), filter, p.filter);
      }
    }
  }

  lemma {:induction false} MeanMeetsMerged(sh: Shard, p: Prefetch, filter: Option<Filter>)
    requires Honest(sh) && Mean(sh, p, filter).Some? && NarrowsDownAll(p.prefetches, MergeOpts(filter, p.filter))
    ensures AllMeet(sh, Ids([Mean(sh, p, filter).value]), MergeOpts(filter, p.filter))
    decreases p, 0
  {
    hide Honest, Rescore, MeanLeaf, Meets, NarrowsOpt;
    var f := MergeOpts(filter, p.filter);
    hide MergeOpts;
    if p.prefetches == [] {
      LeafMeets(sh, p.query, p.limit, p.params, p.threshold, f);
    } else {
      MeanAllMeets(sh, p.prefetches, f);
      RescoreClosed(sh, Params(p.query.value, p.limit, p.threshold, p.params), MeanAll(sh, p.prefetches, f).value);
    }
  }

  lemma {:induction false} MeanAllMeets(sh: Shard, ps: seq<Prefetch>, filter: Option<Filter>)
    requires Honest(sh) && MeanAll(sh, ps, filter).Some? && NarrowsDownAll(ps, filter)
    ensures AllMeet(sh, Ids(MeanAll(sh, ps, filter).value), filter)
    decreases ps, 0
  {
    hide Honest, Rescore, MeanLeaf, Mean, Meets, MergeOpts, NarrowsOpt;
    if ps != [] {
      MeanMeetsMerged(sh, ps[0], filter);
      MeanAllMeets(sh, ps[1..], filter);
      var a, b := Mean(sh, ps[0], filter).value, MeanAll(sh, ps[1..], filter).value;
      assert Ids([a] + b) <= Ids([a]) + Ids(b);
      forall id | id in Ids([a]) ensures Meets(sh, id, filter) {
        NarrowedMeets(sh, id, filter, ps[0].filter);
      }
    }
  }

  lemma NarrowedMeets(sh: Shard, id: nat, filter: Option<Filter>, below: Option<Filter>)
    requires NarrowsOpt(filter, below) && Meets(sh, id, MergeOpts(filter, below))
    ensures Meets(sh, id, filter)
  {
    NarrowsOptImplies(CheckerOf(sh, id), filter, below);
  }

  /**
   Every result meets the filter of the query, although only the leaves carry it, if the filters on every path down to a
   leaf narrow what is merged above them; a query without prefetches needs no condition.
   */
  lemma RootMeets(sh: Shard, r: Request)
    requires Honest(sh) && MeanRoot(sh, r).Some? && NarrowsDownAll(r.prefetches, r.filter)
    ensures AllMeet(sh, Ids([MeanRoot(sh, r).value]), r.filter)
  {
    hide Honest, Rescore, MeanLeaf, Meets, NarrowsDownAll;
    var limit := r.limit + r.offset;
    if r.prefetches == [] {
      LeafMeets(sh, r.query, limit, r.params, r.threshold, r.filter);
      if r.query.Some? && r.query.value.Mmr? {
        var leaf := MeanLeaf(sh, r.query, limit, r.params, r.threshold, r.filter).value;
        RescoreClosed(sh, Params(r.query.value, limit, r.threshold, r.params), [leaf]);
      }
    } else {
      var params := Params(r.query.value, limit, r.threshold, r.params);
      var sources := MeanAll(sh, r.prefetches, r.filter).value;
      MeanAllMeets(sh, r.prefetches, r.filter);
      if r.query.value.Mmr? {
        var near := Params(Vector(r.query.value.nearest), r.query.value.candidates, r.threshold, r.params);
        RescoreClosed(sh, near, sources);
        RescoreClosed(sh, params, [Rescore(sh, near, sources).value]);
      } else {
        RescoreClosed(sh, params, sources);
      }
    }
  }

  // ----- planning and querying, step by step

  ghost function Joined(done: seq<Source>, rest: Planned<seq<Source>>): Planned<seq<Source>> {
    Planned(rest.batch, if rest.value.None? then None else Some(done + rest.value.value))
  }

  lemma PlanAllStep(b: Batch, ps: seq<Prefetch>, i: nat, filter: Option<Filter>, done: seq<Source>)
    requires i < |ps|
    ensures var first := Plan(b, ps[i], filter);
            Joined(done, PlanAll(b, ps[i..], filter))
            == if first.value.None? then Planned(first.batch, None)
               else Joined(done + [first.value.value], PlanAll(first.batch, ps[i + 1..], filter))
  {
    hide Plan;
    assert ps[i..][0] == ps[i] && ps[i..][1..] == ps[i + 1..];
    var first := Plan(b, ps[i], filter);
    if first.value.Some? {
      JoinedSplit(done, first.value.value, PlanAll(first.batch, ps[i + 1..], filter));
    }
  }

  lemma PlanBatchStep(b: Batch, rs: seq<Request>, i: nat, done: seq<Source>)
    requires i < |rs|
    ensures var first := PlanRoot(b, rs[i]);
            Joined(done, PlanBatch(b, rs[i..]))
            == if first.value.None? then Planned(first.batch, None)
               else Joined(done + [Nested(first.value.value)], PlanBatch(first.batch, rs[i + 1..]))
  {
    hide PlanRoot;
    assert rs[i..][0] == rs[i] && rs[i..][1..] == rs[i + 1..];
    var first := PlanRoot(b, rs[i]);
    if first.value.Some? {
      JoinedSplit(done, Nested(first.value.value), PlanBatch(first.batch, rs[i + 1..]));
    }
  }

  lemma JoinedSplit(done: seq<Source>, s: Source, rest: Planned<seq<Source>>)
    ensures rest.value.Some? ==> done + [s] + rest.value.value == done + ([s] + rest.value.value)
  {
  }

  lemma JoinedNothing(rest: Planned<seq<Source>>)
    ensures Joined([], rest) == rest
  {
    assert rest.value.Some? ==> [] + rest.value.value == rest.value.value;
  }

  class PlannedQuery {
    var rootPlans: seq<Source>
    var searches: seq<Search>
    var scrolls: seq<Scroll>

    constructor ()
      ensures rootPlans == [] && View() == Batch([], [])
    {
      rootPlans, searches, scrolls := [], [], [];
    }

    ghost function View(): Batch
      reads this
    {
      Batch(searches, scrolls)
    }

    method AddSearch(s: Search) returns (r: Source)
      modifies `searches
      ensures PlanSearch(old(View()), s) == Planned(View(), Some(r))
    {
      r := SearchesIdx(|searches|);
      searches := searches + [s];
    }

    method AddScroll(s: Scroll) returns (r: Source)
      modifies `scrolls
      ensures PlanScroll(old(View()), s) == Planned(View(), Some(r))
    {
      r := ScrollsIdx(|scrolls|);
      scrolls := scrolls + [s];
    }

    method LeafSource(query: Option<Scoring>, limit: nat, params: int, threshold: Option<real>, filter: Option<Filter>)
      returns (r: Option<Source>)
      modifies `searches, `scrolls
      ensures PlanLeaf(old(View()), query, limit, params, threshold, filter) == Planned(View(), r)
    {
      var source;
      match query {
        case Some(Vector(q)) => source := AddSearch(Search(q, filter, limit, threshold, params));
        case Some(Mmr(_, nearest, candidates)) => source := AddSearch(Search(nearest, filter, candidates, threshold,
            params));
        case Some(OrderBy(q)) => source := AddScroll(Scroll(ByField(q), filter, limit));
        case Some(Sample(draw)) => source := AddScroll(Scroll(Random(draw), filter, limit));
        case None => source := AddScroll(Scroll(ById, filter, limit));
        case Some(Fuse(_)) => return None;
        case Some(Formula(_)) => return None;
      }
      r := Some(source);
    }

    method PlanPrefetch(p: Prefetch, propagated: Option<Filter>) returns (r: Option<Source>)
      modifies `searches, `scrolls
      ensures Plan(old(View()), p, propagated) == Planned(View(), r)
      decreases p, 0
    {
      var filter := MergeOpts(propagated, p.filter);
      if p.prefetches == [] {
        r := LeafSource(p.query, p.limit, p.params, p.threshold, filter);
        return;
      }
      var inner := RecursePrefetches(p.prefetches, filter);
      if inner.None? || p.query.None? {
        return None;
      }
      var stages := Stages(Some(Params(p.query.value, p.limit, p.threshold, p.params)), None);
      if !StagesFit(stages, |inner.value|) {
        return None;
      }
      r := Some(Nested(MergePlan(inner.value, Some(stages))));
    }

    method RecursePrefetches(ps: seq<Prefetch>, filter: Option<Filter>) returns (r: Option<seq<Source>>)
      modifies `searches, `scrolls
      ensures PlanAll(old(View()), ps, filter) == Planned(View(), r)
      decreases ps, 0
    {
      hide Plan;
      var sources: seq<Source> := [];
      var i := 0;
      JoinedNothing(PlanAll(View(), ps, filter));
      assert ps[0..] == ps;
      while i < |ps|
        invariant 0 <= i <= |ps|
        invariant PlanAll(old(View()), ps, filter) == Joined(sources, PlanAll(View(), ps[i..], filter))
      {
        PlanAllStep(View(), ps, i, filter, sources);
        var source := PlanPrefetch(ps[i], filter);
        if source.None? {
          return None;
        }
        sources := sources + [source.value];
        i := i + 1;
      }
      assert ps[i..] == [] && sources + [] == sources;
      r := Some(sources);
    }

    /** Adds a query to the batch. A query that cannot be planned leaves its leaves behind, but no root plan. */
    method Add(request: Request) returns (ok: bool)
      modifies this
      ensures PlanRoot(old(View()), request).batch == View()
      ensures ok <==> PlanRoot(old(View()), request).value.Some?
      ensures rootPlans == old(rootPlans) + if ok then [Nested(PlanRoot(old(View()), request).value.value)] else []
    {
      if DepthAll(request.prefetches) > MAX_PREFETCH_DEPTH {
        return false;
      }
      var limit := request.limit + request.offset;
      if request.prefetches == [] {
        var leaf := LeafSource(request.query, limit, request.params, request.threshold, request.filter);
        if leaf.None? {
          return false;
        }
        var stages := if request.query.Some? && request.query.value.Mmr?
                      then Some(Stages(None,
                          Some(Params(request.query.value, limit, request.threshold, request.params))))
                      else None;
        rootPlans := rootPlans + [Nested(MergePlan([leaf.value], stages))];
        return true;
      }
      if request.query.None? {
        return false;
      }
      var sources := RecursePrefetches(request.prefetches, request.filter);
      if sources.None? {
        return false;
      }
      var stages := RootStages(request.query.value, limit, request.threshold, request.params);
      if !StagesFit(stages, |sources.value|) {
        return false;
      }
      rootPlans := rootPlans + [Nested(MergePlan(sources.value, Some(stages)))];
      ok := true;
    }
  }

  /** Plans a batch of queries; an error in one ends it. */
  method PlanQueries(rs: seq<Request>) returns (r: Option<PlannedQuery>)
    ensures r.None? <==> PlanBatch(Batch([], []), rs).value.None?
    ensures r.Some? ==> PlanBatch(Batch([], []), rs) == Planned(r.value.View(), Some(r.value.rootPlans))
  {
    hide PlanRoot;
    var planned := new PlannedQuery();
    var i := 0;
    JoinedNothing(PlanBatch(planned.View(), rs));
    assert rs[0..] == rs;
    while i < |rs|
      invariant 0 <= i <= |rs|
      invariant PlanBatch(Batch([], []), rs) == Joined(planned.rootPlans, PlanBatch(planned.View(), rs[i..]))
    {
      PlanBatchStep(planned.View(), rs, i, planned.rootPlans);
      var ok := planned.Add(rs[i]);
      if !ok {
        return None;
      }
      i := i + 1;
    }
    assert rs[i..] == [] && planned.rootPlans + [] == planned.rootPlans;
    r := Some(planned);
  }

  method SearchAll(sh: Shard, searches: seq<Search>) returns (r: Option<seq<Points>>)
    ensures r.None? <==> exists i :: 0 <= i < |searches| && sh.search(searches[i]).None?
    ensures r.Some? ==> |r.value| == |searches| && forall i :: 0 <= i < |searches| ==>
              sh.search(searches[i]) == Some(r.value[i])
  {
    var results := [];
    for i := 0 to |searches|
      invariant |results| == i && forall k :: 0 <= k < i ==> sh.search(searches[k]) == Some(results[k])
    {
      var found := sh.search(searches[i]);
      if found.None? {
        return None;
      }
      results := results + [found.value];
    }
    r := Some(results);
  }

  method ScrollAll(sh: Shard, scrolls: seq<Scroll>) returns (r: Option<seq<Points>>)
    ensures r.None? <==> exists i :: 0 <= i < |scrolls| && sh.scroll(scrolls[i]).None?
    ensures r.Some? ==> |r.value| == |scrolls| && forall i :: 0 <= i < |scrolls| ==>
              sh.scroll(scrolls[i]) == Some(r.value[i])
  {
    var results := [];
    for i := 0 to |scrolls|
      invariant |results| == i && forall k :: 0 <= k < i ==> sh.scroll(scrolls[k]) == Some(results[k])
    {
      var found := sh.scroll(scrolls[i]);
      if found.None? {
        return None;
      }
      results := results + [found.value];
    }
    r := Some(results);
  }

  /** Plan, answer all leaf requests, then evaluate the root plans in order out of the shared results. */
  method QueryBatch(sh: Shard, rs: seq<Request>) returns (r: Option<seq<Points>>)
    ensures r == MeanBatch(sh, rs)
  {
    hide PlanBatch, MeanBatch, RunSources;
    PlannedBatchMeans(sh, rs, [], []);
    var planned := PlanQueries(rs);
    if planned.None? {
      return None;
    }
    var plan := planned.value;
    var found := SearchAll(sh, plan.searches);
    if found.None? {
      return None;
    }
    var scrolled := ScrollAll(sh, plan.scrolls);
    if scrolled.None? {
      return None;
    }
    PlannedBatchMeans(sh, rs, found.value, scrolled.value);
    var prefetched := new Prefetched(found.value, scrolled.value);
    r := prefetched.TakeSources(sh, plan.rootPlans);
  }

  /** One query: the flattened, in-place evaluation gives what the query tree means, errors included. */
  method Query(sh: Shard, request: Request) returns (r: Option<Points>)
    ensures r == MeanRoot(sh, request)
  {
    hide MeanRoot;
    assert MeanBatch(sh, [request][1..]) == Some([]);
    var batch := QueryBatch(sh, [request]);
    if batch.None? {
      return None;
    }
    var nil: seq<Points> := [];
    assert [batch.value[0]] + nil == batch.value;
    r := Some(batch.value[0]);
  }
}
