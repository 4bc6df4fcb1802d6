/**
 Query plans. A nested query is flattened into one batch of searches and one of scrolls plus a tree of references into
 their results; evaluation walks the tree and moves each result out of its slot.
 */
module QueryPlans {
  import opened Options
  import opened FiniteSets
  import opened RankFusion
  import opened Filters

  datatype Fusion = Rrf(k: nat, weights: Option<seq<real>>) | Dbsf

  /** Every query for a random sample carries its own draw. */
  datatype Scoring =
    | Vector(q: int) | Fuse(fusion: Fusion) | OrderBy(q: int)
    | Formula(q: int) | Sample(draw: int) | Mmr(q: int, nearest: int, candidates: nat)

  datatype Params = Params(rescore: Scoring, limit: nat, threshold: Option<real>, params: int)

  datatype Search = Search(q: int, filter: Option<Filter>, limit: nat, threshold: Option<real>, params: int)
  datatype ScrollOrder = ById | ByField(q: int) | Random(draw: int)
  datatype Scroll = Scroll(order: ScrollOrder, filter: Option<Filter>, limit: nat)

  datatype Prefetch = Prefetch(
    prefetches: seq<Prefetch>, query: Option<Scoring>, limit: nat, params: int, filter: Option<Filter>,
    threshold: Option<real>)

  datatype Request = Request(
    prefetches: seq<Prefetch>, query: Option<Scoring>, filter: Option<Filter>, threshold: Option<real>, limit: nat,
    offset: nat, params: int)

  datatype Source = SearchesIdx(idx: nat) | ScrollsIdx(idx: nat) | Nested(plan: MergePlan)
  datatype Stages = Stages(shard: Option<Params>, collection: Option<Params>)
  datatype MergePlan = MergePlan(sources: seq<Source>, stages: Option<Stages>)

  /**
   The operations of the segments underneath; `None` is an error. `holds` says which points meet a field condition, and
   `order` is how points come out of a hash map and how they are sorted.
   */
  datatype Shard = Shard(
    holds: (int, nat) -> bool, search: Search -> Option<Points>, scroll: Scroll -> Option<Points>,
    order: Order, dbsf: seq<Points> -> Points,
    formula: (int, seq<Points>, nat, Option<real>) -> Option<Points>, mmr: (int, seq<Points>, nat) -> Option<Points>)

  // ----- rescoring

  function FilterByPointIds(sources: seq<Points>): Option<Filter> {
    Some(OnlyIds(Ids(sources)))
  }

  function TakeWhile(ps: Points, threshold: real): Points {
    if ps == [] || !Reaches(ps[0].score, threshold) then [] else [ps[0]] + TakeWhile(ps[1..], threshold)
  }

  function Take(ps: Points, limit: nat): Points {
    if |ps| <= limit then ps else ps[..limit]
  }

  function TopFused(fused: Points, threshold: Option<real>, limit: nat): Points {
    Take(if threshold.Some? then TakeWhile(fused, threshold.value) else fused, limit)
  }

  function FuseSources(sh: Shard, fusion: Fusion, sources: seq<Points>): Option<Points> {
    match fusion
    case Rrf(k, weights) => FuseRanks(sh.order, sources, k, weights)
    case Dbsf => Some(sh.dbsf(sources))
  }

  function Rescore(sh: Shard, p: Params, sources: seq<Points>): Option<Points> {
    match p.rescore
    case Fuse(fusion) =>
      var fused := FuseSources(sh, fusion, sources);
      if fused.None? then None else Some(TopFused(fused.value, p.threshold, p.limit))
    case OrderBy(q) => sh.scroll(Scroll(ByField(q), FilterByPointIds(sources), p.limit))
    case Vector(q) => sh.search(Search(q, FilterByPointIds(sources), p.limit, p.threshold, p.params))
    case Formula(q) => sh.formula(q, sources, p.limit, p.threshold)
    case Sample(draw) => sh.scroll(Scroll(Random(draw), FilterByPointIds(sources), p.limit))
    case Mmr(q, _, _) => sh.mmr(q, sources, p.limit)
  }

  // ----- evaluation on untouched results

  function ApplyStages(sh: Shard, stages: Option<Stages>, sources: seq<Points>): Option<Points> {
    match stages
    case None => if |sources| == 1 then Some(sources[0]) else None
    case Some(st) =>
      var shard := if st.shard.None? then Some(sources)
                   else match Rescore(sh, st.shard.value, sources) { case None => None case Some(r) => Some([r]) };
      match shard
      case None => None
      case Some(s) =>
        if st.collection.Some? then Rescore(sh, st.collection.value, s)
        else Some(if s == [] then [] else s[0])
  }

  function EvalSource(sh: Shard, s: Source, sr: seq<Points>, cr: seq<Points>): Option<Points>
    decreases s, 0
  {
    match s
    case SearchesIdx(i) => if i < |sr| then Some(sr[i]) else None
    case ScrollsIdx(i) => if i < |cr| then Some(cr[i]) else None
    case Nested(plan) => EvalPlan(sh, plan, sr, cr)
  }

  function EvalSources(sh: Shard, ss: seq<Source>, sr: seq<Points>, cr: seq<Points>): (r: Option<seq<Points>>)
    ensures r.Some? ==> |r.value| == |ss|
    decreases ss, 0
  {
    if ss == [] then Some([])
    else
      match (EvalSource(sh, ss[0], sr, cr), EvalSources(sh, ss[1..], sr, cr))
      case (Some(a), Some(b)) => Some([a] + b)
      case _ => None
  }

  function EvalPlan(sh: Shard, plan: MergePlan, sr: seq<Points>, cr: seq<Points>): Option<Points>
    decreases plan, 1
  {
    match EvalSources(sh, plan.sources, sr, cr)
    case None => None
    case Some(sources) => ApplyStages(sh, plan.stages, sources)
  }

  // ----- evaluation by taking results out of their slots

  datatype Slots = Slots(searches: seq<Points>, scrolls: seq<Points>)
  datatype Taken<T> = Taken(value: Option<T>, slots: Slots)

  function RunSource(sh: Shard, s: Source, slots: Slots): Taken<Points>
    decreases s, 0
  {
    match s
    case SearchesIdx(i) =>
      if i < |slots.searches| then Taken(Some(slots.searches[i]), slots.(searches := slots.searches[i := []]))
      else Taken(None, slots)
    case ScrollsIdx(i) =>
      if i < |slots.scrolls| then Taken(Some(slots.scrolls[i]), slots.(scrolls := slots.scrolls[i := []]))
      else Taken(None, slots)
    case Nested(plan) => RunPlan(sh, plan, slots)
  }

  function RunSources(sh: Shard, ss: seq<Source>, slots: Slots): (r: Taken<seq<Points>>)
    decreases ss, 0
  {
    if ss == [] then Taken(Some([]), slots)
    else
      var first := RunSource(sh, ss[0], slots);
      if first.value.None? then Taken(None, first.slots)
      else
        var rest := RunSources(sh, ss[1..], first.slots);
        if rest.value.None? then Taken(None, rest.slots)
            else Taken(Some([first.value.value] + rest.value.value), rest.slots)
  }

  function RunPlan(sh: Shard, plan: MergePlan, slots: Slots): Taken<Points>
    decreases plan, 1
  {
    var t := RunSources(sh, plan.sources, slots);
    if t.value.None? then Taken(None, t.slots) else Taken(ApplyStages(sh, plan.stages, t.value.value), t.slots)
  }

  // ----- which slots a plan names

  function SearchIdxs(s: Source): seq<nat>
    decreases s, 0
  {
    match s
    case SearchesIdx(i) => [i]
    case ScrollsIdx(_) => []
    case Nested(plan) => SearchIdxsAll(plan.sources)
  }

  function SearchIdxsAll(ss: seq<Source>): seq<nat>
    decreases ss, 0
  {
    if ss == [] then [] else SearchIdxs(ss[0]) + SearchIdxsAll(ss[1..])
  }

  function ScrollIdxs(s: Source): seq<nat>
    decreases s, 0
  {
    match s
    case SearchesIdx(_) => []
    case ScrollsIdx(i) => [i]
    case Nested(plan) => ScrollIdxsAll(plan.sources)
  }

  function ScrollIdxsAll(ss: seq<Source>): seq<nat>
    decreases ss, 0
  {
    if ss == [] then [] else ScrollIdxs(ss[0]) + ScrollIdxsAll(ss[1..])
  }

  /** The slots named by `se` and `sc` still hold the results `sr` and `cr`. */
  ghost predicate Intact(slots: Slots, sr: seq<Points>, cr: seq<Points>, se: seq<nat>, sc: seq<nat>) {
    && |slots.searches| == |sr| && |slots.scrolls| == |cr|
    && (forall i :: i in se && i < |sr| ==> slots.searches[i] == sr[i])
    && (forall i :: i in sc && i < |cr| ==> slots.scrolls[i] == cr[i])
  }

  /** Only slots named by `se` and `sc` changed. */
  ghost predicate OnlyTook(slots: Slots, slots': Slots, se: seq<nat>, sc: seq<nat>) {
    && |slots'.searches| == |slots.searches| && |slots'.scrolls| == |slots.scrolls|
    && (forall i :: 0 <= i < |slots.searches| && i !in se ==> slots'.searches[i] == slots.searches[i])
    && (forall i :: 0 <= i < |slots.scrolls| && i !in sc ==> slots'.scrolls[i] == slots.scrolls[i])
  }

  lemma NoDupSplit(a: seq<nat>, b: seq<nat>)
    requires NoDup(a + b)
    ensures NoDup(a) && NoDup(b) && forall x :: x in a ==> x !in b
  {
    var c := a + b;
    assert forall i :: 0 <= i < |a| ==> c[i] == a[i];
    assert forall i :: 0 <= i < |b| ==> c[|a| + i] == b[i];
  }

  lemma {:induction false} RunSourceIsEval(sh: Shard, s: Source, slots: Slots, sr: seq<Points>, cr: seq<Points>)
    requires NoDup(SearchIdxs(s)) && NoDup(ScrollIdxs(s))
    requires Intact(slots, sr, cr, SearchIdxs(s), ScrollIdxs(s))
    ensures RunSource(sh, s, slots).value == EvalSource(sh, s, sr, cr)
    ensures OnlyTook(slots, RunSource(sh, s, slots).slots, SearchIdxs(s), ScrollIdxs(s))
    decreases s, 0
  {
    if s.Nested? {
      RunSourcesIsEval(sh, s.plan.sources, slots, sr, cr);
    }
  }

  lemma {:induction false} RunSourcesIsEval(sh: Shard, ss: seq<Source>, slots: Slots, sr: seq<Points>, cr: seq<Points>)
    requires NoDup(SearchIdxsAll(ss)) && NoDup(ScrollIdxsAll(ss))
    requires Intact(slots, sr, cr, SearchIdxsAll(ss), ScrollIdxsAll(ss))
    ensures RunSources(sh, ss, slots).value == EvalSources(sh, ss, sr, cr)
    ensures OnlyTook(slots, RunSources(sh, ss, slots).slots, SearchIdxsAll(ss), ScrollIdxsAll(ss))
    decreases ss, 0
  {
    if ss != [] {
      NoDupSplit(SearchIdxs(ss[0]), SearchIdxsAll(ss[1..]));
      NoDupSplit(ScrollIdxs(ss[0]), ScrollIdxsAll(ss[1..]));
      hide NoDup;
      RunSourceIsEval(sh, ss[0], slots, sr, cr);
      var first := RunSource(sh, ss[0], slots);
      RunSourcesIsEval(sh, ss[1..], first.slots, sr, cr);
    }
  }

  /**
   A plan that names each slot at most once evaluates, taking results out, to what it means on the untouched results.
   */
  lemma RunPlanIsEval(sh: Shard, plan: MergePlan, sr: seq<Points>, cr: seq<Points>)
    requires NoDup(SearchIdxsAll(plan.sources)) && NoDup(ScrollIdxsAll(plan.sources))
    ensures RunPlan(sh, plan, Slots(sr, cr)).value == EvalPlan(sh, plan, sr, cr)
  {
    RunSourcesIsEval(sh, plan.sources, Slots(sr, cr), sr, cr);
  }

  // ----- a slot named twice

  /** A list of leaf sources whose results are all there. */
  ghost predicate AllLeaves(ss: seq<Source>, slots: Slots) {
    forall i :: 0 <= i < |ss| ==> IsLeaf(ss[i], slots)
  }

  predicate IsLeaf(s: Source, slots: Slots) {
    !s.Nested? && s.idx < if s.SearchesIdx? then |slots.searches| else |slots.scrolls|
  }

  function Held(s: Source, slots: Slots): Points
    requires IsLeaf(s, slots)
  {
    if s.SearchesIdx? then slots.searches[s.idx] else slots.scrolls[s.idx]
  }

  /** What taking finds in place of the result: nothing, if the slot was named before. */
  lemma {:induction false} LeavesFound(sh: Shard, ss: seq<Source>, slots: Slots)
    requires AllLeaves(ss, slots)
    ensures RunSources(sh, ss, slots).value.Some? && |RunSources(sh, ss, slots).value.value| == |ss|
    ensures forall j :: 0 <= j < |ss| ==>
              RunSources(sh, ss, slots).value.value[j] == if ss[j] in ss[..j] then [] else Held(ss[j], slots)
    decreases ss
  {
    if ss != [] {
      var first := RunSource(sh, ss[0], slots);
      var rest := ss[1..];
      TakeOne(sh, ss[0], slots);
      LeavesFound(sh, rest, first.slots);
      var found := RunSources(sh, rest, first.slots).value.value;
      assert RunSources(sh, ss, slots).value == Some([Held(ss[0], slots)] + found);
      hide RunSource, RunSources, Held;
      forall j | 0 < j < |ss| ensures found[j - 1] == if ss[j] in ss[..j] then [] else Held(ss[j], slots) {
        assert ss[j] == rest[j - 1];
        FirstOrLater(ss, j);
      }
    }
  }

  lemma FirstOrLater(ss: seq<Source>, j: nat)
    requires 0 < j < |ss|
    ensures ss[j] in ss[..j] <==> ss[j] == ss[0] || ss[j] in ss[1..][..j - 1]
  {
    assert ss[..j] == [ss[0]] + ss[1..][..j - 1];
  }

  /** Taking a leaf empties its slot and touches no other. */
  lemma TakeOne(sh: Shard, s: Source, slots: Slots)
    requires IsLeaf(s, slots)
    ensures var r := RunSource(sh, s, slots);
            r.value == Some(Held(s, slots))
            && forall t: Source :: IsLeaf(t, slots) ==>
                 IsLeaf(t, r.slots) && Held(t, r.slots) == if t == s then [] else Held(t, slots)
  {
  }

  lemma {:induction false} LeavesMeant(sh: Shard, ss: seq<Source>, slots: Slots)
    requires AllLeaves(ss, slots)
    ensures EvalSources(sh, ss, slots.searches, slots.scrolls).Some?
    ensures forall j :: 0 <= j < |ss|
              ==> EvalSources(sh, ss, slots.searches, slots.scrolls).value[j] == Held(ss[j], slots)
    decreases ss
  {
    if ss != [] {
      LeavesMeant(sh, ss[1..], slots);
    }
  }

  /**
   Naming a slot twice breaks this: on leaf sources, taking agrees with the meaning if and only if every slot that is
   named twice holds no points.
   */
  lemma TakenTwiceIff(sh: Shard, ss: seq<Source>, slots: Slots)
    requires AllLeaves(ss, slots)
    ensures RunSources(sh, ss, slots).value == EvalSources(sh, ss, slots.searches, slots.scrolls)
       <==> forall j :: 0 <= j < |ss| && ss[j] in ss[..j] ==> Held(ss[j], slots) == []
  {
    LeavesFound(sh, ss, slots);
    LeavesMeant(sh, ss, slots);
    var run, eval := RunSources(sh, ss, slots).value.value, EvalSources(sh, ss, slots.searches, slots.scrolls).value;
    hide RunSources, EvalSources;
    if forall j :: 0 <= j < |ss| && ss[j] in ss[..j] ==> Held(ss[j], slots) == [] {
      assert forall j :: 0 <= j < |ss| ==> run[j] == eval[j];
      assert run == eval;
    } else {
      var j :| 0 <= j < |ss| && ss[j] in ss[..j] && Held(ss[j], slots) != [];
      assert run[j] != eval[j];
    }
  }

  // ----- what fusion and rescoring keep

  lemma {:induction false} TakeWhileCuts(ps: Points, threshold: real)
    requires Descending(ps)
    ensures TakeWhile(ps, threshold) <= ps
    ensures forall i :: 0 <= i < |ps| ==> (Reaches(ps[i].score, threshold) <==> i < |TakeWhile(ps, threshold)|)
  {
    if ps != [] && Reaches(ps[0].score, threshold) {
      TakeWhileCuts(ps[1..], threshold);
      assert ps == [ps[0]] + ps[1..];
      forall i | 0 <= i < |ps| ensures Reaches(ps[i].score, threshold) <==> i < |TakeWhile(ps, threshold)| {
        assert i > 0 ==> ps[i] == ps[1..][i - 1];
      }
    }
  }

  /**
   On fused points in order of score, stopping at the first point under the threshold loses no point over it: the
   result is exactly the first `limit` of the points that reach the threshold.
   */
  lemma TopFusedExact(fused: Points, threshold: Option<real>, limit: nat)
    requires Descending(fused)
    ensures TopFused(fused, threshold, limit) <= fused
    ensures forall i :: 0 <= i < |fused| ==>
              (i < |TopFused(fused, threshold, limit)| <==>
                  i < limit && (threshold.Some? ==> Reaches(fused[i].score, threshold.value)))
  {
    if threshold.Some? {
      TakeWhileCuts(fused, threshold.value);
    }
  }

  /** How a point decides conditions. */
  function CheckerOf(sh: Shard, id: nat): Checker {
    (c: Condition) => if c.HasId? then id in c.ids else c.Field? && sh.holds(c.c, id)
  }

  predicate Meets(sh: Shard, id: nat, filter: Option<Filter>) {
    Accepts(CheckerOf(sh, id), filter)
  }

  ghost predicate Selects(sh: Shard, r: Points, filter: Option<Filter>, limit: nat) {
    |r| <= limit && forall p :: p in r ==> Meets(sh, p.id, filter)
  }

  /** The segments honour filters and limits, and no rescoring of theirs invents points. */
  ghost predicate Honest(sh: Shard) {
    && (forall s :: sh.search(s).Some? ==> Selects(sh, sh.search(s).value, s.filter, s.limit))
    && (forall s :: sh.scroll(s).Some? ==> Selects(sh, sh.scroll(s).value, s.filter, s.limit))
    && ValidOrder(sh.order)
    && (forall ss :: Ids([sh.dbsf(ss)]) <= Ids(ss))
    && (forall q, ss, l, t :: sh.formula(q, ss, l, t).Some? ==>
          |sh.formula(q, ss, l, t).value| <= l && Ids([sh.formula(q, ss, l, t).value]) <= Ids(ss))
    && (forall q, ss, l :: sh.mmr(q, ss, l).Some? ==>
          |sh.mmr(q, ss, l).value| <= l && Ids([sh.mmr(q, ss, l).value]) <= Ids(ss))
  }

  lemma {:induction false} TakeWhileSubset(ps: Points, threshold: real)
    ensures forall p :: p in TakeWhile(ps, threshold) ==> p in ps
  {
    if ps != [] && Reaches(ps[0].score, threshold) {
      TakeWhileSubset(ps[1..], threshold);
    }
  }

  lemma TopFusedSubset(fused: Points, threshold: Option<real>, limit: nat)
    ensures forall p :: p in TopFused(fused, threshold, limit) ==> p in fused
  {
    if threshold.Some? {
      TakeWhileSubset(fused, threshold.value);
    }
  }

  lemma FusedIds(sh: Shard, fusion: Fusion, sources: seq<Points>)
    requires Honest(sh) && FuseSources(sh, fusion, sources).Some?
    ensures Ids([FuseSources(sh, fusion, sources).value]) <= Ids(sources)
  {
    if fusion.Rrf? {
      RrfFuses(sh.order, sources, fusion.k, fusion.weights);
    }
  }

  /** The points of a rank fusion that are returned: the first `limit` of those that reach the threshold. */
  ghost predicate FusedTop(r: Points, sources: seq<Points>, k: nat, weights: Option<seq<real>>, limit: nat,
                           threshold: Option<real>)
    requires Enough(weights, sources)
  {
    exists fused: Points :: Fused(fused, sources, k, weights) && IsTop(r, fused, limit, threshold)
  }

  ghost predicate IsTop(r: Points, fused: Points, limit: nat, threshold: Option<real>) {
    r <= fused
    && forall i :: 0 <= i < |fused| ==>
         (i < |r| <==> i < limit && (threshold.Some? ==> AtLeast(fused[i].score, Finite(threshold.value))))
  }

  /**
   Rank fusion as the query sees it: of the ids of all sources, each once and scored by its positions, exactly the first
   `limit` in score order that reach the threshold; an error exactly when the number of weights is wrong.
   */
  lemma RankFusionExact(sh: Shard, p: Params, sources: seq<Points>, k: nat, weights: Option<seq<real>>)
    requires ValidOrder(sh.order) && p.rescore == Fuse(Rrf(k, weights))
    ensures Rescore(sh, p, sources).None? <==> weights.Some? && |weights.value| != |sources|
    ensures Rescore(sh, p, sources).Some? ==>
              FusedTop(Rescore(sh, p, sources).value, sources, k, weights, p.limit, p.threshold)
  {
    RrfFuses(sh.order, sources, k, weights);
    if Rescore(sh, p, sources).Some? {
      var fused := FuseRanks(sh.order, sources, k, weights).value;
      TopFusedExact(fused, p.threshold, p.limit);
      assert IsTop(Rescore(sh, p, sources).value, fused, p.limit, p.threshold);
    }
  }

  /** Rescoring keeps the limit and returns only points of its sources. */
  lemma RescoreClosed(sh: Shard, p: Params, sources: seq<Points>)
    requires Honest(sh) && Rescore(sh, p, sources).Some?
    ensures |Rescore(sh, p, sources).value| <= p.limit
    ensures Ids([Rescore(sh, p, sources).value]) <= Ids(sources)
  {
    var r := Rescore(sh, p, sources).value;
    match p.rescore {
      case Fuse(fusion) =>
        var fused := FuseSources(sh, fusion, sources).value;
        FusedIds(sh, fusion, sources);
        TopFusedSubset(fused, p.threshold, p.limit);
        assert Ids([r]) <= Ids([fused]);
      case Vector(_) => FilteredFrom(sh, r, sources, p.limit);
      case OrderBy(_) => FilteredFrom(sh, r, sources, p.limit);
      case Sample(_) => FilteredFrom(sh, r, sources, p.limit);
      case Formula(_) =>
      case Mmr(_, _, _) =>
    }
  }

  lemma FilteredFrom(sh: Shard, r: Points, sources: seq<Points>, limit: nat)
    requires Selects(sh, r, FilterByPointIds(sources), limit)
    ensures Ids([r]) <= Ids(sources)
  {
    forall p | p in r ensures p.id in Ids(sources) {
      assert Meets(sh, p.id, FilterByPointIds(sources));
      OnlyIdsMeans(CheckerOf(sh, p.id), Ids(sources));
    }
  }

  /** The ids in the result slots that a source names. */
  ghost function LeafIds(se: seq<nat>, sc: seq<nat>, sr: seq<Points>, cr: seq<Points>): set<nat> {
    (set i, p | i in se && i < |sr| && p in sr[i] :: p.id) + (set i, p | i in sc && i < |cr| && p in cr[i] :: p.id)
  }

  lemma LeafIdsJoin(se: seq<nat>, se': seq<nat>, sc: seq<nat>, sc': seq<nat>, sr: seq<Points>, cr: seq<Points>)
    ensures LeafIds(se, sc, sr, cr) + LeafIds(se', sc', sr, cr) <= LeafIds(se + se', sc + sc', sr, cr)
  {
  }

  lemma StagesClosed(sh: Shard, stages: Option<Stages>, sources: seq<Points>)
    requires Honest(sh) && ApplyStages(sh, stages, sources).Some?
    ensures Ids([ApplyStages(sh, stages, sources).value]) <= Ids(sources)
  {
    hide Rescore, Honest;
    var r := ApplyStages(sh, stages, sources).value;
    if stages.Some? {
      var st := stages.value;
      var mid := if st.shard.None? then sources else [Rescore(sh, st.shard.value, sources).value];
      if st.shard.Some? {
        RescoreClosed(sh, st.shard.value, sources);
      }
      if st.collection.Some? {
        RescoreClosed(sh, st.collection.value, mid);
      } else {
        assert Ids([r]) <= Ids(mid);
      }
    }
  }

  lemma {:induction false} SourceFromLeaves(sh: Shard, s: Source, sr: seq<Points>, cr: seq<Points>)
    requires Honest(sh) && EvalSource(sh, s, sr, cr).Some?
    ensures Ids([EvalSource(sh, s, sr, cr).value]) <= LeafIds(SearchIdxs(s), ScrollIdxs(s), sr, cr)
    decreases s, 0
  {
    if s.Nested? {
      var sources := EvalSources(sh, s.plan.sources, sr, cr).value;
      SourcesFromLeaves(sh, s.plan.sources, sr, cr);
      StagesClosed(sh, s.plan.stages, sources);
    }
  }

  lemma {:induction false} SourcesFromLeaves(sh: Shard, ss: seq<Source>, sr: seq<Points>, cr: seq<Points>)
    requires Honest(sh) && EvalSources(sh, ss, sr, cr).Some?
    ensures Ids(EvalSources(sh, ss, sr, cr).value) <= LeafIds(SearchIdxsAll(ss), ScrollIdxsAll(ss), sr, cr)
    decreases ss, 0
  {
    hide Honest;
    if ss != [] {
      SourceFromLeaves(sh, ss[0], sr, cr);
      SourcesFromLeaves(sh, ss[1..], sr, cr);
      var a, b := EvalSource(sh, ss[0], sr, cr).value, EvalSources(sh, ss[1..], sr, cr).value;
      assert Ids([a] + b) <= Ids([a]) + Ids(b);
      LeafIdsJoin(SearchIdxs(ss[0]), SearchIdxsAll(ss[1..]), ScrollIdxs(ss[0]), ScrollIdxsAll(ss[1..]), sr, cr);
    }
  }

  /** Every id in a plan's result is in one of the result slots the plan names. */
  lemma PlanFromLeaves(sh: Shard, plan: MergePlan, sr: seq<Points>, cr: seq<Points>)
    requires Honest(sh) && EvalPlan(sh, plan, sr, cr).Some?
    ensures Ids([EvalPlan(sh, plan, sr, cr).value]) <= LeafIds(SearchIdxsAll(plan.sources),
              ScrollIdxsAll(plan.sources), sr, cr)
  {
    hide Honest;
    SourcesFromLeaves(sh, plan.sources, sr, cr);
    StagesClosed(sh, plan.stages, EvalSources(sh, plan.sources, sr, cr).value);
  }

  // ----- evaluation in place

  ghost function Prepend(done: seq<Points>, t: Taken<seq<Points>>): Taken<seq<Points>> {
    if t.value.None? then t else Taken(Some(done + t.value.value), t.slots)
  }

  lemma PrependNothing(t: Taken<seq<Points>>)
    ensures Prepend([], t) == t
  {
    assert t.value.Some? ==> [] + t.value.value == t.value.value;
  }

  lemma RunSourcesStep(sh: Shard, ss: seq<Source>, i: nat, slots: Slots, done: seq<Points>)
    requires i < |ss|
    ensures var first := RunSource(sh, ss[i], slots);
            Prepend(done, RunSources(sh, ss[i..], slots))
            == if first.value.None? then Taken(None, first.slots)
               else Prepend(done + [first.value.value], RunSources(sh, ss[i + 1..], first.slots))
  {
    hide RunPlan;
    var first := RunSource(sh, ss[i], slots);
    assert ss[i..][0] == ss[i] && ss[i..][1..] == ss[i + 1..];
    if first.value.Some? {
      var rest := RunSources(sh, ss[i + 1..], first.slots);
      assert rest.value.Some? ==>
          done + [first.value.value] + rest.value.value == done + ([first.value.value] + rest.value.value);
    }
  }

  /** The results of the leaf requests while plans are evaluated. */
  class Prefetched {
    var searches: seq<Points>
    var scrolls: seq<Points>

    constructor (searchResults: seq<Points>, scrollResults: seq<Points>)
      ensures View() == Slots(searchResults, scrollResults)
    {
      searches, scrolls := searchResults, scrollResults;
    }

    ghost function View(): Slots
      reads this
    {
      Slots(searches, scrolls)
    }

    /** Moves a result out of its slot, leaving it empty. */
    method TakePrefetched(s: Source) returns (r: Option<Points>)
      requires !s.Nested?
      modifies this
      ensures forall sh :: RunSource(sh, s, old(View())) == Taken(r, View())
    {
      if s.SearchesIdx? {
        if s.idx >= |searches| {
          return None;
        }
        r := Some(searches[s.idx]);
        searches := searches[s.idx := []];
      } else {
        if s.idx >= |scrolls| {
          return None;
        }
        r := Some(scrolls[s.idx]);
        scrolls := scrolls[s.idx := []];
      }
    }

    method TakeSource(sh: Shard, s: Source) returns (r: Option<Points>)
      modifies this
      ensures RunSource(sh, s, old(View())) == Taken(r, View())
      decreases s, 0
    {
      if s.Nested? {
        r := RecursePrefetch(sh, s.plan);
      } else {
        r := TakePrefetched(s);
        assert RunSource(sh, s, old(View())) == Taken(r, View());
      }
    }

    /** The sources of a plan, taken in order; the first error ends it. */
    method TakeSources(sh: Shard, ss: seq<Source>) returns (r: Option<seq<Points>>)
      modifies this
      ensures RunSources(sh, ss, old(View())) == Taken(r, View())
      decreases ss, 0
    {
      hide RunPlan;
      var sources: seq<Points> := [];
      var i := 0;
      PrependNothing(RunSources(sh, ss, View()));
      assert ss[0..] == ss;
      while i < |ss|
        invariant 0 <= i <= |ss|
        invariant RunSources(sh, ss, old(View())) == Prepend(sources, RunSources(sh, ss[i..], View()))
      {
        ghost var before := View();
        var taken := TakeSource(sh, ss[i]);
        RunSourcesStep(sh, ss, i, before, sources);
        if taken.None? {
          return None;
        }
        sources := sources + [taken.value];
        i := i + 1;
      }
      assert ss[i..] == [] && sources + [] == sources;
      r := Some(sources);
    }

    method RecursePrefetch(sh: Shard, plan: MergePlan) returns (r: Option<Points>)
      modifies this
      ensures RunPlan(sh, plan, old(View())) == Taken(r, View())
      decreases plan, 1
    {
      var sources := TakeSources(sh, plan.sources);
      if sources.None? {
        return None;
      }
      r := ApplyStages(sh, plan.stages, sources.value);
    }
  }
}
