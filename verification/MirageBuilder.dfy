/** The builder object itself: pools updated in place, proved against the pass functions. */
module MirageBuilder {
  import opened Reachability
  import opened FiniteSets
  import opened MirageGraph
  import opened MirageFlags
  import opened MirageBuild
  import opened MirageRun
  import opened MirageShrink
  import opened RandomIds

  // The parameters of the checked-in fixture.
  const K_N: nat := 64
  const K_S: nat := 16
  const K_R: nat := 4
  const K_ITER: nat := 15
  const K_NUM_REVERSE_EDGES: nat := 96

  // ----- the random start graph

  datatype Draw = Draw(values: seq<nat>, offset: nat)

  /** One draw per node, each of fewer values than there are nodes. */
  predicate DrawsOk(draws: seq<Draw>) {
    forall i :: 0 <= i < |draws| ==> |draws[i].values| < |draws|
  }

  function StartGraph(s: Setup, sortIds: NatReorder, draws: seq<Draw>): (r: Graph)
    requires DrawsOk(draws)
    ensures |r| == |draws|
  {
    var n := |draws|;
    seq(n, u requires 0 <= u < n => s.heap(PoolOf(s.d, u, Drawn(sortIds, draws[u].values, draws[u].offset, n))))
  }

  /** Node `u` starts with exactly the ids drawn for it, but itself. */
  lemma StartGraphHas(s: Setup, sortIds: NatReorder, draws: seq<Draw>, u: nat, v: nat)
    requires ValidSetup(s) && DrawsOk(draws) && u < |draws|
    ensures HasId(StartGraph(s, sortIds, draws)[u], v)
       <==> v != u && v in Drawn(sortIds, draws[u].values, draws[u].offset, |draws|)
  {
    var ids := Drawn(sortIds, draws[u].values, draws[u].offset, |draws|);
    var p := PoolOf(s.d, u, ids);
    assert multiset(s.heap(p)) == multiset(p);
    forall e ensures e in s.heap(p) <==> e in p {
      assert e in multiset(s.heap(p)) <==> e in multiset(p);
    }
    var e := Neighbor(v, s.d(u, v), true);
    PoolOfEntries(s.d, u, ids, e);
    forall x: Neighbor | x in p ensures x.id in ids && x.id != u {
      PoolOfEntries(s.d, u, ids, x);
    }
  }

  /** The start graph is well formed and every entry is new, so every pool is settled. */
  lemma StartGraphOk(s: Setup, sortIds: NatReorder, draws: seq<Draw>)
    requires ValidSetup(s) && SortsNats(sortIds) && DrawsOk(draws)
    ensures GraphOk(s.d, StartGraph(s, sortIds, draws))
    ensures AllSettled(s.d, StartGraph(s, sortIds, draws))
  {
    var g := StartGraph(s, sortIds, draws);
    forall u, e | 0 <= u < |g| && e in g[u] ensures EntryOk(s.d, |g|, u, e) && e.flag {
      var ids := Drawn(sortIds, draws[u].values, draws[u].offset, |draws|);
      var p := PoolOf(s.d, u, ids);
      assert multiset(s.heap(p)) == multiset(p);
      assert e in multiset(s.heap(p));
      assert e in p;
      PoolOfEntries(s.d, u, ids, e);
      DrawnDistinct(sortIds, draws[u].values, draws[u].offset, |draws|);
    }
  }

  class MirageReference {
    const setup: Setup
    const sortIds: NatReorder
    var graph: Graph
    var layer0: seq<seq<nat>>

    constructor (n: nat, setup: Setup, sortIds: NatReorder)
      ensures this.setup == setup && this.sortIds == sortIds
      ensures graph == Empty(n) && layer0 == []
    {
      this.setup := setup;
      this.sortIds := sortIds;
      graph := Empty(n);
      layer0 := [];
    }

    ghost predicate Valid()
      reads this
    {
      ValidSetup(setup) && GraphOk(setup.d, graph)
    }

    method InitGraph(draws: seq<Draw>)
      requires ValidSetup(setup) && SortsNats(sortIds)
      requires DrawsOk(draws) && graph == Empty(|draws|)
      modifies this`graph
      ensures graph == StartGraph(setup, sortIds, draws)
    {
      var n := |draws|;
      for i := 0 to n
        invariant |graph| == n
        invariant forall u :: 0 <= u < i ==> graph[u] == StartGraph(setup, sortIds, draws)[u]
        invariant forall u :: i <= u < n ==> graph[u] == []
      {
        var tmp := new nat[|draws[i].values|];
        GenRandom(sortIds, draws[i].values, draws[i].offset, tmp, n);
        var pool: Pool := [];
        for j := 0 to tmp.Length
          invariant pool == PoolOf(setup.d, i, tmp[..j])
        {
          assert tmp[..j + 1][..j] == tmp[..j];
          if tmp[j] != i {
            pool := pool + [Neighbor(tmp[j], setup.d(i, tmp[j]), true)];
          }
        }
        assert tmp[..tmp.Length] == tmp[..];
        graph := graph[i := setup.heap(pool)];
      }
    }

    method InsertNn(id: nat, nnId: nat, distance: real, flag: bool)
      requires id < |graph|
      modifies this`graph
      ensures graph == old(graph)[id := old(graph)[id] + [Neighbor(nnId, distance, flag)]]
    {
      graph := graph[id := graph[id] + [Neighbor(nnId, distance, flag)]];
    }

    /** Compares one candidate with the kept ones; on the first that beats it the edge is handed over. */
    method Compare(nn: Neighbor, newPool: Pool) returns (ok: bool)
      requires forall e :: e in newPool ==> e.id < |graph|
      modifies this`graph
      ensures var k := FirstBeating(setup.d, newPool, nn, true, 0);
              ok == (k == |newPool|)
              && if ok then graph == old(graph)
                 else var w := newPool[k].id;
                      w < |old(graph)|
                      && graph == old(graph)[w := old(graph)[w] + [Neighbor(nn.id, setup.d(nn.id, w), true)]]
    {
      ok := true;
      var j := 0;
      while ok && j < |newPool|
        invariant 0 <= j <= |newPool| && |graph| == |old(graph)|
        invariant ok ==> graph == old(graph)
        invariant ok ==> FirstBeating(setup.d, newPool, nn, true, 0) == FirstBeating(setup.d, newPool, nn, true, j)
        invariant !ok ==> j < |newPool| && FirstBeating(setup.d, newPool, nn, true, 0) == j
        invariant !ok ==> newPool[j].id < |old(graph)|
                          && graph == old(graph)[newPool[j].id := old(graph)[newPool[j].id]
                                                                  + [Neighbor(nn.id, setup.d(nn.id, newPool[j].id),
                                                                      true)]]
        decreases |newPool| - j, ok
      {
        var other := newPool[j];
        assert other in newPool;
        if !nn.flag && !other.flag {
          j := j + 1;
        } else {
          var distance := setup.d(nn.id, other.id);
          if distance < nn.distance {
            ok := false;
            InsertNn(other.id, nn.id, distance, true);
          } else {
            j := j + 1;
          }
        }
      }
    }

    /** Walks a sorted pool, keeping candidates that no kept one beats and handing over the others. */
    method PrunePool(oldPool: Pool) returns (newPool: Pool, ghost handed: seq<Handover>)
      requires forall e :: e in oldPool ==> e.id < |graph|
      modifies this`graph
      ensures Pruned(newPool, handed) == Prune(setup.d, oldPool, true)
      ensures TargetsInRange(|old(graph)|, handed) && graph == Deliver(old(graph), handed)
    {
      hide Deliver, Handed;
      newPool, handed := [], [];
      DeliverNothing(graph);
      var newIds: set<nat> := {};
      for k := 0 to |oldPool|
        invariant Pruned(newPool, handed) == Prune(setup.d, oldPool[..k], true)
        invariant forall id :: id in newIds <==> HasId(newPool, id)
        invariant TargetsInRange(|old(graph)|, handed) && graph == Deliver(old(graph), handed)
      {
        var nn := oldPool[k];
        assert oldPool[..k + 1][..k] == oldPool[..k];
        assert forall e :: e in newPool ==> e in oldPool;
        if nn.id !in newIds {
          var ok := Compare(nn, newPool);
          if ok {
            newPool := newPool + [nn];
            newIds := newIds + {nn.id};
          } else {
            ghost var w := newPool[FirstBeating(setup.d, newPool, nn, true, 0)].id;
            DeliverOneMore(old(graph), handed, Handover(w, nn.id, setup.d(nn.id, w)));
            handed := handed + [Handover(w, nn.id, setup.d(nn.id, w))];
          }
        }
      }
      assert oldPool[..|oldPool|] == oldPool;
    }

    /** One node of an update pass. */
    method UpdateOne(u: nat)
      requires Valid() && u < |graph|
      modifies this`graph
      ensures graph == UpdateNode(setup, old(graph), u, true)
    {
      ghost var g0 := graph;
      UpdateNodeOk(setup, g0, u, true);
      CandidatesFacts(setup, g0[u]);
      assert PoolOk(setup.d, |g0|, u, g0[u]);
      var oldPool := graph[u];
      graph := graph[u := []];
      oldPool := Unique(setup.sort(oldPool));
      assert oldPool == Candidates(setup, g0[u]);
      hide Prune, Deliver, Candidates;
      var newPool, _ := PrunePool(oldPool);
      graph := graph[u := Cleared(newPool)];
    }

    method Update()
      requires Valid()
      modifies this`graph
      ensures Valid()
      ensures graph == UpdatePass(setup, old(graph), |old(graph)|, true)
    {
      hide UpdateNode, GraphOk, ValidSetup;
      for u := 0 to |graph|
        invariant graph == UpdatePass(setup, old(graph), u, true)
      {
        UpdateOne(u);
      }
    }

    /** Adds the reversal of every edge of `src` to `base`. */
    method Scatter(src: Graph, base: Graph) returns (r: Graph)
      requires IdsInRange(|base|, src)
      ensures r == Transpose(base, src, |src|)
    {
      r := base;
      for u := 0 to |src|
        invariant r == Transpose(base, src, u)
      {
        var pool := src[u];
        for k := 0 to |pool|
          invariant r == TransposePool(Transpose(base, src, u), u, pool[..k])
        {
          assert pool[..k + 1][..k] == pool[..k];
          assert pool[k] in pool;
          r := r[pool[k].id := r[pool[k].id] + [Neighbor(u, pool[k].distance, pool[k].flag)]];
        }
        assert pool[..|pool|] == pool;
      }
    }

    /** Moves every pool, marked new, into its reverse pool, which is then sorted, deduplicated and cut. */
    method MergeReverse(t: Graph) returns (reverse: Graph)
      requires |t| == |graph|
      modifies this`graph
      ensures |reverse| == |t| && graph == Empty(|t|)
      ensures forall v :: 0 <= v < |t| ==>
                reverse[v] == Capped(Candidates(setup, t[v] + Marked(old(graph)[v])), setup.cap)
    {
      reverse := t;
      for u := 0 to |t|
        invariant |reverse| == |graph| == |t|
        invariant forall v :: 0 <= v < u ==>
                    reverse[v] == Capped(Candidates(setup, t[v] + Marked(old(graph)[v])), setup.cap)
        invariant forall v :: u <= v < |t| ==> reverse[v] == t[v] && graph[v] == old(graph)[v]
        invariant forall v :: 0 <= v < u ==> graph[v] == []
      {
        var rpool := reverse[u] + Marked(graph[u]);
        graph := graph[u := []];
        rpool := Unique(setup.sort(rpool));
        reverse := reverse[u := Capped(rpool, setup.cap)];
      }
    }

    method SortAndCut()
      modifies this`graph
      ensures |graph| == |old(graph)|
      ensures forall v :: 0 <= v < |graph| ==> graph[v] == Capped(setup.sort(old(graph)[v]), setup.cap)
    {
      for u := 0 to |graph|
        invariant |graph| == |old(graph)|
        invariant forall v :: 0 <= v < u ==> graph[v] == Capped(setup.sort(old(graph)[v]), setup.cap)
        invariant forall v :: u <= v < |graph| ==> graph[v] == old(graph)[v]
      {
        graph := graph[u := Capped(setup.sort(graph[u]), setup.cap)];
      }
    }

    method AddReverse()
      requires Valid()
      modifies this`graph
      ensures Valid()
      ensures graph == AddReverseEdges(setup, old(graph))
    {
      var t := Scatter(graph, Empty(|graph|));
      assert t == Incoming(setup, graph);
      var reverse := MergeReverse(t);
      assert reverse == ReversePools(setup, old(graph));
      graph := Scatter(reverse, graph);
      assert graph == Incoming(setup, ReversePools(setup, old(graph)));
      SortAndCut();
      assert graph == AddReverseEdges(setup, old(graph));
    }

    /** The whole build: rounds of updates with reverse edges between them, then the sorted, deduplicated lists. */
    method Build(draws: seq<Draw>, rounds: nat, iters: nat)
      requires ValidSetup(setup) && SortsNats(sortIds)
      requires DrawsOk(draws) && graph == Empty(|draws|)
      modifies this
      ensures Valid()
      ensures var start := StartGraph(setup, sortIds, draws);
              GraphOk(setup.d, start)
              && layer0 == Layer0(setup, Rounds(setup, start, rounds, rounds, iters, false))
              && exists run :: IsBuild(setup, start, run, rounds, iters, true)
                               && layer0 == Layer0(setup, LastOf(start, run))
      ensures InRange(layer0) && NearestFirst(setup.d, layer0) && |layer0| == |draws|
    {
      hide UpdatePass, AddReverseEdges, GraphOk, ValidSetup, AllSettled, Layer0, StartGraph, InRange, NearestFirst;
      hide IsBuild, LastOf;
      InitGraph(draws);
      ghost var start := graph;
      StartGraphOk(setup, sortIds, draws);
      for r := 0 to rounds
        invariant |graph| == |draws|
        invariant Valid() && graph == Rounds(setup, start, r, rounds, iters, true)
      {
        ghost var p := graph;
        for it := 0 to iters
          invariant |graph| == |draws|
          invariant Valid() && graph == Updates(setup, p, it, true)
        {
          Update();
        }
        if r != rounds - 1 {
          AddReverse();
        }
      }
      ghost var run := BuildExists(setup, start, rounds, iters, true);
      ShortcutSoundOverBuild(setup, start, rounds, rounds, iters);
      Layer0Lists(setup, graph);
      Finish();
    }

    /** The final sort and deduplication of every pool. */
    method Finish()
      modifies this`layer0
      ensures layer0 == Layer0(setup, graph)
    {
      ghost var final := Layer0(setup, graph);
      layer0 := [];
      for u := 0 to |graph|
        invariant layer0 == final[..u]
      {
        var pool := Unique(setup.sort(graph[u]));
        layer0 := layer0 + [Ids(pool)];
        assert Ids(pool) == final[u];
      }
      assert layer0 == final;
    }
  }

  /**
   The fixture's build: the final lists connect all the start graph connected if no reverse-edge pass drops a neighbour,
   as when no node has two equally far neighbours in one; a list repeats a node exactly when its final pool, sorted, has
   equal ids apart.
   */
  method BuildGolden(setup: Setup, sortIds: NatReorder, draws: seq<Draw>) returns (layer0: seq<seq<nat>>)
    requires ValidSetup(setup) && SortsNats(sortIds) && setup.cap == K_NUM_REVERSE_EDGES
    requires |draws| == K_N && forall i :: 0 <= i < K_N ==> |draws[i].values| == K_S
    ensures |layer0| == K_N && InRange(layer0) && NearestFirst(setup.d, layer0)
    ensures var start := StartGraph(setup, sortIds, draws);
            GraphOk(setup.d, start)
            && (TieFreeRun(setup, start, K_R, K_R, K_ITER) ==> LosslessRun(setup, start, K_R, K_R, K_ITER))
            && (LosslessRun(setup, start, K_R, K_R, K_ITER) ==>
                  forall u, v :: Reach(Edges(start), u, v) ==> Reach(ListEdges(layer0), u, v))
            && forall u :: 0 <= u < K_N ==>
                 (NoDup(layer0[u]) <==> Grouped(setup.sort(Rounds(setup, start, K_R, K_R, K_ITER, false)[u])))
  {
    var m := new MirageReference(K_N, setup, sortIds);
    m.Build(draws, K_R, K_ITER);
    layer0 := m.layer0;
    ghost var start := StartGraph(setup, sortIds, draws);
    StartGraphOk(setup, sortIds, draws);
    ghost var final := Rounds(setup, start, K_R, K_R, K_ITER, true);
    ShortcutSoundOverBuild(setup, start, K_R, K_R, K_ITER);
    Layer0Lists(setup, final);
    hide Rounds, Layer0, StartGraph, Grouped, NoDup, TieFreeRun, LosslessRun, GraphOk, ValidSetup, InRange;
    hide NearestFirst;
    if TieFreeRun(setup, start, K_R, K_R, K_ITER) {
      TieFreeRunLossless(setup, start, K_R, K_R, K_ITER);
    }
    if LosslessRun(setup, start, K_R, K_R, K_ITER) {
      forall u, v | Reach(Edges(start), u, v) ensures Reach(ListEdges(layer0), u, v) {
        BuildKeepsReach(setup, start, K_R, K_ITER, u, v);
      }
    }
  }

  // ----- the fixture's own vectors

  const K_DIM: nat := 8

  function Raw(i: nat, dim: nat): nat {
    ((i + 1) * 37 + (dim + 3) * 17 + (i * dim) * 13) % 1009
  }

  function VectorValue(i: nat, dim: nat): real {
    (Raw(i, dim) as real - 504.0) / 100.0
  }

  function GenerateVectors(): (r: seq<seq<real>>)
    ensures |r| == K_N && forall i :: 0 <= i < K_N ==> |r[i]| == K_DIM
    ensures forall i, dim :: 0 <= i < K_N && 0 <= dim < K_DIM ==> r[i][dim] == VectorValue(i, dim)
  {
    seq(K_N, i requires 0 <= i < K_N => seq(K_DIM, dim requires 0 <= dim < K_DIM => VectorValue(i, dim)))
  }

  function FixtureDistance(): Distance {
    (a: nat, b: nat) => if a < K_N && b < K_N then L2(GenerateVectors(), K_DIM, a, b) else 0.0
  }

  /** The first rows have the same difference throughout. */
  lemma FirstRowsProgress(dim: nat)
    requires dim < K_DIM
    ensures VectorValue(1, dim) - VectorValue(0, dim) == VectorValue(2, dim) - VectorValue(1, dim)
  {
    RawRow(0, dim);
    RawRow(1, dim);
    RawRow(2, dim);
    hide Raw;
  }

  lemma RawRow(i: nat, dim: nat)
    requires i <= 2 && dim < K_DIM
    ensures Raw(i, dim) == 88 + 17 * dim + if i == 0 then 0 else if i == 1 then 37 + 13 * dim else 74 + 26 * dim
  {
    assert i * dim == if i == 0 then 0 else if i == 1 then dim else dim + dim;
  }

  lemma {:induction false} ProgressionTies(vectors: seq<seq<real>>, dim: nat, a: nat, b: nat, c: nat)
    requires a < |vectors| && b < |vectors| && c < |vectors|
    requires dim <= |vectors[a]| && dim <= |vectors[b]| && dim <= |vectors[c]|
    requires forall i :: 0 <= i < dim ==> vectors[b][i] - vectors[a][i] == vectors[c][i] - vectors[b][i]
    ensures L2(vectors, dim, b, a) == L2(vectors, dim, b, c)
  {
    if dim != 0 {
      ProgressionTies(vectors, dim - 1, a, b, c);
      var x, y := vectors[b][dim - 1] - vectors[a][dim - 1], vectors[b][dim - 1] - vectors[c][dim - 1];
      assert y == -x;
      assert x * x == y * y;
    }
  }

  /** In exact arithmetic the fixture has ties: points 0 and 2 are equally far from point 1. */
  lemma FixtureTies()
    ensures FixtureDistance()(1, 0) == FixtureDistance()(1, 2) > 0.0 && !NoTies(FixtureDistance(), K_N)
  {
    var vectors := GenerateVectors();
    forall i | 0 <= i < K_DIM ensures vectors[1][i] - vectors[0][i] == vectors[2][i] - vectors[1][i] {
      FirstRowsProgress(i);
    }
    ProgressionTies(vectors, K_DIM, 0, 1, 2);
    RawRow(0, 0);
    RawRow(1, 0);
    assert vectors[1][0] != vectors[0][0];
    L2ZeroIff(vectors, K_DIM, 1, 0);
  }
}
