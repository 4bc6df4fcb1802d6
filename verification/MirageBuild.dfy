/** What a whole build promises about the final layer-0 lists. */
module MirageBuild {
  import opened Reachability
  import opened FiniteSets
  import opened MirageGraph
  import opened MirageReach

  ghost predicate InRange(l: seq<seq<nat>>) {
    forall u, v :: 0 <= u < |l| && v in l[u] ==> v < |l| && v != u
  }

  ghost predicate NearestFirst(d: Distance, l: seq<seq<nat>>) {
    forall u, i, j :: 0 <= u < |l| && 0 <= i < j < |l[u]| ==> d(u, l[u][i]) <= d(u, l[u][j])
  }

  ghost function ListEdges(l: seq<seq<nat>>): set<Edge> {
    set u, v | 0 <= u < |l| && v in l[u] :: (u as nat, v)
  }

  /**
   Final lists name other nodes in range, nearest first, and have the pools' edges; a list repeats no node exactly when
   equal ids stand together in its sorted pool.
   */
  lemma Layer0Lists(s: Setup, g: Graph)
    requires ValidSetup(s) && GraphOk(s.d, g)
    ensures InRange(Layer0(s, g)) && NearestFirst(s.d, Layer0(s, g))
    ensures ListEdges(Layer0(s, g)) == Edges(g)
    ensures forall u :: 0 <= u < |g| ==> (NoDup(Layer0(s, g)[u]) <==> Grouped(s.sort(g[u])))
  {
    var l := Layer0(s, g);
    forall u | 0 <= u < |g|
      ensures forall v :: v in l[u] ==> v < |g| && v != u
      ensures forall i, j :: 0 <= i < j < |l[u]| ==> s.d(u, l[u][i]) <= s.d(u, l[u][j])
      ensures forall v :: v in l[u] <==> HasId(g[u], v)
      ensures NoDup(l[u]) <==> Grouped(s.sort(g[u]))
    {
      Layer0List(s, g, u);
    }
    ListsAreEdges(l, g);
  }

  lemma ListsAreEdges(l: seq<seq<nat>>, g: Graph)
    requires |l| == |g| && forall u, v :: 0 <= u < |g| ==> (v in l[u] <==> HasId(g[u], v))
    ensures ListEdges(l) == Edges(g)
  {
    forall x | x in ListEdges(l) ensures x in Edges(g) {
      var u, v :| 0 <= u < |l| && v in l[u] && x == (u as nat, v);
      var e :| e in g[u] && e.id == v;
      EdgeAt(g, u, e);
    }
    forall x | x in Edges(g) ensures x in ListEdges(l) {
      var u, e :| 0 <= u < |g| && e in g[u] && x == (u as nat, e.id);
      assert HasId(g[u], e.id);
      assert e.id in l[u];
    }
  }

  lemma IdsHave(p: Pool, v: nat)
    ensures v in Ids(p) <==> HasId(p, v)
  {
    if v in Ids(p) {
      var i :| 0 <= i < |p| && Ids(p)[i] == v;
      assert p[i] in p;
    }
    if HasId(p, v) {
      var e :| e in p && e.id == v;
      var i :| 0 <= i < |p| && p[i] == e;
      assert Ids(p)[i] == v;
    }
  }

  lemma IdsOrdered(d: Distance, n: nat, u: nat, c: Pool)
    requires PoolOk(d, n, u, c) && SortedByDistance(c)
    ensures forall i, j :: 0 <= i < j < |c| ==> d(u, Ids(c)[i]) <= d(u, Ids(c)[j])
    ensures DistinctIds(c) <==> NoDup(Ids(c))
  {
    assert forall i :: 0 <= i < |c| ==> c[i] in c && EntryOk(d, n, u, c[i]);
  }

  lemma Layer0List(s: Setup, g: Graph, u: nat)
    requires ValidSetup(s) && GraphOk(s.d, g) && u < |g|
    ensures var l := Layer0(s, g)[u];
            (forall v :: v in l ==> v < |g| && v != u)
            && (forall i, j :: 0 <= i < j < |l| ==> s.d(u, l[i]) <= s.d(u, l[j]))
            && (forall v :: v in l <==> HasId(g[u], v))
            && (NoDup(l) <==> Grouped(s.sort(g[u])))
  {
    hide Unique, Grouped, DistinctIds, SortedByDistance;
    var c := Candidates(s, g[u]);
    CandidatesFacts(s, g[u]);
    assert PoolOk(s.d, |g|, u, g[u]) && PoolOk(s.d, |g|, u, c);
    UniqueDistinctIff(s.sort(g[u]));
    IdsOrdered(s.d, |g|, u, c);
    assert Layer0(s, g)[u] == Ids(c);
    hide Candidates, ValidSetup, GraphOk, Layer0;
    forall v ensures v in Ids(c) <==> HasId(g[u], v) {
      IdsHave(c, v);
    }
    forall v | v in Ids(c) ensures v < |g| && v != u {
      IdsHave(c, v);
    }
  }

  lemma {:induction false} UpdatesSimulate(s: Setup, g: Graph, times: nat, useFlags: bool)
    requires ValidSetup(s) && GraphOk(s.d, g)
    ensures Simulates(Edges(g), Edges(Updates(s, g, times, useFlags)))
  {
    hide UpdatePass;
    if times == 0 {
      SubsetSimulates(Edges(g), Edges(g));
    } else {
      UpdatesSimulate(s, g, times - 1, useFlags);
      var p := Updates(s, g, times - 1, useFlags);
      UpdatePassSimulates(s, p, |p|, useFlags);
      SimulatesTrans(Edges(g), Edges(p), Edges(Updates(s, g, times, useFlags)));
    }
  }

  /** No reverse-edge pass among the first `k` rounds drops a neighbour. */
  ghost predicate LosslessRun(s: Setup, g: Graph, k: nat, rounds: nat, iters: nat)
    requires ValidSetup(s) && GraphOk(s.d, g) && k <= rounds
    decreases k
  {
    k == 0
    || (LosslessRun(s, g, k - 1, rounds, iters)
        && (k != rounds ==> Lossless(s, Updates(s, Rounds(s, g, k - 1, rounds, iters, true), iters, true))))
  }

  lemma {:induction false} RoundsSimulate(s: Setup, g: Graph, k: nat, rounds: nat, iters: nat)
    requires ValidSetup(s) && GraphOk(s.d, g) && k <= rounds && LosslessRun(s, g, k, rounds, iters)
    ensures Simulates(Edges(g), Edges(Rounds(s, g, k, rounds, iters, true)))
    decreases k
  {
    hide Updates, AddReverseEdges, Lossless;
    if k == 0 {
      SubsetSimulates(Edges(g), Edges(g));
    } else {
      RoundsSimulate(s, g, k - 1, rounds, iters);
      var p := Rounds(s, g, k - 1, rounds, iters, true);
      var q := Updates(s, p, iters, true);
      UpdatesSimulate(s, p, iters, true);
      SimulatesTrans(Edges(g), Edges(p), Edges(q));
      if k != rounds {
        ClosureIffLossless(s, q);
        SubsetSimulates(Edges(q), Edges(AddReverseEdges(s, q)));
        SimulatesTrans(Edges(g), Edges(q), Edges(AddReverseEdges(s, q)));
      }
    }
  }

  /** In no reverse-edge pass among the first `k` rounds has a node two equally far neighbours. */
  ghost predicate TieFreeRun(s: Setup, g: Graph, k: nat, rounds: nat, iters: nat)
    requires ValidSetup(s) && GraphOk(s.d, g) && k <= rounds
    decreases k
  {
    k == 0
    || (TieFreeRun(s, g, k - 1, rounds, iters)
        && (k != rounds ==> TieFreePass(s, Updates(s, Rounds(s, g, k - 1, rounds, iters, true), iters, true))))
  }

  lemma {:induction false} TieFreeRunLossless(s: Setup, g: Graph, k: nat, rounds: nat, iters: nat)
    requires ValidSetup(s) && GraphOk(s.d, g) && k <= rounds && TieFreeRun(s, g, k, rounds, iters) && |g| <= s.cap + 1
    ensures LosslessRun(s, g, k, rounds, iters)
    decreases k
  {
    hide Updates, AddReverseEdges, Uncut, Lossless, TieFreePass;
    if k != 0 {
      TieFreeRunLossless(s, g, k - 1, rounds, iters);
      var q := Updates(s, Rounds(s, g, k - 1, rounds, iters, true), iters, true);
      if k != rounds {
        TieFreeUncut(s, q);
        UncutLossless(s, q);
      }
    }
  }

  lemma {:induction false} NoTiesRun(s: Setup, g: Graph, k: nat, rounds: nat, iters: nat)
    requires ValidSetup(s) && GraphOk(s.d, g) && k <= rounds && NoTies(s.d, |g|)
    ensures TieFreeRun(s, g, k, rounds, iters)
    decreases k
  {
    hide Updates, AddReverseEdges, TieFreePass, NoTies;
    if k != 0 {
      NoTiesRun(s, g, k - 1, rounds, iters);
      NoTiesPass(s, Updates(s, Rounds(s, g, k - 1, rounds, iters, true), iters, true));
    }
  }

  /**
   Everything reachable in the start graph is reachable through the final lists, if no reverse pass dropped a
   neighbour.
   */
  lemma BuildKeepsReach(s: Setup, g: Graph, rounds: nat, iters: nat, u: nat, v: nat)
    requires ValidSetup(s) && GraphOk(s.d, g) && LosslessRun(s, g, rounds, rounds, iters)
    requires Reach(Edges(g), u, v)
    ensures Reach(ListEdges(Layer0(s, Rounds(s, g, rounds, rounds, iters, true))), u, v)
  {
    hide Rounds, Layer0, LosslessRun;
    var final := Rounds(s, g, rounds, rounds, iters, true);
    RoundsSimulate(s, g, rounds, rounds, iters);
    Layer0Lists(s, final);
    ReachTransfer(Edges(g), Edges(final), u, v);
  }

  /** The cap cannot bite when it is at least n - 1 and no node has two equally far neighbours in a pass. */
  lemma BuildKeepsReachTieFree(s: Setup, g: Graph, rounds: nat, iters: nat, u: nat, v: nat)
    requires ValidSetup(s) && GraphOk(s.d, g) && TieFreeRun(s, g, rounds, rounds, iters) && |g| <= s.cap + 1
    requires Reach(Edges(g), u, v)
    ensures Reach(ListEdges(Layer0(s, Rounds(s, g, rounds, rounds, iters, true))), u, v)
  {
    TieFreeRunLossless(s, g, rounds, rounds, iters);
    BuildKeepsReach(s, g, rounds, iters, u, v);
  }

  /** A list repeats no node if no two neighbours in the node's final pool are equally far. */
  lemma TieFreeListDistinct(s: Setup, g: Graph, u: nat)
    requires ValidSetup(s) && GraphOk(s.d, g) && u < |g| && TieFree(g[u])
    ensures NoDup(Layer0(s, g)[u])
  {
    SortKeeps(s, g[u]);
    assert PoolOk(s.d, |g|, u, g[u]);
    TieFreeGrouped(s.d, |g|, u, s.sort(g[u]));
    Layer0List(s, g, u);
  }
}
