/**
 Why the condition on reachability of a build is not an exact one: from a ring of three equally far nodes and a cap of
 one, a reverse-edge pass drops a neighbour of every node and the build still connects all it connected at the start.
 */
module MirageRing {
  import opened Reachability
  import opened MirageGraph
  import opened MirageReach
  import opened MirageBuild
  import MirageCut

  function To(u: nat, forth: bool): nat {
    (u + if forth then 1 else 2) % 3
  }

  /** Every node points to the next one, or every node to the one before. */
  ghost predicate Points(g: Graph, forth: bool) {
    |g| == 3 && forall u: nat :: u < 3 ==> |g[u]| == 1 && g[u][0].id == To(u, forth) && g[u][0].distance == 1.0
  }

  /** The sort leaves two entries that tie in place, as a stable one does. */
  ghost predicate Ring(s: Setup, g: Graph, forth: bool) {
    && ValidSetup(s) && s.cap == 1 && GraphOk(s.d, g) && Points(g, forth)
    && forall p: Pool :: |p| == 2 && p[0].distance == p[1].distance ==> s.sort(p) == p
  }

  lemma SortOne(s: Setup, p: Pool)
    requires Sorts(s.sort) && |p| == 1
    ensures s.sort(p) == p && Candidates(s, p) == p
  {
    SortKeeps(s, p);
    assert s.sort(p)[0] in p;
    assert p[..0] == [];
  }

  lemma UniqueTwo(p: Pool)
    requires |p| == 2 && p[0].id != p[1].id
    ensures Unique(p) == p
  {
    assert p[..1][..0] == [] && p == p[..1] + [p[1]];
  }

  // ----- updates change nothing but flags

  lemma RingUpdate(s: Setup, g: Graph, u: nat)
    requires Ring(s, g, true) && u < 3
    ensures Ring(s, UpdateNode(s, g, u, true), true)
  {
    SortOne(s, g[u]);
    assert g[u][..0] == [];
    assert Prune(s.d, g[u], true) == Pruned(g[u], []);
    assert UpdateNode(s, g, u, true) == g[u := Cleared(g[u])];
  }

  lemma {:induction false} RingPass(s: Setup, g: Graph, k: nat)
    requires Ring(s, g, true) && k <= 3
    ensures Ring(s, UpdatePass(s, g, k, true), true)
  {
    hide UpdateNode;
    if k != 0 {
      RingPass(s, g, k - 1);
      RingUpdate(s, UpdatePass(s, g, k - 1, true), k - 1);
    }
  }

  lemma {:induction false} RingUpdates(s: Setup, g: Graph, times: nat)
    requires Ring(s, g, true)
    ensures Ring(s, Updates(s, g, times, true), true)
  {
    hide UpdatePass;
    if times != 0 {
      RingUpdates(s, g, times - 1);
      RingPass(s, Updates(s, g, times - 1, true), 3);
    }
  }

  // ----- reverse edges are dropped again

  lemma TransposeOne(acc: Graph, u: nat, pool: Pool)
    requires |pool| == 1 && pool[0].id < |acc|
    ensures var e := pool[0];
            TransposePool(acc, u, pool) == acc[e.id := acc[e.id] + [Neighbor(u, e.distance, e.flag)]]
  {
    assert pool[..0] == [];
  }

  /** Transposing turns the ring around. */
  lemma RingTurns(s: Setup, g: Graph, forth: bool)
    requires GraphOk(s.d, g) && Points(g, forth)
    ensures Points(Incoming(s, g), !forth)
  {
    var a := Transpose(Empty(3), g, 1);
    var b := Transpose(Empty(3), g, 2);
    assert Transpose(Empty(3), g, 0) == Empty(3);
    TransposeOne(Empty(3), 0, g[0]);
    TransposeOne(a, 1, g[1]);
    TransposeOne(b, 2, g[2]);
    assert Incoming(s, g) == TransposePool(b, 2, g[2]);
  }

  /** Of the two neighbours of a node the first cut keeps the one that points to it. */
  lemma RingMerges(s: Setup, g: Graph, u: nat)
    requires Ring(s, g, true) && u < 3
    ensures Merged(s, g, u) == Incoming(s, g)[u] + Marked(g[u])
    ensures ReversePools(s, g)[u] == Incoming(s, g)[u]
  {
    RingTurns(s, g, true);
    var m := Incoming(s, g)[u] + Marked(g[u]);
    UniqueTwo(m);
    assert Capped(m, 1) == Incoming(s, g)[u];
  }

  lemma RingReverses(s: Setup, g: Graph)
    requires Ring(s, g, true)
    ensures Ring(s, AddReverseEdges(s, g), true)
  {
    var r := ReversePools(s, g);
    RingTurns(s, g, true);
    forall u: nat | u < 3 ensures r[u] == Incoming(s, g)[u] {
      RingMerges(s, g, u);
    }
    RingTurns(s, r, false);
    forall u: nat | u < 3 ensures s.sort(Incoming(s, r)[u]) == Incoming(s, r)[u] {
      SortOne(s, Incoming(s, r)[u]);
    }
  }

  lemma RingDrops(s: Setup, g: Graph)
    requires Ring(s, g, true)
    ensures !Lossless(s, g)
  {
    RingTurns(s, g, true);
    RingMerges(s, g, 0);
    assert Merged(s, g, 0)[1] in Merged(s, g, 0) && Merged(s, g, 0)[1].id == 1;
    assert HasId(Merged(s, g, 0), 1) && !HasId(ReversePools(s, g)[0], 1);
  }

  lemma RingEdges(s: Setup, g: Graph)
    requires Ring(s, g, true)
    ensures Edges(g) == {(0, 1), (1, 2), (2, 0)}
  {
    EdgeAt(g, 0, g[0][0]);
    EdgeAt(g, 1, g[1][0]);
    EdgeAt(g, 2, g[2][0]);
  }

  /** A neighbour of every node is dropped, and every path of the start graph is there in the end. */
  lemma DroppedYetReached(s: Setup, g: Graph, iters: nat)
    requires Ring(s, g, true)
    ensures !LosslessRun(s, g, 2, 2, iters)
    ensures forall u, v :: Reach(Edges(g), u, v) ==> Reach(ListEdges(Layer0(s, Rounds(s, g, 2, 2, iters, true))), u, v)
  {
    var p := Updates(s, g, iters, true);
    RingUpdates(s, g, iters);
    RingDrops(s, p);
    RingReverses(s, p);
    var q := AddReverseEdges(s, p);
    var final := Updates(s, q, iters, true);
    RingUpdates(s, q, iters);
    RingEdges(s, g);
    RingEdges(s, final);
    assert Rounds(s, g, 0, 2, iters, true) == g;
    assert Rounds(s, g, 1, 2, iters, true) == q;
    hide Updates, AddReverseEdges, Ring, Lossless;
    assert Rounds(s, g, 2, 2, iters, true) == final;
    assert !LosslessRun(s, g, 1, 2, iters);
    Layer0Lists(s, final);
  }

  lemma InsertionStable(p: Pool)
    requires |p| == 2 && p[0].distance == p[1].distance
    ensures MirageCut.InsertionSort(p) == p
  {
    assert p[1..][1..] == [] && p[1..] == [p[1]];
    assert MirageCut.InsertionSort(p[1..]) == [p[1]];
    assert p == [p[0]] + [p[1]];
  }

  /** The ring is an input. */
  lemma RingExists() returns (s: Setup, g: Graph)
    ensures Ring(s, g, true)
  {
    var d := (a: nat, b: nat) => if a == b then 0.0 else 1.0;
    s := Setup(d, MirageCut.InsertionSort, p => p, 1);
    MirageCut.InsertionIsSort();
    forall p: Pool | |p| == 2 && p[0].distance == p[1].distance ensures s.sort(p) == p {
      InsertionStable(p);
    }
    g := [[Neighbor(1, 1.0, true)], [Neighbor(2, 1.0, true)], [Neighbor(0, 1.0, true)]];
  }
}
