/**
 Pruning never disconnects: an update pass keeps everything reachable. Reverse edges add to what is reachable as long as
 cutting the pools at the cap drops no neighbour; exactly then the pass yields the symmetric closure.
 */
module MirageReach {
  import opened FiniteSets
  import opened Reachability
  import opened MirageGraph

  /** A candidate of a pool survives (under its id) or is handed to a survivor that is strictly nearer to it. */
  lemma {:induction false} KeptOrHanded(d: Distance, pool: Pool, useFlags: bool, e: Neighbor)
    requires e in pool
    ensures var pr := Prune(d, pool, useFlags);
            HasId(pr.kept, e.id)
            || exists w :: w in pr.kept && d(e.id, w.id) < e.distance
                           && Handover(w.id, e.id, d(e.id, w.id)) in pr.handed
  {
    var k := |pool| - 1;
    var acc := Prune(d, pool[..k], useFlags);
    var pr := Prune(d, pool, useFlags);
    assert pr == PruneStep(d, acc, pool[k], useFlags);
    assert acc.kept <= pr.kept && acc.handed <= pr.handed;
    hide Prune;
    if e in pool[..k] {
      KeptOrHanded(d, pool[..k], useFlags, e);
    } else {
      assert e == pool[k];
      if !HasId(acc.kept, e.id) {
        var i := FirstBeating(d, acc.kept, e, useFlags, 0);
        if i < |acc.kept| {
          var h := Handover(acc.kept[i].id, e.id, d(e.id, acc.kept[i].id));
          assert pr.handed == acc.handed + [h];
          assert acc.kept[i] in pr.kept && h in pr.handed;
        } else {
          assert e in pr.kept;
        }
      }
    }
  }

  /** A detour through a node that is nearer to the target than the start is. */
  ghost predicate Detour(d: Distance, edges: set<Edge>, u: nat, v: nat, w: nat) {
    (u, w) in edges && (w, v) in edges && d(w, v) < d(u, v)
  }

  lemma EdgeAt(g: Graph, u: nat, e: Neighbor)
    requires u < |g| && e in g[u]
    ensures (u, e.id) in Edges(g)
  {
  }

  lemma ClearedHas(p: Pool, e: Neighbor)
    requires e in p
    ensures e.(flag := false) in Cleared(p)
  {
    var i :| 0 <= i < |p| && p[i] == e;
    assert Cleared(p)[i] == e.(flag := false);
  }

  /** An edge out of the updated node stays or gets a detour. */
  lemma UpdatedNodeDetours(s: Setup, g: Graph, u: nat, useFlags: bool, e: Neighbor)
    requires ValidSetup(s) && GraphOk(s.d, g) && u < |g| && e in g[u]
    ensures var edges := Edges(UpdateNode(s, g, u, useFlags));
            (u, e.id) in edges || exists w :: Detour(s.d, edges, u, e.id, w)
  {
    var pool := Candidates(s, g[u]);
    var pr := Prune(s.d, pool, useFlags);
    var r := UpdateNode(s, g, u, useFlags);
    UpdateNodeOk(s, g, u, useFlags);
    CandidatesFacts(s, g[u]);
    var f :| f in pool && f.id == e.id;
    assert EntryOk(s.d, |g|, u, f);
    KeptOrHanded(s.d, pool, useFlags, f);
    assert r[u] == Cleared(pr.kept);
    if HasId(pr.kept, f.id) {
      var x :| x in pr.kept && x.id == f.id;
      ClearedHas(pr.kept, x);
      EdgeAt(r, u, x.(flag := false));
    } else {
      var w :| w in pr.kept && s.d(f.id, w.id) < f.distance && Handover(w.id, f.id, s.d(f.id, w.id)) in pr.handed;
      HandoverDetours(s, g, u, useFlags, f, w);
      assert Detour(s.d, Edges(r), u, e.id, w.id);
    }
  }

  lemma HandoverDetours(s: Setup, g: Graph, u: nat, useFlags: bool, f: Neighbor, w: Neighbor)
    requires ValidSetup(s) && GraphOk(s.d, g) && u < |g|
    requires var pr := Prune(s.d, Candidates(s, g[u]), useFlags);
             w in pr.kept && Handover(w.id, f.id, s.d(f.id, w.id)) in pr.handed
    requires f.distance == s.d(u, f.id) && s.d(f.id, w.id) < f.distance
    ensures Detour(s.d, Edges(UpdateNode(s, g, u, useFlags)), u, f.id, w.id)
  {
    var pr := Prune(s.d, Candidates(s, g[u]), useFlags);
    var r := UpdateNode(s, g, u, useFlags);
    UpdateNodeOk(s, g, u, useFlags);
    ClearedHas(pr.kept, w);
    EdgeAt(r, u, w.(flag := false));
    var h := Neighbor(f.id, s.d(f.id, w.id), true);
    assert Handover(w.id, f.id, h.distance) in pr.handed;
    DeliverAt(g[u := []], pr.handed, w.id, h);
    EdgeAt(r, w.id, h);
    assert s.d(f.id, w.id) == s.d(w.id, f.id);
  }

  /** Edges out of every other node stay. */
  lemma OtherNodesKeepEdges(s: Setup, g: Graph, u: nat, useFlags: bool, a: nat, e: Neighbor)
    requires ValidSetup(s) && GraphOk(s.d, g) && u < |g| && a < |g| && a != u && e in g[a]
    ensures (a, e.id) in Edges(UpdateNode(s, g, u, useFlags))
  {
    var pr := Prune(s.d, Candidates(s, g[u]), useFlags);
    UpdateNodeOk(s, g, u, useFlags);
    DeliverAt(g[u := []], pr.handed, a, e);
    EdgeAt(UpdateNode(s, g, u, useFlags), a, e);
  }

  lemma UpdateNodeSimulates(s: Setup, g: Graph, u: nat, useFlags: bool)
    requires ValidSetup(s) && GraphOk(s.d, g) && u < |g|
    ensures Simulates(Edges(g), Edges(UpdateNode(s, g, u, useFlags)))
  {
    hide UpdateNode, GraphOk, ValidSetup;
    var r := Edges(UpdateNode(s, g, u, useFlags));
    forall x | x in Edges(g) ensures Reach(r, x.0, x.1) {
      var a, e :| 0 <= a < |g| && e in g[a] && x == (a as nat, e.id);
      if a == u {
        UpdatedNodeDetours(s, g, u, useFlags, e);
      } else {
        OtherNodesKeepEdges(s, g, u, useFlags, a, e);
      }
      if x in r {
        ReachEdge(r, x.0, x.1);
      } else {
        var w :| Detour(s.d, r, u, e.id, w);
        ReachEdge(r, u, w);
        ReachEdge(r, w, e.id);
        ReachTrans(r, u, w, e.id);
      }
    }
  }

  lemma {:induction false} UpdatePassSimulates(s: Setup, g: Graph, k: nat, useFlags: bool)
    requires ValidSetup(s) && GraphOk(s.d, g) && k <= |g|
    ensures Simulates(Edges(g), Edges(UpdatePass(s, g, k, useFlags)))
  {
    hide UpdateNode;
    if k == 0 {
      SubsetSimulates(Edges(g), Edges(g));
    } else {
      UpdatePassSimulates(s, g, k - 1, useFlags);
      var p := UpdatePass(s, g, k - 1, useFlags);
      UpdateNodeSimulates(s, p, k - 1, useFlags);
      SimulatesTrans(Edges(g), Edges(p), Edges(UpdatePass(s, g, k, useFlags)));
    }
  }

  /** A whole update pass keeps every connection: what reached before the pass reaches after it. */
  lemma UpdatePassKeepsReach(s: Setup, g: Graph, useFlags: bool, u: nat, v: nat)
    requires ValidSetup(s) && GraphOk(s.d, g)
    requires Reach(Edges(g), u, v)
    ensures Reach(Edges(UpdatePass(s, g, |g|, useFlags)), u, v)
  {
    UpdatePassSimulates(s, g, |g|, useFlags);
    ReachTransfer(Edges(g), Edges(UpdatePass(s, g, |g|, useFlags)), u, v);
  }

  // ----- reverse edges

  ghost function Closure(edges: set<Edge>): set<Edge> {
    edges + Flip(edges)
  }

  /** What the first half of a reverse-edge pass makes of one pool before it is cut. */
  ghost function Merged(s: Setup, g: Graph, u: nat): Pool
    requires GraphOk(s.d, g) && u < |g|
  {
    Candidates(s, Incoming(s, g)[u] + Marked(g[u]))
  }

  /** Neither of the two cuts of a reverse-edge pass is made. */
  ghost predicate Uncut(s: Setup, g: Graph)
    requires ValidSetup(s) && GraphOk(s.d, g)
  {
    && (forall u: nat :: u < |g| ==> |Merged(s, g, u)| <= s.cap)
    && (forall w :: 0 <= w < |g| ==> |Incoming(s, ReversePools(s, g))[w]| <= s.cap)
  }

  /** Every neighbour in a pool about to be cut is still in it afterwards. */
  ghost predicate Lossless(s: Setup, g: Graph)
    requires ValidSetup(s) && GraphOk(s.d, g)
  {
    && (forall u: nat, v :: u < |g| && HasId(Merged(s, g, u), v) ==> HasId(ReversePools(s, g)[u], v))
    && (forall w: nat, v :: w < |g| && HasId(Incoming(s, ReversePools(s, g))[w], v) ==>
        HasId(AddReverseEdges(s, g)[w], v))
  }

  /** The pass never invents an edge: each one is an old edge or the reversal of one. Pools stay within the cap. */
  lemma ReverseWithinClosure(s: Setup, g: Graph)
    requires ValidSetup(s) && GraphOk(s.d, g)
    ensures Edges(AddReverseEdges(s, g)) <= Closure(Edges(g))
    ensures forall w :: 0 <= w < |g| ==> |AddReverseEdges(s, g)[w]| <= s.cap
  {
    var r := AddReverseEdges(s, g);
    forall x | x in Edges(r) ensures x in Closure(Edges(g)) {
      var w: nat, e: Neighbor :| 0 <= w < |r| && e in r[w] && x == (w, e.id);
      AddedEntry(s, g, w, e);
      var back := Neighbor(w, e.distance, e.flag);
      ReversePoolEntry(s, g, e.id, back);
      if Neighbor(e.id, e.distance, e.flag) in g[w] {
        EdgeAt(g, w, Neighbor(e.id, e.distance, e.flag));
      } else {
        var f :| f in g[e.id] && f.id == w;
        EdgeAt(g, e.id, f);
        assert (w, e.id) in Flip(Edges(g));
      }
    }
  }

  lemma EdgeIsEntry(g: Graph, u: nat, v: nat)
    ensures (u, v) in Edges(g) <==> u < |g| && HasId(g[u], v)
  {
    if u < |g| && HasId(g[u], v) {
      var e :| e in g[u] && e.id == v;
      EdgeAt(g, u, e);
    }
  }

  /** Before the first cut a pool holds exactly the neighbours in the symmetric closure. */
  lemma MergedIsClosure(s: Setup, g: Graph, u: nat, v: nat)
    requires ValidSetup(s) && GraphOk(s.d, g) && u < |g|
    ensures HasId(Merged(s, g, u), v) <==> (u, v) in Closure(Edges(g))
  {
    var t := Incoming(s, g);
    CandidatesFacts(s, t[u] + Marked(g[u]));
    EdgeIsEntry(g, u, v);
    EdgeIsEntry(g, v, u);
    assert (u, v) in Flip(Edges(g)) <==> (v, u) in Edges(g) by {
      if (v, u) in Edges(g) { assert (u, v) in Flip(Edges(g)); }
    }
    if HasId(Merged(s, g, u), v) {
      var e: Neighbor :| e in Merged(s, g, u) && e.id == v;
      ReversePoolEntry(s, g, u, e);
    }
    if HasId(g[u], v) {
      var f: Neighbor :| f in g[u] && f.id == v;
      EdgeMerges(s, g, u, f);
    }
    if v < |g| && HasId(g[v], u) {
      var f: Neighbor :| f in g[v] && f.id == u;
      EdgeMerges(s, g, v, f);
    }
  }

  /** An edge takes part in the merged pools of both its ends. */
  lemma EdgeMerges(s: Setup, g: Graph, a: nat, f: Neighbor)
    requires ValidSetup(s) && GraphOk(s.d, g) && a < |g| && f in g[a]
    ensures f.id < |g| && HasId(Merged(s, g, a), f.id) && HasId(Merged(s, g, f.id), a)
  {
    var t := Incoming(s, g);
    assert EntryOk(s.d, |g|, a, f);
    CandidatesFacts(s, t[a] + Marked(g[a]));
    var i :| 0 <= i < |g[a]| && g[a][i] == f;
    assert Marked(g[a])[i] in t[a] + Marked(g[a]);
    var b := f.id;
    CandidatesFacts(s, t[b] + Marked(g[b]));
    TransposeAt(Empty(|g|), g, |g|, b, Neighbor(a, f.distance, f.flag));
    assert Neighbor(a, f.distance, f.flag) in t[b] + Marked(g[b]);
  }

  /** Between the cuts: `v` is on its way to the pool of `w` exactly when the reverse pool of `v` names `w`. */
  lemma IncomingIsReversed(s: Setup, g: Graph, w: nat, v: nat)
    requires ValidSetup(s) && GraphOk(s.d, g) && w < |g|
    ensures HasId(Incoming(s, ReversePools(s, g))[w], v) <==> v < |g| && HasId(ReversePools(s, g)[v], w)
  {
    var rp := ReversePools(s, g);
    hide ReversePools;
    if HasId(Incoming(s, rp)[w], v) {
      var e: Neighbor :| e in Incoming(s, rp)[w] && e.id == v;
      TransposeAt(Empty(|g|), rp, |g|, w, e);
    }
    if v < |g| && HasId(rp[v], w) {
      var f: Neighbor :| f in rp[v] && f.id == w;
      TransposeAt(Empty(|g|), rp, |g|, w, Neighbor(v, f.distance, f.flag));
    }
  }

  /** What survives the second cut survived the first. */
  lemma AddedWasReversed(s: Setup, g: Graph, w: nat, v: nat)
    requires ValidSetup(s) && GraphOk(s.d, g) && w < |g| && HasId(AddReverseEdges(s, g)[w], v)
    ensures v < |g| && HasId(ReversePools(s, g)[v], w)
  {
    var e: Neighbor :| e in AddReverseEdges(s, g)[w] && e.id == v;
    AddedEntry(s, g, w, e);
  }

  /** The pass yields exactly the symmetric closure of the old graph if and only if the cuts drop no neighbour. */
  lemma ClosureIffLossless(s: Setup, g: Graph)
    requires ValidSetup(s) && GraphOk(s.d, g)
    ensures Edges(AddReverseEdges(s, g)) == Closure(Edges(g)) <==> Lossless(s, g)
  {
    ReverseWithinClosure(s, g);
    if Lossless(s, g) {
      forall x | x in Closure(Edges(g)) ensures x in Edges(AddReverseEdges(s, g)) {
        LosslessHas(s, g, x.0, x.1);
      }
    } else if u: nat, v :| u < |g| && HasId(Merged(s, g, u), v) && !HasId(ReversePools(s, g)[u], v) {
      FirstCutMisses(s, g, u, v);
    } else {
      var w: nat, v :| w < |g| && HasId(Incoming(s, ReversePools(s, g))[w], v) && !HasId(AddReverseEdges(s, g)[w], v);
      SecondCutMisses(s, g, w, v);
    }
  }

  lemma LosslessHas(s: Setup, g: Graph, a: nat, b: nat)
    requires ValidSetup(s) && GraphOk(s.d, g) && Lossless(s, g) && (a, b) in Closure(Edges(g))
    ensures (a, b) in Edges(AddReverseEdges(s, g))
  {
    ClosureInRange(s, g, a, b);
    ClosureFlips(Edges(g), a, b);
    hide AddReverseEdges, ReversePools, Closure;
    MergedIsClosure(s, g, b, a);
    IncomingIsReversed(s, g, a, b);
    EdgeIsEntry(AddReverseEdges(s, g), a, b);
  }

  lemma ClosureInRange(s: Setup, g: Graph, a: nat, b: nat)
    requires GraphOk(s.d, g) && (a, b) in Closure(Edges(g))
    ensures a < |g| && b < |g|
  {
    forall u: nat, e | u < |g| && e in g[u] ensures e.id < |g| {
      assert PoolOk(s.d, |g|, u, g[u]);
    }
  }

  lemma ClosureFlips(edges: set<Edge>, a: nat, b: nat)
    requires (a, b) in Closure(edges)
    ensures (b, a) in Closure(edges)
  {
    if (a, b) in edges { assert (b, a) in Flip(edges); }
  }

  lemma FirstCutMisses(s: Setup, g: Graph, u: nat, v: nat)
    requires ValidSetup(s) && GraphOk(s.d, g) && u < |g| && HasId(Merged(s, g, u), v)
              && !HasId(ReversePools(s, g)[u], v)
    ensures (v, u) in Closure(Edges(g)) && (v, u) !in Edges(AddReverseEdges(s, g))
  {
    MergedIsClosure(s, g, u, v);
    ClosureInRange(s, g, u, v);
    ClosureFlips(Edges(g), u, v);
    hide Closure, Merged, ReversePools, AddReverseEdges;
    EdgeIsEntry(AddReverseEdges(s, g), v, u);
    if HasId(AddReverseEdges(s, g)[v], u) {
      AddedWasReversed(s, g, v, u);
    }
  }

  lemma SecondCutMisses(s: Setup, g: Graph, w: nat, v: nat)
    requires ValidSetup(s) && GraphOk(s.d, g) && w < |g|
    requires HasId(Incoming(s, ReversePools(s, g))[w], v) && !HasId(AddReverseEdges(s, g)[w], v)
    ensures (w, v) in Closure(Edges(g)) && (w, v) !in Edges(AddReverseEdges(s, g))
  {
    IncomingIsReversed(s, g, w, v);
    assert HasId(Merged(s, g, v), w) by {
      var f: Neighbor :| f in ReversePools(s, g)[v] && f.id == w;
      assert f in Merged(s, g, v);
    }
    MergedIsClosure(s, g, v, w);
    ClosureFlips(Edges(g), v, w);
    hide Closure, Merged, ReversePools, AddReverseEdges;
    EdgeIsEntry(AddReverseEdges(s, g), w, v);
  }

  lemma UncutLossless(s: Setup, g: Graph)
    requires ValidSetup(s) && GraphOk(s.d, g) && Uncut(s, g)
    ensures Lossless(s, g)
  {
    var rp := ReversePools(s, g);
    forall u: nat | u < |g| ensures rp[u] == Merged(s, g, u) {
      assert |Merged(s, g, u)| <= s.cap;
    }
    forall w: nat, v | w < |g| && HasId(Incoming(s, rp)[w], v) ensures HasId(AddReverseEdges(s, g)[w], v) {
      UncutSecond(s, g, w, v);
    }
  }

  lemma UncutSecond(s: Setup, g: Graph, w: nat, v: nat)
    requires ValidSetup(s) && GraphOk(s.d, g) && w < |g| && |Incoming(s, ReversePools(s, g))[w]| <= s.cap
    requires HasId(Incoming(s, ReversePools(s, g))[w], v)
    ensures HasId(AddReverseEdges(s, g)[w], v)
  {
    var p := Incoming(s, ReversePools(s, g))[w];
    SortKeeps(s, p);
    assert AddReverseEdges(s, g)[w] == s.sort(p);
    hide AddReverseEdges, ReversePools;
  }

  // ----- without ties nothing is cut

  lemma DistinctFits(p: Pool, n: nat, u: nat)
    requires u < n && DistinctIds(p) && forall e :: e in p ==> e.id < n && e.id != u
    ensures |p| <= n - 1
  {
    var ids := Ids(p);
    forall x | x in ids ensures x in Below(n) - {u} {
      var i :| 0 <= i < |ids| && ids[i] == x;
      assert p[i] in p;
    }
    NoDupFits(ids, Below(n) - {u});
  }

  /** Reversing one duplicate-free pool adds at most one entry, named after the owner, to any other. */
  lemma {:induction false} TransposePoolOnce(acc: Graph, u: nat, pool: Pool, w: nat)
    requires (forall e :: e in pool ==> e.id < |acc|) && w < |acc| && DistinctIds(pool)
    ensures var r := TransposePool(acc, u, pool)[w];
            if HasId(pool, w) then |r| == |acc[w]| + 1 && acc[w] <= r && r[|acc[w]|].id == u else r == acc[w]
  {
    if pool != [] {
      var k := |pool| - 1;
      assert pool == pool[..k] + [pool[k]];
      assert pool[k] in pool;
      TransposePoolOnce(acc, u, pool[..k], w);
      assert HasId(pool, w) <==> HasId(pool[..k], w) || pool[k].id == w;
    }
  }

  lemma {:induction false} TransposeDistinct(g: Graph, k: nat, w: nat)
    requires IdsInRange(|g|, g) && k <= |g| && w < |g|
    requires forall u :: 0 <= u < |g| ==> DistinctIds(g[u])
    ensures var r := Transpose(Empty(|g|), g, k)[w];
            DistinctIds(r) && forall i :: 0 <= i < |r| ==> r[i].id < k
    decreases k
  {
    if k != 0 {
      TransposeDistinct(g, k - 1, w);
      TransposePoolOnce(Transpose(Empty(|g|), g, k - 1), k - 1, g[k - 1], w);
    }
  }

  /** No node has two equally far neighbours in the symmetric closure. */
  ghost predicate TieFreePass(s: Setup, g: Graph) {
    forall u: nat, a: nat, b: nat :: (u, a) in Closure(Edges(g)) && (u, b) in Closure(Edges(g)) && a != b
                                     ==> s.d(u, a) != s.d(u, b)
  }

  lemma NoTiesPass(s: Setup, g: Graph)
    requires GraphOk(s.d, g) && NoTies(s.d, |g|)
    ensures TieFreePass(s, g)
  {
    forall u: nat, a: nat, b: nat | (u, a) in Closure(Edges(g)) && (u, b) in Closure(Edges(g)) && a != b
      ensures s.d(u, a) != s.d(u, b)
    {
      ClosureInRange(s, g, u, a);
      ClosureInRange(s, g, u, b);
      NoLoops(s, g, u, a);
      NoLoops(s, g, u, b);
    }
  }

  lemma NoLoops(s: Setup, g: Graph, u: nat, v: nat)
    requires GraphOk(s.d, g) && (u, v) in Closure(Edges(g))
    ensures u != v
  {
    forall w: nat, e | w < |g| && e in g[w] ensures e.id != w {
      assert PoolOk(s.d, |g|, w, g[w]);
    }
  }

  /** In such a pass a cap of at least n - 1 never cuts a pool. */
  lemma TieFreeUncut(s: Setup, g: Graph)
    requires ValidSetup(s) && GraphOk(s.d, g) && TieFreePass(s, g) && |g| <= s.cap + 1
    ensures Uncut(s, g)
  {
    var rp := ReversePools(s, g);
    forall u: nat | u < |g| ensures DistinctIds(rp[u]) && |Merged(s, g, u)| <= s.cap {
      MergedDistinct(s, g, u);
    }
    hide ReversePools, TieFreePass;
    forall w: nat | w < |g| ensures |Incoming(s, rp)[w]| <= s.cap {
      TransposeDistinct(rp, |g|, w);
      forall e | e in Incoming(s, rp)[w] ensures e.id < |g| && e.id != w {
        TransposeAt(Empty(|g|), rp, |g|, w, e);
        assert PoolOk(s.d, |g|, e.id, rp[e.id]);
      }
      DistinctFits(Incoming(s, rp)[w], |g|, w);
    }
  }

  lemma RawPool(s: Setup, g: Graph, u: nat)
    requires ValidSetup(s) && GraphOk(s.d, g) && u < |g|
    ensures var p := Incoming(s, g)[u] + Marked(g[u]);
            PoolOk(s.d, |g|, u, p) && forall e :: e in p ==> (u, e.id) in Closure(Edges(g))
  {
    var p := Incoming(s, g)[u] + Marked(g[u]);
    CandidatesFacts(s, p);
    forall e | e in p ensures EntryOk(s.d, |g|, u, e) && (u, e.id) in Closure(Edges(g)) {
      if e in Incoming(s, g)[u] {
        TransposeAt(Empty(|g|), g, |g|, u, e);
        assert PoolOk(s.d, |g|, e.id, g[e.id]);
      } else {
        var i :| 0 <= i < |g[u]| && Marked(g[u])[i] == e;
        assert g[u][i] in g[u] && PoolOk(s.d, |g|, u, g[u]);
      }
      assert HasId(Merged(s, g, u), e.id);
      MergedIsClosure(s, g, u, e.id);
    }
  }

  lemma MergedDistinct(s: Setup, g: Graph, u: nat)
    requires ValidSetup(s) && GraphOk(s.d, g) && TieFreePass(s, g) && u < |g|
    ensures DistinctIds(Merged(s, g, u)) && DistinctIds(ReversePools(s, g)[u]) && |Merged(s, g, u)| <= |g| - 1
  {
    var p := Incoming(s, g)[u] + Marked(g[u]);
    RawPool(s, g, u);
    SortKeeps(s, p);
    hide Closure;
    assert forall e :: e in p ==> EntryOk(s.d, |g|, u, e);
    assert TieFree(s.sort(p));
    UniqueIsDistinct(s.d, |g|, u, s.sort(p));
    CandidatesFacts(s, p);
    DistinctFits(Candidates(s, p), |g|, u);
  }

  /** Without ties the condition is on the two size tests alone: a cut that is made drops a neighbour. */
  lemma TieFreeLosslessIffUncut(s: Setup, g: Graph)
    requires ValidSetup(s) && GraphOk(s.d, g) && TieFreePass(s, g)
    ensures Lossless(s, g) <==> Uncut(s, g)
  {
    if Uncut(s, g) {
      UncutLossless(s, g);
    } else {
      var rp := ReversePools(s, g);
      forall u: nat | u < |g| ensures DistinctIds(Merged(s, g, u)) && DistinctIds(rp[u]) {
        MergedDistinct(s, g, u);
      }
      hide TieFreePass;
      if u: nat :| u < |g| && |Merged(s, g, u)| > s.cap {
        CutDrops(Merged(s, g, u), s.cap);
      } else {
        var w: nat :| w < |g| && |Incoming(s, rp)[w]| > s.cap;
        SecondCutDrops(s, g, w);
      }
    }
  }

  /** Cutting a pool of distinct ids drops the id at the cap. */
  lemma CutDrops(p: Pool, cap: nat)
    requires DistinctIds(p) && |p| > cap
    ensures HasId(p, p[cap].id) && !HasId(Capped(p, cap), p[cap].id)
  {
    assert p[cap] in p;
    forall e | e in Capped(p, cap) ensures e.id != p[cap].id {
      var i :| 0 <= i < cap && p[i] == e;
    }
  }

  lemma SecondCutDrops(s: Setup, g: Graph, w: nat)
    requires ValidSetup(s) && GraphOk(s.d, g) && w < |g| && |Incoming(s, ReversePools(s, g))[w]| > s.cap
    requires forall u :: 0 <= u < |g| ==> DistinctIds(ReversePools(s, g)[u])
    ensures !Lossless(s, g)
  {
    var rp := ReversePools(s, g);
    var p := Incoming(s, rp)[w];
    TransposeDistinct(rp, |g|, w);
    SortKeeps(s, p);
    SortDistinct(s, p);
    CutDrops(s.sort(p), s.cap);
    var v := s.sort(p)[s.cap].id;
    assert s.sort(p)[s.cap] in p;
    assert HasId(Incoming(s, rp)[w], v);
    assert AddReverseEdges(s, g)[w] == Capped(s.sort(p), s.cap);
  }

  lemma SortDistinct(s: Setup, p: Pool)
    requires Sorts(s.sort) && DistinctIds(p)
    ensures DistinctIds(s.sort(p))
  {
    var q := s.sort(p);
    SortKeeps(s, p);
    assert multiset(q) == multiset(p);
    DistinctNoDup(p);
    forall e ensures multiset(p)[e] <= 1 {
      NoDupOnce(p, e);
    }
    OnceNoDup(q);
    forall i, j | 0 <= i < j < |q| ensures q[i].id != q[j].id {
      assert q[i] in p && q[j] in p && q[i] != q[j];
    }
  }

  lemma DistinctNoDup(p: Pool)
    requires DistinctIds(p)
    ensures NoDup(p)
  {
  }
}
