/**
 Why reachability of a build needs its condition: with a cap of one, a node with two neighbours that do not prune each
 other loses the farther one when reverse edges are added, whatever the number of update passes.
 */
module MirageCut {
  import opened Reachability
  import opened MirageGraph
  import opened MirageReach
  import opened MirageBuild

  /** Node 0 points to 1 and 2, and 2 is no nearer to 1 than to 0. */
  ghost predicate Fork(s: Setup, g: Graph) {
    && ValidSetup(s) && s.cap == 1 && |g| == 3 && GraphOk(s.d, g)
    && Edges(g) == {(0, 1), (0, 2)} && s.d(0, 1) < s.d(0, 2) <= s.d(1, 2)
  }

  /** The pool of `u` prunes nothing away. */
  lemma NothingHandedKeepsEdges(s: Setup, g: Graph, u: nat, useFlags: bool)
    requires ValidSetup(s) && GraphOk(s.d, g) && u < |g| && Prune(s.d, Candidates(s, g[u]), useFlags).handed == []
    ensures Edges(UpdateNode(s, g, u, useFlags)) == Edges(g)
  {
    var c := Candidates(s, g[u]);
    var kept := Prune(s.d, c, useFlags).kept;
    var r := UpdateNode(s, g, u, useFlags);
    CandidatesFacts(s, g[u]);
    assert r == g[u := Cleared(kept)];
    forall v ensures HasId(r[u], v) <==> HasId(g[u], v) {
      if HasId(r[u], v) {
        var i :| 0 <= i < |kept| && Cleared(kept)[i].id == v;
        assert kept[i] in g[u];
      }
      if HasId(g[u], v) {
        var e: Neighbor :| e in c && e.id == v;
        KeptOrHanded(s.d, c, useFlags, e);
        var f: Neighbor :| f in kept && f.id == v;
        ClearedHas(kept, f);
      }
    }
    hide UpdateNode, GraphOk, ValidSetup;
    forall a: nat, b: nat ensures (a, b) in Edges(r) <==> (a, b) in Edges(g) {
      EdgeIsEntry(r, a, b);
      EdgeIsEntry(g, a, b);
    }
    SameEdges(r, g);
  }

  lemma SameEdges(a: Graph, b: Graph)
    requires forall u: nat, v: nat :: (u, v) in Edges(a) <==> (u, v) in Edges(b)
    ensures Edges(a) == Edges(b)
  {
    forall x: Edge ensures x in Edges(a) <==> x in Edges(b) {
      assert x == (x.0, x.1);
    }
  }

  lemma ForkUpdate(s: Setup, g: Graph, u: nat, useFlags: bool)
    requires Fork(s, g) && u < 3
    ensures Fork(s, UpdateNode(s, g, u, useFlags))
  {
    var c := Candidates(s, g[u]);
    CandidatesFacts(s, g[u]);
    var pr := Prune(s.d, c, useFlags);
    forall nn: Neighbor, w: Neighbor | nn in c && w in c && nn.id != w.id ensures s.d(nn.id, w.id) >= nn.distance {
      ForkEntry(s, g, u, nn);
      ForkEntry(s, g, u, w);
    }
    assert forall h :: h in pr.handed ==> !Handed(s.d, c, pr.kept, h);
    EmptyOrHas(pr.handed);
    NothingHandedKeepsEdges(s, g, u, useFlags);
  }

  lemma EmptyOrHas<T>(a: seq<T>)
    ensures a == [] || exists x :: x in a
  {
    if a != [] { assert a[0] in a; }
  }

  /** Every edge of the symmetric closure of a fork has node 0 at one end. */
  lemma ForkClosure(s: Setup, g: Graph, u: nat, v: nat)
    requires Fork(s, g) && (u, v) in Closure(Edges(g))
    ensures u == 0 || v == 0
  {
  }

  lemma ForkEntry(s: Setup, g: Graph, u: nat, e: Neighbor)
    requires Fork(s, g) && u < 3 && e in g[u]
    ensures u == 0 && (e.id == 1 || e.id == 2) && e.distance == s.d(0, e.id)
  {
    EdgeAt(g, u, e);
    assert PoolOk(s.d, |g|, u, g[u]);
  }

  lemma {:induction false} ForkPass(s: Setup, g: Graph, k: nat)
    requires Fork(s, g) && k <= 3
    ensures Fork(s, UpdatePass(s, g, k, true))
  {
    hide UpdateNode;
    if k != 0 {
      ForkPass(s, g, k - 1);
      hide Fork;
      ForkUpdate(s, UpdatePass(s, g, k - 1, true), k - 1, true);
    }
  }

  lemma {:induction false} ForkUpdates(s: Setup, g: Graph, times: nat)
    requires Fork(s, g)
    ensures Fork(s, Updates(s, g, times, true))
  {
    hide UpdatePass;
    if times != 0 {
      ForkUpdates(s, g, times - 1);
      ForkPass(s, Updates(s, g, times - 1, true), 3);
    }
  }

  ghost predicate NoneInto(g: Graph, v: nat) {
    forall u: nat, e: Neighbor :: u < |g| && e in g[u] ==> e.id != v
  }

  /** The one place left for the edge into 2 is the pool of 0, which is cut after the nearer neighbour. */
  lemma ForkLoses(s: Setup, g: Graph)
    requires Fork(s, g)
    ensures NoneInto(AddReverseEdges(s, g), 2)
  {
    var r := AddReverseEdges(s, g);
    ReverseWithinClosure(s, g);
    hide AddReverseEdges, Fork, Closure;
    forall w: nat, e: Neighbor | w < |r| && e in r[w] ensures e.id != 2 {
      EdgeAt(r, w, e);
      ForkClosure(s, g, w, e.id);
      if w == 0 {
        IntoTwoIsFar(s, g, e);
      }
    }
  }

  /** Both neighbours of 0 come back to its pool, the nearer one first. */
  lemma IntoTwoIsFar(s: Setup, g: Graph, e: Neighbor)
    requires Fork(s, g) && e in AddReverseEdges(s, g)[0]
    ensures e.id != 2
  {
    var t := Incoming(s, ReversePools(s, g))[0];
    var p := s.sort(t);
    SortKeeps(s, t);
    OneComesBack(s, g);
    var f: Neighbor :| f in t && f.id == 1;
    AddedEntry(s, g, 0, e);
    assert PoolOk(s.d, 3, 1, ReversePools(s, g)[1]);
    TransposeAt(Empty(3), ReversePools(s, g), 3, 0, f);
    assert f.distance == s.d(0, 1);
    var i :| 0 <= i < |p| && p[i] == f;
    assert e == p[0];
    assert p[0].distance <= p[i].distance;
  }

  lemma FirstSurvives(m: Pool)
    requires m != []
    ensures exists x :: x in Capped(m, 1) && x in m
  {
    assert Capped(m, 1)[0] == m[0];
    assert m[0] in Capped(m, 1) && m[0] in m;
  }

  lemma OneComesBack(s: Setup, g: Graph)
    requires Fork(s, g)
    ensures HasId(Incoming(s, ReversePools(s, g))[0], 1)
  {
    EdgeIsEntry(g, 0, 1);
    var f: Neighbor :| f in g[0] && f.id == 1;
    EdgeMerges(s, g, 0, f);
    var m := Merged(s, g, 1);
    assert ReversePools(s, g)[1] == Capped(m, 1);
    FirstSurvives(m);
    var x: Neighbor :| x in Capped(m, 1) && x in m;
    hide Fork, Closure, Merged, ReversePools;
    MergedIsClosure(s, g, 1, x.id);
    ForkClosure(s, g, 1, x.id);
    IncomingIsReversed(s, g, 0, 1);
  }

  /** An update pass never makes a node a neighbour that was nobody's. */
  lemma NoneIntoUpdate(s: Setup, g: Graph, u: nat, v: nat)
    requires ValidSetup(s) && GraphOk(s.d, g) && u < |g| && NoneInto(g, v)
    ensures NoneInto(UpdateNode(s, g, u, true), v)
  {
    var c := Candidates(s, g[u]);
    var pr := Prune(s.d, c, true);
    CandidatesFacts(s, g[u]);
    UpdateNodeOk(s, g, u, true);
    var r := UpdateNode(s, g, u, true);
    forall a: nat, e: Neighbor | a < |r| && e in r[a] ensures e.id != v {
      if a == u {
        var i :| 0 <= i < |pr.kept| && Cleared(pr.kept)[i] == e;
        assert pr.kept[i] in g[u];
      } else {
        DeliverAt(g[u := []], pr.handed, a, e);
        assert Handover(a, e.id, e.distance) in pr.handed ==> Handed(s.d, c, pr.kept, Handover(a, e.id, e.distance));
      }
    }
  }

  lemma {:induction false} NoneIntoPass(s: Setup, g: Graph, k: nat, v: nat)
    requires ValidSetup(s) && GraphOk(s.d, g) && k <= |g| && NoneInto(g, v)
    ensures NoneInto(UpdatePass(s, g, k, true), v)
  {
    hide UpdateNode, NoneInto;
    if k != 0 {
      NoneIntoPass(s, g, k - 1, v);
      NoneIntoUpdate(s, UpdatePass(s, g, k - 1, true), k - 1, v);
    }
  }

  lemma {:induction false} NoneIntoUpdates(s: Setup, g: Graph, times: nat, v: nat)
    requires ValidSetup(s) && GraphOk(s.d, g) && NoneInto(g, v)
    ensures NoneInto(Updates(s, g, times, true), v)
  {
    hide UpdatePass, NoneInto;
    if times != 0 {
      NoneIntoUpdates(s, g, times - 1, v);
      NoneIntoPass(s, Updates(s, g, times - 1, true), |g|, v);
    }
  }

  lemma NoneIntoUnreachable(g: Graph, u: nat, v: nat)
    requires NoneInto(g, v) && u != v
    ensures !Reach(Edges(g), u, v)
  {
    forall p ensures !Walks(Edges(g), u, p, v) {
      NoWalkInto(g, u, p, v);
    }
  }

  lemma {:induction false} NoWalkInto(g: Graph, u: nat, p: seq<nat>, v: nat)
    requires NoneInto(g, v) && u != v
    ensures !Walks(Edges(g), u, p, v)
    decreases |p|
  {
    if p != [] {
      assert p[0] == v ==> (u, p[0]) !in Edges(g);
      if p[0] != v {
        NoWalkInto(g, p[0], p[1..], v);
      }
    }
  }

  /** Two rounds of a build from a fork: 0 reached 2 at the start and does not in the final lists. */
  lemma CutLosesReach(s: Setup, g: Graph, iters: nat)
    requires Fork(s, g)
    ensures Reach(Edges(g), 0, 2) && !Reach(ListEdges(Layer0(s, Rounds(s, g, 2, 2, iters, true))), 0, 2)
  {
    ReachEdge(Edges(g), 0, 2);
    var p := Updates(s, g, iters, true);
    ForkUpdates(s, g, iters);
    ForkLoses(s, p);
    var q := AddReverseEdges(s, p);
    assert Rounds(s, g, 0, 2, iters, true) == g;
    assert Rounds(s, g, 1, 2, iters, true) == q;
    hide Updates, AddReverseEdges, NoneInto;
    var final := Updates(s, q, iters, true);
    assert Rounds(s, g, 2, 2, iters, true) == final;
    NoneIntoUpdates(s, q, iters, 2);
    NoneIntoUnreachable(final, 0, 2);
    Layer0Lists(s, final);
  }

  // ----- there are such setups

  function Insert(p: Pool, e: Neighbor): Pool {
    if p == [] || e.distance <= p[0].distance then [e] + p else [p[0]] + Insert(p[1..], e)
  }

  function InsertionSort(p: Pool): Pool {
    if p == [] then [] else Insert(InsertionSort(p[1..]), p[0])
  }

  lemma {:induction false} InsertKeeps(p: Pool, e: Neighbor)
    ensures multiset(Insert(p, e)) == multiset(p) + multiset{e}
  {
    if p != [] {
      InsertKeeps(p[1..], e);
      assert p == [p[0]] + p[1..];
    }
  }

  lemma {:induction false} InsertSorts(p: Pool, e: Neighbor)
    requires SortedByDistance(p)
    ensures SortedByDistance(Insert(p, e)) && Insert(p, e) != []
    ensures Insert(p, e)[0] == e || (p != [] && Insert(p, e)[0] == p[0])
  {
    if p != [] && e.distance > p[0].distance {
      InsertSorts(p[1..], e);
      var r := Insert(p[1..], e);
      assert forall j :: 0 <= j < |r| ==> r[0].distance <= r[j].distance;
      assert p[0].distance <= r[0].distance;
    }
  }

  lemma {:induction false} InsertionSorts(p: Pool)
    ensures SortedByDistance(InsertionSort(p))
  {
    if p != [] {
      hide SortedByDistance, Insert;
      InsertionSorts(p[1..]);
      InsertSorts(InsertionSort(p[1..]), p[0]);
    }
  }

  lemma {:induction false} InsertionKeeps(p: Pool)
    ensures multiset(InsertionSort(p)) == multiset(p)
  {
    if p != [] {
      var rest := InsertionSort(p[1..]);
      assert InsertionSort(p) == Insert(rest, p[0]);
      hide Insert, InsertionSort;
      InsertionKeeps(p[1..]);
      InsertKeeps(rest, p[0]);
      HeadAndTail(p);
    }
  }

  lemma HeadAndTail(p: Pool)
    requires p != []
    ensures multiset(p) == multiset(p[1..]) + multiset{p[0]}
  {
    assert p == [p[0]] + p[1..];
  }

  lemma InsertionIsSort()
    ensures Sorts(InsertionSort)
  {
    forall p: Pool ensures SortedByDistance(InsertionSort(p)) && multiset(InsertionSort(p)) == multiset(p) {
      InsertionSorts(p);
      InsertionKeeps(p);
    }
  }

  /** The fork is an input: points on a line at 0, 1 and -2, by squared distance. */
  lemma ForkExists() returns (s: Setup, g: Graph)
    ensures Fork(s, g)
  {
    var d := (a: nat, b: nat) => if a == b then 0.0 else if a + b == 1 then 1.0 else if a + b == 2 then 4.0 else 9.0;
    s := Setup(d, InsertionSort, p => p, 1);
    InsertionIsSort();
    hide Sorts, InsertionSort;
    var pool := [Neighbor(1, 1.0, true), Neighbor(2, 4.0, true)];
    g := [pool, [], []];
    assert Edges(g) == {(0, 1), (0, 2)} by {
      EdgeAt(g, 0, pool[0]);
      EdgeAt(g, 0, pool[1]);
    }
  }
}
