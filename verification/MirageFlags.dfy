/**
 The old/old shortcut of the update pass is sound over a whole build.
 A neighbour's flag says "not yet compared inside this pool"; two entries that both lost the flag are
 skipped. The build with the shortcut equals, state by state, the build that compares every pair.
 */
module MirageFlags {
  import opened MirageGraph

  /** Any two old entries with different ids are at least as far apart as each is from the owner. */
  ghost predicate Settled(d: Distance, p: Pool) {
    forall a, b :: a in p && b in p && !a.flag && !b.flag && a.id != b.id
                   ==> d(a.id, b.id) >= a.distance && d(a.id, b.id) >= b.distance
  }

  ghost predicate AllSettled(d: Distance, g: Graph) {
    forall u :: 0 <= u < |g| ==> Settled(d, g[u])
  }

  lemma FirstBeatingSame(d: Distance, kept: Pool, nn: Neighbor, i: nat)
    requires i <= |kept|
    requires forall j :: 0 <= j < |kept| && !kept[j].flag && !nn.flag ==> d(nn.id, kept[j].id) >= nn.distance
    ensures FirstBeating(d, kept, nn, true, i) == FirstBeating(d, kept, nn, false, i)
  {}

  lemma StepSame(d: Distance, pool: Pool, acc: Pruned, nn: Neighbor)
    requires Settled(d, pool) && nn in pool && forall e :: e in acc.kept ==> e in pool
    ensures PruneStep(d, acc, nn, true) == PruneStep(d, acc, nn, false)
  {
    if !HasId(acc.kept, nn.id) {
      forall j | 0 <= j < |acc.kept| && !acc.kept[j].flag && !nn.flag
        ensures d(nn.id, acc.kept[j].id) >= nn.distance
      {
        assert acc.kept[j] in pool;
      }
      FirstBeatingSame(d, acc.kept, nn, 0);
    }
  }

  /** On a settled pool the shortcut changes neither the survivors nor the handed-over edges. */
  lemma {:induction false} ShortcutExact(d: Distance, pool: Pool)
    requires Settled(d, pool)
    ensures Prune(d, pool, true) == Prune(d, pool, false)
  {
    hide PruneStep, Handed;
    if pool != [] {
      var k := |pool| - 1;
      ShortcutExact(d, pool[..k]);
      StepSame(d, pool, Prune(d, pool[..k], false), pool[k]);
    }
  }

  /** Each entry is at least as far from every earlier one as from the owner. */
  ghost predicate Diverse(d: Distance, kept: Pool) {
    forall i, j :: 0 <= i < j < |kept| ==> d(kept[j].id, kept[i].id) >= kept[j].distance
  }

  lemma StepDiverse(d: Distance, acc: Pruned, nn: Neighbor)
    requires SortedByDistance(acc.kept) && DistinctIds(acc.kept) && Diverse(d, acc.kept)
    requires forall e :: e in acc.kept ==> e.distance <= nn.distance
    ensures var kept := PruneStep(d, acc, nn, false).kept;
            SortedByDistance(kept) && DistinctIds(kept) && Diverse(d, kept)
  {
    var kept := PruneStep(d, acc, nn, false).kept;
    if kept != acc.kept {
      assert kept == acc.kept + [nn];
      assert forall i :: 0 <= i < |acc.kept| ==> acc.kept[i] in acc.kept && !Beats(d, acc.kept[i], nn, false);
      hide PruneStep;
    }
  }

  /** Survivors of a full comparison: nearest first, no id twice, pairwise diverse. */
  lemma {:induction false} SurvivorsDiverse(d: Distance, pool: Pool)
    requires SortedByDistance(pool)
    ensures var kept := Prune(d, pool, false).kept;
            SortedByDistance(kept) && DistinctIds(kept) && Diverse(d, kept)
  {
    hide PruneStep, Handed;
    if pool != [] {
      hide DistinctIds, Diverse;
      var k := |pool| - 1;
      SurvivorsDiverse(d, pool[..k]);
      StepDiverse(d, Prune(d, pool[..k], false), pool[k]);
    }
  }

  lemma DiversePair(d: Distance, kept: Pool, i: nat, j: nat)
    requires Symmetric(d) && SortedByDistance(kept) && Diverse(d, kept)
    requires i < |kept| && j < |kept| && i != j
    ensures d(kept[i].id, kept[j].id) >= kept[i].distance && d(kept[i].id, kept[j].id) >= kept[j].distance
  {
    assert d(kept[i].id, kept[j].id) == d(kept[j].id, kept[i].id);
    assert i < j ==> kept[i].distance <= kept[j].distance;
    assert j < i ==> kept[j].distance <= kept[i].distance;
  }

  lemma ClearedSettles(d: Distance, kept: Pool, a: Neighbor, b: Neighbor)
    requires Symmetric(d) && SortedByDistance(kept) && Diverse(d, kept)
    requires a in Cleared(kept) && b in Cleared(kept) && a.id != b.id
    ensures d(a.id, b.id) >= a.distance && d(a.id, b.id) >= b.distance
  {
    var c := Cleared(kept);
    var i :| 0 <= i < |c| && c[i] == a;
    var j :| 0 <= j < |c| && c[j] == b;
    DiversePair(d, kept, i, j);
  }

  lemma SurvivorsSettle(d: Distance, pool: Pool)
    requires Symmetric(d) && SortedByDistance(pool)
    ensures Settled(d, Cleared(Prune(d, pool, false).kept))
  {
    SurvivorsDiverse(d, pool);
    hide Prune, Symmetric, SortedByDistance, Diverse, DistinctIds;
    var kept := Prune(d, pool, false).kept;
    forall a, b | a in Cleared(kept) && b in Cleared(kept) && a.id != b.id
      ensures d(a.id, b.id) >= a.distance && d(a.id, b.id) >= b.distance
    {
      ClearedSettles(d, kept, a, b);
    }
  }

  /** One node's update: same result with and without the shortcut, and every pool stays settled. */
  lemma UpdateNodeSettles(s: Setup, g: Graph, u: nat)
    requires ValidSetup(s) && GraphOk(s.d, g) && u < |g| && AllSettled(s.d, g)
    ensures UpdateNode(s, g, u, true) == UpdateNode(s, g, u, false)
    ensures AllSettled(s.d, UpdateNode(s, g, u, true))
  {
    var pool := Candidates(s, g[u]);
    CandidatesFacts(s, g[u]);
    assert Settled(s.d, g[u]);
    assert Settled(s.d, pool);
    ShortcutExact(s.d, pool);
    SurvivorsSettle(s.d, pool);
    UpdateNodeOk(s, g, u, true);
    var pr := Prune(s.d, pool, true);
    var r := UpdateNode(s, g, u, true);
    forall v | 0 <= v < |g| ensures Settled(s.d, r[v]) {
      if v != u {
        forall e: Neighbor | e in r[v] && !e.flag ensures e in g[v] {
          DeliverAt(g[u := []], pr.handed, v, e);
        }
        assert Settled(s.d, g[v]);
      }
    }
  }

  /** After its update a node has old entries only, and what it handed over is new where it went. */
  lemma UpdateFlags(s: Setup, g: Graph, u: nat, v: nat, e: Neighbor)
    requires ValidSetup(s) && GraphOk(s.d, g) && u < |g| && v < |g| && e in UpdateNode(s, g, u, true)[v]
    ensures v == u ==> !e.flag && HasId(g[u], e.id)
    ensures v != u ==> e in g[v] || (e.flag && HasId(g[u], e.id))
  {
    var c := Candidates(s, g[u]);
    var pr := Prune(s.d, c, true);
    CandidatesFacts(s, g[u]);
    UpdateNodeOk(s, g, u, true);
    if v == u {
      var i :| 0 <= i < |pr.kept| && Cleared(pr.kept)[i] == e;
      assert pr.kept[i] in g[u];
    } else {
      DeliverAt(g[u := []], pr.handed, v, e);
    }
  }

  lemma {:induction false} UpdatePassSettles(s: Setup, g: Graph, k: nat)
    requires ValidSetup(s) && GraphOk(s.d, g) && k <= |g| && AllSettled(s.d, g)
    ensures UpdatePass(s, g, k, true) == UpdatePass(s, g, k, false)
    ensures AllSettled(s.d, UpdatePass(s, g, k, true))
  {
    hide UpdateNode;
    if k != 0 {
      UpdatePassSettles(s, g, k - 1);
      UpdateNodeSettles(s, UpdatePass(s, g, k - 1, true), k - 1);
    }
  }

  /** Turning edges round twice brings an old entry back to the pool it came from, so old pairs stay compared. */
  lemma ReverseEdgesSettle(s: Setup, g: Graph)
    requires ValidSetup(s) && GraphOk(s.d, g) && AllSettled(s.d, g)
    ensures AllSettled(s.d, AddReverseEdges(s, g))
  {
    var r := AddReverseEdges(s, g);
    forall w | 0 <= w < |g| ensures Settled(s.d, r[w]) {
      forall e: Neighbor | e in r[w] && !e.flag ensures e in g[w] {
        AddedEntry(s, g, w, e);
        ReversePoolEntry(s, g, e.id, Neighbor(w, e.distance, e.flag));
      }
      assert Settled(s.d, g[w]);
    }
  }

  lemma {:induction false} UpdatesSettle(s: Setup, g: Graph, times: nat)
    requires ValidSetup(s) && GraphOk(s.d, g) && AllSettled(s.d, g)
    ensures Updates(s, g, times, true) == Updates(s, g, times, false)
    ensures AllSettled(s.d, Updates(s, g, times, true))
  {
    hide UpdatePass;
    if times != 0 {
      UpdatesSettle(s, g, times - 1);
      UpdatePassSettles(s, Updates(s, g, times - 1, true), |g|);
    }
  }

  /** Over any number of rounds the shortcut never changes the graph. */
  lemma {:induction false} ShortcutSoundOverBuild(s: Setup, g: Graph, k: nat, rounds: nat, iters: nat)
    requires ValidSetup(s) && GraphOk(s.d, g) && k <= rounds && AllSettled(s.d, g)
    ensures Rounds(s, g, k, rounds, iters, true) == Rounds(s, g, k, rounds, iters, false)
    ensures AllSettled(s.d, Rounds(s, g, k, rounds, iters, true))
    decreases k
  {
    hide Updates, AddReverseEdges;
    if k != 0 {
      ShortcutSoundOverBuild(s, g, k - 1, rounds, iters);
      var p := Rounds(s, g, k - 1, rounds, iters, true);
      UpdatesSettle(s, p, iters);
      if k != rounds {
        ReverseEdgesSettle(s, Updates(s, p, iters, true));
      }
    }
  }
}
