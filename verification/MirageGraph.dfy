/**
 Neighbour pools of the MIRAGE layer-0 builder and the three passes over them, as functions:
 pruning one pool, one whole update pass, and the reverse-edge pass.
 The class in MirageBuilder.dfy is proved against these functions.
 */
module MirageGraph {
  import opened Reachability

  datatype Neighbor = Neighbor(id: nat, distance: real, flag: bool)

  type Pool = seq<Neighbor>
  type Graph = seq<Pool>
  type Distance = (nat, nat) -> real
  type Reorder = Pool -> Pool

  /** What the builder is given: a distance, the library's sort and heap routines, and the pool cap. */
  datatype Setup = Setup(d: Distance, sort: Reorder, heap: Reorder, cap: nat)

  ghost predicate Symmetric(d: Distance) {
    forall a: nat, b: nat :: d(a, b) == d(b, a)
  }

  ghost predicate SortedByDistance(p: Pool) {
    forall i, j :: 0 <= i < j < |p| ==> p[i].distance <= p[j].distance
  }

  ghost predicate Permutes(f: Reorder) {
    forall p: Pool :: multiset(f(p)) == multiset(p)
  }

  /** Any comparison sort will do: nothing is assumed about the order of entries that tie. */
  ghost predicate Sorts(f: Reorder) {
    Permutes(f) && forall p: Pool :: SortedByDistance(f(p))
  }

  ghost predicate ValidSetup(s: Setup) {
    Symmetric(s.d) && Sorts(s.sort) && Permutes(s.heap)
  }

  /** Two different neighbours of one node are never equally far from it. */
  ghost predicate NoTies(d: Distance, n: nat) {
    forall u: nat, a: nat, b: nat | u < n && a < n && b < n && a != b && a != u && b != u :: d(u, a) != d(u, b)
  }

  lemma SortKeeps(s: Setup, p: Pool)
    requires Sorts(s.sort)
    ensures SortedByDistance(s.sort(p)) && |s.sort(p)| == |p|
    ensures forall e :: e in s.sort(p) <==> e in p
  {
    var q := s.sort(p);
    assert multiset(q) == multiset(p);
    assert |multiset(q)| == |q| && |multiset(p)| == |p|;
    assert forall e :: e in q <==> e in multiset(q);
    assert forall e :: e in p <==> e in multiset(p);
  }

  // ----- well-formed pools

  ghost predicate EntryOk(d: Distance, n: nat, u: nat, e: Neighbor) {
    e.id < n && e.id != u && e.distance == d(u, e.id)
  }

  ghost predicate PoolOk(d: Distance, n: nat, u: nat, p: Pool) {
    forall e :: e in p ==> EntryOk(d, n, u, e)
  }

  /** Every entry names another node in range and carries its true distance from the owner. */
  ghost predicate GraphOk(d: Distance, g: Graph) {
    forall u :: 0 <= u < |g| ==> PoolOk(d, |g|, u, g[u])
  }

  ghost predicate DistinctIds(p: Pool) {
    forall i, j :: 0 <= i < j < |p| ==> p[i].id != p[j].id
  }

  predicate HasId(p: Pool, id: nat) {
    exists e :: e in p && e.id == id
  }

  ghost function Edges(g: Graph): set<Edge> {
    set u, e | 0 <= u < |g| && e in g[u] :: (u as nat, e.id)
  }

  // ----- std::unique on ids: the first entry of each run of equal ids survives

  function Unique(p: Pool): (r: Pool)
    ensures forall e :: e in r ==> e in p
    ensures |r| <= |p| && (p != [] ==> r != [] && r[|r| - 1].id == p[|p| - 1].id)
    ensures forall i :: 0 <= i < |r| - 1 ==> r[i].id != r[i + 1].id
  {
    if p == [] then []
    else
      var k := |p| - 1;
      var r := Unique(p[..k]);
      if k > 0 && p[k].id == p[k - 1].id then r else r + [p[k]]
  }

  lemma {:induction false} UniqueKeepsIds(p: Pool, e: Neighbor)
    requires e in p
    ensures HasId(Unique(p), e.id)
  {
    var k := |p| - 1;
    if e in p[..k] {
      UniqueKeepsIds(p[..k], e);
      var f :| f in Unique(p[..k]) && f.id == e.id;
      assert f in Unique(p);
    } else {
      assert e == p[k];
      var r := Unique(p);
      assert r[|r| - 1] in r;
    }
  }

  lemma {:induction false} UniqueKeepsOrder(p: Pool)
    requires SortedByDistance(p)
    ensures SortedByDistance(Unique(p))
  {
    if p != [] {
      var k := |p| - 1;
      UniqueKeepsOrder(p[..k]);
      var r := Unique(p[..k]);
      forall i | 0 <= i < |r| ensures r[i].distance <= p[k].distance {
        assert r[i] in p[..k];
      }
    }
  }

  /** Equal ids stand together. */
  ghost predicate Grouped(p: Pool) {
    forall i, j, k :: 0 <= i < j < k < |p| && p[i].id == p[k].id ==> p[j].id == p[i].id
  }

  lemma GroupedPrefix(p: Pool)
    requires p != []
    ensures var k := |p| - 1;
            Grouped(p) <==> Grouped(p[..k])
                            && forall i :: 0 <= i < k && p[i].id == p[k].id ==> p[k - 1].id == p[k].id
  {
    var k := |p| - 1;
    var q := p[..k];
    assert forall i :: 0 <= i < k ==> q[i] == p[i];
    if Grouped(q) && (forall i :: 0 <= i < k && p[i].id == p[k].id ==> p[k - 1].id == p[k].id) {
      forall i, j, l | 0 <= i < j < l < |p| && p[i].id == p[l].id ensures p[j].id == p[i].id {
        if l == k {
          assert p[k - 1].id == p[k].id;
          assert j < k - 1 ==> q[j].id == q[i].id;
        } else {
          assert q[j].id == q[i].id;
        }
      }
    }
  }

  /** Dropping neighbouring repeats drops all of them exactly when equal ids stand together. */
  lemma {:induction false} UniqueDistinctIff(p: Pool)
    ensures DistinctIds(Unique(p)) <==> Grouped(p)
  {
    if p != [] {
      var k := |p| - 1;
      UniqueDistinctIff(p[..k]);
      GroupedPrefix(p);
      var r := Unique(p[..k]);
      if k > 0 && p[k].id != p[k - 1].id {
        assert Unique(p) == r + [p[k]];
        SnocDistinct(r, p[k]);
        UniqueHasSame(p[..k], p[k].id);
        hide Unique, Grouped, DistinctIds;
        assert HasId(p[..k], p[k].id) <==> exists i :: 0 <= i < k && p[i].id == p[k].id by {
          HasIdAt(p[..k], p[k].id);
        }
      }
    }
  }

  lemma HasIdAt(p: Pool, id: nat)
    ensures HasId(p, id) <==> exists i :: 0 <= i < |p| && p[i].id == id
  {
    if i :| 0 <= i < |p| && p[i].id == id {
      assert p[i] in p;
    }
  }

  lemma SnocDistinct(r: Pool, e: Neighbor)
    ensures DistinctIds(r + [e]) <==> DistinctIds(r) && !HasId(r, e.id)
  {
    var q := r + [e];
    assert forall i :: 0 <= i < |r| ==> q[i] == r[i];
    HasIdAt(r, e.id);
    if DistinctIds(q) {
      assert forall i :: 0 <= i < |r| ==> q[i].id != q[|r|].id;
    }
  }

  lemma UniqueHasSame(p: Pool, id: nat)
    ensures HasId(Unique(p), id) <==> HasId(p, id)
  {
    if HasId(p, id) {
      var e :| e in p && e.id == id;
      UniqueKeepsIds(p, e);
    }
  }

  /** No two different neighbours in the pool are equally far from its owner. */
  ghost predicate TieFree(p: Pool) {
    forall a, b :: a in p && b in p && a.id != b.id ==> a.distance != b.distance
  }

  /** Then equal ids stand together once the pool is sorted. */
  lemma TieFreeGrouped(d: Distance, n: nat, u: nat, p: Pool)
    requires PoolOk(d, n, u, p) && SortedByDistance(p) && TieFree(p)
    ensures Grouped(p)
  {
    forall i, j, k | 0 <= i < j < k < |p| && p[i].id == p[k].id ensures p[j].id == p[i].id {
      assert p[i] in p && p[j] in p && p[k] in p;
      assert EntryOk(d, n, u, p[i]) && EntryOk(d, n, u, p[k]);
      assert p[i].distance <= p[j].distance <= p[k].distance;
    }
  }

  lemma UniqueIsDistinct(d: Distance, n: nat, u: nat, p: Pool)
    requires PoolOk(d, n, u, p) && SortedByDistance(p) && TieFree(p)
    ensures DistinctIds(Unique(p))
  {
    TieFreeGrouped(d, n, u, p);
    UniqueDistinctIff(p);
  }

  lemma NoTiesTieFree(d: Distance, n: nat, u: nat, p: Pool)
    requires NoTies(d, n) && u < n && PoolOk(d, n, u, p)
    ensures TieFree(p)
  {
    forall a, b | a in p && b in p && a.id != b.id ensures a.distance != b.distance {
      assert EntryOk(d, n, u, a) && EntryOk(d, n, u, b);
    }
  }

  // ----- pruning one pool

  datatype Handover = Handover(to: nat, id: nat, distance: real)
  datatype Pruned = Pruned(kept: Pool, handed: seq<Handover>)

  /** The test of one candidate against one kept neighbour; `useFlags` turns on the old/old shortcut. */
  predicate Beats(d: Distance, other: Neighbor, nn: Neighbor, useFlags: bool) {
    !(useFlags && !nn.flag && !other.flag) && d(nn.id, other.id) < nn.distance
  }

  /** Position of the first kept neighbour from `i` on that beats `nn`; `|kept|` when none does. */
  function FirstBeating(d: Distance, kept: Pool, nn: Neighbor, useFlags: bool, i: nat): (k: nat)
    requires i <= |kept|
    ensures i <= k <= |kept|
    ensures forall j :: i <= j < k ==> !Beats(d, kept[j], nn, useFlags)
    ensures k < |kept| ==> Beats(d, kept[k], nn, useFlags)
    decreases |kept| - i
  {
    if i == |kept| || Beats(d, kept[i], nn, useFlags) then i
    else FirstBeating(d, kept, nn, useFlags, i + 1)
  }

  function PruneStep(d: Distance, acc: Pruned, nn: Neighbor, useFlags: bool): Pruned {
    if HasId(acc.kept, nn.id) then acc
    else
      var k := FirstBeating(d, acc.kept, nn, useFlags, 0);
      if k < |acc.kept| then
        var w := acc.kept[k].id;
        acc.(handed := acc.handed + [Handover(w, nn.id, d(nn.id, w))])
      else acc.(kept := acc.kept + [nn])
  }

  function Prune(d: Distance, pool: Pool, useFlags: bool): (r: Pruned)
    ensures forall e :: e in r.kept ==> e in pool
    ensures forall h :: h in r.handed ==> Handed(d, pool, r.kept, h)
  {
    if pool == [] then Pruned([], [])
    else
      var k := |pool| - 1;
      var acc := Prune(d, pool[..k], useFlags);
      var r := PruneStep(d, acc, pool[k], useFlags);
      PruneStepHands(d, pool, acc, r, useFlags);
      r
  }

  /** Where a handed-over edge comes from: a rejected pool entry, given to a kept one that is nearer to it. */
  ghost predicate Handed(d: Distance, pool: Pool, kept: Pool, h: Handover) {
    exists nn, w :: nn in pool && w in kept && h == Handover(w.id, nn.id, d(nn.id, w.id))
                    && nn.id != w.id && d(nn.id, w.id) < nn.distance
  }

  lemma PruneStepHands(d: Distance, pool: Pool, acc: Pruned, r: Pruned, useFlags: bool)
    requires pool != []
    requires r == PruneStep(d, acc, pool[|pool| - 1], useFlags)
    requires forall e :: e in acc.kept ==> e in pool[..|pool| - 1]
    requires forall h :: h in acc.handed ==> Handed(d, pool[..|pool| - 1], acc.kept, h)
    ensures forall h :: h in r.handed ==> Handed(d, pool, r.kept, h)
  {
    var nn := pool[|pool| - 1];
    forall h | h in r.handed ensures Handed(d, pool, r.kept, h) {
      if h in acc.handed {
        var n0, w0 :| n0 in pool[..|pool| - 1] && w0 in acc.kept && h == Handover(w0.id, n0.id, d(n0.id, w0.id))
                      && n0.id != w0.id && d(n0.id, w0.id) < n0.distance;
        assert n0 in pool && w0 in r.kept;
      } else {
        var k := FirstBeating(d, acc.kept, nn, useFlags, 0);
        assert acc.kept[k] in r.kept && nn in pool;
      }
    }
  }

  function Cleared(p: Pool): (r: Pool)
    ensures |r| == |p| && forall i :: 0 <= i < |p| ==> r[i] == p[i].(flag := false)
  {
    seq(|p|, i requires 0 <= i < |p| => p[i].(flag := false))
  }

  // ----- one update pass

  ghost predicate TargetsInRange(n: nat, hs: seq<Handover>) {
    forall h :: h in hs ==> h.to < n
  }

  /** Appends every handed-over edge, marked new, to the pool of the neighbour that won it. */
  function Deliver(g: Graph, hs: seq<Handover>): (r: Graph)
    requires TargetsInRange(|g|, hs)
    ensures |r| == |g|
  {
    if hs == [] then g
    else
      var k := |hs| - 1;
      var r := Deliver(g, hs[..k]);
      assert hs[k] in hs;
      r[hs[k].to := r[hs[k].to] + [Neighbor(hs[k].id, hs[k].distance, true)]]
  }

  lemma DeliverNothing(g: Graph)
    ensures Deliver(g, []) == g
  {
  }

  lemma DeliverOneMore(g: Graph, hs: seq<Handover>, h: Handover)
    requires TargetsInRange(|g|, hs) && h.to < |g|
    ensures TargetsInRange(|g|, hs + [h])
    ensures var r := Deliver(g, hs);
            Deliver(g, hs + [h]) == r[h.to := r[h.to] + [Neighbor(h.id, h.distance, true)]]
  {
    assert (hs + [h])[..|hs|] == hs;
  }

  /** What delivery leaves in a pool: its old entries and exactly the edges addressed to it. */
  lemma {:induction false} DeliverAt(g: Graph, hs: seq<Handover>, v: nat, e: Neighbor)
    requires TargetsInRange(|g|, hs) && v < |g|
    ensures e in Deliver(g, hs)[v] <==> e in g[v] || (e.flag && Handover(v, e.id, e.distance) in hs)
  {
    if hs != [] {
      var k := |hs| - 1;
      DeliverAt(g, hs[..k], v, e);
      assert forall h :: h in hs <==> h in hs[..k] || h == hs[k] by {
        assert hs == hs[..k] + [hs[k]];
      }
      var r := Deliver(g, hs[..k]);
      assert Deliver(g, hs)[v] == if hs[k].to == v then r[v] + [Neighbor(hs[k].id, hs[k].distance, true)] else r[v];
      hide Deliver;
    }
  }

  /** The sorted, run-deduplicated pool that one node's pruning works on. */
  function Candidates(s: Setup, p: Pool): Pool {
    Unique(s.sort(p))
  }

  lemma CandidatesFacts(s: Setup, p: Pool)
    requires Sorts(s.sort)
    ensures SortedByDistance(Candidates(s, p))
    ensures forall e :: e in Candidates(s, p) ==> e in p
    ensures forall e :: e in p ==> HasId(Candidates(s, p), e.id)
  {
    SortKeeps(s, p);
    UniqueKeepsOrder(s.sort(p));
    forall e | e in p ensures HasId(Candidates(s, p), e.id) {
      UniqueKeepsIds(s.sort(p), e);
    }
  }

  /** Prunes the pool of `u`: the pool is taken out, losers are handed on, survivors go back marked old. */
  function UpdateNode(s: Setup, g: Graph, u: nat, useFlags: bool): (r: Graph)
    requires ValidSetup(s) && GraphOk(s.d, g) && u < |g|
    ensures |r| == |g| && GraphOk(s.d, r)
  {
    UpdateNodeOk(s, g, u, useFlags);
    var pr := Prune(s.d, Candidates(s, g[u]), useFlags);
    Deliver(g[u := []], pr.handed)[u := Cleared(pr.kept)]
  }

  lemma UpdateNodeOk(s: Setup, g: Graph, u: nat, useFlags: bool)
    requires ValidSetup(s) && GraphOk(s.d, g) && u < |g|
    ensures var pr := Prune(s.d, Candidates(s, g[u]), useFlags);
            TargetsInRange(|g|, pr.handed)
            && (forall h :: h in pr.handed ==> h.to != u)
            && GraphOk(s.d, Deliver(g[u := []], pr.handed)[u := Cleared(pr.kept)])
  {
    var pool := Candidates(s, g[u]);
    var pr := Prune(s.d, pool, useFlags);
    CandidatesFacts(s, g[u]);
    forall h | h in pr.handed
      ensures h.to < |g| && h.to != u && EntryOk(s.d, |g|, h.to, Neighbor(h.id, h.distance, true))
    {
      var nn, w :| nn in pool && w in pr.kept && h == Handover(w.id, nn.id, s.d(nn.id, w.id)) && nn.id != w.id;
      assert EntryOk(s.d, |g|, u, nn) && EntryOk(s.d, |g|, u, w);
    }
    var r := Deliver(g[u := []], pr.handed)[u := Cleared(pr.kept)];
    forall v, e | 0 <= v < |g| && e in r[v] ensures EntryOk(s.d, |g|, v, e) {
      if v == u {
        var i :| 0 <= i < |r[u]| && r[u][i] == e;
        assert pr.kept[i] in pr.kept;
        assert EntryOk(s.d, |g|, u, pr.kept[i]);
      } else {
        DeliverAt(g[u := []], pr.handed, v, e);
        if e in g[v] {
          assert PoolOk(s.d, |g|, v, g[v]);
        }
      }
    }
  }

  /** The first `k` nodes of an update pass; `k == |g|` is the whole pass. */
  function UpdatePass(s: Setup, g: Graph, k: nat, useFlags: bool): (r: Graph)
    requires ValidSetup(s) && GraphOk(s.d, g) && k <= |g|
    ensures |r| == |g| && GraphOk(s.d, r)
  {
    if k == 0 then g else UpdateNode(s, UpdatePass(s, g, k - 1, useFlags), k - 1, useFlags)
  }

  // ----- the reverse-edge pass

  /** Adds the reversal of every edge `u -> nn` of `pool` to the pool of `nn`. */
  function TransposePool(acc: Graph, u: nat, pool: Pool): (r: Graph)
    requires forall e :: e in pool ==> e.id < |acc|
    ensures |r| == |acc|
  {
    if pool == [] then acc
    else
      var k := |pool| - 1;
      assert pool[k] in pool;
      var r := TransposePool(acc, u, pool[..k]);
      r[pool[k].id := r[pool[k].id] + [Neighbor(u, pool[k].distance, pool[k].flag)]]
  }

  ghost predicate IdsInRange(n: nat, g: Graph) {
    forall u, e :: 0 <= u < |g| && e in g[u] ==> e.id < n
  }

  /** Reversals of the edges of the first `k` nodes, on top of `base`. */
  function Transpose(base: Graph, g: Graph, k: nat): (r: Graph)
    requires IdsInRange(|base|, g) && k <= |g|
    ensures |r| == |base|
  {
    if k == 0 then base else TransposePool(Transpose(base, g, k - 1), k - 1, g[k - 1])
  }

  function Empty(n: nat): (r: Graph)
    ensures |r| == n && forall v :: 0 <= v < n ==> r[v] == []
  {
    seq(n, i => [])
  }

  function Marked(p: Pool): (r: Pool)
    ensures |r| == |p| && forall i :: 0 <= i < |p| ==> r[i] == p[i].(flag := true)
  {
    seq(|p|, i requires 0 <= i < |p| => p[i].(flag := true))
  }

  function Capped(p: Pool, cap: nat): (r: Pool)
    ensures |r| <= cap && r <= p
  {
    if |p| > cap then p[..cap] else p
  }

  lemma {:induction false} TransposePoolAt(acc: Graph, u: nat, pool: Pool, v: nat, e: Neighbor)
    requires (forall x :: x in pool ==> x.id < |acc|) && v < |acc|
    ensures e in TransposePool(acc, u, pool)[v]
       <==> e in acc[v] || (e.id == u && Neighbor(v, e.distance, e.flag) in pool)
  {
    if pool != [] {
      var k := |pool| - 1;
      assert pool == pool[..k] + [pool[k]];
      assert pool[k] in pool;
      TransposePoolAt(acc, u, pool[..k], v, e);
    }
  }

  /** Transposition turns edges round and nothing else. */
  lemma {:induction false} TransposeAt(base: Graph, g: Graph, k: nat, v: nat, e: Neighbor)
    requires IdsInRange(|base|, g) && k <= |g| && v < |base|
    ensures e in Transpose(base, g, k)[v]
       <==> e in base[v] || (e.id < k && Neighbor(v, e.distance, e.flag) in g[e.id])
    decreases k
  {
    if k != 0 {
      TransposeAt(base, g, k - 1, v, e);
      TransposePoolAt(Transpose(base, g, k - 1), k - 1, g[k - 1], v, e);
    }
  }

  /** First half of the pass: for each node its incoming edges plus its own, the latter marked new. */
  function ReversePools(s: Setup, g: Graph): (r: Graph)
    requires ValidSetup(s) && GraphOk(s.d, g)
    ensures |r| == |g| && GraphOk(s.d, r)
  {
    var t := Incoming(s, g);
    ReversePoolsOk(s, g, t);
    seq(|g|, u requires 0 <= u < |g| => Capped(Candidates(s, t[u] + Marked(g[u])), s.cap))
  }

  function Incoming(s: Setup, g: Graph): (r: Graph)
    requires GraphOk(s.d, g)
    ensures |r| == |g|
  {
    Transpose(Empty(|g|), g, |g|)
  }

  lemma ReversePoolsOk(s: Setup, g: Graph, t: Graph)
    requires ValidSetup(s) && GraphOk(s.d, g) && t == Incoming(s, g)
    ensures forall u :: 0 <= u < |g| ==> PoolOk(s.d, |g|, u, Capped(Candidates(s, t[u] + Marked(g[u])), s.cap))
  {
    forall u, e | 0 <= u < |g| && e in Candidates(s, t[u] + Marked(g[u])) ensures EntryOk(s.d, |g|, u, e) {
      ReversePoolEntry(s, g, u, e);
    }
  }

  /** An entry of a reverse pool is an incoming edge with its flag, or an outgoing one marked new. */
  lemma ReversePoolEntry(s: Setup, g: Graph, u: nat, e: Neighbor)
    requires ValidSetup(s) && GraphOk(s.d, g) && u < |g|
    requires e in Candidates(s, Incoming(s, g)[u] + Marked(g[u]))
    ensures EntryOk(s.d, |g|, u, e)
    ensures Neighbor(u, e.distance, e.flag) in g[e.id] || (e.flag && HasId(g[u], e.id))
  {
    var t := Incoming(s, g);
    CandidatesFacts(s, t[u] + Marked(g[u]));
    assert PoolOk(s.d, |g|, u, g[u]);
    if e in t[u] {
      TransposeAt(Empty(|g|), g, |g|, u, e);
      assert PoolOk(s.d, |g|, e.id, g[e.id]);
    } else {
      var i :| 0 <= i < |g[u]| && Marked(g[u])[i] == e;
      assert g[u][i] in g[u];
    }
  }

  /** The whole pass: the reverse pools turned round again, sorted and cut at the cap. */
  function AddReverseEdges(s: Setup, g: Graph): (r: Graph)
    requires ValidSetup(s) && GraphOk(s.d, g)
    ensures |r| == |g| && GraphOk(s.d, r)
  {
    var t := Incoming(s, ReversePools(s, g));
    forall w, e | 0 <= w < |g| && e in Capped(s.sort(t[w]), s.cap) ensures EntryOk(s.d, |g|, w, e) {
      AddedEntry(s, g, w, e);
    }
    seq(|g|, w requires 0 <= w < |g| => Capped(s.sort(t[w]), s.cap))
  }

  lemma AddedEntry(s: Setup, g: Graph, w: nat, e: Neighbor)
    requires ValidSetup(s) && GraphOk(s.d, g) && w < |g|
    requires e in Capped(s.sort(Incoming(s, ReversePools(s, g))[w]), s.cap)
    ensures EntryOk(s.d, |g|, w, e)
    ensures Neighbor(w, e.distance, e.flag) in ReversePools(s, g)[e.id]
  {
    var rp := ReversePools(s, g);
    SortKeeps(s, Incoming(s, rp)[w]);
    TransposeAt(Empty(|g|), rp, |g|, w, e);
    assert PoolOk(s.d, |g|, e.id, rp[e.id]);
  }

  // ----- pools made from lists of ids

  /** One new entry per id; the owner itself is skipped. */
  function PoolOf(d: Distance, u: nat, ids: seq<nat>): (r: Pool)
  {
    if ids == [] then []
    else
      var k := |ids| - 1;
      var r := PoolOf(d, u, ids[..k]);
      if ids[k] == u then r else r + [Neighbor(ids[k], d(u, ids[k]), true)]
  }

  lemma {:induction false} PoolOfEntries(d: Distance, u: nat, ids: seq<nat>, e: Neighbor)
    ensures e in PoolOf(d, u, ids) <==> e.id in ids && e.id != u && e.distance == d(u, e.id) && e.flag
  {
    if ids != [] {
      var k := |ids| - 1;
      PoolOfEntries(d, u, ids[..k], e);
      assert ids == ids[..k] + [ids[k]];
    }
  }

  // ----- the whole build

  function Updates(s: Setup, g: Graph, times: nat, useFlags: bool): (r: Graph)
    requires ValidSetup(s) && GraphOk(s.d, g)
    ensures |r| == |g| && GraphOk(s.d, r)
  {
    if times == 0 then g
    else
      var p := Updates(s, g, times - 1, useFlags);
      UpdatePass(s, p, |p|, useFlags)
  }

  /** The first `k` of `rounds` rounds; reverse edges are added after every round but the last. */
  function Rounds(s: Setup, g: Graph, k: nat, rounds: nat, iters: nat, useFlags: bool): (r: Graph)
    requires ValidSetup(s) && GraphOk(s.d, g) && k <= rounds
    ensures |r| == |g| && GraphOk(s.d, r)
    decreases k
  {
    if k == 0 then g
    else
      var p := Updates(s, Rounds(s, g, k - 1, rounds, iters, useFlags), iters, useFlags);
      if k != rounds then AddReverseEdges(s, p) else p
  }

  function Ids(p: Pool): (r: seq<nat>)
    ensures |r| == |p| && forall i :: 0 <= i < |p| ==> r[i] == p[i].id
  {
    seq(|p|, i requires 0 <= i < |p| => p[i].id)
  }

  function Layer0(s: Setup, g: Graph): (r: seq<seq<nat>>)
    ensures |r| == |g|
  {
    seq(|g|, u requires 0 <= u < |g| => Ids(Candidates(s, g[u])))
  }
}
