/** Directed reachability over a finite edge set, shared by the graph builder and the component count. */
module Reachability {

  type Edge = (nat, nat)

  /** Following the nodes of `p` one edge at a time leads from `u` to `v`. */
  ghost predicate Walks(edges: set<Edge>, u: nat, p: seq<nat>, v: nat)
    decreases |p|
  {
    if p == [] then u == v
    else (u, p[0]) in edges && Walks(edges, p[0], p[1..], v)
  }

  ghost predicate Reach(edges: set<Edge>, u: nat, v: nat) {
    exists p :: Walks(edges, u, p, v)
  }

  ghost function Flip(edges: set<Edge>): set<Edge> {
    set e | e in edges :: (e.1, e.0)
  }

  lemma ReachRefl(edges: set<Edge>, u: nat)
    ensures Reach(edges, u, u)
  {
    assert Walks(edges, u, [], u);
  }

  lemma ReachEdge(edges: set<Edge>, u: nat, v: nat)
    requires (u, v) in edges
    ensures Reach(edges, u, v)
  {
    assert [v][1..] == [];
    assert Walks(edges, u, [v], v);
  }

  lemma {:induction false} WalksConcat(edges: set<Edge>, u: nat, p: seq<nat>, v: nat, q: seq<nat>, w: nat)
    requires Walks(edges, u, p, v) && Walks(edges, v, q, w)
    ensures Walks(edges, u, p + q, w)
    decreases |p|
  {
    if p == [] {
      assert p + q == q;
    } else {
      assert (p + q)[1..] == p[1..] + q;
      WalksConcat(edges, p[0], p[1..], v, q, w);
    }
  }

  lemma ReachTrans(edges: set<Edge>, u: nat, v: nat, w: nat)
    requires Reach(edges, u, v) && Reach(edges, v, w)
    ensures Reach(edges, u, w)
  {
    var p :| Walks(edges, u, p, v);
    var q :| Walks(edges, v, q, w);
    WalksConcat(edges, u, p, v, q, w);
  }

  /** Every edge of one graph being a walk of another carries over to all of reachability. */
  ghost predicate Simulates(edges: set<Edge>, host: set<Edge>) {
    forall e :: e in edges ==> Reach(host, e.0, e.1)
  }

  lemma {:induction false} WalksTransfer(edges: set<Edge>, host: set<Edge>, u: nat, p: seq<nat>, v: nat)
    requires Simulates(edges, host)
    requires Walks(edges, u, p, v)
    ensures Reach(host, u, v)
    decreases |p|
  {
    if p == [] {
      ReachRefl(host, u);
    } else {
      assert (u, p[0]) in edges;
      WalksTransfer(edges, host, p[0], p[1..], v);
      ReachTrans(host, u, p[0], v);
    }
  }

  lemma ReachTransfer(edges: set<Edge>, host: set<Edge>, u: nat, v: nat)
    requires Simulates(edges, host)
    requires Reach(edges, u, v)
    ensures Reach(host, u, v)
  {
    var p :| Walks(edges, u, p, v);
    WalksTransfer(edges, host, u, p, v);
  }

  lemma SimulatesTrans(a: set<Edge>, b: set<Edge>, c: set<Edge>)
    requires Simulates(a, b) && Simulates(b, c)
    ensures Simulates(a, c)
  {
    forall e | e in a ensures Reach(c, e.0, e.1) {
      ReachTransfer(b, c, e.0, e.1);
    }
  }

  lemma SubsetSimulates(a: set<Edge>, b: set<Edge>)
    requires a <= b
    ensures Simulates(a, b)
  {
    forall e | e in a ensures Reach(b, e.0, e.1) {
      ReachEdge(b, e.0, e.1);
    }
  }

  lemma {:induction false} WalksBack(edges: set<Edge>, u: nat, p: seq<nat>, v: nat)
    requires Flip(edges) <= edges
    requires Walks(edges, u, p, v)
    ensures Reach(edges, v, u)
    decreases |p|
  {
    if p == [] {
      ReachRefl(edges, u);
    } else {
      WalksBack(edges, p[0], p[1..], v);
      assert (p[0], u) in Flip(edges);
      ReachEdge(edges, p[0], u);
      ReachTrans(edges, v, p[0], u);
    }
  }

  lemma ReachSym(edges: set<Edge>, u: nat, v: nat)
    requires Flip(edges) <= edges
    requires Reach(edges, u, v)
    ensures Reach(edges, v, u)
  {
    var p :| Walks(edges, u, p, v);
    WalksBack(edges, u, p, v);
  }

  /** A set holding `u` and closed under the edges holds everything `u` reaches. */
  lemma {:induction false} ClosedHoldsWalk(edges: set<Edge>, s: set<nat>, u: nat, p: seq<nat>, v: nat)
    requires u in s
    requires forall e :: e in edges && e.0 in s ==> e.1 in s
    requires Walks(edges, u, p, v)
    ensures v in s
    decreases |p|
  {
    if p != [] {
      assert (u, p[0]) in edges;
      ClosedHoldsWalk(edges, s, p[0], p[1..], v);
    }
  }
}
