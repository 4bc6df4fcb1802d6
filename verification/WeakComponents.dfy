/** The weak-component statistics of a layer-0 graph: a stack search over the undirected edges. */
module WeakComponents {
  import opened FiniteSets
  import opened Reachability

  type Lists = seq<seq<int>>

  /** Edges in range, in both directions; ids outside the graph are skipped. */
  ghost function Undirected(g: Lists): set<Edge> {
    var out := set u, v | 0 <= u < |g| && v in g[u] && 0 <= v < |g| :: (u as nat, v as nat);
    out + Flip(out)
  }

  ghost function Class(g: Lists, u: nat): set<nat> {
    set v | v in Below(|g|) && Reach(Undirected(g), u, v)
  }

  /** The classes of undirected reachability that meet `s`. */
  ghost function ClassesOf(g: Lists, s: set<nat>): set<set<nat>> {
    set u | u in s :: Class(g, u)
  }

  ghost function Classes(g: Lists): set<set<nat>> {
    ClassesOf(g, Below(|g|))
  }

  lemma UndirectedFacts(g: Lists)
    ensures Flip(Undirected(g)) <= Undirected(g)
    ensures forall e :: e in Undirected(g) ==> e.0 < |g| && e.1 < |g|
  {
  }

  lemma ClassHas(g: Lists, u: nat)
    requires u < |g|
    ensures u in Class(g, u)
  {
    ReachRefl(Undirected(g), u);
  }

  /** Classes partition the nodes: two that share a node are equal. */
  lemma ClassesAgree(g: Lists, u: nat, v: nat)
    requires v in Class(g, u)
    ensures Class(g, v) == Class(g, u)
  {
    var e := Undirected(g);
    UndirectedFacts(g);
    ReachSym(e, u, v);
    forall w | w in Below(|g|) ensures w in Class(g, v) <==> w in Class(g, u) {
      if Reach(e, u, w) { ReachTrans(e, v, u, w); }
      if Reach(e, v, w) { ReachTrans(e, u, v, w); }
    }
  }

  ghost function TotalSize(cs: set<set<nat>>): nat {
    if cs == {} then 0 else var c :| c in cs; |c| + TotalSize(cs - {c})
  }

  ghost function Union(cs: set<set<nat>>): set<nat> {
    set c, x | c in cs && x in c :: x
  }

  ghost predicate PairwiseDisjoint(cs: set<set<nat>>) {
    forall a, b :: a in cs && b in cs && a != b ==> a !! b
  }

  lemma UnionStep(cs: set<set<nat>>, c: set<nat>)
    requires PairwiseDisjoint(cs) && c in cs
    ensures |Union(cs)| == |c| + |Union(cs - {c})| && PairwiseDisjoint(cs - {c})
  {
    var rest := Union(cs - {c});
    assert Union(cs) == c + rest;
    assert c !! rest;
  }

  lemma {:induction false} DisjointTotal(cs: set<set<nat>>)
    requires PairwiseDisjoint(cs)
    ensures TotalSize(cs) == |Union(cs)|
  {
    hide PairwiseDisjoint;
    if cs == {} {
      assert Union(cs) == {};
    } else {
      hide Union;
      var c :| c in cs && TotalSize(cs) == |c| + TotalSize(cs - {c});
      UnionStep(cs, c);
      DisjointTotal(cs - {c});
    }
  }

  /** The sizes of the components sum to the number of nodes. */
  lemma ComponentSizesSum(g: Lists)
    ensures TotalSize(Classes(g)) == |g|
  {
    var cs := Classes(g);
    forall a, b | a in cs && b in cs && a != b ensures a !! b {
      var u :| u in Below(|g|) && a == Class(g, u);
      var v :| v in Below(|g|) && b == Class(g, v);
      forall x | x in a && x in b ensures false {
        ClassesAgree(g, u, x);
        ClassesAgree(g, v, x);
      }
    }
    DisjointTotal(cs);
    forall x | x in Below(|g|) ensures x in Union(cs) {
      ClassHas(g, x);
      assert Class(g, x) in cs;
    }
    assert Union(cs) == Below(|g|);
  }

  // ----- the search

  /** Adjacency lists filled edge by edge, in whatever order the edge set is walked. */
  method Adjacency(g: Lists) returns (adj: seq<seq<nat>>)
    ensures AdjacencyOf(g, adj)
  {
    adj := seq(|g|, i => []);
    ghost var done: set<Edge> := {};
    for u := 0 to |g|
      invariant |adj| == |g|
      invariant forall e :: e in done <==> 0 <= e.0 < u && e.1 in g[e.0] && 0 <= e.1 < |g|
      invariant forall a: nat, b: nat :: a < |g| ==> (b in adj[a] <==> (a, b) in done || (b, a) in done)
    {
      var todo := set v | v in g[u] && 0 <= v < |g|;
      ghost var row := todo;
      while todo != {}
        invariant |adj| == |g| && todo <= row
        invariant forall e :: e in done <==>
                  (0 <= e.0 < u && e.1 in g[e.0] && 0 <= e.1 < |g|) || (e.0 == u && e.1 in row - todo)
        invariant forall a: nat, b: nat :: a < |g| ==> (b in adj[a] <==> (a, b) in done || (b, a) in done)
        decreases todo
      {
        var v :| v in todo;
        adj := adj[u := adj[u] + [v]];
        adj := adj[v := adj[v] + [u]];
        done := done + {(u, v)};
        todo := todo - {v};
      }
    }
  }

  ghost predicate AdjacencyOf(g: Lists, adj: seq<seq<nat>>) {
    |adj| == |g| && forall u: nat, v: nat :: u < |g| ==> (v in adj[u] <==> (u, v) in Undirected(g))
  }

  /** `s` is the set of nodes whose mark is set. */
  ghost predicate Marks(visited: array<bool>, s: set<nat>)
    reads visited
  {
    forall v: nat :: v in s <==> v < visited.Length && visited[v]
  }

  ghost predicate ClosedUnder(edges: set<Edge>, s: set<nat>) {
    forall e :: e in edges && e.0 in s ==> e.1 in s
  }

  /** A closed set of nodes never meets the class of a node outside it. */
  lemma ClosedMissesClass(g: Lists, s: set<nat>, u: nat, v: nat)
    requires ClosedUnder(Undirected(g), s) && u !in s && v in Class(g, u)
    ensures v !in s
  {
    var e := Undirected(g);
    UndirectedFacts(g);
    ReachSym(e, u, v);
    if v in s {
      var p :| Walks(e, v, p, u);
      ClosedHoldsWalk(e, s, v, p, u);
    }
  }

  lemma ClassStep(g: Lists, start: nat, u: nat, v: nat)
    requires u in Class(g, start) && (u, v) in Undirected(g)
    ensures v in Class(g, start)
  {
    UndirectedFacts(g);
    ReachEdge(Undirected(g), u, v);
    ReachTrans(Undirected(g), start, u, v);
  }

  /** Marks the unvisited neighbours of one popped node and pushes each once. */
  method Push(ghost g: Lists, adj: seq<seq<nat>>, u: nat, visited: array<bool>, stack: seq<nat>, ghost marked: set<nat>)
    returns (stack': seq<nat>, ghost all: set<nat>)
    requires AdjacencyOf(g, adj) && visited.Length == |g| && u < |g|
    requires Marks(visited, marked) && NoDup(stack) && forall x :: x in stack ==> x in marked
    modifies visited
    ensures Marks(visited, all) && marked <= all
    ensures NoDup(stack') && |stack'| - |stack| == |all| - |marked|
    ensures forall x :: x in stack' <==> x in stack || (x in all && x !in marked)
    ensures forall v :: v in all && v !in marked ==> (u, v) in Undirected(g)
    ensures forall v :: (u, v) in Undirected(g) ==> v in all
  {
    UndirectedFacts(g);
    hide Undirected;
    var next := adj[u];
    assert forall v: nat :: v in next <==> (u, v) in Undirected(g);
    hide AdjacencyOf;
    stack', all := stack, marked;
    for k := 0 to |next|
      invariant Marks(visited, all) && marked <= all
      invariant NoDup(stack') && |stack'| - |stack| == |all| - |marked|
      invariant forall x :: x in stack' <==> x in stack || (x in all && x !in marked)
      invariant forall v :: v in all && v !in marked ==> v in next
      invariant forall v :: v in next[..k] ==> v in all
    {
      var v := next[k];
      assert v in next;
      assert next[..k + 1] == next[..k] + [v];
      if !visited[v] {
        assert v !in all;
        visited[v] := true;
        stack' := stack' + [v];
        all := all + {v};
      }
    }
    assert next[..|next|] == next;
  }

  /** The search from one unvisited node visits exactly its component and counts it. */
  method Explore(ghost g: Lists, adj: seq<seq<nat>>, start: nat, visited: array<bool>, ghost before: set<nat>)
    returns (size: nat)
    requires AdjacencyOf(g, adj) && visited.Length == |g| && start < |g| && !visited[start]
    requires Marks(visited, before) && ClosedUnder(Undirected(g), before)
    modifies visited
    ensures Marks(visited, before + Class(g, start))
    ensures size == |Class(g, start)|
  {
    hide Undirected, Class, AdjacencyOf, ClosedUnder;
    ClassHas(g, start);
    size := 0;
    var stack: seq<nat> := [start];
    visited[start] := true;
    ghost var all := before + {start};
    while stack != []
      invariant Marks(visited, all) && before <= all && start in all
      invariant forall x :: x in all && x !in before ==> x in Class(g, start)
      invariant NoDup(stack) && forall x :: x in stack ==> x in all && x !in before
      invariant size + |stack| == |all| - |before|
      invariant forall e :: e in Undirected(g) && e.0 in all && e.0 !in before && e.0 !in stack ==> e.1 in all
      decreases |g| - size
    {
      SeenFits(g, before, all, start);
      var u := stack[|stack| - 1];
      ghost var was := stack;
      stack := stack[..|stack| - 1];
      assert was == stack + [u];
      assert u in was && u !in stack && u < |g|;
      assert NoDup(stack) && forall x :: x in stack ==> x in was;
      size := size + 1;
      ghost var marked := all;
      stack, all := Push(g, adj, u, visited, stack, marked);
      AddedInClass(g, start, u, marked, all);
    }
    SeenIsClass(g, before, all, start);
  }

  lemma AddedInClass(g: Lists, start: nat, u: nat, marked: set<nat>, all: set<nat>)
    requires u in Class(g, start) && forall v :: v in all && v !in marked ==> (u, v) in Undirected(g)
    ensures forall v :: v in all && v !in marked ==> v in Class(g, start)
  {
    forall v | v in all && v !in marked ensures v in Class(g, start) {
      ClassStep(g, start, u, v);
    }
  }

  lemma SeenFits(g: Lists, before: set<nat>, all: set<nat>, start: nat)
    requires before <= all && forall x :: x in all && x !in before ==> x in Class(g, start)
    ensures |all| - |before| <= |g|
  {
    assert all == before + (all - before);
    SubsetCard(all - before, Below(|g|));
  }

  /** A part of the component that leads nowhere outside the visited nodes is all of it. */
  lemma SeenIsClass(g: Lists, before: set<nat>, all: set<nat>, start: nat)
    requires ClosedUnder(Undirected(g), before) && start !in before && start in all && before <= all
    requires forall x :: x in all && x !in before ==> x in Class(g, start)
    requires forall e :: e in Undirected(g) && e.0 in all && e.0 !in before ==> e.1 in all
    ensures all == before + Class(g, start) && |all| - |before| == |Class(g, start)|
  {
    assert ClosedUnder(Undirected(g), all);
    forall v | v in Class(g, start) ensures v in all && v !in before {
      var p :| Walks(Undirected(g), start, p, v);
      ClosedHoldsWalk(Undirected(g), all, start, p, v);
      ClosedMissesClass(g, before, start, v);
    }
    assert all - before == Class(g, start);
    assert all == before + (all - before);
  }

  /** Largest size among some classes, 0 for none. */
  ghost predicate IsLargest(cs: set<set<nat>>, m: nat) {
    (forall c :: c in cs ==> |c| <= m) && (m == 0 || exists c :: c in cs && |c| == m)
  }

  lemma LargestGrows(cs: set<set<nat>>, c: set<nat>, m: nat)
    requires IsLargest(cs, m)
    ensures IsLargest(cs + {c}, if |c| > m then |c| else m)
  {
    assert c in cs + {c};
    if m != 0 && |c| <= m {
      var d :| d in cs && |d| == m;
      assert d in cs + {c};
    }
  }

  lemma NothingSeen(g: Lists)
    ensures ClassesOf(g, {}) == {} && ClosedUnder(Undirected(g), {}) && IsLargest({}, 0)
  {
  }

  /** The count is the number of classes of undirected reachability and the largest is the size of a biggest one. */
  method CountComponents(g: Lists) returns (components: nat, largest: nat)
    ensures components == |Classes(g)|
    ensures IsLargest(Classes(g), largest)
  {
    hide Undirected, Class, ClassesOf, AdjacencyOf, IsLargest, ClosedUnder;
    var adj := Adjacency(g);
    var visited := new bool[|g|](i => false);
    components, largest := 0, 0;
    ghost var seen: set<nat> := {};
    NothingSeen(g);
    for start := 0 to |g|
      invariant Marks(visited, seen) && (forall v: nat :: v < start ==> v in seen) && ClosedUnder(Undirected(g), seen)
      invariant components == |ClassesOf(g, seen)|
      invariant IsLargest(ClassesOf(g, seen), largest)
    {
      if !visited[start] {
        components := components + 1;
        var size := Explore(g, adj, start, visited, seen);
        NewClass(g, seen, start);
        LargestGrows(ClassesOf(g, seen), Class(g, start), largest);
        seen := seen + Class(g, start);
        if size > largest {
          largest := size;
        }
      }
    }
    assert seen == Below(|g|);
  }

  /** Closing a visited set with one more component adds exactly one class. */
  lemma NewClass(g: Lists, before: set<nat>, start: nat)
    requires ClosedUnder(Undirected(g), before) && start !in before && start < |g|
    ensures var after := before + Class(g, start);
            start in after && ClosedUnder(Undirected(g), after)
            && ClassesOf(g, after) == ClassesOf(g, before) + {Class(g, start)}
            && |ClassesOf(g, after)| == |ClassesOf(g, before)| + 1
  {
    ClassHas(g, start);
    var after := before + Class(g, start);
    forall e | e in Undirected(g) && e.0 in after ensures e.1 in after {
      if e.0 !in before { ClassStep(g, start, e.0, e.1); }
    }
    forall v | v in Class(g, start) ensures Class(g, v) == Class(g, start) {
      ClassesAgree(g, start, v);
    }
    if Class(g, start) in ClassesOf(g, before) {
      var b :| b in before && Class(g, b) == Class(g, start);
      var p :| Walks(Undirected(g), b, p, start);
      ClosedHoldsWalk(Undirected(g), before, b, p, start);
    }
  }
}
