/** A build as a run of graphs: which passes it makes, in which order, and how often. */
module MirageRun {
  import opened MirageGraph
  import opened MirageReach

  // ----- one update pass: every node once, in order

  ghost predicate UpdatesAt(s: Setup, steps: seq<Graph>, u: nat, useFlags: bool)
    requires ValidSetup(s) && u + 1 < |steps|
  {
    GraphOk(s.d, steps[u]) && u < |steps[u]| && steps[u + 1] == UpdateNode(s, steps[u], u, useFlags)
  }

  /** The steps of a pass from `g`: the graph after each node's update. */
  ghost predicate PassSteps(s: Setup, g: Graph, steps: seq<Graph>, useFlags: bool)
    requires ValidSetup(s)
  {
    |steps| == |g| + 1 && steps[0] == g && forall u: nat :: u < |g| ==> UpdatesAt(s, steps, u, useFlags)
  }

  ghost predicate IsPass(s: Setup, g: Graph, g': Graph, useFlags: bool)
    requires ValidSetup(s)
  {
    exists steps :: PassSteps(s, g, steps, useFlags) && steps[|g|] == g'
  }

  lemma {:induction false} StepsAreUpdates(s: Setup, g: Graph, steps: seq<Graph>, k: nat, useFlags: bool)
    requires ValidSetup(s) && GraphOk(s.d, g) && PassSteps(s, g, steps, useFlags) && k <= |g|
    ensures steps[k] == UpdatePass(s, g, k, useFlags)
  {
    hide UpdateNode, GraphOk;
    if k != 0 {
      StepsAreUpdates(s, g, steps, k - 1, useFlags);
      assert UpdatesAt(s, steps, k - 1, useFlags);
    }
  }

  /** A whole pass is exactly one update of every node, in order. */
  lemma PassIsRun(s: Setup, g: Graph, g': Graph, useFlags: bool)
    requires ValidSetup(s) && GraphOk(s.d, g)
    ensures IsPass(s, g, g', useFlags) <==> g' == UpdatePass(s, g, |g|, useFlags)
  {
    hide UpdateNode, GraphOk;
    if IsPass(s, g, g', useFlags) {
      var steps :| PassSteps(s, g, steps, useFlags) && steps[|g|] == g';
      StepsAreUpdates(s, g, steps, |g|, useFlags);
    }
    var steps := seq(|g| + 1, k requires 0 <= k <= |g| => UpdatePass(s, g, k, useFlags));
    forall u: nat | u < |g| ensures UpdatesAt(s, steps, u, useFlags) {
      assert UpdatePass(s, g, u + 1, useFlags) == UpdateNode(s, UpdatePass(s, g, u, useFlags), u, useFlags);
    }
    assert PassSteps(s, g, steps, useFlags);
  }

  // ----- a round: a number of passes

  ghost predicate PassesAt(s: Setup, round: seq<Graph>, i: nat, useFlags: bool)
    requires ValidSetup(s) && i + 1 < |round|
  {
    IsPass(s, round[i], round[i + 1], useFlags)
  }

  /** The graphs of one round from `g`, with one update pass between neighbours. */
  ghost predicate IsRound(s: Setup, g: Graph, round: seq<Graph>, iters: nat, useFlags: bool)
    requires ValidSetup(s)
  {
    |round| == iters + 1 && round[0] == g && forall i: nat :: i < iters ==> PassesAt(s, round, i, useFlags)
  }

  lemma {:induction false} RoundIsUpdates(s: Setup, g: Graph, round: seq<Graph>, iters: nat, k: nat, useFlags: bool)
    requires ValidSetup(s) && GraphOk(s.d, g) && IsRound(s, g, round, iters, useFlags) && k <= iters
    ensures round[k] == Updates(s, g, k, useFlags)
  {
    hide UpdatePass, GraphOk, IsPass;
    if k != 0 {
      RoundIsUpdates(s, g, round, iters, k - 1, useFlags);
      assert PassesAt(s, round, k - 1, useFlags);
      PassIsRun(s, round[k - 1], round[k], useFlags);
    }
  }

  lemma RoundExists(s: Setup, g: Graph, iters: nat, useFlags: bool) returns (round: seq<Graph>)
    requires ValidSetup(s) && GraphOk(s.d, g)
    ensures IsRound(s, g, round, iters, useFlags) && round[iters] == Updates(s, g, iters, useFlags)
  {
    hide UpdatePass, GraphOk, IsPass;
    round := seq(iters + 1, k requires 0 <= k <= iters => Updates(s, g, k, useFlags));
    forall i: nat | i < iters ensures PassesAt(s, round, i, useFlags) {
      var p := Updates(s, g, i, useFlags);
      assert Updates(s, g, i + 1, useFlags) == UpdatePass(s, p, |p|, useFlags);
      PassIsRun(s, round[i], round[i + 1], useFlags);
    }
  }

  // ----- a build: rounds with one reverse-edge pass between them

  /** What the next round starts from: the last graph of the round before, with reverse edges added. */
  ghost predicate ReversesAt(s: Setup, run: seq<seq<Graph>>, r: nat)
    requires ValidSetup(s) && r + 1 < |run|
  {
    run[r] != [] && run[r + 1] != [] && GraphOk(s.d, run[r][|run[r]| - 1])
    && run[r + 1][0] == AddReverseEdges(s, run[r][|run[r]| - 1])
  }

  ghost predicate IsBuild(s: Setup, g: Graph, run: seq<seq<Graph>>, rounds: nat, iters: nat, useFlags: bool)
    requires ValidSetup(s)
  {
    && |run| == rounds
    && (forall r: nat :: r < rounds ==> run[r] != [] && IsRound(s, run[r][0], run[r], iters, useFlags))
    && (rounds > 0 ==> run[0][0] == g)
    && forall r: nat :: r + 1 < rounds ==> ReversesAt(s, run, r)
  }

  ghost function LastOf(g: Graph, run: seq<seq<Graph>>): Graph {
    if run == [] || run[|run| - 1] == [] then g else run[|run| - 1][|run[|run| - 1]| - 1]
  }

  /** The last graph of round `k` is what the specification has before reverse edges are added. */
  lemma {:induction false} BuildIsRounds(s: Setup, g: Graph, run: seq<seq<Graph>>, rounds: nat, iters: nat, k: nat,
      useFlags: bool)
    requires ValidSetup(s) && GraphOk(s.d, g) && IsBuild(s, g, run, rounds, iters, useFlags) && k < rounds
    ensures run[k] != [] && run[k][0] == Rounds(s, g, k, rounds, iters, useFlags)
    ensures |run[k]| == iters + 1 && run[k][iters] == Updates(s, run[k][0], iters, useFlags)
    decreases k
  {
    hide Updates, AddReverseEdges, GraphOk;
    assert IsRound(s, run[k][0], run[k], iters, useFlags);
    if k != 0 {
      BuildIsRounds(s, g, run, rounds, iters, k - 1, useFlags);
      assert ReversesAt(s, run, k - 1);
    }
    RoundIsUpdates(s, run[k][0], run[k], iters, iters, useFlags);
  }

  /** Every such run ends with the graph of the specification. */
  lemma BuildEnds(s: Setup, g: Graph, run: seq<seq<Graph>>, rounds: nat, iters: nat, useFlags: bool)
    requires ValidSetup(s) && GraphOk(s.d, g) && IsBuild(s, g, run, rounds, iters, useFlags)
    ensures LastOf(g, run) == Rounds(s, g, rounds, rounds, iters, useFlags)
  {
    hide Updates, AddReverseEdges, GraphOk, IsBuild;
    assert |run| == rounds by { BuildLength(s, g, run, rounds, iters, useFlags); }
    if rounds > 0 {
      BuildIsRounds(s, g, run, rounds, iters, rounds - 1, useFlags);
    }
  }

  lemma BuildLength(s: Setup, g: Graph, run: seq<seq<Graph>>, rounds: nat, iters: nat, useFlags: bool)
    requires ValidSetup(s) && IsBuild(s, g, run, rounds, iters, useFlags)
    ensures |run| == rounds
  {
  }

  /** And there is one: `rounds` rounds of `iters` whole update passes, one reverse-edge pass between two rounds. */
  lemma BuildExists(s: Setup, g: Graph, rounds: nat, iters: nat, useFlags: bool) returns (run: seq<seq<Graph>>)
    requires ValidSetup(s) && GraphOk(s.d, g)
    ensures IsBuild(s, g, run, rounds, iters, useFlags)
    ensures LastOf(g, run) == Rounds(s, g, rounds, rounds, iters, useFlags)
  {
    run := RoundsSoFar(s, g, rounds, rounds, iters, useFlags);
    assert IsBuild(s, g, run, rounds, iters, useFlags);
    BuildEnds(s, g, run, rounds, iters, useFlags);
  }

  lemma {:induction false} RoundsSoFar(s: Setup, g: Graph, k: nat, rounds: nat, iters: nat, useFlags: bool)
    returns (run: seq<seq<Graph>>)
    requires ValidSetup(s) && GraphOk(s.d, g) && k <= rounds
    ensures |run| == k
    ensures forall r: nat :: r < k ==> run[r] != [] && IsRound(s, run[r][0], run[r], iters, useFlags)
    ensures forall r: nat :: r < k ==> run[r] != [] && run[r][0] == Rounds(s, g, r, rounds, iters, useFlags)
    ensures forall r: nat :: r + 1 < k ==> ReversesAt(s, run, r)
    decreases k
  {
    hide Updates, AddReverseEdges, GraphOk, IsRound;
    run := [];
    if k != 0 {
      var before := RoundsSoFar(s, g, k - 1, rounds, iters, useFlags);
      var round := RoundExists(s, Rounds(s, g, k - 1, rounds, iters, useFlags), iters, useFlags);
      RoundShape(s, Rounds(s, g, k - 1, rounds, iters, useFlags), round, iters, useFlags);
      run := before + [round];
      forall r: nat | r + 1 < k ensures ReversesAt(s, run, r) {
        if r + 2 < k {
          assert ReversesAt(s, before, r);
        } else {
          RoundShape(s, run[r][0], run[r], iters, useFlags);
          RoundIsUpdates(s, run[r][0], run[r], iters, iters, useFlags);
        }
      }
    }
  }

  lemma RoundShape(s: Setup, g: Graph, round: seq<Graph>, iters: nat, useFlags: bool)
    requires ValidSetup(s) && IsRound(s, g, round, iters, useFlags)
    ensures |round| == iters + 1 && round[0] == g
  {
  }

  // ----- what a cut leaves

  /** A pool longer than the cap is cut to the cap, and no entry that goes is nearer than one that stays. */
  ghost predicate CutToNearest(p: Pool, r: Pool, cap: nat) {
    |r| == (if |p| <= cap then |p| else cap)
    && (forall e :: e in r ==> e in p)
    && forall e, f :: e in r && f in p && f !in r ==> e.distance <= f.distance
  }

  lemma CappedIsNearest(p: Pool, cap: nat)
    requires SortedByDistance(p)
    ensures CutToNearest(p, Capped(p, cap), cap)
  {
    var r := Capped(p, cap);
    forall e, f | e in r && f in p && f !in r ensures e.distance <= f.distance {
      var i :| 0 <= i < |r| && r[i] == e;
      var j :| 0 <= j < |p| && p[j] == f;
      assert r == p[..|r|] && p[i] == e;
      assert j >= |r|;
    }
  }

  /** Both cuts of a reverse-edge pass keep the nearest neighbours and use up the cap. */
  lemma ReverseKeepsNearest(s: Setup, g: Graph, u: nat)
    requires ValidSetup(s) && GraphOk(s.d, g) && u < |g|
    ensures CutToNearest(Merged(s, g, u), ReversePools(s, g)[u], s.cap)
    ensures CutToNearest(Incoming(s, ReversePools(s, g))[u], AddReverseEdges(s, g)[u], s.cap)
  {
    CandidatesFacts(s, Incoming(s, g)[u] + Marked(g[u]));
    CappedIsNearest(Merged(s, g, u), s.cap);
    var t := Incoming(s, ReversePools(s, g))[u];
    SortKeeps(s, t);
    CappedIsNearest(s.sort(t), s.cap);
    hide Incoming, ReversePools, GraphOk;
  }
}
