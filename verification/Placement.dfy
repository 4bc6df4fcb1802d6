/** Placing the replicas of the shards of a new collection evenly on a pool of peers. */
module Placement {
  import opened FiniteSets

  type Peer = nat

  // ----- walking a pool of `n` peers round and round

  /** Where the cyclic walk stands after `t` steps, and how often it has come round. */
  ghost function At(n: nat, t: nat): (r: nat)
    requires n > 0
    ensures r < n
  {
    if t == 0 then 0 else if At(n, t - 1) + 1 == n then 0 else At(n, t - 1) + 1
  }

  ghost function Laps(n: nat, t: nat): nat
    requires n > 0
  {
    if t == 0 then 0 else if At(n, t - 1) + 1 == n then Laps(n, t - 1) + 1 else Laps(n, t - 1)
  }

  lemma {:induction false} LapsSplit(n: nat, t: nat)
    requires n > 0
    ensures Laps(n, t) * n + At(n, t) == t
  {
    if t > 0 {
      LapsSplit(n, t - 1);
      assert (Laps(n, t - 1) + 1) * n == Laps(n, t - 1) * n + n;
    }
  }

  /** The number of steps taken for `s` shards. */
  ghost function Steps(s: nat, replicas: nat): nat {
    if s == 0 then 0 else Steps(s - 1, replicas) + replicas
  }

  lemma {:induction false} StepsProduct(s: nat, replicas: nat)
    ensures Steps(s, replicas) == s * replicas
  {
    if s > 0 {
      StepsProduct(s - 1, replicas);
      assert s * replicas == (s - 1) * replicas + replicas;
    }
  }

  lemma {:induction false} AtWindow(n: nat, t: nat, j: nat)
    requires 0 < n && j < n
    ensures At(n, t + j) == if At(n, t) + j < n then At(n, t) + j else At(n, t) + j - n
  {
    if j > 0 {
      AtWindow(n, t, j - 1);
      assert t + j - 1 == t + (j - 1);
    }
  }

  /** How many of the first `t` steps stand at position `k`. */
  ghost function Visits(n: nat, t: nat, k: nat): nat
    requires n > 0
  {
    if t == 0 then 0 else Visits(n, t - 1, k) + (if At(n, t - 1) == k then 1 else 0)
  }

  lemma {:induction false} VisitsEven(n: nat, t: nat, k: nat)
    requires k < n
    ensures Visits(n, t, k) == Laps(n, t) + if k < At(n, t) then 1 else 0
  {
    if t > 0 {
      VisitsEven(n, t - 1, k);
    }
  }

  // ----- what a placement does to the peers

  function Count(row: seq<Peer>, p: Peer): nat {
    if row == [] then 0 else Count(row[..|row| - 1], p) + (if row[|row| - 1] == p then 1 else 0)
  }

  /** The number of replicas a peer holds. */
  function Load(placement: seq<seq<Peer>>, p: Peer): nat {
    if placement == [] then 0 else Load(placement[..|placement| - 1], p) + Count(placement[|placement| - 1], p)
  }

  /** `row` is what the walk over `pool` gives from step `start` on. */
  ghost predicate Walked(pool: seq<Peer>, start: nat, row: seq<Peer>) {
    forall j :: 0 <= j < |row| ==> pool != [] && row[j] == pool[At(|pool|, start + j)]
  }

  lemma WalkedDistinct(pool: seq<Peer>, start: nat, row: seq<Peer>)
    requires NoDup(pool) && |row| <= |pool| && Walked(pool, start, row)
    ensures NoDup(row)
  {
    var n := |pool|;
    forall i, j | 0 <= i < j < |row| ensures row[i] != row[j] {
      AtWindow(n, start, i);
      AtWindow(n, start, j);
    }
  }

  lemma {:induction false} WalkedCount(pool: seq<Peer>, start: nat, row: seq<Peer>, k: nat)
    requires NoDup(pool) && k < |pool| && Walked(pool, start, row)
    ensures Visits(|pool|, start + |row|, k) == Visits(|pool|, start, k) + Count(row, pool[k])
  {
    if row != [] {
      var j := |row| - 1;
      WalkedCount(pool, start, row[..j], k);
      var at := At(|pool|, start + j);
      assert at != k ==> pool[at] != pool[k];
    }
  }

  /** Every shard in turn got the next `replicas` peers of the walk. */
  ghost predicate Placed(pool: seq<Peer>, placement: seq<seq<Peer>>, replicas: nat) {
    forall s :: 0 <= s < |placement| ==> |placement[s]| == replicas && Walked(pool, Steps(s, replicas), placement[s])
  }

  lemma {:induction false} PlacedLoad(pool: seq<Peer>, placement: seq<seq<Peer>>, replicas: nat, k: nat)
    requires NoDup(pool) && k < |pool| && Placed(pool, placement, replicas)
    ensures Load(placement, pool[k]) == Visits(|pool|, Steps(|placement|, replicas), k)
  {
    if placement != [] {
      var s := |placement| - 1;
      PlacedLoad(pool, placement[..s], replicas, k);
      WalkedCount(pool, Steps(s, replicas), placement[s], k);
    }
  }

  /** Two replicas each of three shards on A and B, B and C, A and C: no order of three peers gives this placement. */
  lemma CommentExampleNotPlaced(pool: seq<Peer>, a: Peer, b: Peer, c: Peer)
    requires |pool| == 3 && a != c
    ensures !Placed(pool, [[a, b], [b, c], [a, c]], 2)
  {
    var rows := [[a, b], [b, c], [a, c]];
    assert Steps(0, 2) == 0 && Steps(1, 2) == 2;
    assert At(3, 0) == 0 && At(3, 1) == 1 && At(3, 2) == 2 && At(3, 3) == 0;
    assert Walked(pool, 0, rows[0]) ==> rows[0][0] == pool[At(3, 0 + 0)];
    assert Walked(pool, 2, rows[1]) ==> rows[1][1] == pool[At(3, 2 + 1)];
  }

  /** The loads of any two peers differ by at most one, and each is within one of the exact share. */
  ghost predicate Balanced(placement: seq<seq<Peer>>, pool: seq<Peer>, total: nat) {
    && (forall p, q :: p in pool && q in pool ==> Load(placement, p) <= Load(placement, q) + 1)
    && (forall p :: p in pool ==> total - |pool| < Load(placement, p) * |pool| < total + |pool|)
  }

  lemma PlacedBalanced(pool: seq<Peer>, placement: seq<seq<Peer>>, replicas: nat)
    requires NoDup(pool) && Placed(pool, placement, replicas)
    ensures Balanced(placement, pool, |placement| * replicas)
  {
    var n, total := |pool|, Steps(|placement|, replicas);
    StepsProduct(|placement|, replicas);
    forall p | p in pool
      ensures Laps(n, total) <= Load(placement, p) <= Laps(n, total) + 1
      ensures total - n < Load(placement, p) * n < total + n
    {
      var k :| 0 <= k < n && pool[k] == p;
      PlacedLoad(pool, placement, replicas, k);
      VisitsEven(n, total, k);
      LapsSplit(n, total);
      assert (Laps(n, total) + 1) * n == Laps(n, total) * n + n;
    }
  }

  /** Shuffling keeps the peers, and keeps them distinct. */
  lemma ShuffleKeeps(pool: seq<Peer>, shuffled: seq<Peer>)
    requires multiset(shuffled) == multiset(pool)
    ensures |shuffled| == |pool| && (forall p :: p in shuffled <==> p in pool) && (NoDup(pool) ==> NoDup(shuffled))
  {
    assert |shuffled| == |multiset(shuffled)| && |pool| == |multiset(pool)|;
    assert forall p :: (p in shuffled <==> p in multiset(shuffled)) && (p in pool <==> p in multiset(pool));
    if NoDup(pool) {
      forall p ensures multiset(shuffled)[p] <= 1 {
        NoDupOnce(pool, p);
      }
      OnceNoDup(shuffled);
    }
  }

  /** What an even placement promises on a pool of distinct peers. */
  ghost predicate Even(pool: seq<Peer>, placement: seq<seq<Peer>>, replicas: nat) {
    && (forall s :: 0 <= s < |placement| ==> NoDup(placement[s]))
    && Balanced(placement, pool, |placement| * replicas)
  }

  lemma PlacedEven(pool: seq<Peer>, shuffled: seq<Peer>, placement: seq<seq<Peer>>, replicas: nat)
    requires multiset(shuffled) == multiset(pool) && NoDup(pool)
    requires replicas <= |pool| && Placed(shuffled, placement, replicas)
    ensures Even(pool, placement, replicas)
  {
    ShuffleKeeps(pool, shuffled);
    PlacedBalanced(shuffled, placement, replicas);
    forall s | 0 <= s < |placement| ensures NoDup(placement[s]) {
      WalkedDistinct(shuffled, Steps(s, replicas), placement[s]);
    }
  }

  /** An endless walk over the pool: on reaching the end it starts again. */
  class CyclicIterator {
    const pool: seq<Peer>
    var next: nat
    ghost var taken: nat

    ghost predicate Valid()
      reads this
    {
      if pool == [] then taken == 0
      else 0 <= next <= |pool| && (if next == |pool| then At(|pool|, taken) == 0 else At(|pool|, taken) == next)
    }

    constructor (peers: seq<Peer>)
      ensures Valid() && pool == peers && taken == 0
    {
      pool, next, taken := peers, 0, 0;
    }

    method Next() returns (p: Peer)
      requires Valid() && pool != []
      modifies this
      ensures Valid() && taken == old(taken) + 1
      ensures p == pool[At(|pool|, old(taken))]
    {
      if next == |pool| {
        next := 0;
      }
      p := pool[next];
      next := next + 1;
      taken := taken + 1;
    }
  }

  method PlaceShard(it: CyclicIterator, replicas: nat) returns (row: seq<Peer>)
    requires it.Valid() && replicas <= |it.pool|
    modifies it
    ensures it.Valid() && it.taken == old(it.taken) + replicas
    ensures |row| == replicas && Walked(it.pool, old(it.taken), row)
  {
    row := [];
    for i := 0 to replicas
      invariant it.Valid() && it.taken == old(it.taken) + i
      invariant |row| == i && Walked(it.pool, old(it.taken), row)
    {
      var p := it.Next();
      row := row + [p];
    }
  }

  /**
   Even placement over the pool, shuffled: every shard gets as many replicas as asked for or as there are peers, all in
   the pool. When the peers are distinct, so are the replicas of each shard, and the loads are even.
   */
  method GenerateEvenPlacement(pool: seq<Peer>, shuffled: seq<Peer>, shardNumber: nat, replicationFactor: nat)
    returns (placement: seq<seq<Peer>>)
    requires multiset(shuffled) == multiset(pool)
    ensures |placement| == shardNumber
    ensures forall s :: 0 <= s < shardNumber ==>
              |placement[s]| == (if replicationFactor < |pool| then replicationFactor else |pool|)
    ensures forall s, p :: 0 <= s < shardNumber && p in placement[s] ==> p in pool
    ensures NoDup(pool) ==> Even(pool, placement, if replicationFactor < |pool| then replicationFactor else |pool|)
  {
    ShuffleKeeps(pool, shuffled);
    var it := new CyclicIterator(shuffled);
    placement := [];
    var replicas := if replicationFactor < |shuffled| then replicationFactor else |shuffled|;
    for s := 0 to shardNumber
      invariant it.Valid() && fresh(it) && it.pool == shuffled && it.taken == Steps(s, replicas)
      invariant |placement| == s && Placed(shuffled, placement, replicas)
    {
      var row := PlaceShard(it, replicas);
      placement := placement + [row];
    }
    if NoDup(pool) {
      PlacedEven(pool, shuffled, placement, replicas);
    }
  }
}
