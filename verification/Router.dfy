/** The resharding router: one ring, or an old and a new one while a shard is being added or removed. */
module Routers {
  import opened Options
  import opened HashRings

  datatype Direction = Up | Down

  datatype Router = Single(ring: Ring) | Resharding(old_: Ring, new_: Ring)

  // ----- the operations on values

  function Add(h: Hash, r: Router, shard: Shard): Router {
    match r
    case Single(ring) => Single(AddShard(h, ring, shard))
    case Resharding(o, n) =>
      if shard !in o.nodes && shard !in n.nodes then Resharding(AddShard(h, o, shard), AddShard(h, n, shard)) else r
  }

  function Start(h: Hash, r: Router, shard: Shard, dir: Direction): Router {
    var (o, n) := if r.Single? then (r.ring, r.ring) else (r.old_, r.new_);
    if dir.Up? then Resharding(RemoveShard(h, o, shard), AddShard(h, n, shard))
    else Resharding(AddShard(h, o, shard), RemoveShard(h, n, shard))
  }

  /** Removing the last shard of the new ring is refused. */
  predicate MayStart(r: Router, dir: Direction) {
    dir.Down? ==> |(if r.Single? then r.ring else r.new_).nodes| > 1
  }

  function Commit(r: Router): Router {
    if r.Resharding? then Single(r.new_) else r
  }

  function Abort(h: Hash, r: Router, shard: Shard, dir: Direction): Router {
    if r.Single? then r
    else
      var o := if dir.Up? then RemoveShard(h, r.old_, shard) else AddShard(h, r.old_, shard);
      var n := if dir.Up? then RemoveShard(h, r.new_, shard) else AddShard(h, r.new_, shard);
      if o == n then Single(o) else r
  }

  /** The shards a key is routed to: one, or two while old and new ring disagree. */
  function Route(h: Hash, r: Router, key: nat): seq<Shard> {
    match r
    case Single(ring) => Listed(Get(h, ring, key))
    case Resharding(o, n) =>
      var a, b := Get(h, o, key), Get(h, n, key);
      if a == b then Listed(a) else Listed(a) + Listed(b)
  }

  function Listed(s: Option<Shard>): seq<Shard> {
    if s.None? then [] else [s.value]
  }

  predicate IsInShard(h: Hash, r: Router, key: nat, shard: Shard) {
    Get(h, if r.Resharding? then r.new_ else r.ring, key) == Some(shard)
  }

  function AddAll(h: Hash, r: Router, shards: seq<Shard>): Router {
    if shards == [] then r else Add(h, AddAll(h, r, shards[..|shards| - 1]), shards[|shards| - 1])
  }

  // ----- invariants

  ghost predicate RouterOk(h: Hash, r: Router) {
    match r
    case Single(ring) => WellFormed(h, ring)
    case Resharding(o, n) => WellFormed(h, o) && WellFormed(h, n) && o.kind == n.kind
  }

  /** Old and new ring differ in exactly the target shard. */
  ghost predicate Moving(r: Router, target: Shard, dir: Direction) {
    r.Resharding?
    && if dir.Up? then target !in r.old_.nodes && r.new_.nodes == r.old_.nodes + {target}
       else target !in r.new_.nodes && r.old_.nodes == r.new_.nodes + {target}
  }

  /** The shard to add is absent, the shard to remove is present. */
  predicate Sensible(ring: Ring, shard: Shard, dir: Direction) {
    if dir.Up? then shard !in ring.nodes else shard in ring.nodes
  }

  lemma StartKeepsOk(h: Hash, r: Router, shard: Shard, dir: Direction)
    requires Injective(h) && RouterOk(h, r)
    ensures RouterOk(h, Start(h, r, shard, dir))
  {
    var (o, n) := if r.Single? then (r.ring, r.ring) else (r.old_, r.new_);
    AddKeeps(h, o, shard);
    AddKeeps(h, n, shard);
    RemoveKeeps(h, o, shard);
    RemoveKeeps(h, n, shard);
  }

  lemma {:induction false} AddsKeepMoving(h: Hash, r: Router, target: Shard, dir: Direction, shards: seq<Shard>)
    requires Injective(h) && RouterOk(h, r) && Moving(r, target, dir)
    ensures RouterOk(h, AddAll(h, r, shards)) && Moving(AddAll(h, r, shards), target, dir)
  {
    if shards != [] {
      var i := |shards| - 1;
      AddsKeepMoving(h, r, target, dir, shards[..i]);
      var p := AddAll(h, r, shards[..i]);
      AddKeeps(h, p.old_, shards[i]);
      AddKeeps(h, p.new_, shards[i]);
    }
  }

  /** After a sensible start and any run of adds the rings differ in exactly the target shard. */
  lemma HandoffState(h: Hash, ring: Ring, target: Shard, dir: Direction, shards: seq<Shard>)
    requires Injective(h) && WellFormed(h, ring) && Sensible(ring, target, dir)
    ensures var r := AddAll(h, Start(h, Single(ring), target, dir), shards);
            RouterOk(h, r) && Moving(r, target, dir)
  {
    StartKeepsOk(h, Single(ring), target, dir);
    AddsKeepMoving(h, Start(h, Single(ring), target, dir), target, dir, shards);
  }

  // ----- routing across a hand-off

  /** Starting, sensibly or not, keeps every key routed to the shard it was on. */
  lemma StartKeepsRoutes(h: Hash, ring: Ring, target: Shard, dir: Direction, key: nat)
    requires Injective(h) && WellFormed(h, ring)
    ensures Get(h, ring, key).Some? ==> Get(h, ring, key).value in Route(h, Start(h, Single(ring), target, dir), key)
  {
  }

  /** Committing routes a key only to a shard it was routed to before, and only where the shard test said it belongs. */
  lemma CommitNarrows(h: Hash, r: Router, key: nat)
    requires r.Resharding?
    ensures forall s :: s in Route(h, Commit(r), key) ==> s in Route(h, r, key)
    ensures forall s: Shard :: IsInShard(h, r, key, s) <==> Route(h, Commit(r), key) == [s]
  {
  }

  /**
   Aborting with the target and the direction of the start routes every key only to shards it was routed to before.
   */
  lemma AbortNarrows(h: Hash, r: Router, target: Shard, dir: Direction, key: nat)
    requires Injective(h) && RouterOk(h, r) && Moving(r, target, dir)
    ensures Abort(h, r, target, dir) == Single(r.old_)
    ensures forall s :: s in Route(h, Abort(h, r, target, dir), key) ==> s in Route(h, r, key)
  {
    AbortToOld(h, r, target, dir);
  }

  lemma AbortToOld(h: Hash, r: Router, target: Shard, dir: Direction)
    requires Injective(h) && RouterOk(h, r) && Moving(r, target, dir)
    ensures Abort(h, r, target, dir) == Single(r.old_)
  {
    if dir.Up? {
      RemoveKeeps(h, r.new_, target);
      SameNodesSameRing(h, RemoveShard(h, r.new_, target), r.old_);
    } else {
      AddKeeps(h, r.new_, target);
      SameNodesSameRing(h, AddShard(h, r.new_, target), r.old_);
    }
  }

  /**
   During a hand-off exactly the keys that go to or come from the target move, and a moving key has two shards exactly
   when neither ring is empty.
   */
  lemma TwoRoutesIffMoving(h: Hash, r: Router, target: Shard, dir: Direction, key: nat)
    requires Injective(h) && RouterOk(h, r) && Moving(r, target, dir)
    ensures Get(h, r.old_, key) != Get(h, r.new_, key)
       <==> (if dir.Up? then Get(h, r.new_, key) else Get(h, r.old_, key)) == Some(target)
    ensures |Route(h, r, key)| == 2
       <==> Get(h, r.old_, key) != Get(h, r.new_, key) && Get(h, r.old_, key).Some? && Get(h, r.new_, key).Some?
    ensures |Route(h, r, key)| <= 2
  {
    GetIsNode(h, r.new_, key);
    GetIsNode(h, r.old_, key);
    if dir.Up? {
      GrowingMovesOnlyToNew(h, r.old_, r.new_, key);
    } else {
      GrowingMovesOnlyToNew(h, r.new_, r.old_, key);
    }
  }

  // ----- a hand-off with shards added on the way

  ghost function Set(shards: seq<Shard>): set<Shard> {
    set s | s in shards
  }

  lemma SetSnoc(base: set<Shard>, shards: seq<Shard>, target: Shard)
    requires shards != []
    ensures var i := |shards| - 1;
            base + (Set(shards[..i]) - {target}) + ({shards[i]} - {target}) == base + (Set(shards) - {target})
  {
    var i := |shards| - 1;
    assert shards == shards[..i] + [shards[i]];
    assert Set(shards) == Set(shards[..i]) + {shards[i]};
  }

  lemma AddNodes(h: Hash, r: Router, target: Shard, dir: Direction, shard: Shard)
    requires RouterOk(h, r) && Moving(r, target, dir)
    ensures var q := Add(h, r, shard);
            q.Resharding? && q.old_.kind == r.old_.kind && q.new_.kind == r.new_.kind
            && q.old_.nodes == r.old_.nodes + ({shard} - {target})
            && q.new_.nodes == r.new_.nodes + ({shard} - {target})
  {
  }

  lemma {:induction false} AddedNodes(h: Hash, r: Router, target: Shard, dir: Direction, shards: seq<Shard>)
    requires Injective(h) && RouterOk(h, r) && Moving(r, target, dir)
    ensures var q := AddAll(h, r, shards);
            q.Resharding? && q.old_.kind == r.old_.kind && q.new_.kind == r.new_.kind
            && q.old_.nodes == r.old_.nodes + (Set(shards) - {target})
            && q.new_.nodes == r.new_.nodes + (Set(shards) - {target})
  {
    assert r.Resharding?;
    hide Add, Moving, RouterOk, Injective;
    if shards == [] {
      assert Set(shards) == {};
    } else {
      hide Set;
      var i := |shards| - 1;
      AddedNodes(h, r, target, dir, shards[..i]);
      AddsKeepMoving(h, r, target, dir, shards[..i]);
      AddNodes(h, AddAll(h, r, shards[..i]), target, dir, shards[i]);
      SetSnoc(r.old_.nodes, shards, target);
      SetSnoc(r.new_.nodes, shards, target);
    }
  }

  lemma {:induction false} AddedToSingle(h: Hash, ring: Ring, shards: seq<Shard>)
    requires Injective(h) && WellFormed(h, ring)
    ensures var q := AddAll(h, Single(ring), shards);
            q.Single? && RouterOk(h, q) && q.ring.kind == ring.kind && q.ring.nodes == ring.nodes + Set(shards)
  {
    if shards != [] {
      var i := |shards| - 1;
      AddedToSingle(h, ring, shards[..i]);
      AddKeeps(h, AddAll(h, Single(ring), shards[..i]).ring, shards[i]);
      assert shards == shards[..i] + [shards[i]];
      assert Set(shards) == Set(shards[..i]) + {shards[i]};
    }
  }

  function Resized(h: Hash, ring: Ring, target: Shard, dir: Direction): Ring {
    if dir.Up? then AddShard(h, ring, target) else RemoveShard(h, ring, target)
  }

  /**
   Whatever shards are added meanwhile, committing gives the router that resized first and added after, if and only if a
   shard being removed is not added again: while it is being removed, adding it is refused.
   */
  lemma CommitAsIfResizedFirst(h: Hash, ring: Ring, target: Shard, dir: Direction, shards: seq<Shard>)
    requires Injective(h) && WellFormed(h, ring) && Sensible(ring, target, dir)
    ensures Commit(AddAll(h, Start(h, Single(ring), target, dir), shards))
         == AddAll(h, Single(Resized(h, ring, target, dir)), shards)
       <==> dir.Up? || target !in shards
  {
    var r, resized := Start(h, Single(ring), target, dir), Resized(h, ring, target, dir);
    HandoffState(h, ring, target, dir, []);
    HandoffState(h, ring, target, dir, shards);
    AddedNodes(h, r, target, dir, shards);
    AddKeeps(h, ring, target);
    RemoveKeeps(h, ring, target);
    AddedToSingle(h, resized, shards);
    var a, b := AddAll(h, r, shards).new_, AddAll(h, Single(resized), shards).ring;
    assert target in Set(shards) <==> target in shards;
    assert dir.Up? ==> target in resized.nodes && target in r.new_.nodes;
    assert a.nodes == b.nodes <==> dir.Up? || target !in shards;
    if a.nodes == b.nodes {
      SameNodesSameRing(h, a, b);
    }
  }

  /**
   Whatever shards are added meanwhile, the matching abort gives the router that never started and added them, if and
   only if the shard being added is not among them: while it is being added, adding it is refused.
   */
  lemma AbortAsIfNeverStarted(h: Hash, ring: Ring, target: Shard, dir: Direction, shards: seq<Shard>)
    requires Injective(h) && WellFormed(h, ring) && Sensible(ring, target, dir)
    ensures Abort(h, AddAll(h, Start(h, Single(ring), target, dir), shards), target, dir)
         == AddAll(h, Single(ring), shards)
       <==> dir.Down? || target !in shards
  {
    var r := Start(h, Single(ring), target, dir);
    HandoffState(h, ring, target, dir, []);
    HandoffState(h, ring, target, dir, shards);
    AddedNodes(h, r, target, dir, shards);
    AbortToOld(h, AddAll(h, r, shards), target, dir);
    AddedToSingle(h, ring, shards);
    var a, b := AddAll(h, r, shards).old_, AddAll(h, Single(ring), shards).ring;
    assert target in Set(shards) <==> target in shards;
    assert a.nodes == b.nodes <==> dir.Down? || target !in shards;
    if a.nodes == b.nodes {
      SameNodesSameRing(h, a, b);
    }
  }

  // ----- abort

  /** Start followed by the same-direction abort gives the original router back exactly when the start was sensible. */
  lemma AbortUndoesStart(h: Hash, ring: Ring, target: Shard, dir: Direction)
    requires Injective(h) && WellFormed(h, ring)
    ensures Abort(h, Start(h, Single(ring), target, dir), target, dir) == Single(ring) <==> Sensible(ring, target, dir)
  {
    var r := Start(h, Single(ring), target, dir);
    if Sensible(ring, target, dir) {
      HandoffState(h, ring, target, dir, []);
      AbortToOld(h, r, target, dir);
    }
  }

  /** Aborting with any shard other than the target changes nothing, in either direction. */
  lemma AbortOtherShard(h: Hash, r: Router, target: Shard, dir: Direction, other: Shard, abortDir: Direction)
    requires Injective(h) && RouterOk(h, r) && Moving(r, target, dir) && other != target
    ensures Abort(h, r, other, abortDir) == r
  {
    var o := if abortDir.Up? then RemoveShard(h, r.old_, other) else AddShard(h, r.old_, other);
    var n := if abortDir.Up? then RemoveShard(h, r.new_, other) else AddShard(h, r.new_, other);
    assert target in o.nodes <==> target !in n.nodes;
  }

  /** Aborting the target in the opposite direction is accepted and completes the hand-off instead. */
  lemma AbortWrongDirectionCommits(h: Hash, r: Router, target: Shard, dir: Direction)
    requires Injective(h) && RouterOk(h, r) && Moving(r, target, dir)
    ensures Abort(h, r, target, if dir.Up? then Down else Up) == Commit(r)
  {
    if dir.Up? {
      AddKeeps(h, r.old_, target);
      SameNodesSameRing(h, AddShard(h, r.old_, target), r.new_);
    } else {
      RemoveKeeps(h, r.old_, target);
      SameNodesSameRing(h, RemoveShard(h, r.old_, target), r.new_);
    }
  }

  /** The test before a start keeps the new ring from losing its last shard. */
  lemma StartLeavesShards(h: Hash, r: Router, shard: Shard, dir: Direction)
    requires MayStart(r, dir)
    ensures Start(h, r, shard, dir).new_.nodes != {}
  {
    var n := if r.Single? then r.ring else r.new_;
    if dir.Up? {
      assert shard in AddShard(h, n, shard).nodes;
    } else {
      assert |n.nodes - {shard}| >= |n.nodes| - 1;
      assert n.nodes - {shard} <= RemoveShard(h, n, shard).nodes;
      assert n.nodes - {shard} != {};
    }
  }

  // ----- every router that can be reached

  datatype Op =
    | AddOp(shard: Shard) | StartOp(shard: Shard, dir: Direction) | CommitOp | AbortOp(shard: Shard, dir: Direction)

  function Step(h: Hash, r: Router, op: Op): Router {
    match op
    case AddOp(shard) => Add(h, r, shard)
    case StartOp(shard, dir) => Start(h, r, shard, dir)
    case CommitOp => Commit(r)
    case AbortOp(shard, dir) => Abort(h, r, shard, dir)
  }

  function After(h: Hash, r: Router, ops: seq<Op>): Router {
    if ops == [] then r else Step(h, After(h, r, ops[..|ops| - 1]), ops[|ops| - 1])
  }

  function ShardsOf(r: Router): set<Shard> {
    if r.Single? then r.ring.nodes else r.old_.nodes + r.new_.nodes
  }

  ghost predicate RingOk(h: Hash, ring: Ring, kind: Kind) {
    WellFormed(h, ring) && ring.kind == kind
  }

  lemma ChangedRingOk(h: Hash, ring: Ring, shard: Shard, kind: Kind)
    requires Injective(h) && RingOk(h, ring, kind)
    ensures RingOk(h, AddShard(h, ring, shard), kind) && RingOk(h, RemoveShard(h, ring, shard), kind)
  {
    AddKeeps(h, ring, shard);
    RemoveKeeps(h, ring, shard);
  }

  ghost predicate RingsOk(h: Hash, r: Router, kind: Kind) {
    if r.Single? then RingOk(h, r.ring, kind) else RingOk(h, r.old_, kind) && RingOk(h, r.new_, kind)
  }

  lemma StepKeeps(h: Hash, r: Router, op: Op, kind: Kind)
    requires Injective(h) && RingsOk(h, r, kind)
    ensures RingsOk(h, Step(h, r, op), kind)
  {
    hide RingOk, AddShard, RemoveShard, Injective;
    var (o, n) := if r.Single? then (r.ring, r.ring) else (r.old_, r.new_);
    if !op.CommitOp? {
      ChangedRingOk(h, o, op.shard, kind);
      ChangedRingOk(h, n, op.shard, kind);
    }
  }

  lemma {:induction false} RunKeeps(h: Hash, r: Router, ops: seq<Op>, kind: Kind)
    requires Injective(h) && RingsOk(h, r, kind)
    ensures RingsOk(h, After(h, r, ops), kind)
  {
    hide Step, RingsOk;
    if ops != [] {
      RunKeeps(h, r, ops[..|ops| - 1], kind);
      StepKeeps(h, After(h, r, ops[..|ops| - 1]), ops[|ops| - 1], kind);
    }
  }

  /** The router as it is constructed. */
  function NewRouter(): Router {
    Single(EmptyRing(Fair(HASH_RING_SHARD_SCALE)))
  }

  /**
   Whatever is added, started, committed and aborted: a key is routed nowhere exactly if there is no shard, otherwise to
   one or two of the shards there are, and belongs to a shard of the new ring whenever that has one.
   */
  lemma EveryKeyRouted(h: Hash, ops: seq<Op>, key: nat)
    requires Injective(h)
    ensures var r := After(h, NewRouter(), ops);
            && (Route(h, r, key) == [] <==> ShardsOf(r) == {})
            && |Route(h, r, key)| <= 2 && (forall s :: s in Route(h, r, key) ==> s in ShardsOf(r))
            && ((if r.Single? then r.ring else r.new_).nodes != {} ==> exists s: Shard :: IsInShard(h, r, key, s))
  {
    assert RingsOk(h, NewRouter(), Fair(HASH_RING_SHARD_SCALE));
    RunKeeps(h, NewRouter(), ops, Fair(HASH_RING_SHARD_SCALE));
    RingsRoute(h, After(h, NewRouter(), ops), key);
  }

  lemma RingGets(h: Hash, ring: Ring, key: nat)
    requires RingOk(h, ring, Fair(HASH_RING_SHARD_SCALE))
    ensures Get(h, ring, key).Some? <==> ring.nodes != {}
    ensures Get(h, ring, key).Some? ==> Get(h, ring, key).value in ring.nodes
  {
    GetIsNode(h, ring, key);
  }

  lemma RingsRoute(h: Hash, r: Router, key: nat)
    requires RingsOk(h, r, Fair(HASH_RING_SHARD_SCALE))
    ensures Route(h, r, key) == [] <==> ShardsOf(r) == {}
    ensures |Route(h, r, key)| <= 2 && forall s :: s in Route(h, r, key) ==> s in ShardsOf(r)
    ensures (if r.Single? then r.ring else r.new_).nodes != {} ==> exists s: Shard :: IsInShard(h, r, key, s)
  {
    hide RingOk, Get;
    var (o, n) := if r.Single? then (r.ring, r.ring) else (r.old_, r.new_);
    RingGets(h, o, key);
    RingGets(h, n, key);
    if n.nodes != {} {
      assert IsInShard(h, r, key, Get(h, n, key).value);
    }
  }

  // ----- the router object

  class HashRingRouter {
    const hash: Hash
    var single: bool
    var old_: HashRing   // the only ring while `single`
    var new_: HashRing

    constructor (hash: Hash)
      ensures Valid() && fresh(old_) && fresh(new_) && this.hash == hash
      ensures View() == NewRouter()
    {
      this.hash := hash;
      single := true;
      var r := new HashRing(hash, Fair(HASH_RING_SHARD_SCALE));
      var n := new HashRing.Clone(r);
      old_, new_ := r, n;
    }

    ghost predicate Valid()
      reads this, old_, new_
    {
      old_ != new_ && old_.hash == hash && new_.hash == hash
    }

    function View(): Router
      reads this, old_, new_
    {
      if single then Single(old_.View()) else Resharding(old_.View(), new_.View())
    }

    method AddShardToRings(shard: Shard) returns (added: bool)
      requires Valid()
      modifies old_, new_
      ensures Valid()
      ensures View() == Add(hash, old(View()), shard)
      ensures added == (shard !in old(old_.nodes) && (single || shard !in old(new_.nodes)))
    {
      if single {
        added := old_.Add(shard);
      } else if shard !in old_.nodes && shard !in new_.nodes {
        var _ := old_.Add(shard);
        var _ := new_.Add(shard);
        added := true;
      } else {
        added := false;
      }
    }

    method StartResharding(shard: Shard, dir: Direction)
      requires Valid() && MayStart(View(), dir)
      modifies this, old_, new_
      ensures Valid() && (fresh(new_) || new_ == old(new_)) && old_ == old(old_)
      ensures View() == Start(hash, old(View()), shard, dir)
    {
      if single {
        new_ := new HashRing.Clone(old_);
        single := false;
      }
      match dir
      case Up =>
        var _ := old_.Remove(shard);
        var _ := new_.Add(shard);
      case Down =>
        var _ := old_.Add(shard);
        var _ := new_.Remove(shard);
    }

    method CommitResharding() returns (done: bool)
      requires Valid()
      modifies this
      ensures Valid() && done == !old(single)
      ensures View() == Commit(old(View()))
    {
      if single {
        return false;
      }
      var ring := new HashRing.Clone(new_);
      old_, single := ring, true;
      return true;
    }

    method AbortResharding(shard: Shard, dir: Direction) returns (done: bool)
      requires Valid()
      modifies this
      ensures Valid()
      ensures View() == Abort(hash, old(View()), shard, dir)
      ensures done == (old(!single) && View().Single?)
    {
      if single {
        return false;
      }
      var o := new HashRing.Clone(old_);
      var n := new HashRing.Clone(new_);
      match dir {
        case Up =>
          var _ := o.Remove(shard);
          var _ := n.Remove(shard);
        case Down =>
          var _ := o.Add(shard);
          var _ := n.Add(shard);
      }
      if o.View() == n.View() {
        old_, single := o, true;
        return true;
      }
      return false;
    }
  }
}
