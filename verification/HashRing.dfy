/**
 Consistent hashing of keys onto shards: a ring of virtual nodes ordered by hash, looked up by wrap-around successor.
 */
module HashRings {
  import opened Options

  type Shard = nat

  datatype VNode = Plain(shard: Shard) | Virtual(shard: Shard, idx: nat)
  datatype Kind = Raw | Fair(scale: nat)

  type Hash = VNode -> nat

  const HASH_RING_SHARD_SCALE: nat := 100

  ghost predicate Injective(h: Hash) {
    forall a: VNode, b: VNode :: h(a) == h(b) ==> a == b
  }

  // ----- the ring of virtual nodes

  ghost predicate Sorted(h: Hash, ring: seq<VNode>) {
    forall i, j :: 0 <= i < j < |ring| ==> h(ring[i]) < h(ring[j])
  }

  /** First position from `i` on whose hash is not below `x`. */
  function Position(h: Hash, ring: seq<VNode>, x: nat, i: nat): (p: nat)
    requires i <= |ring|
    ensures i <= p <= |ring|
    ensures forall j :: i <= j < p ==> h(ring[j]) < x
    ensures p < |ring| ==> h(ring[p]) >= x
    decreases |ring| - i
  {
    if i == |ring| || h(ring[i]) >= x then i else Position(h, ring, x, i + 1)
  }

  function Insert(h: Hash, ring: seq<VNode>, v: VNode): (r: seq<VNode>) {
    var p := Position(h, ring, h(v), 0);
    ring[..p] + [v] + ring[p..]
  }

  function Delete(h: Hash, ring: seq<VNode>, v: VNode): (r: seq<VNode>) {
    var p := Position(h, ring, h(v), 0);
    if p < |ring| && h(ring[p]) == h(v) then ring[..p] + ring[p + 1..] else ring
  }

  /** The first node at or after the key's hash, or the first of all past the end. */
  function Successor(h: Hash, ring: seq<VNode>, key: nat): Option<VNode> {
    if ring == [] then None
    else
      var p := Position(h, ring, key, 0);
      Some(if p == |ring| then ring[0] else ring[p])
  }

  ghost function Elements(ring: seq<VNode>): set<VNode> {
    set v | v in ring
  }

  lemma InsertSorted(h: Hash, ring: seq<VNode>, v: VNode)
    requires Sorted(h, ring) && forall i :: 0 <= i < |ring| ==> h(ring[i]) != h(v)
    ensures Sorted(h, Insert(h, ring, v))
  {
    var p := Position(h, ring, h(v), 0);
    var r := Insert(h, ring, v);
    assert forall j :: p <= j < |ring| ==> h(v) < h(ring[j]);
    forall i, j | 0 <= i < j < |r| ensures h(r[i]) < h(r[j]) {
      assert r[i] == if i < p then ring[i] else if i == p then v else ring[i - 1];
      assert r[j] == if j < p then ring[j] else if j == p then v else ring[j - 1];
    }
  }

  lemma InsertElements(h: Hash, ring: seq<VNode>, v: VNode)
    ensures var r := Insert(h, ring, v);
            forall x :: x in r <==> x in ring || x == v
  {
    var p := Position(h, ring, h(v), 0);
    assert ring == ring[..p] + ring[p..];
  }

  lemma InsertKeeps(h: Hash, ring: seq<VNode>, v: VNode)
    requires Injective(h) && Sorted(h, ring) && v !in ring
    ensures var r := Insert(h, ring, v);
            Sorted(h, r) && forall x :: x in r <==> x in ring || x == v
  {
    forall i | 0 <= i < |ring| ensures h(ring[i]) != h(v) {
      assert ring[i] in ring;
    }
    InsertSorted(h, ring, v);
    InsertElements(h, ring, v);
  }

  lemma DeleteSorted(h: Hash, ring: seq<VNode>, v: VNode)
    requires Sorted(h, ring)
    ensures Sorted(h, Delete(h, ring, v))
  {
    var p := Position(h, ring, h(v), 0);
    var r := Delete(h, ring, v);
    if r != ring {
      forall i, j | 0 <= i < j < |r| ensures h(r[i]) < h(r[j]) {
        assert r[i] == if i < p then ring[i] else ring[i + 1];
        assert r[j] == if j < p then ring[j] else ring[j + 1];
      }
    }
  }

  lemma WithoutOne(ring: seq<VNode>, p: nat)
    requires p < |ring| && forall j :: 0 <= j < |ring| && j != p ==> ring[j] != ring[p]
    ensures forall x :: x in ring[..p] + ring[p + 1..] <==> x in ring && x != ring[p]
  {
    var r := ring[..p] + ring[p + 1..];
    assert forall j :: 0 <= j < |r| ==> r[j] == ring[if j < p then j else j + 1];
    forall x | x in ring && x != ring[p] ensures x in r {
      var j :| 0 <= j < |ring| && ring[j] == x;
      assert r[if j < p then j else j - 1] == x;
    }
  }

  lemma DeleteKeeps(h: Hash, ring: seq<VNode>, v: VNode)
    requires Injective(h) && Sorted(h, ring)
    ensures var r := Delete(h, ring, v);
            Sorted(h, r) && forall x :: x in r <==> x in ring && x != v
  {
    DeleteSorted(h, ring, v);
    var p := Position(h, ring, h(v), 0);
    if p < |ring| && h(ring[p]) == h(v) {
      assert ring[p] == v;
      assert forall j :: 0 <= j < p ==> ring[j] != v;
      assert forall j :: p < j < |ring| ==> ring[j] != v;
      WithoutOne(ring, p);
    } else {
      forall i | 0 <= i < |ring| ensures ring[i] != v {
        assert i < p ==> h(ring[i]) < h(v);
        assert p < i ==> h(ring[p]) < h(ring[i]);
      }
    }
  }

  /** A sorted ring is determined by its nodes. */
  lemma {:induction false} SortedUnique(h: Hash, a: seq<VNode>, b: seq<VNode>)
    requires Sorted(h, a) && Sorted(h, b) && Elements(a) == Elements(b)
    ensures a == b
  {
    assert a != [] ==> a[0] in Elements(a);
    assert b != [] ==> b[0] in Elements(b);
    if a != [] {
      assert a[0] in Elements(a) && a[0] in b;
      assert b[0] in Elements(b) && b[0] in a;
      assert a[0] == b[0];
      var c, d := a[1..], b[1..];
      forall x ensures x in c <==> x in d {
        assert x in c <==> x in Elements(a) && x != a[0];
        assert x in d <==> x in Elements(b) && x != b[0];
      }
      SortedUnique(h, c, d);
    }
  }

  // ----- who owns a key

  /** `v` is the successor of the key among `vs`, wrapping round. */
  ghost predicate Owns(h: Hash, vs: set<VNode>, key: nat, v: VNode) {
    v in vs
    && if exists x :: x in vs && h(x) >= key
       then h(v) >= key && forall x :: x in vs && h(x) >= key ==> h(v) <= h(x)
       else forall x :: x in vs ==> h(v) <= h(x)
  }

  lemma SuccessorOwns(h: Hash, ring: seq<VNode>, key: nat)
    requires Sorted(h, ring) && ring != []
    ensures Owns(h, Elements(ring), key, Successor(h, ring, key).value)
  {
    var p := Position(h, ring, key, 0);
    var v := Successor(h, ring, key).value;
    assert v in ring;
    forall x | x in Elements(ring) ensures exists i :: 0 <= i < |ring| && ring[i] == x {
    }
    if p < |ring| {
      assert ring[p] in Elements(ring);
    }
  }

  lemma OwnerUnique(h: Hash, vs: set<VNode>, key: nat, a: VNode, b: VNode)
    requires Injective(h) && Owns(h, vs, key, a) && Owns(h, vs, key, b)
    ensures a == b
  {
    assert h(a) <= h(b) && h(b) <= h(a);
  }

  /** An owner in a larger set that already was in the smaller one owned the key there too. */
  lemma OwnerInSubset(h: Hash, small: set<VNode>, large: set<VNode>, key: nat, v: VNode)
    requires small <= large && Owns(h, large, key, v) && v in small
    ensures Owns(h, small, key, v)
  {
  }

  // ----- rings as values

  datatype Ring = Ring(nodes: set<Shard>, ring: seq<VNode>, kind: Kind)

  function EmptyRing(kind: Kind): Ring {
    Ring({}, [], kind)
  }

  /** The virtual nodes of one shard: itself, or one per index below the scale. */
  ghost predicate IsNodeOf(kind: Kind, shard: Shard, v: VNode) {
    v.shard == shard && if kind.Raw? then v.Plain? else v.Virtual? && v.idx < kind.scale
  }

  /** The ring holds, in hash order, exactly the virtual nodes of its shards. */
  ghost predicate WellFormed(h: Hash, r: Ring) {
    Sorted(h, r.ring) && forall v :: v in r.ring <==> v.shard in r.nodes && IsNodeOf(r.kind, v.shard, v)
  }

  function InsertUpTo(h: Hash, ring: seq<VNode>, shard: Shard, n: nat): seq<VNode> {
    if n == 0 then ring else Insert(h, InsertUpTo(h, ring, shard, n - 1), Virtual(shard, n - 1))
  }

  function DeleteUpTo(h: Hash, ring: seq<VNode>, shard: Shard, n: nat): seq<VNode> {
    if n == 0 then ring else Delete(h, DeleteUpTo(h, ring, shard, n - 1), Virtual(shard, n - 1))
  }

  function AddShard(h: Hash, r: Ring, shard: Shard): Ring {
    if shard in r.nodes then r
    else
      Ring(r.nodes + {shard},
           if r.kind.Raw? then Insert(h, r.ring, Plain(shard)) else InsertUpTo(h, r.ring, shard, r.kind.scale),
           r.kind)
  }

  function RemoveShard(h: Hash, r: Ring, shard: Shard): Ring {
    if shard !in r.nodes then r
    else
      Ring(r.nodes - {shard},
           if r.kind.Raw? then Delete(h, r.ring, Plain(shard)) else DeleteUpTo(h, r.ring, shard, r.kind.scale),
           r.kind)
  }

  function Get(h: Hash, r: Ring, key: nat): Option<Shard> {
    match Successor(h, r.ring, key)
    case None => None
    case Some(v) => Some(v.shard)
  }

  lemma {:induction false} InsertUpToKeeps(h: Hash, ring: seq<VNode>, shard: Shard, n: nat)
    requires Injective(h) && Sorted(h, ring) && forall v :: v in ring ==> v.shard != shard
    ensures var r := InsertUpTo(h, ring, shard, n);
            Sorted(h, r) && forall v :: v in r <==> v in ring || (v.shard == shard && v.Virtual? && v.idx < n)
  {
    hide Insert, Injective;
    if n != 0 {
      InsertUpToKeeps(h, ring, shard, n - 1);
      var r := InsertUpTo(h, ring, shard, n - 1);
      InsertKeeps(h, r, Virtual(shard, n - 1));
    }
  }

  lemma {:induction false} DeleteUpToKeeps(h: Hash, ring: seq<VNode>, shard: Shard, n: nat)
    requires Injective(h) && Sorted(h, ring)
    ensures var r := DeleteUpTo(h, ring, shard, n);
            Sorted(h, r) && forall v :: v in r <==> v in ring && !(v.shard == shard && v.Virtual? && v.idx < n)
  {
    hide Delete, Injective;
    if n != 0 {
      DeleteUpToKeeps(h, ring, shard, n - 1);
      var r := DeleteUpTo(h, ring, shard, n - 1);
      DeleteKeeps(h, r, Virtual(shard, n - 1));
    }
  }

  lemma AddKeeps(h: Hash, r: Ring, shard: Shard)
    requires Injective(h) && WellFormed(h, r)
    ensures WellFormed(h, AddShard(h, r, shard))
  {
    if shard !in r.nodes {
      if r.kind.Raw? {
        var v := Plain(shard);
        InsertKeeps(h, r.ring, v);
      } else {
        InsertUpToKeeps(h, r.ring, shard, r.kind.scale);
      }
    }
  }

  lemma RemoveKeeps(h: Hash, r: Ring, shard: Shard)
    requires Injective(h) && WellFormed(h, r)
    ensures WellFormed(h, RemoveShard(h, r, shard))
  {
    if shard in r.nodes {
      if r.kind.Raw? {
        var v := Plain(shard);
        DeleteKeeps(h, r.ring, v);
      } else {
        DeleteUpToKeeps(h, r.ring, shard, r.kind.scale);
      }
    }
  }

  datatype Change = Added(shard: Shard) | Removed(shard: Shard)

  function Changed(h: Hash, r: Ring, changes: seq<Change>): Ring {
    if changes == [] then r
    else
      var p := Changed(h, r, changes[..|changes| - 1]);
      match changes[|changes| - 1]
      case Added(s) => AddShard(h, p, s)
      case Removed(s) => RemoveShard(h, p, s)
  }

  /** After any run of adds and removes the virtual nodes are exactly those of the current shards. */
  lemma {:induction false} RunWellFormed(h: Hash, kind: Kind, changes: seq<Change>)
    requires Injective(h)
    ensures WellFormed(h, Changed(h, EmptyRing(kind), changes))
  {
    if changes != [] {
      var i := |changes| - 1;
      RunWellFormed(h, kind, changes[..i]);
      var p := Changed(h, EmptyRing(kind), changes[..i]);
      AddKeeps(h, p, changes[i].shard);
      RemoveKeeps(h, p, changes[i].shard);
    }
  }

  /** Well-formed rings over the same shards are equal, so comparing rings compares shard sets. */
  lemma SameNodesSameRing(h: Hash, a: Ring, b: Ring)
    requires Injective(h) && WellFormed(h, a) && WellFormed(h, b) && a.kind == b.kind && a.nodes == b.nodes
    ensures a == b
  {
    assert forall v :: v in a.ring <==> v in b.ring;
    assert Elements(a.ring) == Elements(b.ring);
    SortedUnique(h, a.ring, b.ring);
  }

  /** Every shard is on the ring at least once. */
  predicate Populated(kind: Kind) {
    kind.Raw? || kind.scale > 0
  }

  /** With at least one shard every key has a shard, and it is one of the ring's. */
  lemma GetIsNode(h: Hash, r: Ring, key: nat)
    requires WellFormed(h, r)
    ensures Get(h, r, key).Some? ==> Get(h, r, key).value in r.nodes
    ensures Populated(r.kind) && r.nodes != {} ==> Get(h, r, key).Some?
  {
    if r.ring != [] {
      SuccessorOwns(h, r.ring, key);
      assert Successor(h, r.ring, key).value in r.ring;
    }
    if Populated(r.kind) && r.nodes != {} {
      var s :| s in r.nodes;
      var v := if r.kind.Raw? then Plain(s) else Virtual(s, 0);
      assert IsNodeOf(r.kind, s, v) && v in r.ring;
    }
  }

  /** Lookup depends on the set of virtual nodes only. */
  lemma GetOfOwner(h: Hash, r: Ring, key: nat, v: VNode)
    requires Injective(h) && WellFormed(h, r) && Owns(h, Elements(r.ring), key, v)
    ensures Get(h, r, key) == Some(v.shard)
  {
    assert v in r.ring;
    SuccessorOwns(h, r.ring, key);
    OwnerUnique(h, Elements(r.ring), key, v, Successor(h, r.ring, key).value);
  }

  /** Going to a larger set of shards, a key keeps its shard or moves to an added one. */
  lemma GrowingMovesOnlyToNew(h: Hash, small: Ring, large: Ring, key: nat)
    requires Injective(h) && WellFormed(h, small) && WellFormed(h, large)
    requires small.kind == large.kind && small.nodes <= large.nodes
    ensures Get(h, large, key) == Get(h, small, key)
            || (Get(h, large, key).Some? && Get(h, large, key).value !in small.nodes)
  {
    assert forall v :: v in small.ring ==> v in large.ring;
    assert small.ring != [] ==> small.ring[0] in small.ring;
    if large.ring != [] {
      SuccessorOwns(h, large.ring, key);
      var v := Successor(h, large.ring, key).value;
      assert v in large.ring;
      if v.shard in small.nodes {
        assert v in small.ring;
        OwnerInSubset(h, Elements(small.ring), Elements(large.ring), key, v);
        GetOfOwner(h, small, key, v);
      }
    }
  }

  /** Adding a shard leaves a key where it was or moves it to the new shard. */
  lemma AddMovesLittle(h: Hash, r: Ring, shard: Shard, key: nat)
    requires Injective(h) && WellFormed(h, r)
    ensures Get(h, AddShard(h, r, shard), key) == Get(h, r, key) || Get(h, AddShard(h, r, shard), key) == Some(shard)
  {
    AddKeeps(h, r, shard);
    GrowingMovesOnlyToNew(h, r, AddShard(h, r, shard), key);
    GetIsNode(h, AddShard(h, r, shard), key);
  }

  /** Removing a shard moves exactly the keys that were on it. */
  lemma RemoveMovesOnlyItsKeys(h: Hash, r: Ring, shard: Shard, key: nat)
    requires Injective(h) && WellFormed(h, r)
    ensures Get(h, RemoveShard(h, r, shard), key) == Get(h, r, key) <==> Get(h, r, key) != Some(shard)
  {
    RemoveKeeps(h, r, shard);
    GrowingMovesOnlyToNew(h, RemoveShard(h, r, shard), r, key);
    GetIsNode(h, r, key);
    GetIsNode(h, RemoveShard(h, r, shard), key);
  }

  /** Removing what was just added, or adding back what was just removed, restores the ring exactly. */
  lemma AddRemoveInverse(h: Hash, r: Ring, shard: Shard)
    requires Injective(h) && WellFormed(h, r)
    ensures shard !in r.nodes ==> RemoveShard(h, AddShard(h, r, shard), shard) == r
    ensures shard in r.nodes ==> AddShard(h, RemoveShard(h, r, shard), shard) == r
  {
    AddKeeps(h, r, shard);
    RemoveKeeps(h, r, shard);
    AddKeeps(h, RemoveShard(h, r, shard), shard);
    RemoveKeeps(h, AddShard(h, r, shard), shard);
    if shard !in r.nodes {
      SameNodesSameRing(h, RemoveShard(h, AddShard(h, r, shard), shard), r);
    } else {
      SameNodesSameRing(h, AddShard(h, RemoveShard(h, r, shard), shard), r);
    }
  }

  // ----- the ring object

  class HashRing {
    const hash: Hash
    const kind: Kind
    var nodes: set<Shard>
    var ring: seq<VNode>

    constructor (hash: Hash, kind: Kind)
      ensures this.hash == hash && this.kind == kind && View() == EmptyRing(kind)
    {
      this.hash, this.kind := hash, kind;
      nodes, ring := {}, [];
    }

    constructor Clone(other: HashRing)
      ensures hash == other.hash && kind == other.kind && View() == other.View()
    {
      hash, kind := other.hash, other.kind;
      nodes, ring := other.nodes, other.ring;
    }

    function View(): Ring
      reads this
    {
      Ring(nodes, ring, kind)
    }

    method Add(shard: Shard) returns (added: bool)
      modifies this
      ensures View() == AddShard(hash, old(View()), shard)
      ensures added == (shard !in old(nodes))
    {
      if shard in nodes {
        return false;
      }
      nodes := nodes + {shard};
      if kind.Raw? {
        ring := Insert(hash, ring, Plain(shard));
      } else {
        for idx := 0 to kind.scale
          invariant nodes == old(nodes) + {shard}
          invariant ring == InsertUpTo(hash, old(ring), shard, idx)
        {
          ring := Insert(hash, ring, Virtual(shard, idx));
        }
      }
      return true;
    }

    method Remove(shard: Shard) returns (removed: bool)
      modifies this
      ensures View() == RemoveShard(hash, old(View()), shard)
      ensures removed == (shard in old(nodes))
    {
      if shard !in nodes {
        return false;
      }
      nodes := nodes - {shard};
      if kind.Raw? {
        ring := Delete(hash, ring, Plain(shard));
      } else {
        for idx := 0 to kind.scale
          invariant nodes == old(nodes) - {shard}
          invariant ring == DeleteUpTo(hash, old(ring), shard, idx)
        {
          ring := Delete(hash, ring, Virtual(shard, idx));
        }
      }
      return true;
    }
  }

  // ----- filtering points by shard

  predicate Check(h: Hash, r: Ring, expected: Shard, key: nat) {
    Get(h, r, key) == Some(expected)
  }

  /** The filters of a ring's shards split the keys: every key passes the filter of exactly one shard. */
  lemma FiltersPartition(h: Hash, r: Ring, key: nat)
    requires WellFormed(h, r) && Populated(r.kind) && r.nodes != {}
    ensures exists s :: s in r.nodes && Check(h, r, s, key) && forall t :: Check(h, r, t, key) ==> t == s
  {
    GetIsNode(h, r, key);
    assert Check(h, r, Get(h, r, key).value, key);
  }
}
