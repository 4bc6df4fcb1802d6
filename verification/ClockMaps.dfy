/** Clock tags, the map of highest seen clocks, and recovery points. */
module ClockMaps {
  import opened Options

  datatype Key = Key(peer: nat, clock: nat)
  datatype ClockTag = ClockTag(key: Key, tick: nat, token: nat, force: bool)
  datatype Clock = Clock(tick: nat, token: nat)

  type Clocks = map<Key, Clock>

  /** A clock that is not tracked counts as tick 0. */
  function TickOf(c: Clocks, k: Key): nat {
    if k in c then c[k].tick else 0
  }

  /** No tracked clock is at tick 0. */
  ghost predicate Positive(c: Clocks) {
    forall k :: k in c ==> c[k].tick > 0
  }

  ghost predicate SameTicks(a: Clocks, b: Clocks) {
    a.Keys == b.Keys && forall k :: k in a ==> a[k].tick == b[k].tick
  }

  // ----- the map of highest seen clocks

  datatype Advanced = Advanced(clocks: Clocks, accepted: bool, tick: nat)

  function AdvanceClock(c: Clocks, tag: ClockTag): (r: Advanced) {
    if tag.key in c then
      var cur := c[tag.key];
      var clock := if cur.tick < tag.tick then Clock(tag.tick, tag.token) else cur;
      Advanced(c[tag.key := clock], clock.tick == tag.tick && clock.token == tag.token, clock.tick)
    else if tag.tick > 0 then
      Advanced(c[tag.key := Clock(tag.tick, tag.token)], true, tag.tick)
    else
      Advanced(c, false, tag.tick)
  }

  /**
   Advancing takes the maximum on the tag's clock and touches no other; ticks that are new, or repeat the newest
   operation, are accepted.
   */
  lemma AdvanceIsMax(c: Clocks, tag: ClockTag)
    requires Positive(c)
    ensures var r := AdvanceClock(c, tag);
            Positive(r.clocks)
            && TickOf(r.clocks, tag.key) == (if TickOf(c, tag.key) < tag.tick then tag.tick else TickOf(c, tag.key))
            && (forall k :: k != tag.key ==> (k in r.clocks <==> k in c) && TickOf(r.clocks, k) == TickOf(c, k))
            && (forall k :: k in c ==> k in r.clocks)
            && r.tick == TickOf(r.clocks, tag.key)
            && (r.accepted <==> tag.tick > TickOf(c, tag.key)
                                || (tag.tick > 0 && tag.key in c && c[tag.key] == Clock(tag.tick, tag.token)))
  {
  }

  class ClockMap {
    var clocks: Clocks
    var snapshot: Option<Clocks>
    var changed: bool

    constructor ()
      ensures clocks == map[] && snapshot == None && !changed
    {
      clocks, snapshot, changed := map[], None, false;
    }

    method AdvanceClockImpl(tag: ClockTag) returns (accepted: bool, tick: nat)
      modifies this`clocks, this`changed
      ensures Advanced(clocks, accepted, tick) == AdvanceClock(old(clocks), tag)
      ensures changed == (old(changed) || accepted)
      ensures ToRecoveryPoint() == if snapshot.Some? then old(ToRecoveryPoint()) else clocks
    {
      if tag.key in clocks {
        var clock := clocks[tag.key];
        if clock.tick < tag.tick {
          clock := Clock(tag.tick, tag.token);
        }
        clocks := clocks[tag.key := clock];
        accepted, tick := clock.tick == tag.tick && clock.token == tag.token, clock.tick;
      } else {
        accepted, tick := tag.tick > 0, tag.tick;
        if accepted {
          clocks := clocks[tag.key := Clock(tag.tick, tag.token)];
        }
      }
      if accepted {
        changed := true;
      }
    }

    /** Forced operations are always accepted; a rejected one gets the current tick written into its tag. */
    method AdvanceClockAndCorrectTag(tag: ClockTag) returns (accepted: bool, tag': ClockTag)
      modifies this`clocks, this`changed
      ensures clocks == AdvanceClock(old(clocks), tag).clocks
      ensures accepted == (AdvanceClock(old(clocks), tag).accepted || tag.force)
      ensures tag' == if accepted then tag else tag.(tick := AdvanceClock(old(clocks), tag).tick)
      ensures ToRecoveryPoint() == if snapshot.Some? then old(ToRecoveryPoint()) else clocks
    {
      var clockAccepted, tick := AdvanceClockImpl(tag);
      accepted := clockAccepted || tag.force;
      tag' := if accepted then tag else tag.(tick := tick);
    }

    method TakeSnapshot() returns (taken: bool)
      modifies this`snapshot, this`changed
      ensures taken == old(snapshot).None?
      ensures snapshot == if taken then Some(clocks) else old(snapshot)
      ensures ToRecoveryPoint() == old(ToRecoveryPoint())
    {
      taken := snapshot.None?;
      if taken {
        snapshot, changed := Some(clocks), true;
      }
    }

    method ClearSnapshot() returns (cleared: bool)
      modifies this`snapshot, this`changed
      ensures cleared == old(snapshot).Some? && snapshot == None && ToRecoveryPoint() == clocks
    {
      cleared := snapshot.Some?;
      if cleared {
        snapshot, changed := None, true;
      }
    }

    /** The snapshot when there is one, the current clocks otherwise. */
    function ToRecoveryPoint(): Clocks
      reads this
    {
      if snapshot.Some? then snapshot.value else clocks
    }
  }

  // ----- recovery points

  predicate HasClocksNotIn(rp: Clocks, other: Clocks) {
    exists k :: k in rp && k !in other
  }

  predicate HasAnyNewerThan(rp: Clocks, other: Clocks) {
    exists k :: k in rp && (k !in other || rp[k].tick > other[k].tick)
  }

  predicate HasAnyOlderThan(rp: Clocks, other: Clocks) {
    exists k :: k in rp && k in other && rp[k].tick < other[k].tick
  }

  ghost function Increased(rp: Clocks, ticks: nat): (r: Clocks)
    ensures forall k :: k in r <==> k in rp
    ensures forall k :: k in r ==> r[k] == Clock(rp[k].tick + ticks, rp[k].token)
    decreases |rp|
  {
    if rp == map[] then rp
    else
      var k :| k in rp;
      Increased(rp - {k}, ticks)[k := Clock(rp[k].tick + ticks, rp[k].token)]
  }

  method IncreaseAllClocksBy(rp: Clocks, ticks: nat) returns (r: Clocks)
    ensures r == Increased(rp, ticks)
  {
    hide Increased;
    r := rp;
    var todo := rp.Keys;
    while todo != {}
      invariant todo <= rp.Keys == r.Keys
      invariant forall k :: k in r ==> r[k] == if k in todo then rp[k] else Clock(rp[k].tick + ticks, rp[k].token)
      decreases todo
    {
      var k :| k in todo;
      r := r[k := Clock(r[k].tick + ticks, r[k].token)];
      todo := todo - {k};
    }
  }

  /** Clocks only the other side knows start at tick 1, so that all their operations are asked for. */
  ghost function WithMissing(rp: Clocks, other: Clocks, token: nat): (r: Clocks)
    ensures forall k :: k in r <==> k in rp || k in other
    ensures forall k :: k in r ==> r[k] == if k in rp then rp[k] else Clock(1, token)
    decreases |other|
  {
    if other == map[] then rp
    else
      var k :| k in other;
      var r := WithMissing(rp, other - {k}, token);
      if k in r then r else r[k := Clock(1, token)]
  }

  method InitializeClocksMissingFrom(rp: Clocks, other: Clocks, token: nat) returns (r: Clocks)
    ensures r == WithMissing(rp, other, token)
  {
    hide WithMissing;
    r := rp;
    var todo := other.Keys;
    while todo != {}
      invariant todo <= other.Keys && forall k :: k in r <==> k in rp || (k in other && k !in todo)
      invariant forall k :: k in r ==> r[k] == if k in rp then rp[k] else Clock(1, token)
      decreases todo
    {
      var k :| k in todo;
      if k !in r {
        r := r[k := Clock(1, token)];
      }
      todo := todo - {k};
    }
  }

  ghost function WithoutEqual(rp: Clocks, other: Clocks): (r: Clocks)
    ensures forall k :: k in r <==> k in rp && !(k in other && rp[k].tick == other[k].tick)
    ensures forall k :: k in r ==> r[k] == rp[k]
    decreases |other|
  {
    if other == map[] then rp
    else
      var k :| k in other;
      var r := WithoutEqual(rp, other - {k});
      if k in rp && rp[k].tick == other[k].tick then r - {k} else r
  }

  method RemoveClocksEqualTo(rp: Clocks, other: Clocks) returns (r: Clocks)
    ensures r == WithoutEqual(rp, other)
  {
    hide WithoutEqual;
    r := rp;
    var todo := other.Keys;
    while todo != {}
      invariant todo <= other.Keys
      invariant forall k :: k in r <==> k in rp && !(k in other && k !in todo && rp[k].tick == other[k].tick)
      invariant forall k :: k in r ==> r[k] == rp[k]
      decreases todo
    {
      var k :| k in todo;
      if k in r && r[k].tick == other[k].tick {
        r := r - {k};
      }
      todo := todo - {k};
    }
  }

  /** A record satisfies a wanted clock when its tick is at or below the wanted one. */
  predicate Satisfies(rp: Clocks, tag: ClockTag) {
    tag.key in rp && rp[tag.key].tick >= tag.tick
  }

  function RemoveSatisfied(rp: Clocks, tag: ClockTag): (r: Clocks)
    ensures forall k :: k in r <==> k in rp && !(k == tag.key && Satisfies(rp, tag))
    ensures forall k :: k in r ==> r[k] == rp[k]
  {
    if Satisfies(rp, tag) then rp - {tag.key} else rp
  }
}
