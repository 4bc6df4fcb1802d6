/** The clock ordering property of a WAL, as the tests check it, and what it gives the delta resolution. */
module WalOrdering {
  import opened Options
  import opened ClockMaps
  import opened WalDelta
  import opened WalDeltaTheorems

  type Tags = seq<ClockTag>

  ghost predicate SeenAfter(tags: Tags, i: nat, k: Key, t: nat) {
    exists j :: i < j < |tags| && tags[j].key == k && tags[j].tick == t
  }

  ghost predicate ReachedAfter(tags: Tags, i: nat, k: Key, t: nat) {
    exists m :: i < m < |tags| && tags[m].key == k && tags[m].tick >= t
  }

  predicate Between(a: ClockTag, t: nat, b: ClockTag) {
    a.key == b.key && a.tick < t <= b.tick
  }

  /** Above this tag, every tick up to the highest of its clock comes later. */
  ghost predicate Followed(tags: Tags, i: nat)
    requires i < |tags|
  {
    forall j, t: nat :: 0 <= j < |tags| && Between(tags[i], t, tags[j]) ==> SeenAfter(tags, i, tags[i].key, t)
  }

  /** After this tag, a tick at least as high as any of its clock comes later. */
  ghost predicate FollowedWithGaps(tags: Tags, i: nat)
    requires i < |tags|
  {
    forall j :: 0 <= j < |tags| && Between(tags[i], tags[j].tick, tags[j])
        ==> ReachedAfter(tags, i, tags[i].key, tags[j].tick)
  }

  ghost predicate InOrder(tags: Tags, allowGaps: bool) {
    forall i :: 0 <= i < |tags| ==> if allowGaps then FollowedWithGaps(tags, i) else Followed(tags, i)
  }

  /** Front of the list of ticks still to see after scanning `tags[i + 1..hi]`, starting above the tick of `tags[i]`. */
  function Front(tags: Tags, i: nat, hi: nat, allowGaps: bool): (r: nat)
    requires i < hi <= |tags|
    decreases hi
  {
    if hi == i + 1 then tags[i].tick + 1
    else
      var n := Front(tags, i, hi - 1, allowGaps);
      var tag := tags[hi - 1];
      if tag.key == tags[i].key && (if allowGaps then n <= tag.tick else n == tag.tick) then tag.tick + 1 else n
  }

  /** Everything below the front was seen; the tick just below it was seen last, at `p`, and the front not since. */
  lemma {:induction false} FrontSeen(tags: Tags, i: nat, hi: nat) returns (p: nat)
    requires i < hi <= |tags|
    ensures var n := Front(tags, i, hi, false);
            i <= p < hi && tags[p].key == tags[i].key && n == tags[p].tick + 1 && n > tags[i].tick
            && (forall j :: p < j < hi && tags[j].key == tags[i].key ==> tags[j].tick != n)
            && (forall t: nat :: tags[i].tick < t < n ==> SeenAfter(tags, i, tags[i].key, t))
    decreases hi
  {
    if hi == i + 1 {
      p := i;
    } else {
      p := FrontSeen(tags, i, hi - 1);
      var n := Front(tags, i, hi - 1, false);
      if tags[hi - 1].key == tags[i].key && tags[hi - 1].tick == n {
        p := hi - 1;
        assert SeenAfter(tags, i, tags[i].key, n);
      }
    }
  }

  /** With gaps the front is just above the highest tick seen. */
  lemma {:induction false} FrontWithGaps(tags: Tags, i: nat, hi: nat)
    requires i < hi <= |tags|
    ensures var n := Front(tags, i, hi, true);
            n > tags[i].tick
            && (forall j :: i < j < hi && tags[j].key == tags[i].key ==> tags[j].tick < n)
            && (n == tags[i].tick + 1 || exists m :: i < m < hi && tags[m].key == tags[i].key && tags[m].tick + 1 == n)
    decreases hi
  {
    if hi != i + 1 {
      FrontWithGaps(tags, i, hi - 1);
    }
  }

  ghost predicate IsHighest(tags: Tags, k: Key, h: nat) {
    (forall j :: 0 <= j < |tags| && tags[j].key == k ==> tags[j].tick <= h)
    && exists j :: 0 <= j < |tags| && tags[j].key == k && tags[j].tick == h
  }

  /** With gaps, nothing is left to see exactly when the clock's highest tick comes later. */
  lemma GapsCheck(tags: Tags, i: nat, h: nat)
    requires i < |tags| && IsHighest(tags, tags[i].key, h)
    ensures Front(tags, i, |tags|, true) > h <==> FollowedWithGaps(tags, i)
  {
    FrontWithGaps(tags, i, |tags|);
    var n := Front(tags, i, |tags|, true);
    var top :| 0 <= top < |tags| && tags[top].key == tags[i].key && tags[top].tick == h;
    if n > h {
      forall j | 0 <= j < |tags| && Between(tags[i], tags[j].tick, tags[j])
        ensures ReachedAfter(tags, i, tags[i].key, tags[j].tick)
      {
        assert tags[j].tick <= h;
        var m :| i < m < |tags| && tags[m].key == tags[i].key && tags[m].tick + 1 == n;
      }
    } else {
      assert Between(tags[i], tags[top].tick, tags[top]);
      assert !ReachedAfter(tags, i, tags[i].key, h);
    }
  }

  lemma StrictCheck(tags: Tags, i: nat, h: nat)
    requires i < |tags| && IsHighest(tags, tags[i].key, h)
    ensures Front(tags, i, |tags|, false) > h ==> Followed(tags, i)
    ensures InOrder(tags, false) ==> Front(tags, i, |tags|, false) > h
  {
    var p := FrontSeen(tags, i, |tags|);
    var n := Front(tags, i, |tags|, false);
    var top :| 0 <= top < |tags| && tags[top].key == tags[i].key && tags[top].tick == h;
    assert !SeenAfter(tags, p, tags[p].key, n);
    assert n <= h ==> Between(tags[p], n, tags[top]);
    assert n <= h ==> !Followed(tags, p);
  }

  /** The highest tick of every clock that occurs. */
  method HighestClocks(tags: Tags) returns (highest: map<Key, nat>)
    ensures forall i :: 0 <= i < |tags| ==> tags[i].key in highest && IsHighest(tags, tags[i].key, highest[tags[i].key])
  {
    hide IsHighest;
    highest := map[];
    for i := 0 to |tags|
      invariant forall j :: 0 <= j < i ==> tags[j].key in highest
      invariant forall k :: k in highest ==> IsHighest(tags[..i], k, highest[k])
      invariant forall k :: k !in highest ==> forall j :: 0 <= j < i ==> tags[j].key != k
    {
      ghost var before := highest;
      var k, t := tags[i].key, tags[i].tick;
      highest := highest[k := if k in highest && highest[k] > t then highest[k] else t];
      forall x | x in highest ensures IsHighest(tags[..i + 1], x, highest[x]) {
        HighestGrows(tags, i, x, if x in before then Some(before[x]) else None);
      }
    }
    assert tags[..|tags|] == tags;
  }

  /** First tick above `tags[i]` that the following tags leave unseen. */
  method FirstUnseen(tags: Tags, i: nat, allowGaps: bool) returns (next: nat)
    requires i < |tags|
    ensures next == Front(tags, i, |tags|, allowGaps)
  {
    var key := tags[i].key;
    next := tags[i].tick + 1;
    for j := i + 1 to |tags|
      invariant next == Front(tags, i, j, allowGaps)
    {
      var newer := tags[j];
      if newer.key == key {
        if allowGaps && next <= newer.tick {
          next := newer.tick + 1;
        } else if !allowGaps && next == newer.tick {
          next := next + 1;
        }
      }
    }
  }

  /** The check accepts exactly the ordered lists, in both modes. */
  method CheckOrdering(tags: Tags, allowGaps: bool) returns (ok: bool)
    ensures ok <==> InOrder(tags, allowGaps)
  {
    hide IsHighest, Front, InOrder;
    var highest := HighestClocks(tags);
    ChecksMeanOrder(tags, highest, allowGaps);
    for i := 0 to |tags|
      invariant forall a :: 0 <= a < i ==> Front(tags, a, |tags|, allowGaps) > highest[tags[a].key]
    {
      var next := FirstUnseen(tags, i, allowGaps);
      if next <= highest[tags[i].key] {
        return false;
      }
    }
    return true;
  }

  lemma HighestGrows(tags: Tags, i: nat, k: Key, h: Option<nat>)
    requires i < |tags|
    requires if h.Some? then IsHighest(tags[..i], k, h.value) else k == tags[i].key && forall j :: 0 <= j < i ==>
              tags[j].key != k
    ensures IsHighest(tags[..i + 1], k,
              if k != tags[i].key then h.value else if h.Some? && h.value > tags[i].tick then h.value else tags[i].tick)
  {
    assert tags[..i + 1] == tags[..i] + [tags[i]];
    if h.Some? {
      var j :| 0 <= j < i && tags[..i][j].key == k && tags[..i][j].tick == h.value;
      assert tags[..i + 1][j] == tags[..i][j];
    }
    assert tags[..i + 1][i] == tags[i];
  }

  lemma ChecksMeanOrder(tags: Tags, highest: map<Key, nat>, allowGaps: bool)
    requires forall i :: 0 <= i < |tags|
              ==> tags[i].key in highest && IsHighest(tags, tags[i].key, highest[tags[i].key])
    ensures (forall a :: 0 <= a < |tags| ==> Front(tags, a, |tags|, allowGaps) > highest[tags[a].key])
       <==> InOrder(tags, allowGaps)
  {
    forall a: nat | a < |tags|
      ensures allowGaps ==> (Front(tags, a, |tags|, true) > highest[tags[a].key] <==> FollowedWithGaps(tags, a))
      ensures Front(tags, a, |tags|, false) > highest[tags[a].key] ==> Followed(tags, a)
      ensures InOrder(tags, false) ==> Front(tags, a, |tags|, false) > highest[tags[a].key]
    {
      GapsCheck(tags, a, highest[tags[a].key]);
      StrictCheck(tags, a, highest[tags[a].key]);
    }
    hide Front, Followed, FollowedWithGaps, IsHighest;
  }

  // ----- what the property is worth

  /** The tags of a fully tagged log. */
  ghost predicate TagsOf(log: Log, tags: Tags) {
    |log| == |tags| && forall i :: 0 <= i < |log| ==> log[i].Entry? && log[i].tag == Some(tags[i])
  }

  /** A log whose tags pass the gap-free check is gap free, so its deltas are exact. */
  lemma CheckedIsGapFree(log: Log, tags: Tags)
    requires TagsOf(log, tags) && InOrder(tags, false)
    ensures GapFree(log)
  {
    forall i, j, t: nat | 0 <= i < |log| && 0 <= j < |log| && BelowUpTo(log[i], t, log[j])
      ensures Occurs(log, i + 1, log[i].tag.value.key, t)
    {
      assert Followed(tags, i) && Between(tags[i], t, tags[j]);
      assert SeenAfter(tags, i, tags[i].key, t);
      var m :| i < m < |tags| && tags[m].key == tags[i].key && tags[m].tick == t;
      assert IsTag(log[m], log[i].tag.value.key, t);
    }
  }

  function SampleTags(k: Key, token: nat): Tags {
    [ClockTag(k, 3, token, false), ClockTag(k, 1, token, false), ClockTag(k, 4, token, false)]
  }

  function SampleLog(k: Key, token: nat): (log: Log)
    ensures TagsOf(log, SampleTags(k, token))
  {
    var tags := SampleTags(k, token);
    [Entry(0, Some(tags[0])), Entry(1, Some(tags[1])), Entry(2, Some(tags[2]))]
  }

  lemma SampleInOrder(k: Key, token: nat)
    ensures InOrder(SampleTags(k, token), true)
  {
    var tags := SampleTags(k, token);
    assert tags[2].tick == 4 && tags[2].key == k;
    forall i: nat | i < 3 ensures FollowedWithGaps(tags, i) {
      assert i < 2 ==> ReachedAfter(tags, i, k, 4);
      assert forall j :: 0 <= j < 3 && tags[i].tick < tags[j].tick ==> i < 2 && tags[j].tick <= 4;
    }
  }

  lemma SampleStepsBack(k: Key, token: nat, newest: Clocks)
    requires TickOf(newest, k) == 4
    ensures var log := SampleLog(k, token);
            Numbered(log, 0) && AllTagged(log, 0) && Bounded(log, newest)
            && SteppedBack(log[0], log[1]) && log[0].tag.value == ClockTag(k, 3, token, false) && !Occurs(log, 2, k, 3)
  {
    var log := SampleLog(k, token);
    assert !IsTag(log[2], k, 3);
  }

  /**
   The weaker check is not enough: ticks 3, 1, 4 of one clock pass it, yet some recovery point is never sent tick 3.
   */
  lemma GapsDefeatCoverage(k: Key, token: nat, oldest: Clocks)
    requires oldest == map[]
    ensures InOrder(SampleTags(k, token), true)
    ensures exists rp :: !Sound(SampleLog(k, token), 0, map[k := Clock(4, token)], oldest, rp, token)
  {
    hide Sound, SampleLog, Numbered, AllTagged, Bounded, Occurs, InOrder;
    SampleInOrder(k, token);
    var newest := map[k := Clock(4, token)];
    SampleStepsBack(k, token, newest);
    StepBackUnsound(SampleLog(k, token), 0, newest, oldest, token, 0, 1);
  }
}
