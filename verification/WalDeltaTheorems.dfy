/** Coverage, exactness and the ordering property the delta resolution rests on. */
module WalDeltaTheorems {
  import opened Options
  import opened ClockMaps
  import opened WalDelta

  /** The source is ahead of the recovery point on this clock. */
  predicate Lags(rp: Clocks, newest: Clocks, k: Key) {
    k in newest && TickOf(rp, k) < newest[k].tick
  }

  /** After the checks exactly the lagging clocks are wanted, each from the tick after the recovery point's. */
  lemma WantedAreLagging(rp: Clocks, newest: Clocks, oldest: Clocks, token: nat)
    requires Prepare(rp, newest, oldest, token).Wanted?
    ensures WantedFor(Prepare(rp, newest, oldest, token).clocks, rp, newest, oldest)
    ensures forall k :: k in rp ==> k in newest && rp[k].tick <= newest[k].tick
    ensures forall k :: k in newest && k in oldest ==> TickOf(rp, k) >= oldest[k].tick
  {
    hide Increased, WithMissing, WithoutEqual;
    var wanted := WithMissing(Increased(rp, 1), Increased(newest, 1), token);
    assert forall k :: k in wanted ==> wanted[k].tick == TickOf(rp, k) + 1;
    forall k | k in newest && k in oldest ensures TickOf(rp, k) >= oldest[k].tick {
      assert k in wanted && k in Increased(oldest, 1);
    }
  }

  /** What the scan is told to look for: the lagging clocks, none of them below the cutoff. */
  ghost predicate WantedFor(w: Clocks, rp: Clocks, newest: Clocks, oldest: Clocks) {
    && (forall k :: k in w <==> Lags(rp, newest, k))
    && (forall k :: k in w ==> w[k].tick == TickOf(rp, k) + 1 && w[k].tick > TickOf(oldest, k))
  }

  lemma StopCoversOne(log: Log, oldest: Clocks, w: Clocks, m: nat, j: nat)
    requires Replayable(log, oldest) && StopsAt(log, |log|, w, m) && j < StartOf(log, w, m)
    requires Readable(log[j]) && log[j].tag.value.key in w
    requires log[j].tag.value.tick >= w[log[j].tag.value.key].tick > TickOf(oldest, log[j].tag.value.key)
    ensures Occurs(log, StartOf(log, w, m), log[j].tag.value.key, log[j].tag.value.tick)
  {
    var k, t := log[j].tag.value.key, log[j].tag.value.tick;
    var h: nat;
    if k == log[m].tag.value.key {
      h := m;
      assert j < m;
    } else {
      h :| m < h < |log| && Hits(log[h], k, w);
    }
    if log[h].tag.value.tick == t {
      assert IsTag(log[h], k, t);
    } else {
      assert SteppedBack(log[j], log[h]);
      assert Occurs(log, h + 1, k, t);
    }
  }

  /** Records are numbered consecutively. */
  ghost predicate Numbered(log: Log, base: nat) {
    forall j :: 0 <= j < |log| && log[j].Entry? ==> log[j].opNum == base + j
  }

  /** Index of the record a successful resolution names; the end of the log for `None`. */
  function StartIndex(log: Log, base: nat, res: Resolved): int
    requires res.Ok?
  {
    if res.from.Some? then res.from.value - base else |log|
  }

  lemma ScanStart(log: Log, base: nat, w: Clocks) returns (m: nat)
    requires Numbered(log, base) && w != map[] && Scan(log, |log|, w, None).Ok?
    ensures StopsAt(log, |log|, w, m)
    ensures StartIndex(log, base, Scan(log, |log|, w, None)) == StartOf(log, w, m)
  {
    m := ScanStops(log, |log|, w, None);
  }

  /**
   What a resolution covers whatever the newest clocks are: a successful one names an index such that every record from
   there on is tagged and every tag above the recovery point, on any clock that lags, occurs at or after it.
   */
  lemma LaggingCovered(log: Log, base: nat, rp: Clocks, newest: Clocks, oldest: Clocks, token: nat)
    requires Replayable(log, oldest) && Numbered(log, base) && Resolve(log, rp, newest, oldest, token).Ok?
    ensures var s := StartIndex(log, base, Resolve(log, rp, newest, oldest, token));
            0 <= s <= |log| && AllTagged(log, s)
            && forall k, t: nat :: Lags(rp, newest, k) && t > TickOf(rp, k) && Occurs(log, 0, k, t)
                ==> Occurs(log, s, k, t)
  {
    WantedAreLagging(rp, newest, oldest, token);
    var w := Prepare(rp, newest, oldest, token).clocks;
    hide Prepare;
    if w != map[] {
      var m := ScanStart(log, base, w);
      StopCoversWanted(log, oldest, w, m);
    }
  }

  lemma StopCoversWanted(log: Log, oldest: Clocks, w: Clocks, m: nat)
    requires Replayable(log, oldest) && StopsAt(log, |log|, w, m) && forall k :: k in w ==>
              w[k].tick > TickOf(oldest, k)
    ensures forall k, t: nat :: k in w && t >= w[k].tick && Occurs(log, 0, k, t)
              ==> Occurs(log, StartOf(log, w, m), k, t)
  {
    forall k, t: nat | k in w && t >= w[k].tick && Occurs(log, 0, k, t) ensures Occurs(log, StartOf(log, w, m), k, t) {
      var j :| 0 <= j < |log| && IsTag(log[j], k, t);
      if j < StartOf(log, w, m) {
        StopCoversOne(log, oldest, w, m, j);
      }
    }
  }

  /**
   Delta coverage: when no tick of the log is above the newest clocks, every tag above the recovery point, on any clock,
   known to the target or not, occurs at or after the index named.
   */
  lemma DeltaCovers(log: Log, base: nat, rp: Clocks, newest: Clocks, oldest: Clocks, token: nat)
    requires Replayable(log, oldest) && Bounded(log, newest) && Numbered(log, base)
    requires Resolve(log, rp, newest, oldest, token).Ok?
    ensures var s := StartIndex(log, base, Resolve(log, rp, newest, oldest, token));
            0 <= s <= |log| && AllTagged(log, s) && Covers(log, rp, s)
  {
    LaggingCovered(log, base, rp, newest, oldest, token);
    BoundedTicks(log, newest);
  }

  lemma BoundedTicks(log: Log, newest: Clocks)
    requires Bounded(log, newest)
    ensures forall k, t: nat :: Occurs(log, 0, k, t) ==> t <= TickOf(newest, k)
  {
    forall k, t: nat | Occurs(log, 0, k, t) ensures t <= TickOf(newest, k) {
      var x :| 0 <= x < |log| && IsTag(log[x], k, t);
    }
  }

  // ----- the weakest log property that makes every resolution cover

  ghost predicate Sound(log: Log, base: nat, newest: Clocks, oldest: Clocks, rp: Clocks, token: nat) {
    var res := Resolve(log, rp, newest, oldest, token);
    res.Ok? ==> var s := StartIndex(log, base, res); 0 <= s <= |log| && Covers(log, rp, s)
  }

  lemma {:induction false} ScanFinds(log: Log, i: nat, rp: Clocks, last: Option<nat>)
    requires i <= |log| && AllTagged(log, 0) && rp != map[]
    requires forall k :: k in rp ==> exists j :: 0 <= j < i && Hits(log[j], k, rp)
    ensures Scan(log, i, rp, last).Ok?
    decreases i
  {
    var k0 :| k0 in rp;
    var e := log[i - 1];
    var rest := RemoveSatisfied(rp, e.tag.value);
    if rest != map[] {
      forall k | k in rest ensures exists j :: 0 <= j < i - 1 && Hits(log[j], k, rest) {
        var j :| 0 <= j < i && Hits(log[j], k, rp);
        assert j != i - 1;
        assert Hits(log[j], k, rest);
      }
      ScanFinds(log, i - 1, rest, Some(e.opNum));
    }
  }

  /** The cutoff never runs ahead of the highest seen clocks. */
  ghost predicate CutoffBelow(oldest: Clocks, newest: Clocks) {
    forall k :: k in oldest ==> k in newest && oldest[k].tick <= newest[k].tick
  }

  lemma OneClockBehind(newest: Clocks, oldest: Clocks, k: Key, t: nat, token: nat)
    requires CutoffBelow(oldest, newest) && k in newest && TickOf(oldest, k) < t <= newest[k].tick
    ensures var p := Prepare(newest[k := Clock(t - 1, token)], newest, oldest, token);
            p.Wanted? && forall x :: x in p.clocks <==> x == k
  {
    hide Increased, WithMissing, WithoutEqual;
    var rp := newest[k := Clock(t - 1, token)];
    assert k in rp && !HasClocksNotIn(rp, newest) && !HasAnyNewerThan(rp, newest);
    var wanted := WithMissing(Increased(rp, 1), Increased(newest, 1), token);
    assert !HasAnyOlderThan(wanted, Increased(oldest, 1));
    WantedAreLagging(rp, newest, oldest, token);
  }

  /** A clock that steps back below a tick which never comes again defeats some recovery point. */
  lemma StepBackUnsound(log: Log, base: nat, newest: Clocks, oldest: Clocks, token: nat, i: nat, j: nat)
    requires AllTagged(log, 0) && Numbered(log, base) && Bounded(log, newest) && CutoffBelow(oldest, newest)
    requires i < j < |log| && SteppedBack(log[i], log[j])
              && log[i].tag.value.tick > TickOf(oldest, log[i].tag.value.key)
    requires !Occurs(log, j + 1, log[i].tag.value.key, log[i].tag.value.tick)
    ensures exists rp :: !Sound(log, base, newest, oldest, rp, token)
  {
    var k, t := log[i].tag.value.key, log[i].tag.value.tick;
    var rp := newest[k := Clock(t - 1, token)];
    OneClockBehind(newest, oldest, k, t, token);
    WantedAreLagging(rp, newest, oldest, token);
    var w := Prepare(rp, newest, oldest, token).clocks;
    assert Hits(log[j], k, w);
    ScanFinds(log, |log|, w, None);
    var m := ScanStart(log, base, w);
    assert log[m].tag.value.key == k && j <= m;
    assert m != j ==> !IsTag(log[m], k, t);
    var s := StartOf(log, w, m);
    assert s == m + 1;
    assert IsTag(log[i], k, t) && Occurs(log, 0, k, t);
    assert !Occurs(log, s, k, t);
    assert !Covers(log, rp, s);
    assert !Sound(log, base, newest, oldest, rp, token);
  }

  /**
   On a tagged log whose ticks are all known, resolution covers for every recovery point exactly when the log is
   replayable.
   */
  lemma CoverageIffReplayable(log: Log, base: nat, newest: Clocks, oldest: Clocks, token: nat)
    requires AllTagged(log, 0) && Numbered(log, base) && Bounded(log, newest) && CutoffBelow(oldest, newest)
    ensures (forall rp :: Sound(log, base, newest, oldest, rp, token)) <==> Replayable(log, oldest)
  {
    if Replayable(log, oldest) {
      forall rp ensures Sound(log, base, newest, oldest, rp, token) {
        if Resolve(log, rp, newest, oldest, token).Ok? {
          DeltaCovers(log, base, rp, newest, oldest, token);
        }
      }
    } else {
      var i, j :| 0 <= i < j < |log| && SteppedBack(log[i], log[j])
                  && log[i].tag.value.tick > TickOf(oldest, log[i].tag.value.key)
                  && !Occurs(log, j + 1, log[i].tag.value.key, log[i].tag.value.tick);
      StepBackUnsound(log, base, newest, oldest, token, i, j);
    }
  }

  // ----- exactness

  /** From any record of a clock, every higher tick the log holds of that clock, and every one between, comes later. */
  ghost predicate GapFree(log: Log) {
    forall i, j, t: nat :: 0 <= i < |log| && 0 <= j < |log| && BelowUpTo(log[i], t, log[j])
                           ==> Occurs(log, i + 1, log[i].tag.value.key, t)
  }

  /** Same clock, and `t` lies above the tick of `a` and not above that of `b`. */
  predicate BelowUpTo(a: Entry, t: nat, b: Entry) {
    Readable(a) && Readable(b) && a.tag.value.key == b.tag.value.key && a.tag.value.tick < t <= b.tag.value.tick
  }

  lemma GapFreeReplayable(log: Log, oldest: Clocks)
    requires GapFree(log)
    ensures Replayable(log, oldest)
  {
    forall i, j | 0 <= i < j < |log| && SteppedBack(log[i], log[j])
      ensures Occurs(log, j + 1, log[i].tag.value.key, log[i].tag.value.tick)
    {
      assert BelowUpTo(log[j], log[i].tag.value.tick, log[i]);
    }
  }

  /** For every clock on which the source is ahead, the record with its newest tick is in the log. */
  ghost predicate NewestLogged(log: Log, rp: Clocks, newest: Clocks) {
    forall k :: Lags(rp, newest, k) ==> Occurs(log, 0, k, newest[k].tick)
  }

  /**
   `None` means equal: it is returned exactly when the recovery point has all clocks of the source at the same ticks.
   */
  lemma NoneIffEqual(log: Log, base: nat, rp: Clocks, newest: Clocks, oldest: Clocks, token: nat)
    requires Replayable(log, oldest) && Bounded(log, newest) && Numbered(log, base)
    requires NewestLogged(log, rp, newest) && Positive(newest) && CutoffBelow(oldest, newest)
    ensures Resolve(log, rp, newest, oldest, token) == Ok(None) <==> rp != map[] && SameTicks(rp, newest)
  {
    hide Increased, WithMissing, WithoutEqual;
    if Resolve(log, rp, newest, oldest, token) == Ok(None) {
      DeltaCovers(log, base, rp, newest, oldest, token);
      WantedAreLagging(rp, newest, oldest, token);
      forall k | k in newest ensures k in rp && rp[k].tick == newest[k].tick {
        assert !Occurs(log, |log|, k, newest[k].tick);
        assert !Lags(rp, newest, k);
      }
    }
    if rp != map[] && SameTicks(rp, newest) {
      assert !HasClocksNotIn(rp, newest) && !HasAnyNewerThan(rp, newest);
      var wanted := WithMissing(Increased(rp, 1), Increased(newest, 1), token);
      assert !HasAnyOlderThan(wanted, Increased(oldest, 1));
      WantedAreLagging(rp, newest, oldest, token);
      var w := Prepare(rp, newest, oldest, token).clocks;
      assert forall k :: k !in w;
      assert w == map[];
    }
  }

  /**
   Exactly when nothing is to be sent: no clock lags, or one does, and the last record of the log is a tagged record of
   that clock which the target already has. In the second case the newest tick of the lagging clock is not in the log.
   */
  lemma NothingToSendIff(log: Log, rp: Clocks, newest: Clocks, oldest: Clocks, token: nat)
    requires Prepare(rp, newest, oldest, token).Wanted?
    ensures Resolve(log, rp, newest, oldest, token) == Ok(None)
       <==> (forall k :: !Lags(rp, newest, k)) || HiddenByLast(log, rp, newest)
  {
    WantedAreLagging(rp, newest, oldest, token);
    hide Prepare, Scan;
    var w := Prepare(rp, newest, oldest, token).clocks;
    if w == map[] {
      assert forall k :: !Lags(rp, newest, k);
    } else {
      ScanNoneIff(log, w);
      var k0 :| k0 in w;
      assert Lags(rp, newest, k0);
    }
  }

  /**
   The scan has nothing to name exactly when the last record alone satisfies all that is wanted, with a tick to spare.
   */
  lemma ScanNoneIff(log: Log, w: Clocks)
    requires w != map[]
    ensures Scan(log, |log|, w, None) == Ok(None)
       <==> log != [] && Readable(log[|log| - 1])
            && var tag := log[|log| - 1].tag.value;
               tag.key in w && tag.tick < w[tag.key].tick && forall k :: k in w ==> k == tag.key
  {
    var n := |log|;
    if Scan(log, n, w, None) == Ok(None) {
      var m := ScanStops(log, n, w, None);
      hide Scan;
      assert m == n - 1 && StartOf(log, w, m) == n;
    } else if n > 0 && Readable(log[n - 1]) && Satisfies(w, log[n - 1].tag.value)
              && forall k :: k in w ==> k == log[n - 1].tag.value.key {
      LastSatisfiesAll(w, log[n - 1].tag.value);
    }
  }

  /** The last record carries a tick the target has, of the one clock on which it lags. */
  ghost predicate HiddenByLast(log: Log, rp: Clocks, newest: Clocks) {
    log != [] && Readable(log[|log| - 1])
    && var tag := log[|log| - 1].tag.value;
       tag.tick <= TickOf(rp, tag.key) && forall k :: Lags(rp, newest, k) <==> k == tag.key
  }

  lemma LastSatisfiesAll(w: Clocks, tag: ClockTag)
    requires Satisfies(w, tag) && forall k :: k in w ==> k == tag.key
    ensures RemoveSatisfied(w, tag) == map[]
  {
    var rest := RemoveSatisfied(w, tag);
    assert forall k :: k !in rest;
  }

  /** On a gap-free log the scan ends on the last record of the first missing tick of some lagging clock. */
  lemma StopIsFirstMissing(log: Log, rp: Clocks, newest: Clocks, oldest: Clocks, w: Clocks, m: nat)
    requires GapFree(log) && StopsAt(log, |log|, w, m)
    requires WantedFor(w, rp, newest, oldest) && NewestLogged(log, rp, newest)
    ensures var k := log[m].tag.value.key;
            StartOf(log, w, m) == m && log[m].tag.value.tick == TickOf(rp, k) + 1
            && !Occurs(log, m + 1, k, TickOf(rp, k) + 1)
  {
    var k := log[m].tag.value.key;
    var t := w[k].tick;
    forall j | m + 1 <= j < |log| ensures !IsTag(log[j], k, t) {
      assert !Hits(log[j], k, w);
    }
    var j :| 0 <= j < |log| && IsTag(log[j], k, newest[k].tick);
    assert log[m].tag.value.tick < t ==> BelowUpTo(log[m], t, log[j]);
  }

  /** The index returned is the latest from which replay covers: earlier ones cover too, later ones miss a tag. */
  lemma DeltaIsLatest(log: Log, base: nat, rp: Clocks, newest: Clocks, oldest: Clocks, token: nat)
    requires GapFree(log) && Bounded(log, newest) && Numbered(log, base) && NewestLogged(log, rp, newest)
    requires Resolve(log, rp, newest, oldest, token).Ok?
    ensures var s := StartIndex(log, base, Resolve(log, rp, newest, oldest, token));
            forall s' :: 0 <= s' <= |log| ==> (Covers(log, rp, s') <==> s' <= s)
  {
    GapFreeReplayable(log, oldest);
    DeltaCovers(log, base, rp, newest, oldest, token);
    WantedAreLagging(rp, newest, oldest, token);
    var w := Prepare(rp, newest, oldest, token).clocks;
    var s := StartIndex(log, base, Resolve(log, rp, newest, oldest, token));
    if w != map[] {
      var m := ScanStart(log, base, w);
      StopIsFirstMissing(log, rp, newest, oldest, w, m);
      var k := log[m].tag.value.key;
      assert IsTag(log[m], k, TickOf(rp, k) + 1) && Occurs(log, 0, k, TickOf(rp, k) + 1);
      forall s': nat | s < s' <= |log| ensures !Covers(log, rp, s') {
        assert !Occurs(log, s', k, TickOf(rp, k) + 1);
      }
    }
    forall s': nat | s' <= s ensures Covers(log, rp, s') {
      EarlierCovers(log, rp, s, s');
    }
  }

  lemma EarlierCovers(log: Log, rp: Clocks, s: nat, s': nat)
    requires s' <= s && Covers(log, rp, s)
    ensures Covers(log, rp, s')
  {
    forall k, t: nat | t > TickOf(rp, k) && Occurs(log, 0, k, t) ensures Occurs(log, s', k, t) {
      var j :| s <= j < |log| && IsTag(log[j], k, t);
    }
  }

  // ----- when no delta is found

  lemma {:induction false} ScanTagged(log: Log, i: nat, rp: Clocks, last: Option<nat>)
    requires i <= |log| && AllTagged(log, 0)
    ensures Scan(log, i, rp, last).Ok? || Scan(log, i, rp, last) == Err(NotFound)
    decreases i
  {
    if i > 0 && RemoveSatisfied(rp, log[i - 1].tag.value) != map[] {
      ScanTagged(log, i - 1, RemoveSatisfied(rp, log[i - 1].tag.value), Some(log[i - 1].opNum));
    }
  }

  /**
   On a tagged log a delta is missing exactly when some lagging clock has no record at or before its first missing
   tick.
   */
  lemma NotFoundIffTruncated(log: Log, rp: Clocks, newest: Clocks, oldest: Clocks, token: nat)
    requires AllTagged(log, 0) && Prepare(rp, newest, oldest, token).Wanted?
    ensures Resolve(log, rp, newest, oldest, token) == Err(NotFound)
       <==> exists k :: Lags(rp, newest, k)
                        && forall j :: 0 <= j < |log| && log[j].tag.value.key == k
                            ==> log[j].tag.value.tick > TickOf(rp, k) + 1
  {
    WantedAreLagging(rp, newest, oldest, token);
    var w := Prepare(rp, newest, oldest, token).clocks;
    if w != map[] {
      ScanTagged(log, |log|, w, None);
      if Scan(log, |log|, w, None).Ok? {
        var m := ScanStops(log, |log|, w, None);
        forall k | Lags(rp, newest, k) ensures exists j :: 0 <= j < |log| && Hits(log[j], k, w) {
          assert k in w;
          assert k == log[m].tag.value.key ==> Hits(log[m], k, w);
        }
      } else if forall k :: k in w ==> exists j :: 0 <= j < |log| && Hits(log[j], k, w) {
        ScanFinds(log, |log|, w, None);
      } else {
        var k :| k in w && !exists j :: 0 <= j < |log| && Hits(log[j], k, w);
        assert Lags(rp, newest, k);
        forall j | 0 <= j < |log| && log[j].tag.value.key == k ensures log[j].tag.value.tick > TickOf(rp, k) + 1 {
          assert !Hits(log[j], k, w);
        }
      }
    }
  }
}
