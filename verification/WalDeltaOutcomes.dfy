/** Every outcome of a delta resolution, told from the ticks and the log alone. */
module WalDeltaOutcomes {
  import opened Options
  import opened ClockMaps
  import opened WalDelta
  import opened WalDeltaTheorems

  // ----- the checks

  /** Every clock of the recovery point is known to the source. */
  ghost predicate Known(rp: Clocks, newest: Clocks) {
    forall k :: k in rp ==> k in newest
  }

  ghost predicate NotAhead(rp: Clocks, newest: Clocks) {
    forall k :: k in rp && k in newest ==> rp[k].tick <= newest[k].tick
  }

  /** The log has not been cut off above the recovery point, on any clock of the source. */
  ghost predicate NotCutOff(rp: Clocks, newest: Clocks, oldest: Clocks) {
    forall k :: k in newest && k in oldest ==> TickOf(rp, k) >= oldest[k].tick
  }

  /** A recovery point that passes the checks; it need not have every clock of the source. */
  ghost predicate Acceptable(rp: Clocks, newest: Clocks, oldest: Clocks) {
    rp != map[] && Known(rp, newest) && NotAhead(rp, newest) && NotCutOff(rp, newest, oldest)
  }

  lemma PrepareOutcome(rp: Clocks, newest: Clocks, oldest: Clocks, token: nat)
    ensures var p := Prepare(rp, newest, oldest, token);
            && (p == Refused(Empty) <==> rp == map[])
            && (p == Refused(UnknownClocks) <==> rp != map[] && !Known(rp, newest))
            && (p == Refused(HigherThanCurrent) <==> rp != map[] && Known(rp, newest) && !NotAhead(rp, newest))
            && (p == Refused(Cutoff) <==> rp != map[] && Known(rp, newest) && NotAhead(rp, newest)
                                          && !NotCutOff(rp, newest, oldest))
            && (p.Wanted? <==> Acceptable(rp, newest, oldest))
  {
    hide Increased, WithMissing, WithoutEqual;
    var wanted := WithMissing(Increased(rp, 1), Increased(newest, 1), token);
    var cutoff := Increased(oldest, 1);
    assert forall k :: k in wanted ==> wanted[k].tick == TickOf(rp, k) + 1;
    if Known(rp, newest) {
      assert HasAnyNewerThan(rp, newest) <==> !NotAhead(rp, newest);
      assert forall k :: k in wanted <==> k in newest;
      if !NotCutOff(rp, newest, oldest) {
        var k :| k in newest && k in oldest && TickOf(rp, k) < oldest[k].tick;
        assert k in wanted && k in cutoff && wanted[k].tick < cutoff[k].tick;
      }
    }
  }

  // ----- the scan

  ghost predicate TaggedFrom(log: Log, m: nat, i: nat)
    requires i <= |log|
  {
    forall j :: m <= j < i ==> Readable(log[j])
  }

  /** Every wanted clock is satisfied by a record in the stretch. */
  ghost predicate SatisfiedFrom(log: Log, m: nat, i: nat, w: Clocks)
    requires i <= |log|
  {
    forall k :: k in w ==> exists j :: m <= j < i && Hits(log[j], k, w)
  }

  /** The scan read back as far as `m` and found a record that ends it with an error. */
  ghost predicate Meets(log: Log, m: nat, i: nat, w: Clocks)
    requires i <= |log|
  {
    m < i && !Readable(log[m]) && TaggedFrom(log, m + 1, i) && !SatisfiedFrom(log, m + 1, i, w)
  }

  /** How a scan ended, and where. */
  ghost predicate EndsAt(log: Log, m: nat, i: nat, w: Clocks, r: Resolved)
    requires i <= |log|
  {
    || (r.Ok? && m < i && TaggedFrom(log, m, i) && SatisfiedFrom(log, m, i, w))
    || (r == Err(WalReadError) && Meets(log, m, i, w) && log[m].Unreadable?)
    || (r == Err(UntaggedRecords) && Meets(log, m, i, w) && log[m].Entry?)
    || (r == Err(NotFound) && TaggedFrom(log, 0, i) && !SatisfiedFrom(log, 0, i, w))
  }

  lemma {:induction false} ScanOutcome(log: Log, i: nat, w: Clocks, last: Option<nat>) returns (m: nat)
    requires i <= |log| && w != map[]
    ensures EndsAt(log, m, i, w, Scan(log, i, w, last))
    decreases i
  {
    m := 0;
    if i == 0 {
      var k :| k in w;
    } else if !Readable(log[i - 1]) {
      m := i - 1;
      var k :| k in w;
    } else {
      var tag := log[i - 1].tag.value;
      var rest := RemoveSatisfied(w, tag);
      if rest == map[] {
        m := i - 1;
        assert forall k :: k in w ==> Hits(log[i - 1], k, w);
      } else {
        m := ScanOutcome(log, i - 1, rest, Some(log[i - 1].opNum));
        OneBack(log, m, i, w, Scan(log, i, w, last));
      }
    }
  }

  lemma OneBack(log: Log, m: nat, i: nat, w: Clocks, r: Resolved)
    requires 0 < i <= |log| && Readable(log[i - 1])
    requires EndsAt(log, m, i - 1, RemoveSatisfied(w, log[i - 1].tag.value), r)
    ensures EndsAt(log, m, i, w, r)
  {
    hide SatisfiedFrom;
    OneRecordLess(log, 0, i, w);
    if m < i {
      OneRecordLess(log, m, i, w);
    }
    if m + 1 < i {
      OneRecordLess(log, m + 1, i, w);
    }
  }

  /** Reading one record back leaves to be satisfied what it does not satisfy. */
  lemma OneRecordLess(log: Log, m: nat, i: nat, w: Clocks)
    requires m < i <= |log| && Readable(log[i - 1])
    ensures SatisfiedFrom(log, m, i - 1, RemoveSatisfied(w, log[i - 1].tag.value)) <==> SatisfiedFrom(log, m, i, w)
  {
    var rest := RemoveSatisfied(w, log[i - 1].tag.value);
    if SatisfiedFrom(log, m, i - 1, rest) {
      forall k | k in w ensures exists j :: m <= j < i && Hits(log[j], k, w) {
        if k in rest {
          var j :| m <= j < i - 1 && Hits(log[j], k, rest);
          assert Hits(log[j], k, w);
        } else {
          assert Hits(log[i - 1], k, w);
        }
      }
    }
    if SatisfiedFrom(log, m, i, w) {
      forall k | k in rest ensures exists j :: m <= j < i - 1 && Hits(log[j], k, rest) {
        var j :| m <= j < i && Hits(log[j], k, w);
        assert Hits(log[j], k, rest) && j != i - 1;
      }
    }
  }

  // ----- every outcome

  /** From record index `m` on the log has, of every clock that lags, a record not above its first missing tick. */
  ghost predicate ServedFrom(log: Log, m: nat, rp: Clocks, newest: Clocks) {
    forall k :: Lags(rp, newest, k) ==> exists j :: m <= j < |log| && AtMost(log[j], k, TickOf(rp, k) + 1)
  }

  predicate AtMost(e: Entry, k: Key, t: nat) {
    Readable(e) && e.tag.value.key == k && e.tag.value.tick <= t
  }

  /** The last record that cannot be read, or has no tag, is at `m`, and some lagging clock is not served after it. */
  ghost predicate BlockedAt(log: Log, m: nat, rp: Clocks, newest: Clocks) {
    m < |log| && !Readable(log[m]) && AllTagged(log, m + 1) && !ServedFrom(log, m + 1, rp, newest)
  }

  lemma ServedIsSatisfied(log: Log, m: nat, rp: Clocks, newest: Clocks, oldest: Clocks, w: Clocks)
    requires WantedFor(w, rp, newest, oldest)
    ensures SatisfiedFrom(log, m, |log|, w) <==> ServedFrom(log, m, rp, newest)
  {
    forall j, k | 0 <= j < |log| && k in w ensures Hits(log[j], k, w) <==> AtMost(log[j], k, TickOf(rp, k) + 1) {
    }
    if SatisfiedFrom(log, m, |log|, w) {
      forall k | Lags(rp, newest, k) ensures exists j :: m <= j < |log| && AtMost(log[j], k, TickOf(rp, k) + 1) {
        var j :| m <= j < |log| && Hits(log[j], k, w);
      }
    }
    if ServedFrom(log, m, rp, newest) {
      forall k | k in w ensures exists j :: m <= j < |log| && Hits(log[j], k, w) {
        var j :| m <= j < |log| && AtMost(log[j], k, TickOf(rp, k) + 1);
      }
    }
  }

  lemma ServedEarlier(log: Log, m: nat, m': nat, rp: Clocks, newest: Clocks)
    requires m' <= m && ServedFrom(log, m, rp, newest)
    ensures ServedFrom(log, m', rp, newest)
  {
    forall k | Lags(rp, newest, k) ensures exists j :: m' <= j < |log| && AtMost(log[j], k, TickOf(rp, k) + 1) {
      var j :| m <= j < |log| && AtMost(log[j], k, TickOf(rp, k) + 1);
    }
  }

  /**
   Of an acceptable recovery point: it is answered exactly when no clock lags or some tagged end of the log serves every
   lagging clock; otherwise the error names what ended the scan.
   */
  lemma AcceptableOutcome(log: Log, rp: Clocks, newest: Clocks, oldest: Clocks, token: nat)
    requires Acceptable(rp, newest, oldest)
    ensures var r := Resolve(log, rp, newest, oldest, token);
            && (r.Ok? <==> exists m: nat :: m <= |log| && AllTagged(log, m) && ServedFrom(log, m, rp, newest))
            && (r == Err(WalReadError) <==> exists m: nat :: BlockedAt(log, m, rp, newest) && log[m].Unreadable?)
            && (r == Err(UntaggedRecords) <==> exists m: nat :: BlockedAt(log, m, rp, newest) && log[m].Entry?)
            && (r == Err(NotFound) <==> AllTagged(log, 0) && !ServedFrom(log, 0, rp, newest))
  {
    PrepareOutcome(rp, newest, oldest, token);
    WantedAreLagging(rp, newest, oldest, token);
    var w := Prepare(rp, newest, oldest, token).clocks;
    hide Prepare, Acceptable, Scan, Lags, WantedFor;
    forall m: nat ensures SatisfiedFrom(log, m, |log|, w) <==> ServedFrom(log, m, rp, newest) {
      ServedIsSatisfied(log, m, rp, newest, oldest, w);
    }
    if w == map[] {
      forall m: nat ensures ServedFrom(log, m, rp, newest) {
        assert SatisfiedFrom(log, m, |log|, w);
      }
      assert AllTagged(log, |log|) && ServedFrom(log, |log|, rp, newest);
    } else {
      var m := ScanOutcome(log, |log|, w, None);
      OutcomesExclude(log, m, rp, newest, Resolve(log, rp, newest, oldest, token));
    }
  }

  /** The conditions of the outcomes exclude each other, so each holds of its own outcome only. */
  lemma OutcomesExclude(log: Log, m: nat, rp: Clocks, newest: Clocks, r: Resolved)
    requires
      || (r.Ok? && m < |log| && AllTagged(log, m) && ServedFrom(log, m, rp, newest))
      || (r == Err(WalReadError) && BlockedAt(log, m, rp, newest) && log[m].Unreadable?)
      || (r == Err(UntaggedRecords) && BlockedAt(log, m, rp, newest) && log[m].Entry?)
      || (r == Err(NotFound) && AllTagged(log, 0) && !ServedFrom(log, 0, rp, newest))
    ensures
      && (r.Ok? <==> exists x: nat :: x <= |log| && AllTagged(log, x) && ServedFrom(log, x, rp, newest))
      && (r == Err(WalReadError) <==> exists x: nat :: BlockedAt(log, x, rp, newest) && log[x].Unreadable?)
      && (r == Err(UntaggedRecords) <==> exists x: nat :: BlockedAt(log, x, rp, newest) && log[x].Entry?)
      && (r == Err(NotFound) <==> AllTagged(log, 0) && !ServedFrom(log, 0, rp, newest))
  {
    hide ServedFrom;
    forall a: nat, b: nat | a <= b && ServedFrom(log, b, rp, newest) ensures ServedFrom(log, a, rp, newest) {
      ServedEarlier(log, b, a, rp, newest);
    }
  }

  /** Every outcome of a resolution, each by its own condition. */
  lemma ResolveOutcome(log: Log, rp: Clocks, newest: Clocks, oldest: Clocks, token: nat)
    ensures var r := Resolve(log, rp, newest, oldest, token);
            && (r == Err(Empty) <==> rp == map[])
            && (r == Err(UnknownClocks) <==> rp != map[] && !Known(rp, newest))
            && (r == Err(HigherThanCurrent) <==> rp != map[] && Known(rp, newest) && !NotAhead(rp, newest))
            && (r == Err(Cutoff) <==> rp != map[] && Known(rp, newest) && NotAhead(rp, newest)
                                      && !NotCutOff(rp, newest, oldest))
            && (r.Ok? <==> Acceptable(rp, newest, oldest)
                           && exists m: nat :: m <= |log| && AllTagged(log, m) && ServedFrom(log, m, rp, newest))
  {
    PrepareOutcome(rp, newest, oldest, token);
    if Acceptable(rp, newest, oldest) {
      AcceptableOutcome(log, rp, newest, oldest, token);
      hide Prepare, ServedFrom, AllTagged, BlockedAt, Known, NotAhead, NotCutOff;
      var w := Prepare(rp, newest, oldest, token).clocks;
      if w != map[] {
        var m := ScanOutcome(log, |log|, w, None);
      }
    }
  }

  /**
   A tagged log that still holds, of every lagging clock, the first tick the target lacks, answers every acceptable
   recovery point, also one that has never seen some clock of the source; on a gap-free log with the latest start that
   covers.
   */
  lemma AcceptableIsServed(log: Log, base: nat, rp: Clocks, newest: Clocks, oldest: Clocks, token: nat)
    requires Acceptable(rp, newest, oldest) && AllTagged(log, 0) && Numbered(log, base)
    requires forall k :: Lags(rp, newest, k) ==> Occurs(log, 0, k, TickOf(rp, k) + 1)
    ensures Resolve(log, rp, newest, oldest, token).Ok?
    ensures GapFree(log) && Bounded(log, newest) && NewestLogged(log, rp, newest) ==>
              var s := StartIndex(log, base, Resolve(log, rp, newest, oldest, token));
              0 <= s <= |log| && forall s' :: 0 <= s' <= |log| ==> (Covers(log, rp, s') <==> s' <= s)
  {
    AcceptableOutcome(log, rp, newest, oldest, token);
    forall k | Lags(rp, newest, k) ensures exists j :: 0 <= j < |log| && AtMost(log[j], k, TickOf(rp, k) + 1) {
      var j :| 0 <= j < |log| && IsTag(log[j], k, TickOf(rp, k) + 1);
      assert AtMost(log[j], k, TickOf(rp, k) + 1);
    }
    assert ServedFrom(log, 0, rp, newest);
    hide Resolve, Acceptable, ServedFrom, BlockedAt, Covers;
    if GapFree(log) && Bounded(log, newest) && NewestLogged(log, rp, newest) {
      DeltaIsLatest(log, base, rp, newest, oldest, token);
      GapFreeReplayable(log, oldest);
      DeltaCovers(log, base, rp, newest, oldest, token);
    }
  }
}
