/** Resolving from which record on a lagging replica must be replayed. */
module WalDelta {
  import opened Options
  import opened ClockMaps

  datatype WalDeltaError =
    | Empty | UnknownClocks | HigherThanCurrent | Cutoff | UntaggedRecords | NotFound | WalReadError

  datatype Resolved = Ok(from: Option<nat>) | Err(error: WalDeltaError)

  /** One item of the record iterator: a record number with its tag, or a failed read. */
  datatype Entry = Entry(opNum: nat, tag: Option<ClockTag>) | Unreadable

  type Log = seq<Entry>

  datatype Prepared = Wanted(clocks: Clocks) | Refused(error: WalDeltaError)

  /** The checks before the scan; on success the clocks still to satisfy, each at its first missing tick. */
  ghost function Prepare(rp: Clocks, newest: Clocks, oldest: Clocks, token: nat): Prepared {
    if rp == map[] then Refused(Empty)
    else if HasClocksNotIn(rp, newest) then Refused(UnknownClocks)
    else if HasAnyNewerThan(rp, newest) then Refused(HigherThanCurrent)
    else
      var wanted := WithMissing(Increased(rp, 1), Increased(newest, 1), token);
      if HasAnyOlderThan(wanted, Increased(oldest, 1)) then Refused(Cutoff)
      else Wanted(WithoutEqual(wanted, Increased(newest, 1)))
  }

  /** The backward scan over the first `i` entries; `last` is the record number seen just before. */
  function Scan(log: Log, i: nat, rp: Clocks, last: Option<nat>): Resolved
    requires i <= |log|
  {
    if i == 0 then Err(NotFound)
    else
      match log[i - 1]
      case Unreadable => Err(WalReadError)
      case Entry(_, None) => Err(UntaggedRecords)
      case Entry(opNum, Some(tag)) =>
        var rest := RemoveSatisfied(rp, tag);
        if rest == map[] then
          Ok(if tag.key in rp && rp[tag.key].tick == tag.tick then Some(opNum) else last)
        else Scan(log, i - 1, rest, Some(opNum))
  }

  ghost function Resolve(log: Log, rp: Clocks, newest: Clocks, oldest: Clocks, token: nat): Resolved {
    match Prepare(rp, newest, oldest, token)
    case Refused(e) => Err(e)
    case Wanted(clocks) => if clocks == map[] then Ok(None) else Scan(log, |log|, clocks, None)
  }

  /** The resolution as it runs: the recovery point is shifted, extended and drained in place. */
  method ResolveWalDelta(log: Log, rp: Clocks, newest: Clocks, oldest: Clocks, token: nat) returns (res: Resolved)
    ensures res == Resolve(log, rp, newest, oldest, token)
  {
    hide Increased, WithMissing, WithoutEqual, HasClocksNotIn, HasAnyNewerThan, HasAnyOlderThan;
    if rp == map[] {
      return Err(Empty);
    }
    if HasClocksNotIn(rp, newest) {
      return Err(UnknownClocks);
    }
    if HasAnyNewerThan(rp, newest) {
      return Err(HigherThanCurrent);
    }
    var wanted := IncreaseAllClocksBy(rp, 1);
    var newest1 := IncreaseAllClocksBy(newest, 1);
    var oldest1 := IncreaseAllClocksBy(oldest, 1);
    wanted := InitializeClocksMissingFrom(wanted, newest1, token);
    if HasAnyOlderThan(wanted, oldest1) {
      return Err(Cutoff);
    }
    wanted := RemoveClocksEqualTo(wanted, newest1);
    if wanted == map[] {
      return Ok(None);
    }
    ghost var goal := Scan(log, |log|, wanted, None);
    var last: Option<nat> := None;
    var i := |log|;
    while i > 0
      invariant 0 <= i <= |log| && wanted != map[]
      invariant Scan(log, i, wanted, last) == goal
    {
      i := i - 1;
      match log[i]
      case Unreadable =>
        return Err(WalReadError);
      case Entry(_, None) =>
        return Err(UntaggedRecords);
      case Entry(opNum, Some(tag)) =>
        var removedEqual := Satisfies(wanted, tag) && wanted[tag.key].tick == tag.tick;
        wanted := RemoveSatisfied(wanted, tag);
        if wanted == map[] {
          return Ok(if removedEqual then Some(opNum) else last);
        }
        last := Some(opNum);
    }
    return Err(NotFound);
  }

  // ----- what the log holds

  predicate IsTag(e: Entry, k: Key, t: nat) {
    e.Entry? && e.tag.Some? && e.tag.value.key == k && e.tag.value.tick == t
  }

  ghost predicate Occurs(log: Log, lo: nat, k: Key, t: nat) {
    exists j :: lo <= j < |log| && IsTag(log[j], k, t)
  }

  predicate Readable(e: Entry) {
    e.Entry? && e.tag.Some?
  }

  ghost predicate AllTagged(log: Log, lo: nat) {
    forall j :: lo <= j < |log| ==> Readable(log[j])
  }

  /** No record is tagged above the highest seen tick of its clock. */
  ghost predicate Bounded(log: Log, newest: Clocks) {
    forall j :: 0 <= j < |log| && Readable(log[j]) ==> log[j].tag.value.tick <= TickOf(newest, log[j].tag.value.key)
  }

  /** Replaying from record index `s` delivers every tag of the log that is above the recovery point. */
  ghost predicate Covers(log: Log, rp: Clocks, s: nat) {
    forall k, t :: t > TickOf(rp, k) && Occurs(log, 0, k, t) ==> Occurs(log, s, k, t)
  }

  /** Whenever a clock steps back, each tick it stepped back from, unless already cut off, comes again later. */
  ghost predicate Replayable(log: Log, oldest: Clocks) {
    forall i, j :: 0 <= i < j < |log| && SteppedBack(log[i], log[j])
                   && log[i].tag.value.tick > TickOf(oldest, log[i].tag.value.key)
                   ==> Occurs(log, j + 1, log[i].tag.value.key, log[i].tag.value.tick)
  }

  /** `b` carries a lower tick of the same clock as `a`. */
  predicate SteppedBack(a: Entry, b: Entry) {
    Readable(a) && Readable(b) && a.tag.value.key == b.tag.value.key && b.tag.value.tick < a.tag.value.tick
  }

  // ----- where the scan stops

  /** `e` satisfies the wanted clock `k`. */
  predicate Hits(e: Entry, k: Key, rp: Clocks) {
    Readable(e) && e.tag.value.key == k && Satisfies(rp, e.tag.value)
  }

  ghost predicate StopsAt(log: Log, i: nat, rp: Clocks, m: nat)
    requires i <= |log|
  {
    && m < i
    && (forall j :: m <= j < i ==> Readable(log[j]))
    && Hits(log[m], log[m].tag.value.key, rp)
    && (forall j :: m < j < i ==> !Hits(log[j], log[m].tag.value.key, rp))
    && (forall k :: k in rp && k != log[m].tag.value.key ==> exists j :: m < j < i && Hits(log[j], k, rp))
  }

  function NumAt(log: Log, i: nat): (r: Option<nat>)
    requires i < |log| && log[i].Entry?
  {
    Some(log[i].opNum)
  }

  /** Record index the scan that stopped at `m` tells the caller to start from. */
  function StartOf(log: Log, rp: Clocks, m: nat): (s: nat)
    requires m < |log| && Readable(log[m]) && Satisfies(rp, log[m].tag.value)
    ensures m <= s <= m + 1
  {
    if rp[log[m].tag.value.key].tick == log[m].tag.value.tick then m else m + 1
  }

  /** A successful scan stopped where the last wanted clock was satisfied, having read tagged records only. */
  lemma {:induction false} ScanStops(log: Log, i: nat, rp: Clocks, last: Option<nat>) returns (m: nat)
    requires i <= |log| && rp != map[] && Scan(log, i, rp, last).Ok?
    ensures StopsAt(log, i, rp, m)
    ensures Scan(log, i, rp, last).from == (if StartOf(log, rp, m) < i then NumAt(log, StartOf(log, rp, m)) else last)
    decreases i
  {
    var e := log[i - 1];
    var tag := e.tag.value;
    var rest := RemoveSatisfied(rp, tag);
    if rest == map[] {
      m := i - 1;
      assert forall k :: k in rp ==> k == tag.key;
      assert exists k :: k in rp;
      assert Satisfies(rp, tag);
    } else {
      m := ScanStops(log, i - 1, rest, Some(e.opNum));
      var k0 := log[m].tag.value.key;
      assert rest[k0] == rp[k0];
      forall k | k in rp && k != k0 ensures exists j :: m < j < i && Hits(log[j], k, rp) {
        if k in rest {
          var j :| m < j < i - 1 && Hits(log[j], k, rest);
          assert Hits(log[j], k, rp);
        } else {
          assert Hits(log[i - 1], k, rp);
        }
      }
      forall j | m < j < i ensures !Hits(log[j], k0, rp) {
        if j < i - 1 {
          assert !Hits(log[j], k0, rest);
        } else {
          assert k0 in rest;
        }
      }
    }
  }
}
