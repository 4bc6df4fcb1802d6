/** The recoverable WAL object, and recovery of one replica from another. */
module RecoverableWals {
  import opened Options
  import opened ClockMaps
  import opened WalDelta
  import opened WalDeltaTheorems

  datatype Operation = Operation(payload: int, tag: Option<ClockTag>)

  /** The log as the resolution reads it: records numbered from `base`. */
  function Records(ops: seq<Operation>, base: nat): (log: Log)
    ensures |log| == |ops| && forall i :: 0 <= i < |ops| ==> log[i] == Entry(base + i, ops[i].tag)
  {
    seq(|ops|, i requires 0 <= i < |ops| => Entry(base + i, ops[i].tag))
  }

  // ----- what replaying operations does to the clocks

  /** Whether a write is let into the WAL. */
  predicate Accepted(c: Clocks, op: Operation) {
    op.tag.None? || AdvanceClock(c, op.tag.value).accepted || op.tag.value.force
  }

  function AfterWrite(c: Clocks, op: Operation): Clocks {
    if op.tag.None? then c else AdvanceClock(c, op.tag.value).clocks
  }

  function AfterWrites(c: Clocks, ops: seq<Operation>): Clocks {
    if ops == [] then c else AfterWrite(AfterWrites(c, ops[..|ops| - 1]), ops[|ops| - 1])
  }

  predicate Carries(op: Operation, k: Key, t: nat) {
    op.tag.Some? && op.tag.value.key == k && op.tag.value.tick == t
  }

  /** A clock ends at the highest of its old tick and the ticks written. */
  lemma {:induction false} AfterWritesIsMax(c: Clocks, ops: seq<Operation>, k: Key)
    requires Positive(c)
    ensures Positive(AfterWrites(c, ops)) && TickOf(AfterWrites(c, ops), k) >= TickOf(c, k)
    ensures forall op :: op in ops && op.tag.Some? && op.tag.value.key == k
              ==> op.tag.value.tick <= TickOf(AfterWrites(c, ops), k)
    ensures TickOf(AfterWrites(c, ops), k) == TickOf(c, k)
            || exists op :: op in ops && Carries(op, k, TickOf(AfterWrites(c, ops), k))
    ensures k in c ==> k in AfterWrites(c, ops)
  {
    if ops != [] {
      var i := |ops| - 1;
      AfterWritesIsMax(c, ops[..i], k);
      var before := AfterWrites(c, ops[..i]);
      assert ops == ops[..i] + [ops[i]];
      assert ops[i] in ops;
      if ops[i].tag.Some? {
        AdvanceIsMax(before, ops[i].tag.value);
      }
    }
  }

  // ----- merging a cutoff into a clock map

  /** Every clock at the higher of the two ticks; a cutoff tick 0 adds no clock. */
  ghost predicate MergedInto(c: Clocks, cutoff: Clocks, r: Clocks) {
    forall k :: (k in r <==> k in c || (k in cutoff && cutoff[k].tick > 0))
                && TickOf(r, k) == if TickOf(c, k) < TickOf(cutoff, k) then TickOf(cutoff, k) else TickOf(c, k)
  }

  method AdvanceAll(m: ClockMap, cutoff: Clocks)
    requires Positive(m.clocks)
    modifies m`clocks, m`changed
    ensures Positive(m.clocks) && MergedInto(old(m.clocks), cutoff, m.clocks)
  {
    var todo := cutoff.Keys;
    ghost var done: set<Key> := {};
    while todo != {}
      invariant todo <= cutoff.Keys && done == cutoff.Keys - todo && Positive(m.clocks)
      invariant forall k :: (k in m.clocks <==> k in old(m.clocks) || (k in done && cutoff[k].tick > 0))
      invariant forall k :: TickOf(m.clocks, k) == if k in done && TickOf(old(m.clocks), k) < cutoff[k].tick
                                                   then cutoff[k].tick else TickOf(old(m.clocks), k)
      decreases todo
    {
      var k :| k in todo;
      var tag := ClockTag(k, cutoff[k].tick, cutoff[k].token, false);
      AdvanceIsMax(m.clocks, tag);
      var _, _ := m.AdvanceClockImpl(tag);
      todo := todo - {k};
      done := done + {k};
    }
  }

  datatype Written = Recorded(num: nat) | ClockRejected | WriteFailed

  class RecoverableWal {
    var wal: seq<Operation>
    const base: nat
    const newest: ClockMap
    const oldest: ClockMap

    constructor (base: nat)
      ensures wal == [] && this.base == base && fresh(newest) && fresh(oldest)
      ensures newest.clocks == map[] && newest.snapshot == None && oldest.clocks == map[] && oldest.snapshot == None
      ensures Valid()
    {
      wal, this.base := [], base;
      var n := new ClockMap();
      var o := new ClockMap();
      newest, oldest := n, o;
    }

    /** Ticks in the log never exceed the highest seen clocks, and neither does the cutoff. */
    ghost predicate Valid()
      reads this, newest, oldest
    {
      && newest != oldest
      && Positive(newest.clocks) && Positive(oldest.clocks)
      && Bounded(Records(wal, base), newest.clocks)
      && CutoffBelow(oldest.clocks, newest.clocks)
    }

    /**
     Advances the clock of a tagged operation and appends it, or rejects it and corrects its tag. If the record cannot
     be written the clock has advanced all the same.
     */
    method LockAndWrite(op: Operation, writable: bool) returns (res: Written, op': Operation)
      requires Valid()
      modifies this`wal, newest`clocks, newest`changed
      ensures Valid()
      ensures newest.clocks == AfterWrite(old(newest.clocks), op)
      ensures if !Accepted(old(newest.clocks), op)
              then res == ClockRejected && wal == old(wal) && newest.clocks == old(newest.clocks)
                   && op'.tag.Some? && op'.tag.value.tick == TickOf(newest.clocks, op.tag.value.key)
              else op' == op && if writable then res == Recorded(base + |old(wal)|) && wal == old(wal) + [op]
                                else res == WriteFailed && wal == old(wal)
    {
      op' := op;
      if op.tag.Some? {
        AdvanceIsMax(newest.clocks, op.tag.value);
        var accepted, tag := newest.AdvanceClockAndCorrectTag(op.tag.value);
        op' := op.(tag := Some(tag));
        if !accepted {
          RejectedUnchanged(old(newest.clocks), op.tag.value);
          return ClockRejected, op';
        }
      }
      if !writable {
        return WriteFailed, op';
      }
      wal := wal + [op'];
      res := Recorded(base + |wal| - 1);
    }

    /** Raises the cutoff, after raising the highest seen clocks alongside it. */
    method UpdateCutoff(cutoff: Clocks)
      requires Valid()
      modifies newest`clocks, newest`changed, oldest`clocks, oldest`changed
      ensures Valid()
      ensures MergedInto(old(newest.clocks), cutoff, newest.clocks)
      ensures MergedInto(old(oldest.clocks), cutoff, oldest.clocks)
    {
      AdvanceAll(newest, cutoff);
      AdvanceAll(oldest, cutoff);
    }

    method ResolveDelta(rp: Clocks, token: nat) returns (res: Resolved)
      ensures res == Resolve(Records(wal, base), rp, newest.ToRecoveryPoint(), oldest.ToRecoveryPoint(), token)
    {
      res := ResolveWalDelta(Records(wal, base), rp, newest.ToRecoveryPoint(), oldest.ToRecoveryPoint(), token);
    }

    /**
     Writes the other log's operations from record number `from` on, stopping at the first rejection or failed write;
     `writable` says which writes can be made.
     */
    method AppendFrom(other: RecoverableWal, from: nat, writable: nat -> bool) returns (ok: bool, count: nat)
      requires Valid() && other != this && newest != other.newest && newest != other.oldest
      requires other.base <= from <= other.base + |other.wal|
      modifies this`wal, newest`clocks, newest`changed
      ensures Valid()
      ensures var ops := other.wal[from - other.base..];
              count <= |ops| && wal == old(wal) + ops[..count]
              && if ok then count == |ops| && newest.clocks == AfterWrites(old(newest.clocks), ops)
                 else count < |ops| && newest.clocks == AfterWrites(old(newest.clocks), ops[..count + 1])
                      && (Accepted(AfterWrites(old(newest.clocks), ops[..count]), ops[count]) ==> !writable(count))
    {
      var ops := other.wal[from - other.base..];
      count := 0;
      while count < |ops|
        invariant 0 <= count <= |ops| && Valid()
        invariant wal == old(wal) + ops[..count]
        invariant newest.clocks == AfterWrites(old(newest.clocks), ops[..count])
      {
        assert ops[..count + 1][..count] == ops[..count];
        var res, _ := LockAndWrite(ops[count], writable(count));
        if !res.Recorded? {
          return false, count;
        }
        count := count + 1;
      }
      assert ops[..|ops|] == ops;
      ok := true;
    }
  }

  lemma RejectedUnchanged(c: Clocks, tag: ClockTag)
    requires !AdvanceClock(c, tag).accepted
    ensures AdvanceClock(c, tag).clocks == c
  {
  }

  // ----- recovery

  lemma RecordsNumbered(ops: seq<Operation>, base: nat)
    ensures Numbered(Records(ops, base), base)
  {
  }

  /** An operation at or after `s` in the log carries every tag that occurs there. */
  lemma SuffixCarries(ops: seq<Operation>, base: nat, s: nat, k: Key, t: nat)
    requires s <= |ops| && Occurs(Records(ops, base), s, k, t)
    ensures exists op :: op in ops[s..] && Carries(op, k, t)
  {
    var log := Records(ops, base);
    var j :| s <= j < |log| && IsTag(log[j], k, t);
    assert ops[s..][j - s] == ops[j];
    assert ops[j] in ops[s..] && Carries(ops[j], k, t);
  }

  /** The recovering replica has, or is sent, every tag of the source above its recovery point. */
  ghost predicate Delivers(ops: seq<Operation>, base: nat, rp: Clocks, sent: seq<Operation>) {
    forall k, t: nat :: t > TickOf(rp, k) && Occurs(Records(ops, base), 0, k, t)
                        ==> exists op :: op in sent && Carries(op, k, t)
  }

  ghost predicate Agree(a: Clocks, b: Clocks) {
    forall k :: TickOf(a, k) == TickOf(b, k)
  }

  /**
   Replaying the delta of a replayable log misses no tag, and brings every clock to the source's tick if and only if the
   newest tick of each lagging clock is in the log.
   */
  lemma ReplayConverges(ops: seq<Operation>, base: nat, rp: Clocks, newest: Clocks, oldest: Clocks, token: nat)
    requires var log := Records(ops, base); Replayable(log, oldest) && Bounded(log, newest)
    requires Resolve(Records(ops, base), rp, newest, oldest, token).Ok?
    ensures var log := Records(ops, base);
            var s := StartIndex(log, base, Resolve(log, rp, newest, oldest, token));
            0 <= s <= |ops| && Delivers(ops, base, rp, ops[s..])
            && (Positive(rp) ==> (Agree(AfterWrites(rp, ops[s..]), newest) <==> NewestLogged(log, rp, newest)))
  {
    var log := Records(ops, base);
    RecordsNumbered(ops, base);
    DeltaCovers(log, base, rp, newest, oldest, token);
    WantedAreLagging(rp, newest, oldest, token);
    var s := StartIndex(log, base, Resolve(log, rp, newest, oldest, token));
    hide Resolve, Replayable, AfterWrites;
    forall k, t: nat | t > TickOf(rp, k) && Occurs(log, 0, k, t)
      ensures exists op :: op in ops[s..] && Carries(op, k, t)
    {
      SuffixCarries(ops, base, s, k, t);
    }
    forall k | Positive(rp)
      ensures TickOf(AfterWrites(rp, ops[s..]), k) == TickOf(newest, k)
         <==> (Lags(rp, newest, k) ==> Occurs(log, 0, k, newest[k].tick))
    {
      ClockConvergesIff(ops, base, rp, newest, s, k);
    }
  }

  lemma ClockConvergesIff(ops: seq<Operation>, base: nat, rp: Clocks, newest: Clocks, s: nat, k: Key)
    requires var log := Records(ops, base); s <= |ops| && Bounded(log, newest) && Covers(log, rp, s)
    requires Positive(rp) && forall x :: x in rp ==> x in newest && rp[x].tick <= newest[x].tick
    ensures TickOf(AfterWrites(rp, ops[s..]), k) == TickOf(newest, k)
       <==> (Lags(rp, newest, k) ==> Occurs(Records(ops, base), 0, k, newest[k].tick))
  {
    var log := Records(ops, base);
    var sent := ops[s..];
    AfterWritesIsMax(rp, sent, k);
    hide AfterWrites;
    forall op | op in sent && op.tag.Some? && op.tag.value.key == k
      ensures op.tag.value.tick <= TickOf(newest, k) && Occurs(log, 0, k, op.tag.value.tick)
    {
      var i :| 0 <= i < |sent| && sent[i] == op;
      assert Readable(log[s + i]) && IsTag(log[s + i], k, op.tag.value.tick);
    }
    if Lags(rp, newest, k) && Occurs(log, 0, k, newest[k].tick) {
      SuffixCarries(ops, base, s, k, newest[k].tick);
    }
  }

  /** A successful resolution names a record of the log, or its end. */
  lemma StartInRange(log: Log, base: nat, rp: Clocks, newest: Clocks, oldest: Clocks, token: nat)
    requires Numbered(log, base) && Resolve(log, rp, newest, oldest, token).Ok?
    ensures 0 <= StartIndex(log, base, Resolve(log, rp, newest, oldest, token)) <= |log|
  {
    var w := Prepare(rp, newest, oldest, token).clocks;
    if w != map[] {
      var m := ScanStart(log, base, w);
    }
  }

  /**
   Recovers `target` from `source`: ask for the delta, replay it. `s` is the source index replayed from. What is gained
   depends on the source: on a replayable log with no clocks snapshot taken no tag is missed, and the clocks then agree
   if and only if the newest tick of each lagging clock was logged.
   */
  method Recover(target: RecoverableWal, source: RecoverableWal, token: nat, writable: nat -> bool)
    returns (res: Resolved, ok: bool, ghost s: int)
    requires target != source && target.newest != source.newest && target.newest != source.oldest
    requires target.Valid() && source.Valid()
    modifies target`wal, target.newest`clocks, target.newest`changed
    ensures target.Valid()
    ensures !res.Ok? ==> !ok && target.wal == old(target.wal) && target.newest.clocks == old(target.newest.clocks)
    ensures ok ==> 0 <= s <= |source.wal| && target.wal == old(target.wal) + source.wal[s..]
    ensures ok ==> target.newest.clocks == AfterWrites(old(target.newest.clocks), source.wal[s..])
    ensures var rp, log := old(target.newest.ToRecoveryPoint()), Records(source.wal, source.base);
            ok && source.newest.snapshot == None && Replayable(log, source.oldest.ToRecoveryPoint())
            ==> Delivers(source.wal, source.base, rp, source.wal[s..])
                && (target.newest.snapshot == None ==>
                      (Agree(target.newest.clocks, source.newest.clocks) <==>
                          NewestLogged(log, rp, source.newest.clocks)))
    ensures (forall op :: op in source.wal && op.tag.Some? ==> op.tag.value.force) && (forall i :: writable(i))
            ==> ok == res.Ok?
  {
    hide Replayable, NewestLogged, Bounded, Resolve, Delivers, Agree, CutoffBelow, AfterWrites, Records, StartIndex;
    ok, s := false, 0;
    var rp := target.newest.ToRecoveryPoint();
    res := source.ResolveDelta(rp, token);
    if res.Ok? {
      ghost var log := Records(source.wal, source.base);
      ghost var newest, oldest := source.newest.ToRecoveryPoint(), source.oldest.ToRecoveryPoint();
      RecordsNumbered(source.wal, source.base);
      StartInRange(log, source.base, rp, newest, oldest, token);
      if source.newest.snapshot == None && Replayable(log, oldest) {
        ReplayConverges(source.wal, source.base, rp, newest, oldest, token);
      }
      s := StartIndex(log, source.base, res);
      StartIs(log, source.base, res);
      if res.from.Some? {
        var done, count := target.AppendFrom(source, res.from.value, writable);
        ghost var ops := source.wal[s..];
        assert done ==> ops[..count] == ops;
        assert !done ==> ops[count] in source.wal;
        ok := done;
      } else {
        ok := true;
        assert source.wal[s..] == [];
        NoWrites(target.newest.clocks);
      }
    }
  }

  lemma StartIs(log: Log, base: nat, res: Resolved)
    requires res.Ok?
    ensures StartIndex(log, base, res) == if res.from.Some? then res.from.value - base else |log|
  {
  }

  lemma NoWrites(c: Clocks)
    ensures AfterWrites(c, []) == c
  {
  }
}
