/**
 What the disk keeps over a whole run of the consensus loop, through any crashes: the applying loop passes over no
 index, and an entry at or below the commit index never changes while it is in the log.
 */
module ReadyHistory {
  import opened Options
  import opened ReadyLoop

  ghost predicate InLog(log: Log, i: nat) {
    log.first <= i <= LastIndex(log)
  }

  ghost function EntryAt(log: Log, i: nat): Entry
    requires InLog(log, i)
  {
    log.entries[i - log.first]
  }

  ghost predicate SameEntry(a: Log, b: Log, i: nat) {
    InLog(a, i) && InLog(b, i) && EntryAt(a, i) == EntryAt(b, i)
  }

  /** The commit index and the start of the log only grow, and what was committed reads the same if it is still kept. */
  ghost predicate Stable(d: Disk, d': Disk) {
    && d.hard.commit <= d'.hard.commit
    && d.log.first <= d'.log.first
    && forall i: nat :: d'.log.first <= i <= d.hard.commit ==> SameEntry(d.log, d'.log, i)
  }

  /** Entry `i`, committed and in the log, is applied: the queue stood at it and moves past it. */
  ghost predicate Applies(d: Disk, d': Disk, i: nat) {
    && d.queue.Some? && d.queue.value.current == i && d' == AdvanceQueue(d)
    && InLog(d.log, i) && i <= d.hard.commit && !EntryAt(d.log, i).stops
  }

  /** A durable step raises the applied index only by applying the next entry. */
  ghost predicate Step(d: Disk, d': Disk) {
    Stable(d, d') && (Applied(d') <= Applied(d) || Applies(d, d', Applied(d) + 1))
  }

  /** Every event of a trace that starts on disk `d` is such a step. */
  ghost predicate Chain(d: Disk, t: seq<Event>)
    decreases |t|
  {
    t == [] || (Step(d, t[0].disk) && Chain(t[0].disk, t[1..]))
  }

  function EndDisk(d: Disk, t: seq<Event>): Disk {
    if t == [] then d else t[|t| - 1].disk
  }

  lemma {:induction false} ChainJoin(d: Disk, a: seq<Event>, b: seq<Event>)
    requires Chain(d, a) && Chain(EndDisk(d, a), b)
    ensures Chain(d, a + b) && EndDisk(d, a + b) == EndDisk(EndDisk(d, a), b)
    decreases |a|
  {
    hide Step;
    if a == [] {
      assert a + b == b;
    } else {
      ChainJoin(a[0].disk, a[1..], b);
      assert (a + b)[1..] == a[1..] + b;
    }
  }

  lemma {:induction false} ChainPrefix(d: Disk, t: seq<Event>, k: nat)
    requires Chain(d, t) && k <= |t|
    ensures Chain(d, t[..k])
    decreases |t|
  {
    hide Step;
    if k != 0 {
      ChainPrefix(t[0].disk, t[1..], k - 1);
      assert t[..k][1..] == t[1..][..k - 1];
    }
  }

  lemma OneStep(d: Disk, ev: Event)
    requires Step(d, ev.disk)
    ensures Chain(d, [ev]) && EndDisk(d, [ev]) == ev.disk
  {
    hide Step;
    assert [ev][1..] == [];
  }

  // ----- one write at a time

  lemma StableTrans(a: Disk, b: Disk, c: Disk)
    requires Stable(a, b) && Stable(b, c)
    ensures Stable(a, c)
  {
    forall i: nat | c.log.first <= i <= a.hard.commit ensures SameEntry(a.log, c.log, i) {
      assert SameEntry(a.log, b.log, i) && SameEntry(b.log, c.log, i);
    }
  }

  /** Only the queue changes, or nothing. */
  lemma SameLogStable(d: Disk, d': Disk)
    requires CrashSafe(d) && d'.log == d.log && d'.hard.commit >= d.hard.commit
    ensures Stable(d, d')
  {
  }

  /** Entries above the commit index are cut or added. */
  lemma TailStable(d: Disk, d': Disk, keep: nat)
    requires CrashSafe(d) && d.log.first + keep > d.hard.commit && keep <= |d.log.entries|
    requires d'.hard == d.hard && d'.log.first == d.log.first
    requires d.log.entries[..keep] <= d'.log.entries
    ensures Stable(d, d')
  {
    forall i: nat | d'.log.first <= i <= d.hard.commit ensures SameEntry(d.log, d'.log, i) {
      var k := i - d.log.first;
      assert d.log.entries[..keep][k] == d.log.entries[k];
    }
  }

  lemma AppendOneSteps(d: Disk, e: Entry)
    requires CrashSafe(d) && d.hard.commit < e.index <= LastIndex(d.log) + 1
    ensures Chain(d, AppendEvents(d, d.log, e))
    ensures EndDisk(d, AppendEvents(d, d.log, e)) == d.(log := AppendOne(d.log, e))
  {
    var cut, done := d.(log := Truncated(d.log, e.index)), d.(log := AppendOne(d.log, e));
    AppendOneSafe(d, e);
    TailStable(d, cut, |cut.log.entries|);
    TailStable(cut, done, |cut.log.entries|);
    hide CrashSafe, Stable, Applies, Truncated;
    assert Step(d, cut) && Step(cut, done);
    hide Step;
    OneStep(cut, Wrote(done));
    if d.log.first <= e.index <= LastIndex(d.log) {
      OneStep(d, Wrote(cut));
      ChainJoin(d, [Wrote(cut)], [Wrote(done)]);
    }
  }

  lemma {:induction false} AppendChain(d: Disk, es: seq<Entry>)
    requires CrashSafe(d) && Consecutive(es) && (es != [] ==> d.hard.commit < es[0].index <= LastIndex(d.log) + 1)
    ensures Chain(d, AppendTrace(d, es)) && EndDisk(d, AppendTrace(d, es)) == d.(log := Appended(d.log, es))
  {
    if es != [] {
      var k := |es| - 1;
      AppendChain(d, es[..k]);
      AppendSafe(d, es[..k]);
      var d' := d.(log := Appended(d.log, es[..k]));
      hide Chain, CrashSafe, EndDisk, AppendOne;
      AppendOneSteps(d', es[k]);
      assert AppendEvents(d', d'.log, es[k]) == AppendEvents(d, d'.log, es[k]);
      ChainJoin(d, AppendTrace(d, es[..k]), AppendEvents(d, d'.log, es[k]));
    }
  }

  lemma {:induction false} ApplyChain(d: Disk)
    requires CrashSafe(d)
    ensures Chain(d, ApplyTrace(d)) && EndDisk(d, ApplyTrace(d)) == AppliedDisk(d)
    decreases if d.queue.Some? then d.queue.value.last + 1 - d.queue.value.current else -1
  {
    if d.queue.Some? && d.queue.value.current <= d.queue.value.last {
      ApplyStep(d);
      if !StopsHere(d, d.queue.value) {
        var d' := AdvanceQueue(d);
        ApplyChain(d');
        SameLogStable(d, d');
        assert Applies(d, d', Applied(d) + 1);
        hide AppliedDisk, ApplyTrace, CrashSafe, Stable, Applies, AdvanceQueue, StopsHere;
        assert Step(d, d');
        OneStep(d, Wrote(d'));
        ChainJoin(d, [Wrote(d')], ApplyTrace(d'));
      }
    }
  }

  /** Queueing may step back, never ahead: Raft is not ahead of the applied index. */
  lemma CommittedChain(d: Disk, since: nat, es: seq<Entry>)
    requires CrashSafe(d) && since <= Applied(d) && CommittedOk(d.log, since, d.hard.commit, es)
    ensures Chain(d, CommittedTrace(d, es)) && EndDisk(d, CommittedTrace(d, es)) == CommittedDisk(d, es)
  {
    if es != [] {
      var q := Queued(d, es);
      assert CrashSafe(q) && Applied(q) <= Applied(d);
      SameLogStable(d, q);
      hide CrashSafe, Queued, Applied, Stable, CommittedOk;
      OneStep(d, Wrote(q));
      ApplyChain(q);
      ChainJoin(d, [Wrote(q)], ApplyTrace(q));
    }
  }

  lemma StoreChain(d: Disk, since: nat, rd: Ready)
    requires CrashSafe(d) && since <= Applied(d) && ReadyOk(d, since, rd)
    ensures Chain(d, StoreTrace(d, rd)) && EndDisk(d, StoreTrace(d, rd)) == StoredDisk(d, rd)
  {
    var stored, logged := StoredDisk(d, rd), d.(log := Appended(d.log, rd.entries));
    StoredSafe(d, since, rd);
    AppendChain(d, rd.entries);
    SameLogStable(d, d);
    SameLogStable(logged, stored);
    SameLogStable(stored, stored);
    assert Step(d, d) && Step(logged, stored) && Step(stored, stored);
    hide CrashSafe, ReadyOk, Appended, AppendTrace, Step, CommittedOk, Consecutive;
    var t1 := if rd.messages > 0 then [Sent(Immediate, d)] else [];
    var t2 := AppendTrace(d, rd.entries);
    var t3 := if rd.hs.Some? then [Wrote(stored)] else [];
    var t4 := if rd.persisted > 0 then [Sent(Persisted, stored)] else [];
    OneStep(d, Sent(Immediate, d));
    OneStep(logged, Wrote(stored));
    OneStep(stored, Sent(Persisted, stored));
    hide Chain;
    ChainEmpty(d);
    ChainEmpty(logged);
    ChainEmpty(stored);
    ChainJoin(d, t1, t2);
    ChainJoin(d, t1 + t2, t3);
    ChainJoin(d, t1 + t2 + t3, t4);
  }

  lemma ChainEmpty(d: Disk)
    ensures Chain(d, [])
  {
  }

  lemma ReadyChain(d: Disk, since: nat, rd: Ready)
    requires CrashSafe(d) && since <= Applied(d) && ReadyOk(d, since, rd)
    ensures Chain(d, ReadyTrace(d, rd)) && EndDisk(d, ReadyTrace(d, rd)) == ReadyDisk(d, rd)
  {
    hide CrashSafe, ReadyOk, StoreTrace, CommittedTrace, CommittedDisk, CommittedOk, Chain, EndDisk, Appended;
    StoredSafe(d, since, rd);
    StoreChain(d, since, rd);
    CommittedChain(StoredDisk(d, rd), since, rd.committed);
    ChainJoin(d, StoreTrace(d, rd), CommittedTrace(StoredDisk(d, rd), rd.committed));
  }

  lemma LightChain(d: Disk, since: nat, lr: LightReady)
    requires CrashSafe(d) && since <= Applied(d) && LightReadyOk(d, since, lr)
    ensures Chain(d, LightTrace(d, lr)) && EndDisk(d, LightTrace(d, lr)) == LightDisk(d, lr)
  {
    var c := WithCommit(d, lr);
    LightCommitSafe(d, since, lr);
    SameLogStable(d, c);
    SameLogStable(c, c);
    assert Step(d, c) && Step(c, c);
    hide CrashSafe, LightReadyOk, Step, CommittedOk, CommittedTrace, CommittedDisk;
    var t1 := if lr.commit.Some? then [Wrote(c)] else [];
    OneStep(d, Wrote(c));
    OneStep(c, Sent(Immediate, c));
    CommittedChain(c, since, lr.committed);
    ChainEmpty(d);
    hide Chain;
    ChainJoin(d, t1, [Sent(Immediate, c)]);
    ChainJoin(d, t1 + [Sent(Immediate, c)], CommittedTrace(c, lr.committed));
  }

  /** Compaction drops entries below the applied index and leaves the others in place. */
  lemma CompactSteps(d: Disk, minEntries: nat)
    requires CrashSafe(d)
    ensures Step(d, Compacted(d, minEntries))
  {
    var c := Compacted(d, minEntries);
    assert Applied(c) == Applied(d);
    forall i: nat | c.log.first <= i <= d.hard.commit ensures SameEntry(d.log, c.log, i) {
    }
  }

  lemma TurnChain(n: Node, rd: Ready, lr: LightReady, minEntries: nat)
    requires NodeOk(n) && TurnOk(n, rd, lr)
    ensures var t := TurnTrace(n.disk, rd, lr, minEntries);
            Chain(n.disk, t) && EndDisk(n.disk, t) == TurnDisk(n.disk, rd, lr, minEntries)
  {
    hide CrashSafe, ReadyDisk, ReadyTrace, LightDisk, LightTrace, ReadyOk, LightReadyOk, Compacted, Stopped, Chain;
    hide Step;
    ReadySafe(n.disk, n.since, rd);
    ReadyChain(n.disk, n.since, rd);
    var d1 := ReadyDisk(n.disk, rd);
    if Stopped(d1, rd.committed) {
      assert ReadyTrace(n.disk, rd) + [] == ReadyTrace(n.disk, rd);
    } else {
      LightSafe(d1, SinceAfter(n.since, rd.committed), lr);
      LightChain(d1, SinceAfter(n.since, rd.committed), lr);
      var d2 := LightDisk(d1, lr);
      var c := Compacted(d2, minEntries);
      CompactSteps(d2, minEntries);
      OneStep(d2, Wrote(c));
      ChainJoin(d1, LightTrace(d1, lr), [Wrote(c)]);
      ChainJoin(n.disk, ReadyTrace(n.disk, rd), LightTrace(d1, lr) + [Wrote(c)]);
    }
  }

  lemma RestartChain(d: Disk, minEntries: nat)
    requires CrashSafe(d)
    ensures var t := RestartTrace(d, minEntries);
            Chain(d, t) && EndDisk(d, t) == Restarted(d, minEntries).disk
  {
    hide CrashSafe, ApplyTrace, AppliedDisk, Compacted, Chain, Step;
    ApplySafe(d);
    ApplyChain(d);
    var a := AppliedDisk(d);
    CompactSteps(a, minEntries);
    OneStep(a, Wrote(Compacted(a, minEntries)));
    ChainJoin(d, ApplyTrace(d), [Wrote(Compacted(a, minEntries))]);
  }

  /** A crash leaves the disk as the last event before it did. */
  lemma CrashChain(d: Disk, t: seq<Event>, at: nat)
    requires Chain(d, t)
    ensures Chain(d, FirstEvents(t, at)) && EndDisk(d, FirstEvents(t, at)) == DiskAt(d, t, at)
  {
    hide Chain;
    if at <= |t| {
      ChainPrefix(d, t, at);
    }
  }

  lemma InputChain(n: Node, i: Input)
    requires NodeOk(n) && InputOk(n, i)
    ensures Chain(n.disk, Events(n, i)) && EndDisk(n.disk, Events(n, i)) == After(n, i).disk
  {
    hide CrashSafe, TurnTrace, TurnDisk, RestartTrace, TurnOk, Compacted, AppliedDisk, Chain, EndDisk;
    hide DiskAt, FirstEvents;
    match i
    case Turn(rd, lr, minEntries) =>
      TurnChain(n, rd, lr, minEntries);
    case Crash(rd, lr, minEntries, at) =>
      TurnChain(n, rd, lr, minEntries);
      CrashChain(n.disk, TurnTrace(n.disk, rd, lr, minEntries), at);
    case Restart(minEntries) =>
      RestartChain(n.disk, minEntries);
    case CrashInRestart(minEntries, at) =>
      RestartChain(n.disk, minEntries);
      CrashChain(n.disk, RestartTrace(n.disk, minEntries), at);
  }

  // ----- whole runs

  /** Every durable write and every batch of messages of a run, in order. */
  function History(n: Node, inputs: seq<Input>): seq<Event> {
    if inputs == [] then []
    else
      var before := inputs[..|inputs| - 1];
      History(n, before) + Events(NodeAfter(n, before), inputs[|inputs| - 1])
  }

  lemma {:induction false} RunChain(n: Node, inputs: seq<Input>)
    requires NodeOk(n) && RunOk(n, inputs)
    ensures Chain(n.disk, History(n, inputs)) && EndDisk(n.disk, History(n, inputs)) == NodeAfter(n, inputs).disk
  {
    hide NodeOk, Events, After, InputOk, Chain, EndDisk;
    if inputs == [] {
      ChainEmpty(n.disk);
      assert EndDisk(n.disk, []) == n.disk by { EmptyEnd(n.disk); }
    } else {
      var before, last := inputs[..|inputs| - 1], inputs[|inputs| - 1];
      RunPrefix(n, inputs);
      RunChain(n, before);
      var m := NodeAfter(n, before);
      RunCrashSafe(n, inputs, |inputs| - 1);
      InputChain(m, last);
      ChainJoin(n.disk, History(n, before), Events(m, last));
    }
  }

  lemma EmptyEnd(d: Disk)
    ensures EndDisk(d, []) == d
  {
  }

  lemma RunPrefix(n: Node, inputs: seq<Input>)
    requires RunOk(n, inputs) && inputs != []
    ensures RunOk(n, inputs[..|inputs| - 1])
  {
    hide InputOk, NodeAfter;
    var before := inputs[..|inputs| - 1];
    forall k | 0 <= k < |before| ensures InputOk(NodeAfter(n, before[..k]), before[k]) {
      assert before[..k] == inputs[..k];
    }
  }

  lemma {:induction false} ChainAt(d: Disk, t: seq<Event>, k: nat)
    requires Chain(d, t) && k < |t|
    ensures Step(DiskAt(d, t, k), DiskAt(d, t, k + 1))
    decreases |t|
  {
    hide Step;
    if k != 0 {
      ChainAt(t[0].disk, t[1..], k - 1);
    }
  }

  lemma {:induction false} ChainStable(d: Disk, t: seq<Event>, i: nat, j: nat)
    requires Chain(d, t) && i <= j <= |t|
    requires CrashSafe(DiskAt(d, t, i))
    ensures Stable(DiskAt(d, t, i), DiskAt(d, t, j))
    decreases j
  {
    if i == j {
      SameLogStable(DiskAt(d, t, i), DiskAt(d, t, i));
    } else {
      hide Chain, DiskAt, CrashSafe, Stable, Applies;
      ChainStable(d, t, i, j - 1);
      ChainAt(d, t, j - 1);
      StableTrans(DiskAt(d, t, i), DiskAt(d, t, j - 1), DiskAt(d, t, j));
    }
  }

  lemma {:induction false} ChainApplies(d: Disk, t: seq<Event>, i: nat, j: nat, index: nat)
    requires Chain(d, t) && i <= j <= |t|
    requires Applied(DiskAt(d, t, i)) < index <= Applied(DiskAt(d, t, j))
    ensures exists p: nat :: i <= p < j && Applies(DiskAt(d, t, p), DiskAt(d, t, p + 1), index)
    decreases j
  {
    hide Chain, DiskAt, Stable, Applies;
    ChainAt(d, t, j - 1);
    if index <= Applied(DiskAt(d, t, j - 1)) {
      ChainApplies(d, t, i, j - 1, index);
    } else {
      var was, now := DiskAt(d, t, j - 1), DiskAt(d, t, j);
      AppliesAdds(was, now, Applied(was) + 1);
      assert Applies(DiskAt(d, t, j - 1), DiskAt(d, t, j - 1 + 1), index);
    }
  }

  lemma AppliesAdds(d: Disk, d': Disk, i: nat)
    ensures Applies(d, d', i) ==> Applied(d') == i
  {
  }

  lemma {:induction false} AtSafe(n: Node, inputs: seq<Input>, i: nat)
    requires NodeOk(n) && RunOk(n, inputs) && i <= |History(n, inputs)|
    ensures CrashSafe(DiskAt(n.disk, History(n, inputs), i))
  {
    hide CrashSafe, Events, After, InputOk, InputSendOk;
    if i != 0 {
      var before, last := inputs[..|inputs| - 1], inputs[|inputs| - 1];
      var h := History(n, before);
      if i <= |h| {
        RunPrefix(n, inputs);
        AtSafe(n, before, i);
      } else {
        RunCrashSafe(n, inputs, |inputs| - 1);
        assert History(n, inputs)[i - 1] in Events(NodeAfter(n, before), last);
      }
    }
  }

  /** What is committed stays: later in any run the entry reads the same or lies before the start of the log. */
  lemma CommittedNeverChanges(n: Node, inputs: seq<Input>, i: nat, j: nat)
    requires NodeOk(n) && RunOk(n, inputs) && i <= j <= |History(n, inputs)|
    ensures Stable(DiskAt(n.disk, History(n, inputs), i), DiskAt(n.disk, History(n, inputs), j))
  {
    hide Stable, DiskAt, NodeOk, RunOk, Chain, CrashSafe;
    RunChain(n, inputs);
    AtSafe(n, inputs, i);
    ChainStable(n.disk, History(n, inputs), i, j);
  }

  /** Whenever the applied index is higher than before, each index in between was applied, committed and in the log. */
  lemma NoIndexSkipped(n: Node, inputs: seq<Input>, i: nat, j: nat, index: nat)
    requires NodeOk(n) && RunOk(n, inputs) && i <= j <= |History(n, inputs)|
    requires Applied(DiskAt(n.disk, History(n, inputs), i)) < index <= Applied(DiskAt(n.disk, History(n, inputs), j))
    ensures exists p: nat :: i <= p < j
              && Applies(DiskAt(n.disk, History(n, inputs), p), DiskAt(n.disk, History(n, inputs), p + 1), index)
  {
    hide Applied, Applies, DiskAt, NodeOk, RunOk, Chain;
    RunChain(n, inputs);
    ChainApplies(n.disk, History(n, inputs), i, j, index);
  }

  /** An index that is applied again, after the applied index moved back, is applied with the same entry. */
  lemma AppliedAlike(n: Node, inputs: seq<Input>, p: nat, q: nat, index: nat)
    requires NodeOk(n) && RunOk(n, inputs) && p <= q < |History(n, inputs)|
    requires Applies(DiskAt(n.disk, History(n, inputs), p), DiskAt(n.disk, History(n, inputs), p + 1), index)
    requires Applies(DiskAt(n.disk, History(n, inputs), q), DiskAt(n.disk, History(n, inputs), q + 1), index)
    ensures SameEntry(DiskAt(n.disk, History(n, inputs), p).log, DiskAt(n.disk, History(n, inputs), q).log, index)
  {
    hide DiskAt, NodeOk, RunOk;
    CommittedNeverChanges(n, inputs, p, q);
  }
}
