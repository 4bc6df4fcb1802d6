/**
 What the consensus loop owes to its peers and to Raft: messages leave once and in order, votes stand over any run with
 crashes, consensus stops exactly at the entry that removes this peer, and the log does not pile up.
 */
module ReadyPromises {
  import opened Options
  import opened ReadyLoop
  import opened ReadyHistory

  // ----- what is sent

  function Sends(t: seq<Event>): seq<Event> {
    if t == [] then [] else (if t[0].Sent? then [t[0]] else []) + Sends(t[1..])
  }

  lemma {:induction false} SendsJoin(a: seq<Event>, b: seq<Event>)
    ensures Sends(a + b) == Sends(a) + Sends(b)
  {
    hide Sends;
    SendsNothing();
    if a == [] {
      assert a + b == b;
    } else {
      SendsJoin(a[1..], b);
      SendsFirst(a);
      SendsFirst(a + b);
      assert (a + b)[1..] == a[1..] + b;
    }
  }

  lemma SendsFirst(t: seq<Event>)
    requires t != []
    ensures Sends(t) == Sends([t[0]]) + Sends(t[1..])
  {
    SendsOne(t[0]);
  }

  lemma {:induction false} WritesSendNothing(t: seq<Event>)
    requires forall ev :: ev in t ==> ev.Wrote?
    ensures Sends(t) == []
  {
    if t != [] {
      assert t[0] in t;
      WritesSendNothing(t[1..]);
    }
  }

  lemma SendsOne(ev: Event)
    ensures Sends([ev]) == if ev.Sent? then [ev] else []
  {
    assert [ev][1..] == [];
  }

  lemma SendsNothing()
    ensures Sends([]) == []
  {
  }

  /**
   A ready sends its plain messages once, before anything is written, and its persisted messages once, when all of it is
   on disk.
   */
  lemma ReadySends(d: Disk, since: nat, rd: Ready) returns (stored: Disk)
    requires CrashSafe(d) && since <= Applied(d) && ReadyOk(d, since, rd)
    ensures Stored(d, rd, stored)
    ensures Sends(ReadyTrace(d, rd))
         == (if rd.messages > 0 then [Sent(Immediate, d)] else [])
            + (if rd.persisted > 0 then [Sent(Persisted, stored)] else [])
    ensures rd.messages > 0 ==> ReadyTrace(d, rd) != [] && ReadyTrace(d, rd)[0] == Sent(Immediate, d)
  {
    stored := StoredDisk(d, rd);
    StoredSafe(d, since, rd);
    CommittedWrites(stored, rd.committed);
    hide CrashSafe, ReadyOk, Stored, CommittedOk, Consecutive, LogOk, StoredDisk, Appended, AppendTrace, CommittedTrace;
    var t1 := if rd.messages > 0 then [Sent(Immediate, d)] else [];
    var t3 := if rd.hs.Some? then [Wrote(stored)] else [];
    var t4 := if rd.persisted > 0 then [Sent(Persisted, stored)] else [];
    assert ReadyTrace(d, rd) == t1 + AppendTrace(d, rd.entries) + t3 + t4 + CommittedTrace(stored, rd.committed);
    SendsAmongWrites(t1, AppendTrace(d, rd.entries), t3, t4, CommittedTrace(stored, rd.committed));
    SendsOne(Sent(Immediate, d));
    SendsOne(Sent(Persisted, stored));
    SendsNothing();
  }

  lemma SendsAmongWrites(t1: seq<Event>, t2: seq<Event>, t3: seq<Event>, t4: seq<Event>, t5: seq<Event>)
    requires forall ev :: ev in t2 || ev in t3 || ev in t5 ==> ev.Wrote?
    ensures Sends(t1 + t2 + t3 + t4 + t5) == Sends(t1) + Sends(t4)
  {
    hide Sends;
    WritesSendNothing(t2);
    WritesSendNothing(t3);
    WritesSendNothing(t5);
    SendsJoin(t1, t2);
    SendsJoin(t1 + t2, t3);
    SendsJoin(t1 + t2 + t3, t4);
    SendsJoin(t1 + t2 + t3 + t4, t5);
  }

  /** Whether or not it sends anything, a ready is on disk when it has been processed. */
  lemma ReadyStores(d: Disk, since: nat, rd: Ready)
    requires CrashSafe(d) && since <= Applied(d) && ReadyOk(d, since, rd)
    ensures Stored(d, rd, ReadyDisk(d, rd))
  {
    hide CrashSafe, ReadyOk, CommittedOk, CommittedDisk, CommittedTrace, Appended, AppendTrace;
    StoredSafe(d, since, rd);
    CommittedSafe(StoredDisk(d, rd), since, rd.committed);
  }

  /** A light ready stores the commit index and nothing else of the hard state, and then sends its messages, once. */
  lemma LightSends(d: Disk, lr: LightReady)
    ensures Sends(LightTrace(d, lr)) == [Sent(Immediate, WithCommit(d, lr))]
    ensures var c := WithCommit(d, lr);
            c.log == d.log && c.queue == d.queue && c.hard.term == d.hard.term && c.hard.vote == d.hard.vote
            && c.hard.commit == if lr.commit.Some? then lr.commit.value else d.hard.commit
  {
    var c := WithCommit(d, lr);
    var t1 := if lr.commit.Some? then [Wrote(c)] else [];
    var t2 := CommittedTrace(c, lr.committed);
    CommittedWrites(c, lr.committed);
    hide CommittedTrace;
    WritesSendNothing(t1);
    WritesSendNothing(t2);
    SendsOne(Sent(Immediate, c));
    SendsJoin(t1, [Sent(Immediate, c)]);
    SendsJoin(t1 + [Sent(Immediate, c)], t2);
  }

  // ----- where applying stops

  ghost predicate StopsAt(log: Log, i: nat) {
    InLog(log, i) && EntryAt(log, i).stops
  }

  /** Applying passes the entries that do not stop consensus and ends at the first that does, or behind the last. */
  lemma {:induction false} ApplyEndsAt(d: Disk)
    requires CrashSafe(d) && d.queue.Some?
    ensures var q, r := d.queue.value, AppliedDisk(d).queue;
            r.Some? && r.value.last == q.last && q.current <= r.value.current <= q.last + 1
            && (forall i: nat :: q.current <= i < r.value.current ==> InLog(d.log, i) && !StopsAt(d.log, i))
            && (r.value.current <= q.last ==> StopsAt(d.log, r.value.current))
    decreases d.queue.value.last + 1 - d.queue.value.current
  {
    if d.queue.value.current <= d.queue.value.last {
      ApplyStep(d);
      if !StopsHere(d, d.queue.value) {
        ApplyEndsAt(AdvanceQueue(d));
      }
    }
  }

  /** Consensus stops exactly when one of the committed entries removes this peer, and then before applying it. */
  lemma StopsIff(d: Disk, since: nat, es: seq<Entry>)
    requires CrashSafe(d) && since <= Applied(d) && CommittedOk(d.log, since, d.hard.commit, es) && es != []
    ensures Stopped(CommittedDisk(d, es), es)
       <==> exists i: nat :: es[0].index <= i <= es[|es| - 1].index && StopsAt(d.log, i)
    ensures forall i: nat :: es[0].index <= i <= Applied(CommittedDisk(d, es)) ==> !StopsAt(d.log, i)
  {
    var q := Queued(d, es);
    assert CrashSafe(q);
    ApplyEndsAt(q);
    hide CrashSafe, CommittedOk, AppliedDisk, StopsAt;
    var r := CommittedDisk(d, es).queue.value;
    if r.current <= r.last {
      assert StopsAt(d.log, r.current);
    }
  }

  /** One of the committed entries, as the log has them, removes this peer. */
  ghost predicate AnyStops(log: Log, es: seq<Entry>) {
    es != [] && exists i: nat :: es[0].index <= i <= es[|es| - 1].index && StopsAt(log, i)
  }

  /** The node goes on after a turn exactly if neither batch of committed entries has one that removes this peer. */
  lemma TurnStopsIff(n: Node, rd: Ready, lr: LightReady, minEntries: nat)
    requires NodeOk(n) && TurnOk(n, rd, lr)
    ensures After(n, Turn(rd, lr, minEntries)).running
       <==> !AnyStops(ReadyDisk(n.disk, rd).log, rd.committed) && !AnyStops(ReadyDisk(n.disk, rd).log, lr.committed)
  {
    ReadySafe(n.disk, n.since, rd);
    var d1 := ReadyDisk(n.disk, rd);
    ReadyStopsIff(n.disk, n.since, rd);
    hide CrashSafe, ReadyOk, LightReadyOk, ReadyDisk, AnyStops, TurnDisk;
    if !Stopped(d1, rd.committed) {
      LightStopsIff(d1, SinceAfter(n.since, rd.committed), lr);
    }
  }

  lemma ReadyStopsIff(d: Disk, since: nat, rd: Ready)
    requires CrashSafe(d) && since <= Applied(d) && ReadyOk(d, since, rd)
    ensures Stopped(ReadyDisk(d, rd), rd.committed) <==> AnyStops(ReadyDisk(d, rd).log, rd.committed)
  {
    StoredSafe(d, since, rd);
    CommittedSafe(StoredDisk(d, rd), since, rd.committed);
    hide CrashSafe, ReadyOk, Appended, CommittedOk, CommittedDisk, AppendTrace, CommittedTrace, StopsAt;
    if rd.committed != [] {
      StopsIff(StoredDisk(d, rd), since, rd.committed);
    }
  }

  lemma LightStopsIff(d: Disk, since: nat, lr: LightReady)
    requires CrashSafe(d) && since <= Applied(d) && LightReadyOk(d, since, lr)
    ensures Stopped(LightDisk(d, lr), lr.committed) <==> AnyStops(d.log, lr.committed)
  {
    LightCommitSafe(d, since, lr);
    hide CrashSafe, LightReadyOk, CommittedOk, CommittedDisk, StopsAt;
    if lr.committed != [] {
      StopsIff(WithCommit(d, lr), since, lr.committed);
    }
  }

  /** Raft that has handed out all that is applied stays level with it, turn by turn, while the node runs. */
  lemma RaftStaysLevel(n: Node, rd: Ready, lr: LightReady, minEntries: nat)
    requires NodeOk(n) && TurnOk(n, rd, lr) && n.since == Applied(n.disk)
    requires After(n, Turn(rd, lr, minEntries)).running
    ensures After(n, Turn(rd, lr, minEntries)).since == Applied(After(n, Turn(rd, lr, minEntries)).disk)
  {
    hide CrashSafe, ReadyOk, LightReadyOk, ReadyDisk, LightDisk, Stopped, ReadyTrace, LightTrace, Compacted;
    ReadySafe(n.disk, n.since, rd);
    var d1 := ReadyDisk(n.disk, rd);
    LightSafe(d1, SinceAfter(n.since, rd.committed), lr);
    CompactSafe(LightDisk(d1, lr), minEntries);
  }

  // ----- compaction

  /** After compaction fewer than `minEntries` applied entries are left behind, and every later one is kept. */
  lemma CompactBounds(d: Disk, minEntries: nat)
    requires CrashSafe(d)
    ensures var c := Compacted(d, minEntries);
            && (minEntries > 0 && d.queue.Some? && Applied(d) <= LastIndex(d.log) && d.log.entries != []
                ==> Applied(d) < c.log.first + minEntries)
            && LastIndex(c.log) == LastIndex(d.log)
            && (c.log != d.log ==> minEntries > 0 && c.log.first <= Applied(d))
            && forall i: nat :: Applied(d) <= i && InLog(d.log, i) ==> SameEntry(d.log, c.log, i)
  {
  }

  // ----- votes stand

  /** The term does not fall, and a vote cast in a term is not changed within it. */
  predicate Keeps(a: HardState, b: HardState) {
    a.term <= b.term && (a.term == b.term && a.vote != 0 ==> b.vote == a.vote)
  }

  lemma KeepsTrans(a: HardState, b: HardState, c: HardState)
    requires Keeps(a, b) && Keeps(b, c)
    ensures Keeps(a, c)
  {
  }

  predicate SameVote(a: HardState, b: HardState) {
    a.term == b.term && a.vote == b.vote
  }

  /** The hard state Raft asks to store keeps what is stored. */
  ghost predicate VotesOk(n: Node, i: Input) {
    (i.Turn? || i.Crash?) && i.rd.hs.Some? ==> Keeps(n.disk.hard, i.rd.hs.value)
  }

  ghost predicate HardIs(t: seq<Event>, h: HardState) {
    forall ev :: ev in t ==> SameVote(ev.disk.hard, h)
  }

  lemma {:induction false} AppendHard(d: Disk, es: seq<Entry>)
    ensures HardIs(AppendTrace(d, es), d.hard)
  {
    if es != [] {
      AppendHard(d, es[..|es| - 1]);
    }
  }

  lemma {:induction false} ApplyHard(d: Disk)
    ensures AppliedDisk(d).hard == d.hard && HardIs(ApplyTrace(d), d.hard)
    decreases if d.queue.Some? then d.queue.value.last + 1 - d.queue.value.current else -1
  {
    if d.queue.Some? && d.queue.value.current <= d.queue.value.last && !StopsHere(d, d.queue.value) {
      ApplyHard(AdvanceQueue(d));
    }
  }

  lemma CommittedHard(d: Disk, es: seq<Entry>)
    ensures CommittedDisk(d, es).hard == d.hard && HardIs(CommittedTrace(d, es), d.hard)
  {
    if es != [] {
      ApplyHard(Queued(d, es));
    }
  }

  lemma HardJoin(a: seq<Event>, b: seq<Event>, h: HardState)
    requires HardIs(a, h) && HardIs(b, h)
    ensures HardIs(a + b, h)
  {
    hide SameVote;
  }

  lemma LightHard(d: Disk, lr: LightReady, minEntries: nat, h: HardState)
    requires SameVote(d.hard, h)
    ensures HardIs(LightTrace(d, lr) + [Wrote(Compacted(LightDisk(d, lr), minEntries))], h)
  {
    var c := WithCommit(d, lr);
    CommittedHard(c, lr.committed);
    assert Compacted(LightDisk(d, lr), minEntries).hard == c.hard;
    hide CommittedTrace, CommittedDisk, Compacted;
  }

  lemma StoreHard(d: Disk, rd: Ready)
    ensures var stored := StoredDisk(d, rd);
            HardIs((if rd.hs.Some? then [Wrote(stored)] else [])
                   + (if rd.persisted > 0 then [Sent(Persisted, stored)] else []), stored.hard)
  {
    hide Appended;
  }

  /** A turn has the old term and vote on disk up to some event and those of the ready from then on. */
  lemma TurnHard(d: Disk, rd: Ready, lr: LightReady, minEntries: nat) returns (a: seq<Event>, b: seq<Event>)
    ensures TurnTrace(d, rd, lr, minEntries) == a + b
    ensures HardIs(a, d.hard) && HardIs(b, if rd.hs.Some? then rd.hs.value else d.hard)
  {
    var stored := StoredDisk(d, rd);
    var d1 := ReadyDisk(d, rd);
    AppendHard(d, rd.entries);
    CommittedHard(stored, rd.committed);
    StoreHard(d, rd);
    hide AppendTrace, CommittedTrace, CommittedDisk, Appended, Compacted, Stopped, LightTrace, LightDisk;
    var first := if rd.messages > 0 then [Sent(Immediate, d)] else [];
    a := first + AppendTrace(d, rd.entries);
    var stores := (if rd.hs.Some? then [Wrote(stored)] else [])
                  + (if rd.persisted > 0 then [Sent(Persisted, stored)] else []);
    var committed := CommittedTrace(stored, rd.committed);
    var light := if Stopped(d1, rd.committed) then []
                 else LightTrace(d1, lr) + [Wrote(Compacted(LightDisk(d1, lr), minEntries))];
    b := stores + committed + light;
    assert HardIs(first, d.hard) && HardIs([], stored.hard);
    LightHard(d1, lr, minEntries, stored.hard);
    assert stored.hard == if rd.hs.Some? then rd.hs.value else d.hard;
    assert ReadyTrace(d, rd) == a + (stores + committed);
    assert TurnTrace(d, rd, lr, minEntries) == ReadyTrace(d, rd) + light;
    hide ReadyTrace, TurnTrace, HardIs, StoredDisk, ReadyDisk;
    HardJoin(first, AppendTrace(d, rd.entries), d.hard);
    HardJoin(stores, committed, stored.hard);
    HardJoin(stores + committed, light, stored.hard);
  }

  lemma RestartHard(d: Disk, minEntries: nat)
    ensures HardIs(RestartTrace(d, minEntries), d.hard)
  {
    ApplyHard(d);
  }

  /** Old term and vote first, then those of the ready, cut off anywhere. */
  lemma TwoHardsKeep(d: Disk, a: seq<Event>, b: seq<Event>, h: HardState, t: seq<Event>)
    requires HardIs(a, d.hard) && HardIs(b, h) && Keeps(d.hard, h) && t <= a + b
    ensures AllKeep(d, t)
  {
    forall k: nat | k < |t| ensures SameVote(t[k].disk.hard, if k < |a| then d.hard else h) {
      assert t[k] == (a + b)[k];
      assert k < |a| ==> t[k] in a;
      assert k >= |a| ==> t[k] in b;
    }
    hide HardIs;
  }

  /** Within one input, cut off by a crash or not, votes stand. */
  lemma InputKeepsVotes(n: Node, i: Input)
    requires VotesOk(n, i)
    ensures AllKeep(n.disk, Events(n, i))
  {
    hide HardIs, AllKeep, TurnTrace, RestartTrace;
    if i.Turn? || i.Crash? {
      var a, b := TurnHard(n.disk, i.rd, i.lr, i.minEntries);
      TwoHardsKeep(n.disk, a, b, NewHard(n.disk, i.rd), Events(n, i));
    } else {
      RestartHard(n.disk, i.minEntries);
      NothingIs(n.disk.hard);
      assert RestartTrace(n.disk, i.minEntries) + [] == RestartTrace(n.disk, i.minEntries);
      TwoHardsKeep(n.disk, RestartTrace(n.disk, i.minEntries), [], n.disk.hard, Events(n, i));
    }
  }

  lemma NothingIs(h: HardState)
    ensures HardIs([], h)
  {
  }

  ghost predicate RunVotesOk(n: Node, inputs: seq<Input>) {
    forall k :: 0 <= k < |inputs| ==> VotesOk(NodeAfter(n, inputs[..k]), inputs[k])
  }

  /** Along a trace, what is on disk later keeps what was on disk before. */
  ghost predicate AllKeep(d: Disk, t: seq<Event>) {
    forall x: nat, y: nat :: x <= y <= |t| ==> Keeps(DiskAt(d, t, x).hard, DiskAt(d, t, y).hard)
  }

  lemma DiskAtJoin(d: Disk, h: seq<Event>, t: seq<Event>, k: nat)
    requires k <= |h| + |t|
    ensures DiskAt(d, h + t, k) == if k <= |h| then DiskAt(d, h, k) else DiskAt(EndDisk(d, h), t, k - |h|)
    ensures DiskAt(d, h, |h|) == EndDisk(d, h) && DiskAt(EndDisk(d, h), t, 0) == EndDisk(d, h)
  {
  }

  lemma AllKeepJoin(d: Disk, h: seq<Event>, t: seq<Event>)
    requires AllKeep(d, h) && AllKeep(EndDisk(d, h), t)
    ensures AllKeep(d, h + t)
  {
    hide Keeps, DiskAt, EndDisk;
    forall x: nat, y: nat | x <= y <= |h + t|
      ensures Keeps(DiskAt(d, h + t, x).hard, DiskAt(d, h + t, y).hard)
    {
      DiskAtJoin(d, h, t, x);
      DiskAtJoin(d, h, t, y);
      if x <= |h| < y {
        KeepsTrans(DiskAt(d, h, x).hard, EndDisk(d, h).hard, DiskAt(EndDisk(d, h), t, y - |h|).hard);
      }
    }
  }

  /**
   Over every run with crashes: if Raft asks for no other vote in a term, no later disk has another vote in a term in
   which one was stored, so a peer that told its vote before a crash gives no second one after it.
   */
  lemma {:induction false} VotesStand(n: Node, inputs: seq<Input>)
    requires NodeOk(n) && RunOk(n, inputs) && RunVotesOk(n, inputs)
    ensures AllKeep(n.disk, History(n, inputs))
    decreases |inputs|
  {
    hide NodeOk, RunOk, Events, Keeps, VotesOk, RunVotesOk, Chain, NodeAfter, DiskAt, EndDisk, AllKeep;
    if inputs == [] {
      NothingKeeps(n.disk);
    } else {
      var before, last := inputs[..|inputs| - 1], inputs[|inputs| - 1];
      RunPrefix(n, inputs);
      VotesPrefix(n, inputs);
      RunChain(n, before);
      VotesStand(n, before);
      InputKeepsVotes(NodeAfter(n, before), last);
      AllKeepJoin(n.disk, History(n, before), Events(NodeAfter(n, before), last));
    }
  }

  lemma NothingKeeps(d: Disk)
    ensures AllKeep(d, [])
  {
  }

  lemma VotesPrefix(n: Node, inputs: seq<Input>)
    requires RunVotesOk(n, inputs) && inputs != []
    ensures RunVotesOk(n, inputs[..|inputs| - 1])
    ensures VotesOk(NodeAfter(n, inputs[..|inputs| - 1]), inputs[|inputs| - 1])
  {
    hide VotesOk, NodeAfter;
    var before := inputs[..|inputs| - 1];
    forall k | 0 <= k < |before| ensures VotesOk(NodeAfter(n, before[..k]), before[k]) {
      assert before[..k] == inputs[..k];
    }
  }
}
