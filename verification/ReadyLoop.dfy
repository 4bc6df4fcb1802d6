/**
 Processing of Raft readies in crash-safe order. A trace lists every durable write and every batch of sent messages
 in the order they happen; the disk after any prefix of it is what a crash leaves behind.
 */
module ReadyLoop {
  import opened Options

  /** `stops`: applying the entry removes this peer from the cluster. */
  datatype Entry = Entry(index: nat, term: nat, stops: bool)
  datatype Log = Log(first: nat, entries: seq<Entry>)
  datatype HardState = HardState(term: nat, vote: nat, commit: nat)

  /** Indices `current..=last` are committed but not yet applied. */
  datatype Queue = Queue(current: nat, last: nat)

  datatype Disk = Disk(log: Log, hard: HardState, queue: Option<Queue>)

  datatype Kind = Immediate | Persisted
  datatype Event = Wrote(disk: Disk) | Sent(kind: Kind, disk: Disk)

  function LastIndex(log: Log): int {
    log.first + |log.entries| - 1
  }

  function Applied(d: Disk): nat {
    if d.queue.None? || d.queue.value.current == 0 then 0 else d.queue.value.current - 1
  }

  // ----- what a crash may leave behind

  ghost predicate LogOk(log: Log) {
    log.first >= 1 && forall i :: 0 <= i < |log.entries| ==> log.entries[i].index == log.first + i
  }

  /** Applied is not above commit, commit not above the log, and every entry still to apply is in the log. */
  ghost predicate CrashSafe(d: Disk) {
    && LogOk(d.log)
    && Applied(d) <= d.hard.commit <= LastIndex(d.log)
    && d.log.first <= Applied(d) + 1
    && (d.queue.Some? ==> 1 <= d.queue.value.current <= d.queue.value.last + 1 && d.queue.value.last <= d.hard.commit)
  }

  // ----- the readies and what Raft promises about them

  datatype Ready = Ready(messages: nat, entries: seq<Entry>, hs: Option<HardState>, persisted: nat,
      committed: seq<Entry>)
  datatype LightReady = LightReady(commit: Option<nat>, messages: nat, committed: seq<Entry>)

  ghost predicate Consecutive(es: seq<Entry>) {
    forall i :: 0 <= i < |es| ==> es[i].index == es[0].index + i
  }

  /**
   Committed entries continue where Raft last left off (`since`, or the start of the log) and stay within the commit
   index.
   */
  ghost predicate CommittedOk(log: Log, since: nat, commit: nat, es: seq<Entry>) {
    Consecutive(es)
    && (es != [] ==> es[0].index == (if since + 1 < log.first then log.first else since + 1)
                     && es[|es| - 1].index <= commit)
  }

  function NewHard(d: Disk, rd: Ready): HardState {
    if rd.hs.Some? then rd.hs.value else d.hard
  }

  /** New entries extend or replace the log above the commit index; the commit index grows within the log. */
  ghost predicate ReadyOk(d: Disk, since: nat, rd: Ready) {
    && Consecutive(rd.entries)
    && (rd.entries != [] ==> d.hard.commit < rd.entries[0].index <= LastIndex(d.log) + 1)
    && (rd.hs.Some? ==> d.hard.commit <= rd.hs.value.commit <= LastIndex(Appended(d.log, rd.entries)))
    && CommittedOk(d.log, since, NewHard(d, rd).commit, rd.committed)
  }

  ghost predicate LightReadyOk(d: Disk, since: nat, lr: LightReady) {
    && (lr.commit.Some? ==> d.hard.commit <= lr.commit.value <= LastIndex(d.log))
    && CommittedOk(d.log, since, if lr.commit.Some? then lr.commit.value else d.hard.commit, lr.committed)
  }

  // ----- the writes

  /** Drops the log from `index` on. */
  function Truncated(log: Log, index: nat): Log {
    if log.first <= index <= LastIndex(log) then log.(entries := log.entries[..index - log.first]) else log
  }

  function AppendOne(log: Log, e: Entry): Log {
    var t := Truncated(log, e.index);
    t.(entries := t.entries + [e])
  }

  function Appended(log: Log, es: seq<Entry>): Log {
    if es == [] then log else AppendOne(Appended(log, es[..|es| - 1]), es[|es| - 1])
  }

  /** Per entry: the truncation of a conflicting tail, if any, and the append. */
  function AppendEvents(d: Disk, log: Log, e: Entry): seq<Event> {
    (if log.first <= e.index <= LastIndex(log) then [Wrote(d.(log := Truncated(log, e.index)))] else [])
    + [Wrote(d.(log := AppendOne(log, e)))]
  }

  function AppendTrace(d: Disk, es: seq<Entry>): seq<Event> {
    if es == [] then []
    else
      var k := |es| - 1;
      AppendTrace(d, es[..k]) + AppendEvents(d, Appended(d.log, es[..k]), es[k])
  }

  lemma AppendNothing(d: Disk)
    ensures Appended(d.log, []) == d.log && AppendTrace(d, []) == []
  {
  }

  lemma AppendStep(d: Disk, es: seq<Entry>, k: nat)
    requires k < |es|
    ensures var log := Appended(d.log, es[..k]);
            Appended(d.log, es[..k + 1]) == AppendOne(log, es[k])
            && AppendTrace(d, es[..k + 1]) == AppendTrace(d, es[..k]) + AppendEvents(d, log, es[k])
  {
    assert es[..k + 1][..k] == es[..k];
  }

  function AdvanceQueue(d: Disk): Disk
    requires d.queue.Some?
  {
    d.(queue := Some(Queue(d.queue.value.current + 1, d.queue.value.last)))
  }

  /** The entry the queue points at stops consensus when applied. */
  predicate StopsHere(d: Disk, q: Queue) {
    d.log.first <= q.current <= LastIndex(d.log) && d.log.entries[q.current - d.log.first].stops
  }

  /** Applying entry by entry, saving progress after each, until the queue is empty or an entry stops consensus. */
  function AppliedDisk(d: Disk): Disk
    decreases if d.queue.Some? then d.queue.value.last + 1 - d.queue.value.current else -1
  {
    if d.queue.None? || d.queue.value.current > d.queue.value.last || StopsHere(d, d.queue.value) then d
    else AppliedDisk(AdvanceQueue(d))
  }

  function ApplyTrace(d: Disk): seq<Event>
    decreases if d.queue.Some? then d.queue.value.last + 1 - d.queue.value.current else -1
  {
    if d.queue.None? || d.queue.value.current > d.queue.value.last || StopsHere(d, d.queue.value) then []
    else [Wrote(AdvanceQueue(d))] + ApplyTrace(AdvanceQueue(d))
  }

  lemma OneMore(a: seq<Event>, ev: Event, rest: seq<Event>)
    ensures a + [ev] + rest == a + ([ev] + rest)
  {
  }

  lemma ApplyDone(d: Disk)
    requires d.queue.None? || d.queue.value.current > d.queue.value.last
    ensures AppliedDisk(d) == d && ApplyTrace(d) == []
  {
  }

  /** One round of the applying loop: a safe disk has the entry, and moving past it leaves a safe disk. */
  lemma ApplyStep(d: Disk)
    requires d.queue.Some? && d.queue.value.current <= d.queue.value.last
    ensures CrashSafe(d) ==> d.log.first <= d.queue.value.current <= LastIndex(d.log) && CrashSafe(AdvanceQueue(d))
    ensures if StopsHere(d, d.queue.value) then AppliedDisk(d) == d && ApplyTrace(d) == []
            else AppliedDisk(d) == AppliedDisk(AdvanceQueue(d))
                 && ApplyTrace(d) == [Wrote(AdvanceQueue(d))] + ApplyTrace(AdvanceQueue(d))
  {
  }

  function Queued(d: Disk, es: seq<Entry>): Disk
    requires es != []
  {
    d.(queue := Some(Queue(es[0].index, es[|es| - 1].index)))
  }

  function CommittedDisk(d: Disk, es: seq<Entry>): Disk {
    if es == [] then d else AppliedDisk(Queued(d, es))
  }

  function CommittedTrace(d: Disk, es: seq<Entry>): seq<Event> {
    if es == [] then [] else [Wrote(Queued(d, es))] + ApplyTrace(Queued(d, es))
  }

  /** Consensus stops when an entry that removes this peer was reached. */
  predicate Stopped(d: Disk, es: seq<Entry>) {
    es != [] && d.queue.Some? && d.queue.value.current <= d.queue.value.last
  }

  /** Disk after the entries and the hard state of a ready are stored. */
  function StoredDisk(d: Disk, rd: Ready): Disk {
    Disk(Appended(d.log, rd.entries), NewHard(d, rd), d.queue)
  }

  function StoreTrace(d: Disk, rd: Ready): seq<Event> {
    var stored := StoredDisk(d, rd);
    (if rd.messages > 0 then [Sent(Immediate, d)] else [])
    + AppendTrace(d, rd.entries)
    + (if rd.hs.Some? then [Wrote(stored)] else [])
    + (if rd.persisted > 0 then [Sent(Persisted, stored)] else [])
  }

  function ReadyTrace(d: Disk, rd: Ready): seq<Event> {
    StoreTrace(d, rd) + CommittedTrace(StoredDisk(d, rd), rd.committed)
  }

  function ReadyDisk(d: Disk, rd: Ready): Disk {
    CommittedDisk(StoredDisk(d, rd), rd.committed)
  }

  function WithCommit(d: Disk, lr: LightReady): Disk {
    if lr.commit.Some? then d.(hard := d.hard.(commit := lr.commit.value)) else d
  }

  function LightTrace(d: Disk, lr: LightReady): seq<Event> {
    (if lr.commit.Some? then [Wrote(WithCommit(d, lr))] else [])
    + [Sent(Immediate, WithCommit(d, lr))]
    + CommittedTrace(WithCommit(d, lr), lr.committed)
  }

  function LightDisk(d: Disk, lr: LightReady): Disk {
    CommittedDisk(WithCommit(d, lr), lr.committed)
  }

  /** Drops log entries below the applied index once at least `minEntries` have piled up there. */
  function Compacted(d: Disk, minEntries: nat): Disk {
    if minEntries == 0 || d.log.entries == [] || d.queue.None? || d.queue.value.current == 0
       || Applied(d) < d.log.first + minEntries || Applied(d) > LastIndex(d.log)
    then d
    else d.(log := Log(Applied(d), d.log.entries[Applied(d) - d.log.first..]))
  }

  // ----- every step leaves a safe disk

  lemma SafeLogOk(d: Disk)
    requires CrashSafe(d)
    ensures LogOk(d.log)
  {
  }

  lemma AppendOneSafe(d: Disk, e: Entry)
    requires CrashSafe(d) && d.hard.commit < e.index <= LastIndex(d.log) + 1
    ensures CrashSafe(d.(log := Truncated(d.log, e.index))) && CrashSafe(d.(log := AppendOne(d.log, e)))
    ensures LastIndex(AppendOne(d.log, e)) == e.index && AppendOne(d.log, e).first == d.log.first
  {
  }

  lemma {:induction false} AppendSafe(d: Disk, es: seq<Entry>)
    requires CrashSafe(d) && Consecutive(es) && (es != [] ==> d.hard.commit < es[0].index <= LastIndex(d.log) + 1)
    ensures LogOk(Appended(d.log, es)) && Appended(d.log, es).first == d.log.first
    ensures CrashSafe(d.(log := Appended(d.log, es)))
    ensures es != [] ==> LastIndex(Appended(d.log, es)) == es[|es| - 1].index
    ensures forall ev :: ev in AppendTrace(d, es) ==> ev.Wrote? && CrashSafe(ev.disk)
  {
    if es != [] {
      hide CrashSafe, AppendOne, Truncated;
      var k := |es| - 1;
      AppendSafe(d, es[..k]);
      AppendOneSafe(d.(log := Appended(d.log, es[..k])), es[k]);
      SafeLogOk(d.(log := Appended(d.log, es)));
    }
  }

  lemma {:induction false} ApplySafe(d: Disk)
    requires CrashSafe(d)
    ensures CrashSafe(AppliedDisk(d)) && AppliedDisk(d).log == d.log && AppliedDisk(d).hard == d.hard
    ensures Applied(AppliedDisk(d)) >= Applied(d)
    ensures AppliedDisk(d).queue.Some? <==> d.queue.Some?
    ensures d.queue.Some? ==> AppliedDisk(d).queue.value.last == d.queue.value.last
    ensures forall ev :: ev in ApplyTrace(d) ==> ev.Wrote? && CrashSafe(ev.disk)
    decreases if d.queue.Some? then d.queue.value.last + 1 - d.queue.value.current else -1
  {
    if d.queue.Some? && d.queue.value.current <= d.queue.value.last && !StopsHere(d, d.queue.value) {
      ApplySafe(AdvanceQueue(d));
    }
  }

  lemma CommittedSafe(d: Disk, since: nat, es: seq<Entry>)
    requires CrashSafe(d) && since <= Applied(d) && CommittedOk(d.log, since, d.hard.commit, es)
    ensures CrashSafe(CommittedDisk(d, es)) && CommittedDisk(d, es).log == d.log && CommittedDisk(d, es).hard == d.hard
    ensures forall ev :: ev in CommittedTrace(d, es) ==> ev.Wrote? && CrashSafe(ev.disk)
    ensures !Stopped(CommittedDisk(d, es), es) ==>
              (if es == [] then CommittedDisk(d, es) == d else Applied(CommittedDisk(d, es)) == es[|es| - 1].index)
  {
    if es != [] {
      assert CrashSafe(Queued(d, es));
      ApplySafe(Queued(d, es));
    }
  }

  ghost predicate Holds(log: Log, e: Entry) {
    log.first <= e.index <= LastIndex(log) && log.entries[e.index - log.first] == e
  }

  /** The ready that came with disk `d` is on disk `d'`: each of its entries, and its hard state if it has one. */
  ghost predicate Stored(d: Disk, rd: Ready, d': Disk) {
    && (rd.hs.Some? ==> d'.hard == rd.hs.value)
    && (rd.hs.None? ==> d'.hard == d.hard)
    && forall e :: e in rd.entries ==> Holds(d'.log, e)
  }

  /** Persisted messages leave only when the ready's entries and hard state are on disk. */
  ghost predicate SendOk(d: Disk, rd: Ready, ev: Event) {
    ev.Sent? && ev.kind.Persisted? ==> Stored(d, rd, ev.disk)
  }

  /** Appending keeps the log below the first new entry and holds every new one. */
  lemma {:induction false} AppendHolds(log: Log, es: seq<Entry>)
    requires LogOk(log) && Consecutive(es) && es != [] && log.first <= es[0].index <= LastIndex(log) + 1
    ensures var r := Appended(log, es);
            r.first == log.first && LastIndex(r) == es[|es| - 1].index
            && r.entries[..es[0].index - log.first] == log.entries[..es[0].index - log.first]
            && forall e :: e in es ==> Holds(r, e)
  {
    var k := |es| - 1;
    var l := Appended(log, es[..k]);
    var n := es[0].index - log.first;
    if k > 0 {
      AppendHolds(log, es[..k]);
      assert l.entries[..n] == log.entries[..n];
    }
    assert es[k].index == es[0].index + k;
    var r := Appended(log, es);
    assert r.entries[..n] == l.entries[..n];
    forall e | e in es ensures Holds(r, e) {
      var i :| 0 <= i < |es| && es[i] == e;
      if i < k {
        assert es[..k][i] == e && e in es[..k];
      }
    }
  }

  lemma StoredSafe(d: Disk, since: nat, rd: Ready)
    requires CrashSafe(d) && since <= Applied(d) && ReadyOk(d, since, rd)
    ensures CrashSafe(d.(log := Appended(d.log, rd.entries))) && CrashSafe(StoredDisk(d, rd))
    ensures Stored(d, rd, StoredDisk(d, rd))
    ensures CommittedOk(StoredDisk(d, rd).log, since, StoredDisk(d, rd).hard.commit, rd.committed)
    ensures LogOk(d.log) && Consecutive(rd.entries)
    ensures rd.entries != [] ==> d.log.first <= rd.entries[0].index <= LastIndex(d.log) + 1
    ensures forall ev :: ev in AppendTrace(d, rd.entries) ==> ev.Wrote? && CrashSafe(ev.disk)
  {
    AppendSafe(d, rd.entries);
    if rd.entries != [] {
      AppendHolds(d.log, rd.entries);
    }
  }

  /** Every crash point of a ready is safe, and no message is sent too early. */
  lemma ReadySafe(d: Disk, since: nat, rd: Ready)
    requires CrashSafe(d) && since <= Applied(d) && ReadyOk(d, since, rd)
    ensures CrashSafe(ReadyDisk(d, rd))
    ensures forall ev :: ev in ReadyTrace(d, rd) ==> CrashSafe(ev.disk) && SendOk(d, rd, ev)
    ensures !Stopped(ReadyDisk(d, rd), rd.committed) ==>
              (if rd.committed == [] then Applied(ReadyDisk(d, rd)) == Applied(d)
               else Applied(ReadyDisk(d, rd)) == rd.committed[|rd.committed| - 1].index)
  {
    hide CrashSafe, Appended, AppendTrace, CommittedTrace, CommittedDisk, CommittedOk, ReadyOk, Stored;
    StoredSafe(d, since, rd);
    CommittedSafe(StoredDisk(d, rd), since, rd.committed);
  }

  lemma LightCommitSafe(d: Disk, since: nat, lr: LightReady)
    requires CrashSafe(d) && since <= Applied(d) && LightReadyOk(d, since, lr)
    ensures var d' := WithCommit(d, lr);
            CrashSafe(d') && Applied(d') == Applied(d) && CommittedOk(d'.log, since, d'.hard.commit, lr.committed)
  {
  }

  lemma LightSafe(d: Disk, since: nat, lr: LightReady)
    requires CrashSafe(d) && since <= Applied(d) && LightReadyOk(d, since, lr)
    ensures CrashSafe(LightDisk(d, lr))
    ensures forall ev :: ev in LightTrace(d, lr) ==> CrashSafe(ev.disk)
    ensures !Stopped(LightDisk(d, lr), lr.committed) ==>
              (if lr.committed == [] then Applied(LightDisk(d, lr)) == Applied(d)
               else Applied(LightDisk(d, lr)) == lr.committed[|lr.committed| - 1].index)
  {
    CommittedSafe(WithCommit(d, lr), since, lr.committed);
  }

  lemma CompactSafe(d: Disk, minEntries: nat)
    requires CrashSafe(d)
    ensures CrashSafe(Compacted(d, minEntries)) && Applied(Compacted(d, minEntries)) == Applied(d)
  {
  }

  // ----- whole runs, with crashes and restarts

  /** A running or stopped node; `since` is the index up to which Raft has handed out committed entries. */
  datatype Node = Node(disk: Disk, since: nat, running: bool)

  datatype Input =
    | Turn(rd: Ready, lr: LightReady, minEntries: nat)
    | Crash(rd: Ready, lr: LightReady, minEntries: nat, at: nat)  // the turn is cut off after `at` events
    | Restart(minEntries: nat)
    | CrashInRestart(minEntries: nat, at: nat)                    // the restart is cut off after `at` events

  function SinceAfter(since: nat, es: seq<Entry>): nat {
    if es == [] then since else es[|es| - 1].index
  }

  ghost predicate TurnOk(n: Node, rd: Ready, lr: LightReady) {
    && n.running && ReadyOk(n.disk, n.since, rd)
    && (!Stopped(ReadyDisk(n.disk, rd), rd.committed)
        ==> LightReadyOk(ReadyDisk(n.disk, rd), SinceAfter(n.since, rd.committed), lr))
  }

  function TurnDisk(d: Disk, rd: Ready, lr: LightReady, minEntries: nat): Disk {
    var d1 := ReadyDisk(d, rd);
    if Stopped(d1, rd.committed) then d1 else Compacted(LightDisk(d1, lr), minEntries)
  }

  /** One turn of the loop: the ready, the light ready unless consensus stopped, and compaction. */
  function TurnTrace(d: Disk, rd: Ready, lr: LightReady, minEntries: nat): seq<Event> {
    var d1 := ReadyDisk(d, rd);
    ReadyTrace(d, rd)
    + if Stopped(d1, rd.committed) then [] else LightTrace(d1, lr) + [Wrote(Compacted(LightDisk(d1, lr), minEntries))]
  }

  /** What is on disk after the first `k` events. */
  function DiskAt(d: Disk, trace: seq<Event>, k: nat): Disk {
    if k == 0 || trace == [] then d else trace[(if k <= |trace| then k else |trace|) - 1].disk
  }

  /** Raft is started at the applied index found on disk; only then are leftover committed entries applied. */
  function Restarted(d: Disk, minEntries: nat): Node {
    Node(Compacted(AppliedDisk(d), minEntries), Applied(d), true)
  }

  function RestartTrace(d: Disk, minEntries: nat): seq<Event> {
    ApplyTrace(d) + [Wrote(Compacted(AppliedDisk(d), minEntries))]
  }

  ghost predicate InputOk(n: Node, i: Input) {
    i.Turn? || i.Crash? ==> TurnOk(n, i.rd, i.lr)
  }

  /** Nothing but the disk survives a crash. */
  function Down(d: Disk): Node {
    Node(d, 0, false)
  }

  function FirstEvents(t: seq<Event>, at: nat): seq<Event> {
    if at <= |t| then t[..at] else t
  }

  function After(n: Node, i: Input): Node {
    match i
    case Turn(rd, lr, minEntries) =>
      var d1 := ReadyDisk(n.disk, rd);
      var since1 := SinceAfter(n.since, rd.committed);
      Node(TurnDisk(n.disk, rd, lr, minEntries),
           if Stopped(d1, rd.committed) then since1 else SinceAfter(since1, lr.committed),
           !Stopped(d1, rd.committed) && !Stopped(LightDisk(d1, lr), lr.committed))
    case Crash(rd, lr, minEntries, at) => Down(DiskAt(n.disk, TurnTrace(n.disk, rd, lr, minEntries), at))
    case Restart(minEntries) => Restarted(n.disk, minEntries)
    case CrashInRestart(minEntries, at) => Down(DiskAt(n.disk, RestartTrace(n.disk, minEntries), at))
  }

  function Events(n: Node, i: Input): seq<Event> {
    match i
    case Turn(rd, lr, minEntries) => TurnTrace(n.disk, rd, lr, minEntries)
    case Crash(rd, lr, minEntries, at) => FirstEvents(TurnTrace(n.disk, rd, lr, minEntries), at)
    case Restart(minEntries) => RestartTrace(n.disk, minEntries)
    case CrashInRestart(minEntries, at) => FirstEvents(RestartTrace(n.disk, minEntries), at)
  }

  ghost predicate NodeOk(n: Node) {
    CrashSafe(n.disk) && (n.running ==> n.since <= Applied(n.disk))
  }

  lemma TurnSafe(n: Node, rd: Ready, lr: LightReady, minEntries: nat)
    requires NodeOk(n) && TurnOk(n, rd, lr)
    ensures NodeOk(After(n, Turn(rd, lr, minEntries)))
    ensures forall ev :: ev in TurnTrace(n.disk, rd, lr, minEntries) ==> CrashSafe(ev.disk)
    ensures forall ev :: ev in TurnTrace(n.disk, rd, lr, minEntries) ==> SendOk(n.disk, rd, ev)
  {
    hide CrashSafe, ReadyDisk, ReadyTrace, LightDisk, LightTrace, ReadyOk, LightReadyOk, SendOk, Compacted, Stopped;
    ReadySafe(n.disk, n.since, rd);
    var d1 := ReadyDisk(n.disk, rd);
    if !Stopped(d1, rd.committed) {
      LightSafe(d1, SinceAfter(n.since, rd.committed), lr);
      CompactSafe(LightDisk(d1, lr), minEntries);
      LightSendsOk(n.disk, rd, d1, lr, minEntries);
    }
  }

  /** The light ready sends no persisted messages. */
  lemma LightSendsOk(d: Disk, rd: Ready, d1: Disk, lr: LightReady, minEntries: nat)
    ensures forall ev :: ev in LightTrace(d1, lr) + [Wrote(Compacted(LightDisk(d1, lr), minEntries))]
              ==> SendOk(d, rd, ev)
  {
    CommittedWrites(WithCommit(d1, lr), lr.committed);
  }

  lemma CommittedWrites(d: Disk, es: seq<Entry>)
    ensures forall ev :: ev in CommittedTrace(d, es) ==> ev.Wrote?
  {
    if es != [] {
      ApplyWrites(Queued(d, es));
    }
  }

  lemma {:induction false} ApplyWrites(d: Disk)
    ensures forall ev :: ev in ApplyTrace(d) ==> ev.Wrote?
    decreases if d.queue.Some? then d.queue.value.last + 1 - d.queue.value.current else -1
  {
    if d.queue.Some? && d.queue.value.current <= d.queue.value.last && !StopsHere(d, d.queue.value) {
      ApplyWrites(AdvanceQueue(d));
    }
  }

  lemma RestartSafe(d: Disk, minEntries: nat)
    requires CrashSafe(d)
    ensures NodeOk(Restarted(d, minEntries))
    ensures forall ev :: ev in RestartTrace(d, minEntries) ==> CrashSafe(ev.disk) && ev.Wrote?
  {
    ApplySafe(d);
    CompactSafe(AppliedDisk(d), minEntries);
  }

  /** Turns send persisted messages after their writes; restarts send nothing. */
  ghost predicate InputSendOk(n: Node, i: Input, ev: Event) {
    if i.Turn? || i.Crash? then SendOk(n.disk, i.rd, ev) else ev.Wrote?
  }

  /** All crash points of one input are safe, and each persisted message it sends is sent after its writes. */
  lemma StepSafe(n: Node, i: Input)
    requires NodeOk(n) && InputOk(n, i)
    ensures NodeOk(After(n, i))
    ensures forall ev :: ev in Events(n, i) ==> CrashSafe(ev.disk) && InputSendOk(n, i, ev)
  {
    hide CrashSafe, TurnTrace, RestartTrace, TurnOk, Compacted, AppliedDisk;
    match i
    case Turn(rd, lr, minEntries) =>
      TurnSafe(n, rd, lr, minEntries);
    case Crash(rd, lr, minEntries, at) =>
      TurnSafe(n, rd, lr, minEntries);
    case Restart(minEntries) =>
      RestartSafe(n.disk, minEntries);
    case CrashInRestart(minEntries, at) =>
      RestartSafe(n.disk, minEntries);
  }

  // ----- any number of turns, crashes and restarts

  function NodeAfter(n: Node, inputs: seq<Input>): Node {
    if inputs == [] then n else After(NodeAfter(n, inputs[..|inputs| - 1]), inputs[|inputs| - 1])
  }

  ghost predicate RunOk(n: Node, inputs: seq<Input>) {
    forall k :: 0 <= k < |inputs| ==> InputOk(NodeAfter(n, inputs[..k]), inputs[k])
  }

  /** Crash safety of whole runs: at every event of every input, applied <= commit <= last log index on disk. */
  lemma {:induction false} RunCrashSafe(n: Node, inputs: seq<Input>, k: nat)
    requires NodeOk(n) && RunOk(n, inputs) && k <= |inputs|
    ensures NodeOk(NodeAfter(n, inputs[..k]))
    ensures k < |inputs| ==>
              forall ev :: ev in Events(NodeAfter(n, inputs[..k]), inputs[k]) ==>
                CrashSafe(ev.disk) && InputSendOk(NodeAfter(n, inputs[..k]), inputs[k], ev)
    decreases k
  {
    hide NodeOk, Events, After, CrashSafe, InputOk, InputSendOk;
    if k != 0 {
      RunCrashSafe(n, inputs, k - 1);
      assert inputs[..k][..k - 1] == inputs[..k - 1];
      StepSafe(NodeAfter(n, inputs[..k - 1]), inputs[k - 1]);
    }
    if k < |inputs| {
      StepSafe(NodeAfter(n, inputs[..k]), inputs[k]);
    }
  }

  // ----- when the applied index moves back

  /** Queueing committed entries lowers the stored applied index exactly when Raft was behind it. */
  lemma AppliedStepsBackIff(d: Disk, since: nat, es: seq<Entry>)
    requires CrashSafe(d) && since <= Applied(d) && es != [] && CommittedOk(d.log, since, d.hard.commit, es)
    ensures Applied(Queued(d, es)) <= Applied(d)
    ensures Applied(Queued(d, es)) < Applied(d) <==> since < Applied(d) && d.log.first <= Applied(d)
  {
  }

  /** After a restart Raft is behind the stored applied index exactly when the crash left an entry to apply. */
  lemma RestartLeavesRaftBehind(d: Disk, minEntries: nat)
    requires CrashSafe(d)
    ensures var n := Restarted(d, minEntries);
            n.since < Applied(n.disk)
            <==> d.queue.Some? && d.queue.value.current <= d.queue.value.last && !StopsHere(d, d.queue.value)
  {
    ApplySafe(d);
    CompactSafe(AppliedDisk(d), minEntries);
    if d.queue.Some? && d.queue.value.current <= d.queue.value.last && !StopsHere(d, d.queue.value) {
      ApplySafe(AdvanceQueue(d));
    }
  }

  /**
   Such a run: the crash leaves an entry queued, the restart applies it, and Raft, started before that, hands the same
   entry out again; queueing it lowers the applied index on disk.
   */
  lemma AppliedStepsBackRun() returns (n: Node, inputs: seq<Input>, ev: Event)
    ensures NodeOk(n) && RunOk(n, inputs) && inputs != []
    ensures var m := NodeAfter(n, inputs[..|inputs| - 1]);
            ev in Events(m, inputs[|inputs| - 1]) && Applied(ev.disk) < Applied(m.disk)
  {
    var e := Entry(1, 1, false);
    var d := Disk(Log(1, [e]), HardState(1, 0, 1), None);
    var rd, lr := Ready(0, [], None, 0, [e]), LightReady(None, 0, []);
    n := Node(d, 0, true);
    inputs := [Crash(rd, lr, 0, 1), Restart(0), Turn(rd, lr, 0)];
    var queued := Queued(d, [e]);
    var applied := d.(queue := Some(Queue(2, 1)));
    QueueOnce(d, rd, lr, queued);
    AppliesOne(queued, applied);
    QueueOnce(applied, rd, lr, queued);
    assert NodeOk(n) && NodeOk(Down(queued));
    hide TurnOk, TurnTrace, RestartTrace, AppliedDisk, NodeOk;
    assert After(n, inputs[0]) == Down(queued);
    assert After(Down(queued), inputs[1]) == Node(applied, 0, true);
    ThreeInputs(n, inputs);
    ev := Wrote(queued);
  }

  lemma AppliesOne(queued: Disk, applied: Disk)
    requires queued.log == Log(1, [Entry(1, 1, false)]) && queued.queue == Some(Queue(1, 1))
    requires applied == queued.(queue := Some(Queue(2, 1)))
    ensures Compacted(AppliedDisk(queued), 0) == applied
  {
    ApplyStep(queued);
    ApplyDone(applied);
  }

  lemma ThreeInputs(n: Node, inputs: seq<Input>)
    requires |inputs| == 3
    ensures NodeAfter(n, inputs[..0]) == n && NodeAfter(n, inputs[..1]) == After(n, inputs[0])
    ensures NodeAfter(n, inputs[..2]) == After(After(n, inputs[0]), inputs[1])
  {
    hide After;
    assert inputs[..2][..1] == inputs[..1] && inputs[..1][..0] == [];
  }

  /** A turn that only hands out the committed entry 1 writes the queue first. */
  lemma QueueOnce(d: Disk, rd: Ready, lr: LightReady, queued: Disk)
    requires d.log == Log(1, [Entry(1, 1, false)]) && d.hard == HardState(1, 0, 1)
    requires rd == Ready(0, [], None, 0, [Entry(1, 1, false)]) && lr == LightReady(None, 0, [])
    requires queued == Queued(d, rd.committed)
    ensures TurnOk(Node(d, 0, true), rd, lr)
    ensures TurnTrace(d, rd, lr, 0) != [] && TurnTrace(d, rd, lr, 0)[0] == Wrote(queued)
  {
    assert StoreTrace(d, rd) == [] && StoredDisk(d, rd) == d;
  }

  // ----- the loop object

  class ConsensusLoop {
    var log: Log
    var hard: HardState
    var queue: Option<Queue>
    ghost var trace: seq<Event>

    function OnDisk(): Disk
      reads this
    {
      Disk(log, hard, queue)
    }

    ghost method Record(ev: Event)
      modifies this`trace
      ensures trace == old(trace) + [ev]
    {
      trace := trace + [ev];
    }

    method SendMessages(kind: Kind)
      modifies this`trace
      ensures trace == old(trace) + [Sent(kind, OnDisk())]
    {
      Record(Sent(kind, OnDisk()));
    }

    /** Appends entries one by one, cutting off a conflicting tail; refuses indices outside the log. */
    method AppendEntries(es: seq<Entry>) returns (ok: bool)
      requires LogOk(log)
      modifies this`log, this`trace
      ensures Consecutive(es) && (es != [] ==> old(log).first <= es[0].index <= LastIndex(old(log)) + 1) ==> ok
      ensures es != [] && !(old(log).first <= es[0].index <= LastIndex(old(log)) + 1) ==> !ok && log == old(log)
      ensures ok ==> log == Appended(old(log), es) && trace == old(trace) + AppendTrace(old(OnDisk()), es)
    {
      hide Appended, AppendTrace;
      ghost var d := OnDisk();
      AppendNothing(d);
      assert es[..0] == [];
      for k := 0 to |es|
        invariant log == Appended(d.log, es[..k]) && log.first == d.log.first
        invariant k > 0 && Consecutive(es) ==> LastIndex(log) == es[k - 1].index
        invariant k > 0 ==> old(log).first <= es[0].index <= LastIndex(old(log)) + 1
        invariant trace == old(trace) + AppendTrace(d, es[..k])
      {
        var e := es[k];
        AppendStep(d, es, k);
        if e.index < log.first || e.index > LastIndex(log) + 1 {
          return false;
        }
        ghost var before, t := log, trace;
        if e.index <= LastIndex(log) {
          log := Truncated(log, e.index);
          Record(Wrote(OnDisk()));
        }
        log := log.(entries := log.entries + [e]);
        Record(Wrote(OnDisk()));
        assert log == AppendOne(before, e);
        assert trace == t + AppendEvents(d, before, e);
      }
      assert es[..|es|] == es;
      return true;
    }

    method SetHardState(hs: HardState)
      modifies this`hard, this`trace
      ensures hard == hs && trace == old(trace) + [Wrote(OnDisk())]
    {
      hard := hs;
      Record(Wrote(OnDisk()));
    }

    /** Applies queued entries one by one; a missing entry is an error that a safe disk rules out. */
    method ApplyEntries() returns (stop: bool, ok: bool)
      modifies this`queue, this`trace
      ensures old(CrashSafe(OnDisk())) ==> ok
      ensures ok ==> OnDisk() == AppliedDisk(old(OnDisk())) && trace == old(trace) + ApplyTrace(old(OnDisk()))
      ensures ok ==> stop == (queue.Some? && queue.value.current <= queue.value.last)
    {
      hide AppliedDisk, ApplyTrace, CrashSafe;
      stop, ok := false, true;
      while queue.Some? && queue.value.current <= queue.value.last
        invariant AppliedDisk(OnDisk()) == AppliedDisk(old(OnDisk()))
        invariant trace + ApplyTrace(OnDisk()) == old(trace) + ApplyTrace(old(OnDisk()))
        invariant old(CrashSafe(OnDisk())) ==> CrashSafe(OnDisk())
        decreases if queue.Some? then queue.value.last + 1 - queue.value.current else 0
      {
        var q := queue.value;
        ApplyStep(OnDisk());
        if q.current < log.first || q.current > LastIndex(log) {
          return false, false;
        }
        if log.entries[q.current - log.first].stops {
          assert trace + [] == trace;
          return true, true;
        }
        queue := Some(Queue(q.current + 1, q.last));
        OneMore(trace, Wrote(OnDisk()), ApplyTrace(OnDisk()));
        Record(Wrote(OnDisk()));
      }
      ApplyDone(OnDisk());
      assert trace + [] == trace;
    }

    method HandleCommitted(es: seq<Entry>, ghost since: nat) returns (stop: bool, ok: bool)
      requires CrashSafe(OnDisk()) && since <= Applied(OnDisk()) && CommittedOk(log, since, hard.commit, es)
      modifies this`queue, this`trace
      ensures ok && OnDisk() == CommittedDisk(old(OnDisk()), es) && stop == Stopped(OnDisk(), es)
      ensures trace == old(trace) + CommittedTrace(old(OnDisk()), es)
    {
      stop, ok := false, true;
      if es != [] {
        queue := Some(Queue(es[0].index, es[|es| - 1].index));
        Record(Wrote(OnDisk()));
        stop, ok := ApplyEntries();
      }
    }

    /** The order of the steps is what keeps every crash point safe. */
    method StoreReady(rd: Ready)
      requires LogOk(log) && Consecutive(rd.entries)
      requires rd.entries != [] ==> log.first <= rd.entries[0].index <= LastIndex(log) + 1
      modifies this`log, this`hard, this`trace
      ensures OnDisk() == StoredDisk(old(OnDisk()), rd) && trace == old(trace) + StoreTrace(old(OnDisk()), rd)
    {
      hide Appended, AppendTrace;
      ghost var d := OnDisk();
      ghost var stored := StoredDisk(d, rd);
      ghost var t := if rd.messages > 0 then [Sent(Immediate, d)] else [];
      if rd.messages > 0 {
        SendMessages(Immediate);
      }
      assert trace == old(trace) + t;
      var appended := AppendEntries(rd.entries);
      t := t + AppendTrace(d, rd.entries);
      assert trace == old(trace) + t;
      if rd.hs.Some? {
        SetHardState(rd.hs.value);
      }
      assert OnDisk() == stored;
      t := t + if rd.hs.Some? then [Wrote(stored)] else [];
      assert trace == old(trace) + t;
      if rd.persisted > 0 {
        SendMessages(Persisted);
      }
    }

    method ProcessReady(rd: Ready, ghost since: nat) returns (stop: bool, ok: bool)
      requires CrashSafe(OnDisk()) && since <= Applied(OnDisk()) && ReadyOk(OnDisk(), since, rd)
      modifies this
      ensures ok && OnDisk() == ReadyDisk(old(OnDisk()), rd) && stop == Stopped(OnDisk(), rd.committed)
      ensures trace == old(trace) + ReadyTrace(old(OnDisk()), rd)
    {
      hide StoreTrace, Appended, CommittedTrace, CommittedDisk, CommittedOk, Consecutive, LogOk;
      StoredSafe(OnDisk(), since, rd);
      StoreReady(rd);
      stop, ok := HandleCommitted(rd.committed, since);
    }

    method ProcessLightReady(lr: LightReady, ghost since: nat) returns (stop: bool, ok: bool)
      requires CrashSafe(OnDisk()) && since <= Applied(OnDisk()) && LightReadyOk(OnDisk(), since, lr)
      modifies this
      ensures ok && OnDisk() == LightDisk(old(OnDisk()), lr) && stop == Stopped(OnDisk(), lr.committed)
      ensures trace == old(trace) + LightTrace(old(OnDisk()), lr)
    {
      LightCommitSafe(OnDisk(), since, lr);
      hide CrashSafe, CommittedOk, CommittedTrace, CommittedDisk, LightReadyOk;
      ghost var d := OnDisk();
      ghost var t := if lr.commit.Some? then [Wrote(WithCommit(d, lr))] else [];
      if lr.commit.Some? {
        SetHardState(hard.(commit := lr.commit.value));
      }
      assert OnDisk() == WithCommit(d, lr) && trace == old(trace) + t;
      SendMessages(Immediate);
      assert trace == old(trace) + (t + [Sent(Immediate, OnDisk())]);
      stop, ok := HandleCommitted(lr.committed, since);
    }

    method CompactWal(minEntries: nat)
      requires CrashSafe(OnDisk())
      modifies this`log, this`trace
      ensures OnDisk() == Compacted(old(OnDisk()), minEntries) && trace == old(trace) + [Wrote(OnDisk())]
    {
      if minEntries != 0 && log.entries != [] && queue.Some? && queue.value.current != 0 {
        var applied := queue.value.current - 1;
        if applied >= log.first + minEntries {
          log := Log(applied, log.entries[applied - log.first..]);
        }
      }
      Record(Wrote(OnDisk()));
    }

    /** One turn of the consensus loop. */
    method OnReady(rd: Ready, lr: LightReady, minEntries: nat, ghost since: nat) returns (stop: bool)
      requires NodeOk(Node(OnDisk(), since, true)) && TurnOk(Node(OnDisk(), since, true), rd, lr)
      modifies this
      ensures var n := After(Node(old(OnDisk()), since, true), Turn(rd, lr, minEntries));
              OnDisk() == n.disk && stop == !n.running && NodeOk(n)
      ensures trace == old(trace) + TurnTrace(old(OnDisk()), rd, lr, minEntries)
    {
      hide CrashSafe, ReadyDisk, ReadyTrace, LightDisk, LightTrace, ReadyOk, LightReadyOk, Compacted, Stopped;
      TurnSafe(Node(OnDisk(), since, true), rd, lr, minEntries);
      ReadySafe(OnDisk(), since, rd);
      ghost var d := OnDisk();
      var ok: bool;
      stop, ok := ProcessReady(rd, since);
      if !stop {
        ghost var d1 := OnDisk();
        LightSafe(d1, SinceAfter(since, rd.committed), lr);
        stop, ok := ProcessLightReady(lr, SinceAfter(since, rd.committed));
        CompactWal(minEntries);
        assert trace == old(trace) + (ReadyTrace(d, rd) + (LightTrace(d1, lr) + [Wrote(OnDisk())]));
      }
    }
  }
}
