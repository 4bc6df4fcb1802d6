/**
 Concurrent writers of one WAL. Advancing a clock and appending the record are separate critical sections, and so
 are the two halves of a cutoff update, so any number of them interleave.
 */
module WalWriters {
  import opened Options
  import opened ClockMaps
  import opened WalDelta
  import opened WalDeltaTheorems
  import opened RecoverableWals

  datatype State = State(
    newest: Clocks,
    oldest: Clocks,
    log: seq<ClockTag>,
    pending: map<nat, ClockTag>,  // writers between the clock advance and the append
    cutoffs: map<nat, Clocks>,    // cutoff updates between their two halves
    lost: set<(Key, nat)>)        // ticks of writes and cutoff updates that never got past their first half

  datatype Action =
    | Begin(w: nat, tag: ClockTag)
    | Append(w: nat)
    | CutoffNewest(c: nat, cutoff: Clocks)
    | CutoffOldest(c: nat)
    | FailAppend(w: nat)   // the record cannot be made or written, or the writer is dropped at the lock
    | DropCutoff(c: nat)   // the cutoff update is dropped between its halves

  ghost predicate Init(s: State) {
    s == State(map[], map[], [], map[], map[], {})
  }

  ghost predicate Next(s: State, a: Action, s': State) {
    match a
    case Begin(w, tag) =>
      w !in s.pending
      && var adv := AdvanceClock(s.newest, tag);
         s' == if adv.accepted || tag.force then s.(newest := adv.clocks, pending := s.pending[w := tag]) else s
    case Append(w) =>
      w in s.pending && s' == s.(log := s.log + [s.pending[w]], pending := s.pending - {w})
    case CutoffNewest(c, cutoff) =>
      c !in s.cutoffs && MergedInto(s.newest, cutoff, s'.newest)
      && s' == s.(newest := s'.newest, cutoffs := s.cutoffs[c := cutoff])
    case CutoffOldest(c) =>
      c in s.cutoffs && MergedInto(s.oldest, s.cutoffs[c], s'.oldest)
      && s' == s.(oldest := s'.oldest, cutoffs := s.cutoffs - {c})
    case FailAppend(w) =>
      w in s.pending
      && s' == s.(pending := s.pending - {w}, lost := s.lost + {(s.pending[w].key, s.pending[w].tick)})
    case DropCutoff(c) =>
      c in s.cutoffs && s' == s.(cutoffs := s.cutoffs - {c}, lost := s.lost + TicksOf(s.cutoffs[c]))
  }

  function TicksOf(c: Clocks): set<(Key, nat)> {
    set k | k in c :: (k, c[k].tick)
  }

  /** No clock is handed to two writers at once, and no write is forced below the newest tick of its clock. */
  ghost predicate Disciplined(s: State, a: Action) {
    a.Begin? ==> (a.tag.force ==> a.tag.tick >= TickOf(s.newest, a.tag.key))
                 && forall w :: w in s.pending ==> s.pending[w].key != a.tag.key
  }

  // ----- invariants

  /** Holds whatever the writers do. */
  ghost predicate Safe(s: State) {
    && Positive(s.newest) && Positive(s.oldest)
    && (forall i :: 0 <= i < |s.log| ==> s.log[i].tick <= TickOf(s.newest, s.log[i].key))
    && (forall w :: w in s.pending ==> s.pending[w].tick <= TickOf(s.newest, s.pending[w].key))
    && (forall c, k :: c in s.cutoffs ==> TickOf(s.cutoffs[c], k) <= TickOf(s.newest, k))
    && (forall k :: TickOf(s.oldest, k) <= TickOf(s.newest, k))
  }

  /** Ticks of one clock appear in order, and a writer in flight is not behind its clock's records. */
  ghost predicate Ordered(s: State) {
    && (forall i, j :: 0 <= i < j < |s.log| && s.log[i].key == s.log[j].key ==> s.log[i].tick <= s.log[j].tick)
    && (forall w, i :: w in s.pending && 0 <= i < |s.log| && s.log[i].key == s.pending[w].key ==>
        s.log[i].tick <= s.pending[w].tick)
    && (forall w, v :: w in s.pending && v in s.pending && w != v ==> s.pending[w].key != s.pending[v].key)
  }

  ghost predicate Logged(s: State, k: Key) {
    exists i :: 0 <= i < |s.log| && s.log[i].key == k && s.log[i].tick == TickOf(s.newest, k)
  }

  /** The newest tick of the clock is still on its way to the log or to the cutoff. */
  ghost predicate InFlight(s: State, k: Key) {
    (exists w :: w in s.pending && s.pending[w].key == k && s.pending[w].tick == TickOf(s.newest, k))
    || exists c :: c in s.cutoffs && TickOf(s.cutoffs[c], k) >= TickOf(s.newest, k)
  }

  /** A write or cutoff update with the newest tick of the clock advanced it and failed. */
  ghost predicate Lost(s: State, k: Key) {
    (k, TickOf(s.newest, k)) in s.lost
  }

  ghost predicate AccountedFor(s: State, k: Key) {
    Logged(s, k) || TickOf(s.oldest, k) >= TickOf(s.newest, k) || InFlight(s, k) || Lost(s, k)
  }

  /** Every newest tick is logged, cut off, in flight or lost. */
  ghost predicate Accounted(s: State) {
    forall k :: k in s.newest ==> AccountedFor(s, k)
  }

  lemma MergedPositive(c: Clocks, cutoff: Clocks, r: Clocks)
    requires Positive(c) && MergedInto(c, cutoff, r)
    ensures Positive(r)
  {
    forall k | k in r ensures r[k].tick > 0 {
      assert TickOf(r, k) >= TickOf(c, k) && TickOf(r, k) >= TickOf(cutoff, k);
    }
  }

  lemma SafeBegin(s: State, w: nat, tag: ClockTag, s': State)
    requires Safe(s) && Next(s, Begin(w, tag), s')
    ensures Safe(s')
  {
    AdvanceIsMax(s.newest, tag);
    assert forall k :: TickOf(s.newest, k) <= TickOf(s'.newest, k);
  }

  lemma SafeCutoff(s: State, c: nat, cutoff: Clocks, s': State)
    requires Safe(s) && Next(s, CutoffNewest(c, cutoff), s')
    ensures Safe(s')
  {
    MergedPositive(s.newest, cutoff, s'.newest);
    assert forall k :: TickOf(s.newest, k) <= TickOf(s'.newest, k);
  }

  lemma SafeRest(s: State, a: Action, s': State)
    requires Safe(s) && Next(s, a, s') && !a.Begin? && !a.CutoffNewest?
    ensures Safe(s')
  {
    if a.CutoffOldest? {
      MergedPositive(s.oldest, s.cutoffs[a.c], s'.oldest);
    }
  }

  /** Oldest never passes newest and no record does, at any interleaving, forced or not. */
  lemma SafeStep(s: State, a: Action, s': State)
    requires Safe(s) && Next(s, a, s')
    ensures Safe(s')
  {
    hide Safe, Next;
    match a
    case Begin(w, tag) => SafeBegin(s, w, tag, s');
    case CutoffNewest(c, cutoff) => SafeCutoff(s, c, cutoff, s');
    case _ => SafeRest(s, a, s');
  }

  lemma OrderedStep(s: State, a: Action, s': State)
    requires Safe(s) && Ordered(s) && Next(s, a, s') && Disciplined(s, a)
    ensures Ordered(s')
  {
    if a.Begin? {
      OrderedBegin(s, a.w, a.tag, s');
    } else if a.Append? {
      OrderedAppend(s, a.w, s');
    }
  }

  lemma OrderedBegin(s: State, w: nat, tag: ClockTag, s': State)
    requires Safe(s) && Ordered(s) && Next(s, Begin(w, tag), s') && Disciplined(s, Begin(w, tag))
    ensures Ordered(s')
  {
    AdvanceIsMax(s.newest, tag);
    hide AdvanceClock;
  }

  /** Exactly which accepted writes keep the order: those alone on their clock and not below a logged tick of it. */
  lemma BeginKeepsOrderIff(s: State, w: nat, tag: ClockTag, s': State)
    requires Ordered(s) && Next(s, Begin(w, tag), s') && s' != s
    ensures Ordered(s') <==> && (forall v :: v in s.pending ==> s.pending[v].key != tag.key)
                             && (forall i :: 0 <= i < |s.log| && s.log[i].key == tag.key ==> s.log[i].tick <= tag.tick)
  {
    hide AdvanceClock;
    assert s'.pending == s.pending[w := tag] && s'.log == s.log;
    assert forall v :: v in s.pending ==> v != w && v in s'.pending && s'.pending[v] == s.pending[v];
    assert w in s'.pending && s'.pending[w] == tag;
  }

  lemma OrderedAppend(s: State, w: nat, s': State)
    requires Ordered(s) && Next(s, Append(w), s')
    ensures Ordered(s')
  {
  }

  lemma AccountedStep(s: State, a: Action, s': State)
    requires Safe(s) && Accounted(s) && Next(s, a, s') && Disciplined(s, a)
    ensures Accounted(s')
  {
    forall k | k in s'.newest
      ensures AccountedFor(s', k)
    {
      match a
      case Begin(w, tag) => BeginAccounts(s, w, tag, s', k);
      case Append(w) => AppendAccounts(s, w, s', k);
      case CutoffNewest(c, cutoff) => CutoffAccounts(s, c, s', k);
      case CutoffOldest(c) => CutoffDone(s, c, s', k);
      case FailAppend(w) => FailAccounts(s, w, s', k);
      case DropCutoff(c) => DropAccounts(s, c, s', k);
    }
  }

  lemma BeginAccounts(s: State, w: nat, tag: ClockTag, s': State, k: Key)
    requires Positive(s.newest) && Accounted(s) && Next(s, Begin(w, tag), s') && Disciplined(s, Begin(w, tag))
              && k in s'.newest
    ensures AccountedFor(s', k)
  {
    hide Accounted, Logged, Lost;
    AdvanceIsMax(s.newest, tag);
    if s' != s && k == tag.key {
      assert s'.pending[w] == tag && InFlight(s', k);
    } else {
      hide InFlight, AccountedFor;
      StaysAccounted(s, s', k);
    }
  }

  lemma StaysAccounted(s: State, s': State, k: Key)
    requires Accounted(s) && k in s.newest && TickOf(s'.newest, k) == TickOf(s.newest, k)
    requires s'.log == s.log && s'.oldest == s.oldest && s'.cutoffs == s.cutoffs && s'.lost == s.lost
    requires forall v :: v in s.pending ==> v in s'.pending && s'.pending[v] == s.pending[v]
    ensures AccountedFor(s', k)
  {
    if v: nat :| v in s.pending && s.pending[v].key == k && s.pending[v].tick == TickOf(s.newest, k) {
      assert v in s'.pending && s'.pending[v] == s.pending[v];
    }
  }

  lemma AppendAccounts(s: State, w: nat, s': State, k: Key)
    requires Accounted(s) && Next(s, Append(w), s') && k in s'.newest
    ensures AccountedFor(s', k)
  {
    var n := |s.log|;
    if Logged(s, k) {
      var i :| 0 <= i < n && s.log[i].key == k && s.log[i].tick == TickOf(s.newest, k);
      assert s'.log[i] == s.log[i];
    } else if v: nat :| v in s.pending && s.pending[v].key == k && s.pending[v].tick == TickOf(s.newest, k) {
      if v == w {
        assert s'.log[n] == s.pending[w];
      } else {
        assert v in s'.pending;
      }
    }
  }

  lemma CutoffAccounts(s: State, c: nat, s': State, k: Key)
    requires Accounted(s) && k in s'.newest && c !in s.cutoffs && c in s'.cutoffs
    requires Next(s, CutoffNewest(c, s'.cutoffs[c]), s')
    ensures AccountedFor(s', k)
  {
    if TickOf(s.newest, k) < TickOf(s'.newest, k) || k !in s.newest {
      assert TickOf(s'.cutoffs[c], k) >= TickOf(s'.newest, k);
    } else {
      assert TickOf(s'.newest, k) == TickOf(s.newest, k);
      if b: nat :| b in s.cutoffs && TickOf(s.cutoffs[b], k) >= TickOf(s.newest, k) {
        assert b in s'.cutoffs && s'.cutoffs[b] == s.cutoffs[b];
      }
    }
  }

  lemma CutoffDone(s: State, c: nat, s': State, k: Key)
    requires Accounted(s) && Next(s, CutoffOldest(c), s') && k in s'.newest
    ensures AccountedFor(s', k)
  {
    assert TickOf(s'.oldest, k) >= TickOf(s.oldest, k) && TickOf(s'.oldest, k) >= TickOf(s.cutoffs[c], k);
    if b: nat :| b in s.cutoffs && TickOf(s.cutoffs[b], k) >= TickOf(s.newest, k) {
      assert b != c ==> b in s'.cutoffs && s'.cutoffs[b] == s.cutoffs[b];
    }
  }

  lemma FailAccounts(s: State, w: nat, s': State, k: Key)
    requires Accounted(s) && Next(s, FailAppend(w), s') && k in s'.newest
    ensures AccountedFor(s', k)
  {
    if Logged(s, k) {
      assert Logged(s', k);
    } else if v: nat :| v in s.pending && s.pending[v].key == k && s.pending[v].tick == TickOf(s.newest, k) {
      assert v != w ==> v in s'.pending && s'.pending[v] == s.pending[v];
    }
  }

  lemma DropAccounts(s: State, c: nat, s': State, k: Key)
    requires Safe(s) && Accounted(s) && Next(s, DropCutoff(c), s') && k in s'.newest
    ensures AccountedFor(s', k)
  {
    if Logged(s, k) {
      assert Logged(s', k);
    } else if b: nat :| b in s.cutoffs && TickOf(s.cutoffs[b], k) >= TickOf(s.newest, k) {
      if b == c {
        assert TickOf(s.cutoffs[c], k) == TickOf(s.newest, k) > 0;
        assert (k, s.cutoffs[c][k].tick) in TicksOf(s.cutoffs[c]);
      } else {
        assert b in s'.cutoffs && s'.cutoffs[b] == s.cutoffs[b];
      }
    }
  }

  // ----- runs

  /** `trace[i]` leads by `actions[i]` to `trace[i + 1]`. */
  ghost predicate Run(trace: seq<State>, actions: seq<Action>) {
    |trace| == |actions| + 1 && Init(trace[0])
    && forall i :: 0 <= i < |actions| ==> Next(trace[i], actions[i], trace[i + 1])
  }

  ghost predicate DisciplinedRun(trace: seq<State>, actions: seq<Action>) {
    Run(trace, actions) && forall i :: 0 <= i < |actions| ==> Disciplined(trace[i], actions[i])
  }

  /** In every state of every run the cutoff and the log stay within the highest seen clocks. */
  lemma {:induction false} RunSafe(trace: seq<State>, actions: seq<Action>, n: nat)
    requires Run(trace, actions) && n < |trace|
    ensures Safe(trace[n])
  {
    if n != 0 {
      RunSafe(trace, actions, n - 1);
      SafeStep(trace[n - 1], actions[n - 1], trace[n]);
    }
  }

  /** In every disciplined run the log is in tick order per clock and every newest tick is accounted for. */
  lemma {:induction false} RunOrdered(trace: seq<State>, actions: seq<Action>, n: nat)
    requires DisciplinedRun(trace, actions) && n < |trace|
    ensures Safe(trace[n]) && Ordered(trace[n]) && Accounted(trace[n])
  {
    RunSafe(trace, actions, n);
    if n != 0 {
      RunOrdered(trace, actions, n - 1);
      OrderedStep(trace[n - 1], actions[n - 1], trace[n]);
      AccountedStep(trace[n - 1], actions[n - 1], trace[n]);
    }
  }

  // ----- what a delta resolved in the middle of a run is worth

  function LogOf(s: State): (log: Log)
    ensures |log| == |s.log| && forall i :: 0 <= i < |log| ==> log[i] == Entry(i, Some(s.log[i]))
  {
    seq(|s.log|, i requires 0 <= i < |s.log| => Entry(i, Some(s.log[i])))
  }

  lemma OrderedReplayable(s: State, oldest: Clocks)
    requires Ordered(s)
    ensures Replayable(LogOf(s), oldest) && Numbered(LogOf(s), 0)
  {
    var log := LogOf(s);
    forall i, j | 0 <= i < j < |log| ensures !SteppedBack(log[i], log[j]) {
      assert log[i] == Entry(i, Some(s.log[i])) && log[j] == Entry(j, Some(s.log[j]));
    }
  }

  /** Clocks only rise and the log only grows. */
  ghost predicate Grown(s: State, s': State) {
    s.log <= s'.log
    && forall k :: TickOf(s.newest, k) <= TickOf(s'.newest, k) && TickOf(s.oldest, k) <= TickOf(s'.oldest, k)
                   && (k in s.newest ==> k in s'.newest)
  }

  lemma StepGrows(s: State, a: Action, s': State)
    requires Positive(s.newest) && Next(s, a, s')
    ensures Grown(s, s')
  {
    if a.Begin? {
      AdvanceIsMax(s.newest, a.tag);
    }
  }

  lemma GrownTrans(a: State, b: State, c: State)
    requires Grown(a, b) && Grown(b, c)
    ensures Grown(a, c)
  {
  }

  lemma {:induction false} RunGrows(trace: seq<State>, actions: seq<Action>, i: nat, j: nat)
    requires Run(trace, actions) && i <= j < |trace|
    ensures Grown(trace[i], trace[j])
    decreases j
  {
    if i < j {
      RunGrows(trace, actions, i, j - 1);
      RunSafe(trace, actions, j - 1);
      assert Positive(trace[j - 1].newest);
      hide Grown, Next, Safe, Positive;
      StepGrows(trace[j - 1], actions[j - 1], trace[j]);
      GrownTrans(trace[i], trace[j - 1], trace[j]);
    }
  }

  /** The resolution takes three locks in turn: the newest clocks at `i`, the oldest at `m`, the log at `j`. */
  ghost function ResolvedAt(trace: seq<State>, i: nat, m: nat, j: nat, rp: Clocks, token: nat): Resolved
    requires i <= m <= j < |trace|
  {
    Resolve(LogOf(trace[j]), rp, trace[i].newest, trace[m].oldest, token)
  }

  /**
   A delta resolved in the middle of a disciplined run, whatever is written between its three locks: every tag above the
   recovery point is sent if its clock lagged or if it is not above the newest clocks as they were read.
   */
  lemma RunDeltaCovers(trace: seq<State>, actions: seq<Action>, i: nat, m: nat, j: nat, rp: Clocks, token: nat)
    requires DisciplinedRun(trace, actions) && i <= m <= j < |trace| && ResolvedAt(trace, i, m, j, rp, token).Ok?
    ensures var log := LogOf(trace[j]);
            var s := StartIndex(log, 0, ResolvedAt(trace, i, m, j, rp, token));
            0 <= s <= |log|
            && forall k, t: nat :: t > TickOf(rp, k) && Occurs(log, 0, k, t)
                                   && (Lags(rp, trace[i].newest, k) || t <= TickOf(trace[i].newest, k))
                                   ==> Occurs(log, s, k, t)
  {
    RunOrdered(trace, actions, j);
    OrderedReplayable(trace[j], trace[m].oldest);
    hide DisciplinedRun, Safe, Ordered, Accounted, Replayable, Resolve, StartIndex;
    LaggingCovered(LogOf(trace[j]), 0, rp, trace[i].newest, trace[m].oldest, token);
  }

  /** Nothing that was logged when the resolution began is missed. */
  lemma RunDeltaCoversStart(trace: seq<State>, actions: seq<Action>, i: nat, m: nat, j: nat, rp: Clocks, token: nat)
    requires DisciplinedRun(trace, actions) && i <= m <= j < |trace| && ResolvedAt(trace, i, m, j, rp, token).Ok?
    ensures var s := StartIndex(LogOf(trace[j]), 0, ResolvedAt(trace, i, m, j, rp, token));
            0 <= s <= |trace[j].log|
            && forall k, t: nat :: t > TickOf(rp, k) && Occurs(LogOf(trace[i]), 0, k, t)
                ==> Occurs(LogOf(trace[j]), s, k, t)
  {
    RunDeltaCovers(trace, actions, i, m, j, rp, token);
    RunGrows(trace, actions, i, j);
    RunSafe(trace, actions, i);
    hide DisciplinedRun, Run, ResolvedAt, StartIndex;
    var s := StartIndex(LogOf(trace[j]), 0, ResolvedAt(trace, i, m, j, rp, token));
    forall k, t: nat | t > TickOf(rp, k) && Occurs(LogOf(trace[i]), 0, k, t) ensures Occurs(LogOf(trace[j]), s, k, t) {
      var x :| 0 <= x < |LogOf(trace[i])| && IsTag(LogOf(trace[i])[x], k, t);
      assert LogOf(trace[j])[x] == LogOf(trace[i])[x];
      assert trace[i].log[x].tick <= TickOf(trace[i].newest, k);
    }
  }

  ghost predicate SoundAt(trace: seq<State>, i: nat, m: nat, j: nat, rp: Clocks, token: nat)
    requires i <= m <= j < |trace|
  {
    var log, res := LogOf(trace[j]), ResolvedAt(trace, i, m, j, rp, token);
    res.Ok? ==> 0 <= StartIndex(log, 0, res) <= |log| && Covers(log, rp, StartIndex(log, 0, res))
  }

  /** The cutoff read at `m` has passed the newest clocks read at `i`, so that every recovery point is refused. */
  ghost predicate CutoffPassed(newest: Clocks, oldest: Clocks) {
    exists k :: k in newest && k in oldest && oldest[k].tick > newest[k].tick
  }

  /**
   Exactly when a resolution misses nothing in the log it reads, for any recovery point: no record was logged above the
   newest clocks as they were read, or every recovery point is refused.
   */
  lemma RunDeltaSoundIff(trace: seq<State>, actions: seq<Action>, i: nat, m: nat, j: nat, token: nat)
    requires DisciplinedRun(trace, actions) && i <= m <= j < |trace|
    ensures (forall rp :: SoundAt(trace, i, m, j, rp, token))
       <==> trace[i].newest == map[] || CutoffPassed(trace[i].newest, trace[m].oldest)
            || Bounded(LogOf(trace[j]), trace[i].newest)
  {
    var newest, oldest := trace[i].newest, trace[m].oldest;
    if newest == map[] || CutoffPassed(newest, oldest) || Bounded(LogOf(trace[j]), newest) {
      forall rp ensures SoundAt(trace, i, m, j, rp, token) {
        if ResolvedAt(trace, i, m, j, rp, token).Ok? {
          WantedAreLagging(rp, newest, oldest, token);
          RunDeltaCovers(trace, actions, i, m, j, rp, token);
          hide DisciplinedRun, ResolvedAt, StartIndex, Lags;
          assert !CutoffPassed(newest, oldest) && newest != map[];
          BoundedTicks(LogOf(trace[j]), newest);
        }
      }
    } else {
      hide DisciplinedRun;
      LateTagMissed(LogOf(trace[j]), newest, oldest, token);
      assert !SoundAt(trace, i, m, j, newest, token);
    }
  }

  /** A target that has exactly the clocks as they were read is told that nothing is to be sent. */
  lemma LateTagMissed(log: Log, newest: Clocks, oldest: Clocks, token: nat)
    requires newest != map[] && !CutoffPassed(newest, oldest) && !Bounded(log, newest)
    ensures Resolve(log, newest, newest, oldest, token) == Ok(None) && !Covers(log, newest, |log|)
  {
    SamePointWanted(newest, oldest, token);
    NothingToSendIff(log, newest, newest, oldest, token);
    var x :| 0 <= x < |log| && Readable(log[x]) && log[x].tag.value.tick > TickOf(newest, log[x].tag.value.key);
    var tag := log[x].tag.value;
    assert IsTag(log[x], tag.key, tag.tick) && Occurs(log, 0, tag.key, tag.tick);
    assert !Occurs(log, |log|, tag.key, tag.tick);
  }

  lemma SamePointWanted(rp: Clocks, oldest: Clocks, token: nat)
    requires rp != map[] && !CutoffPassed(rp, oldest)
    ensures Prepare(rp, rp, oldest, token).Wanted?
  {
    hide Increased, WithMissing, WithoutEqual;
    assert !HasClocksNotIn(rp, rp) && !HasAnyNewerThan(rp, rp);
    var wanted := WithMissing(Increased(rp, 1), Increased(rp, 1), token);
    assert forall k :: k in wanted && k in Increased(oldest, 1) ==> wanted[k].tick >= Increased(oldest, 1)[k].tick;
  }

  /**
   When the answer is that nothing need be sent although the target lags, it lags on one clock only, whose newest tick
   is missing from the log: it is in flight, was lost, or was cut off after the oldest clocks were read.
   */
  lemma RunNothingToSend(trace: seq<State>, actions: seq<Action>, i: nat, m: nat, j: nat, rp: Clocks, token: nat,
      k: Key)
    requires DisciplinedRun(trace, actions) && i <= m <= j < |trace|
    requires ResolvedAt(trace, i, m, j, rp, token) == Ok(None) && Lags(rp, trace[i].newest, k)
    ensures HiddenByLast(LogOf(trace[j]), rp, trace[i].newest) && forall x :: Lags(rp, trace[i].newest, x) ==> x == k
    ensures InFlight(trace[j], k) || Lost(trace[j], k) || TickOf(trace[j].oldest, k) >= TickOf(trace[j].newest, k)
    ensures m == j ==> InFlight(trace[j], k) || Lost(trace[j], k)
  {
    RunOrdered(trace, actions, j);
    RunGrows(trace, actions, i, j);
    RunGrows(trace, actions, m, j);
    hide Safe, DisciplinedRun, Run, InFlight, Lost, Ordered, Accounted, Resolve, Prepare, HiddenByLast;
    NothingToSendAt(trace[j], rp, trace[i].newest, trace[m].oldest, token, k);
  }

  lemma NothingToSendAt(s: State, rp: Clocks, newest: Clocks, oldest: Clocks, token: nat, k: Key)
    requires Ordered(s) && Accounted(s) && k in s.newest && TickOf(newest, k) <= TickOf(s.newest, k)
    requires Resolve(LogOf(s), rp, newest, oldest, token) == Ok(None) && Lags(rp, newest, k)
    ensures HiddenByLast(LogOf(s), rp, newest) && forall x :: Lags(rp, newest, x) ==> x == k
    ensures InFlight(s, k) || Lost(s, k) || TickOf(s.oldest, k) >= TickOf(s.newest, k)
    ensures oldest == s.oldest ==> InFlight(s, k) || Lost(s, k)
  {
    NothingToSendIff(LogOf(s), rp, newest, oldest, token);
    WantedAreLagging(rp, newest, oldest, token);
    hide Resolve, Prepare, InFlight, Lost, Ordered, Logged;
    LastIsHighest(s, rp, k);
  }

  /** If the last record is of clock `k`, no record of it has a higher tick. */
  lemma LastIsHighest(s: State, rp: Clocks, k: Key)
    requires Ordered(s) && s.log != [] && s.log[|s.log| - 1].key == k && s.log[|s.log| - 1].tick <= TickOf(rp, k)
    requires TickOf(s.newest, k) > TickOf(rp, k)
    ensures !Logged(s, k)
  {
    forall x | 0 <= x < |s.log| && s.log[x].key == k ensures s.log[x].tick <= TickOf(rp, k) {
      assert x < |s.log| - 1 ==> s.log[x].tick <= s.log[|s.log| - 1].tick;
    }
  }

  // ----- the steps are those of a write

  /**
   A write of the WAL object taken apart: an accepted one begins and appends, or begins and fails, with the clocks and
   the log that the object ends with; a rejected one is a beginning that changes nothing.
   */
  lemma WriteIsTwoSteps(s: State, w: nat, op: Operation, tag: ClockTag)
    returns (begun: State, done: State, failed: State)
    requires op.tag == Some(tag) && w !in s.pending
    ensures Next(s, Begin(w, tag), begun)
    ensures Accepted(s.newest, op) ==>
              && Next(begun, Append(w), done) && Next(begun, FailAppend(w), failed)
              && done.newest == failed.newest == AfterWrite(s.newest, op)
              && done.log == s.log + [tag] && failed.log == s.log && done.pending == failed.pending == s.pending
              && done.lost == s.lost && failed.lost == s.lost + {(tag.key, tag.tick)}
    ensures !Accepted(s.newest, op) ==> begun == s
  {
    var adv := AdvanceClock(s.newest, tag);
    begun := if adv.accepted || tag.force then s.(newest := adv.clocks, pending := s.pending[w := tag]) else s;
    done, failed := begun, begun;
    if Accepted(s.newest, op) {
      done := begun.(log := s.log + [tag], pending := begun.pending - {w});
      failed := begun.(pending := begun.pending - {w}, lost := s.lost + {(tag.key, tag.tick)});
      assert s.pending[w := tag] - {w} == s.pending;
    }
  }

  // ----- what goes wrong, in runs

  /** A first write of a clock, begun and appended. */
  lemma FirstWrite(k: Key, tag: ClockTag, token: nat) returns (s0: State, s1: State, s2: State)
    requires tag.key == k && tag.tick > 0
    ensures Init(s0) && Next(s0, Begin(0, tag), s1) && Next(s1, Append(0), s2)
    ensures s0.pending == map[]
    ensures s2.newest == map[k := Clock(tag.tick, tag.token)] && s2.oldest == map[] && s2.log == [tag]
    ensures s2.pending == map[] && s2.cutoffs == map[] && s2.lost == {}
  {
    s0 := State(map[], map[], [], map[], map[], {});
    s1 := s0.(newest := map[k := Clock(tag.tick, tag.token)], pending := map[0 := tag]);
    s2 := s1.(log := [tag], pending := map[]);
    assert s1.pending - {0} == map[] && [] + [tag] == [tag];
  }

  /** The state of a source that has begun writes of one clock up to `tick`, one at a time. */
  ghost predicate Wrote(s: State, k: Key, tick: nat, token: nat, log: seq<ClockTag>) {
    s.newest == map[k := Clock(tick, token)] && s.oldest == map[] && s.cutoffs == map[] && s.log == log && s.lost == {}
  }

  /** Ticks 1 and 2 of a clock, each begun and appended. */
  lemma TwoWrites(k: Key, token: nat) returns (trace: seq<State>, actions: seq<Action>)
    ensures DisciplinedRun(trace, actions) && |trace| == 5
    ensures var t1, t2 := ClockTag(k, 1, token, false), ClockTag(k, 2, token, false);
            Wrote(trace[2], k, 1, token, [t1]) && Wrote(trace[3], k, 2, token, [t1])
                && Wrote(trace[4], k, 2, token, [t1, t2])
    ensures trace[2].pending == trace[4].pending == map[] && trace[3].pending == map[0 := ClockTag(k, 2, token, false)]
  {
    var t1, t2 := ClockTag(k, 1, token, false), ClockTag(k, 2, token, false);
    var s0, s1, s2 := FirstWrite(k, t1, token);
    var s3 := s2.(newest := map[k := Clock(2, token)], pending := map[0 := t2]);
    var s4 := s3.(log := [t1, t2], pending := map[]);
    assert s3.pending - {0} == map[] && [t1] + [t2] == [t1, t2];
    assert Next(s2, Begin(0, t2), s3) && Next(s3, Append(0), s4);
    hide Next;
    trace := [s0, s1, s2, s3, s4];
    actions := [Begin(0, t1), Append(0), Begin(0, t2), Append(0)];
  }

  /** With tick 1 logged and the clock at tick 2, a target at tick 1 is told that there is nothing to send. */
  lemma OneTickHidden(s: State, k: Key, token: nat) returns (rp: Clocks)
    requires s.newest == map[k := Clock(2, token)] && s.oldest == map[] && s.log == [ClockTag(k, 1, token, false)]
    ensures Resolve(LogOf(s), rp, s.newest, s.oldest, token) == Ok(None) && Lags(rp, s.newest, k)
  {
    hide Resolve, Prepare;
    rp := map[k := Clock(1, token)];
    OneTickBehind(s.newest, s.oldest, k, token, rp);
    NothingToSendIff(LogOf(s), rp, s.newest, s.oldest, token);
    assert LogOf(s)[0] == Entry(0, Some(ClockTag(k, 1, token, false)));
    assert HiddenByLast(LogOf(s), rp, s.newest);
  }

  /** A write in flight hides the delta: the answer is "nothing to send" although the source is one tick ahead. */
  lemma InFlightWriteHidden(k: Key, token: nat) returns (trace: seq<State>, actions: seq<Action>, n: nat, rp: Clocks)
    ensures DisciplinedRun(trace, actions) && n < |trace|
    ensures ResolvedAt(trace, n, n, n, rp, token) == Ok(None) && Lags(rp, trace[n].newest, k)
  {
    trace, actions := TwoWrites(k, token);
    hide DisciplinedRun, Resolve;
    n := 3;
    rp := OneTickHidden(trace[n], k, token);
  }

  /**
   A failed append hides the delta with nothing in flight: the answer is "nothing to send" although the clock is one
   tick ahead, because that tick was never logged.
   */
  lemma FailedAppendHidden(k: Key, token: nat) returns (trace: seq<State>, actions: seq<Action>, rp: Clocks)
    ensures DisciplinedRun(trace, actions)
    ensures var n := |trace| - 1;
            var s := trace[n];
            ResolvedAt(trace, n, n, n, rp, token) == Ok(None) && Lags(rp, s.newest, k)
            && s.pending == map[] && s.cutoffs == map[] && s.oldest == map[] && !InFlight(s, k) && Lost(s, k)
  {
    var t, a := TwoWrites(k, token);
    var s3 := t[3];
    var s4 := s3.(pending := map[], lost := {(k, 2)});
    assert s3.pending - {0} == map[] && Next(s3, FailAppend(0), s4);
    TraceCut(t, a, s4, FailAppend(0));
    hide DisciplinedRun, Resolve, Next;
    trace, actions := t[..4] + [s4], a[..3] + [FailAppend(0)];
    rp := OneTickHidden(s4, k, token);
  }

  lemma TraceCut(t: seq<State>, a: seq<Action>, s: State, act: Action)
    requires DisciplinedRun(t, a) && |t| == 5 && Next(t[3], act, s) && Disciplined(t[3], act)
    ensures DisciplinedRun(t[..4] + [s], a[..3] + [act])
  {
    hide Next, Disciplined;
  }

  lemma OneTickBehind(newest: Clocks, none: Clocks, k: Key, token: nat, rp: Clocks)
    requires newest == map[k := Clock(2, token)] && none == map[] && rp == map[k := Clock(1, token)]
    ensures Prepare(rp, newest, none, token).Wanted?
  {
    assert rp == newest[k := Clock(1, token)];
    OneClockBehind(newest, none, k, 2, token);
  }

  /**
   A write that fits between reading the newest clocks and reading the log is missed, with nothing in flight at either
   time: the answer is "nothing to send" although the log holds a tick above the recovery point.
   */
  lemma LateWriteMissed(k: Key, token: nat) returns (trace: seq<State>, actions: seq<Action>, i: nat, rp: Clocks)
    ensures DisciplinedRun(trace, actions)
    ensures var n := |trace| - 1;
            i <= n && ResolvedAt(trace, i, i, n, rp, token) == Ok(None)
            && trace[i].pending == trace[n].pending == map[] && trace[i].cutoffs == trace[n].cutoffs == map[]
            && Occurs(LogOf(trace[n]), 0, k, TickOf(rp, k) + 1)
  {
    trace, actions := TwoWrites(k, token);
    hide DisciplinedRun, Run, Resolve, Prepare;
    i := 2;
    rp := trace[i].newest;
    var log := LogOf(trace[4]);
    assert IsTag(log[1], k, 2);
    assert !Bounded(log, rp);
    LateTagMissed(log, rp, trace[i].oldest, token);
  }

  /** Two writers on one clock can append out of order, and then some recovery point is never sent the higher tick. */
  lemma TwoWritersDisorder(k: Key, token: nat) returns (trace: seq<State>, actions: seq<Action>)
    ensures Run(trace, actions) && forall i :: 0 <= i < |actions| ==> (actions[i].Begin? ==> !actions[i].tag.force)
    ensures var s := trace[|trace| - 1];
            s.pending == map[] && exists rp :: !Sound(LogOf(s), 0, s.newest, s.oldest, rp, token)
  {
    hide Sound;
    var t1, t2 := ClockTag(k, 1, token, false), ClockTag(k, 2, token, false);
    var none: Clocks := map[];
    var s0 := State(none, none, [], map[], map[], {});
    var s1 := s0.(newest := map[k := Clock(1, token)], pending := map[0 := t1]);
    var s2 := s1.(newest := map[k := Clock(2, token)], pending := map[0 := t1, 1 := t2]);
    var s3 := s2.(log := [t2], pending := map[0 := t1]);
    var s4 := s3.(log := [t2, t1], pending := map[]);
    assert s2.pending - {1} == s3.pending && [] + [t2] == [t2];
    assert s3.pending - {0} == s4.pending && [t2] + [t1] == [t2, t1];
    assert Next(s0, Begin(0, t1), s1) && Next(s1, Begin(1, t2), s2);
    assert Next(s2, Append(1), s3) && Next(s3, Append(0), s4);
    trace := [s0, s1, s2, s3, s4];
    actions := [Begin(0, t1), Begin(1, t2), Append(1), Append(0)];
    DescendingUnsound(s4, t2, t1, token);
  }

  /** One writer is enough if a write is forced below the newest tick. */
  lemma ForcedWriteDisorder(k: Key, token: nat) returns (trace: seq<State>, actions: seq<Action>)
    ensures Run(trace, actions) && forall i :: 0 <= i < |actions| && actions[i].Begin? ==> trace[i].pending == map[]
    ensures var s := trace[|trace| - 1];
            s.pending == map[] && !Ordered(s) && exists rp :: !Sound(LogOf(s), 0, s.newest, s.oldest, rp, token)
  {
    hide Sound;
    var t1, t2 := ClockTag(k, 1, token, true), ClockTag(k, 2, token, false);
    var s0, s1, s2 := FirstWrite(k, t2, token);
    var s3 := s2.(pending := map[0 := t1]);
    var s4 := s3.(log := [t2, t1], pending := map[]);
    assert s3.pending - {0} == map[] && [t2] + [t1] == [t2, t1];
    assert s2.newest[k := Clock(2, token)] == s2.newest;
    assert Next(s2, Begin(0, t1), s3) && Next(s3, Append(0), s4);
    trace := [s0, s1, s2, s3, s4];
    actions := [Begin(0, t2), Append(0), Begin(0, t1), Append(0)];
    assert s4.log[0].tick > s4.log[1].tick;
    assert forall i :: 0 <= i < |actions| && actions[i].Begin? ==> i == 0 || i == 2;
    DescendingUnsound(s4, t2, t1, token);
  }

  /** Writing the higher tick again, with its token, is accepted and restores coverage for every recovery point. */
  lemma RepeatRestores(s: State, high: ClockTag, low: ClockTag, token: nat) returns (s1: State, s2: State)
    requires s.log == [high, low] && high.key == low.key && 0 < low.tick < high.tick && s.pending == map[]
    requires s.newest == map[high.key := Clock(high.tick, high.token)] && s.oldest == map[]
    ensures Next(s, Begin(0, high), s1) && Next(s1, Append(0), s2) && s2.pending == map[]
    ensures exists rp :: !Sound(LogOf(s), 0, s.newest, s.oldest, rp, token)
    ensures forall rp :: Sound(LogOf(s2), 0, s2.newest, s2.oldest, rp, token)
  {
    s1 := s.(pending := map[0 := high]);
    s2 := s1.(log := [high, low, high], pending := map[]);
    assert s.newest[high.key := Clock(high.tick, high.token)] == s.newest;
    assert s1.pending - {0} == map[] && [high, low] + [high] == [high, low, high];
    hide Sound;
    DescendingUnsound(s, high, low, token);
    var log := LogOf(s2);
    assert log[0] == Entry(0, Some(high)) && log[1] == Entry(1, Some(low)) && log[2] == Entry(2, Some(high));
    assert IsTag(log[2], high.key, high.tick);
    assert Replayable(log, s2.oldest);
    CoverageIffReplayable(log, 0, s2.newest, s2.oldest, token);
  }

  lemma DescendingUnsound(s: State, high: ClockTag, low: ClockTag, token: nat)
    requires s.log == [high, low] && high.key == low.key && low.tick < high.tick
    requires s.newest.Keys == {high.key} && s.newest[high.key].tick == high.tick && s.oldest == map[]
    ensures exists rp :: !Sound(LogOf(s), 0, s.newest, s.oldest, rp, token)
  {
    hide Sound;
    var log := LogOf(s);
    assert log[0] == Entry(0, Some(high)) && log[1] == Entry(1, Some(low));
    StepBackUnsound(log, 0, s.newest, s.oldest, token, 0, 1);
  }
}
