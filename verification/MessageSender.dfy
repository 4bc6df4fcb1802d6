/**
 The per-peer message sender: a bounded queue of ordinary messages and a one-slot channel that keeps only the newest
 heartbeat, drained by one loop that drops what arrives out of order.
 */
module MessageSender {
  import opened Options

  datatype Message = Message(heartbeat: bool, payload: int)
  datatype Item = Item(index: nat, message: Message)

  const QUEUE_CAPACITY: nat := 128

  /** `accepted`, `popped`, `sent` and `skipped` are histories; the rest is the live state. */
  datatype State = State(
    index: nat,           // next index of the producer's handle
    queue: seq<Item>,
    slot: Option<Item>,   // the newest heartbeat, if not yet seen by the sender
    polled: bool,         // the sender found the queue empty and has not yet looked at the slot
    prev: nat,
    accepted: seq<Item>,
    popped: seq<Item>,
    sent: seq<Item>,
    skipped: seq<Item>)

  const INITIAL := State(0, [], None, false, 0, [], [], [], [])

  // ----- the steps

  /** The producer: a full queue refuses, a heartbeat replaces the previous one. */
  function Send(s: State, m: Message): State {
    var item := Item(s.index, m);
    if m.heartbeat then s.(slot := Some(item), index := s.index + 1, accepted := s.accepted + [item])
    else if |s.queue| >= QUEUE_CAPACITY then s
    else s.(queue := s.queue + [item], index := s.index + 1, accepted := s.accepted + [item])
  }

  /** The sender sends an item unless a later one went out before. */
  function Deliver(s: State, item: Item): State {
    if s.prev <= item.index then s.(sent := s.sent + [item], prev := item.index)
    else s.(skipped := s.skipped + [item])
  }

  function TakeMessage(s: State): State
    requires s.queue != []
  {
    Deliver(s.(queue := s.queue[1..], popped := s.popped + [s.queue[0]], polled := false), s.queue[0])
  }

  function TakeHeartbeat(s: State): State
    requires s.slot.Some?
  {
    Deliver(s.(slot := None, polled := false), s.slot.value)
  }

  /** One biased selection as a single step: the queue first, the slot only if the queue is empty. */
  predicate CanSelect(s: State) {
    s.queue != [] || s.slot.Some?
  }

  function Select(s: State): State
    requires CanSelect(s)
  {
    if s.queue != [] then TakeMessage(s) else TakeHeartbeat(s)
  }

  datatype Action =
    | Produce(m: Message)
    | SelectBoth     // queue and slot looked at in one step
    | PollQueue      // queue looked at: an item is taken, or it is found empty
    | PollSlot       // the slot looked at after an empty queue

  /** `atomic`: a selection is one step; otherwise the producer may run between the two looks. */
  ghost predicate Next(s: State, a: Action, s': State, atomic: bool) {
    match a
    case Produce(m) => s' == Send(s, m)
    case SelectBoth => atomic && CanSelect(s) && s' == Select(s)
    case PollQueue => !atomic && !s.polled && s' == if s.queue != [] then TakeMessage(s) else s.(polled := true)
    case PollSlot => !atomic && s.polled && s' == if s.slot.Some? then TakeHeartbeat(s) else s.(polled := false)
  }

  // ----- what holds in every interleaving

  function Ordinary(items: seq<Item>): seq<Item> {
    if items == [] then []
    else
      var rest := Ordinary(items[..|items| - 1]);
      if items[|items| - 1].message.heartbeat then rest else rest + [items[|items| - 1]]
  }

  ghost predicate Increasing(items: seq<Item>) {
    forall i, j :: 0 <= i < j < |items| ==> items[i].index < items[j].index
  }

  /** The item is the one that was accepted under its index. */
  predicate Genuine(s: State, item: Item) {
    item.index < |s.accepted| && s.accepted[item.index] == item
  }

  ghost predicate Numbered(s: State) {
    && s.index == |s.accepted|
    && (forall i :: 0 <= i < |s.accepted| ==> s.accepted[i].index == i)
    && (forall i :: 0 <= i < |s.sent| ==> Genuine(s, s.sent[i]))
    && (forall i :: 0 <= i < |s.queue| ==> Genuine(s, s.queue[i]))
    && (s.slot.Some? ==> Genuine(s, s.slot.value))
  }

  /** Sent indices strictly increase and end at `prev`; nothing waiting was already sent. */
  ghost predicate InOrder(s: State) {
    && Increasing(s.sent) && Increasing(s.queue)
    && (if s.sent == [] then s.prev == 0 else s.prev == s.sent[|s.sent| - 1].index)
    && (forall i, j :: 0 <= i < |s.sent| && 0 <= j < |s.queue| ==> s.sent[i].index != s.queue[j].index)
    && (s.slot.Some? ==> s.slot.value.message.heartbeat
                         && forall i :: 0 <= i < |s.sent| ==> s.sent[i].index != s.slot.value.index)
    && (forall j :: 0 <= j < |s.queue| ==> !s.queue[j].message.heartbeat)
  }

  /** Ordinary messages leave the queue exactly once and in order. */
  ghost predicate ExactlyOnce(s: State) {
    Ordinary(s.accepted) == s.popped + s.queue
  }

  /** Every accepted item still waits, waits as an older heartbeat, or is not newer than the last one sent. */
  ghost predicate NothingForgotten(s: State) {
    && (forall i :: 0 <= i < |s.accepted| ==>
          s.accepted[i] in s.queue || (s.slot.Some? && s.slot.value.index >= i) || (s.sent != [] && s.prev >= i))
    && (s.skipped != [] ==> s.sent != [])
    && (forall i :: 0 <= i < |s.skipped| ==> s.prev > s.skipped[i].index)
  }

  ghost predicate Inv(s: State) {
    Numbered(s) && InOrder(s) && ExactlyOnce(s) && NothingForgotten(s)
  }

  lemma SendNumbered(s: State, m: Message)
    requires Numbered(s)
    ensures Numbered(Send(s, m))
  {
    var s' := Send(s, m);
    assert forall i :: 0 <= i < |s.accepted| ==> s'.accepted[i] == s.accepted[i];
  }

  lemma SendInOrder(s: State, m: Message)
    requires Numbered(s) && InOrder(s)
    ensures InOrder(Send(s, m))
  {
    assert forall i :: 0 <= i < |s.sent| ==> s.sent[i].index < s.index;
    assert forall i :: 0 <= i < |s.queue| ==> s.queue[i].index < s.index;
    hide Numbered;
    var s' := Send(s, m);
    assert s'.sent == s.sent && s'.prev == s.prev;
    if s'.queue != s.queue {
      assert forall j :: 0 <= j < |s.queue| ==> s'.queue[j] == s.queue[j];
    }
  }

  lemma SendOnce(s: State, m: Message)
    requires ExactlyOnce(s)
    ensures ExactlyOnce(Send(s, m))
  {
    var s' := Send(s, m);
    if s' != s {
      assert s'.accepted[..|s.accepted|] == s.accepted;
      assert m.heartbeat || s'.popped + s'.queue == (s.popped + s.queue) + [Item(s.index, m)];
    }
  }

  lemma SendRemembers(s: State, m: Message)
    requires Numbered(s) && NothingForgotten(s)
    ensures NothingForgotten(Send(s, m))
  {
    var s' := Send(s, m);
    forall i | 0 <= i < |s'.accepted|
      ensures s'.accepted[i] in s'.queue || (s'.slot.Some? && s'.slot.value.index >= i)
                || (s'.sent != [] && s'.prev >= i)
    {
      if i < |s.accepted| {
        assert s'.accepted[i] == s.accepted[i];
      }
    }
  }

  lemma SendKeeps(s: State, m: Message)
    requires Inv(s)
    ensures Inv(Send(s, m))
  {
    hide Send, Numbered, InOrder, ExactlyOnce, NothingForgotten;
    SendNumbered(s, m);
    SendInOrder(s, m);
    SendOnce(s, m);
    SendRemembers(s, m);
  }

  /** Delivering an item that is neither queued nor sent keeps the order of what was sent. */
  lemma DeliverInOrder(s: State, item: Item)
    requires InOrder(s) && forall i :: 0 <= i < |s.sent| ==> s.sent[i].index != item.index
    requires forall j :: 0 <= j < |s.queue| ==> s.queue[j].index != item.index
    requires s.slot.Some? ==> s.slot.value.index != item.index
    ensures InOrder(Deliver(s, item))
  {
    assert forall i :: 0 <= i < |s.sent| ==> s.sent[i].index <= s.prev;
    var s' := Deliver(s, item);
    assert s.prev <= item.index ==> s'.sent == s.sent + [item];
  }

  lemma TakeMessageInOrder(s: State)
    requires Numbered(s) && InOrder(s) && s.queue != []
    ensures InOrder(TakeMessage(s))
  {
    var item := s.queue[0];
    var t := s.(queue := s.queue[1..], popped := s.popped + [item], polled := false);
    assert forall j :: 0 <= j < |t.queue| ==> t.queue[j] == s.queue[j + 1];
    assert s.slot.Some? ==> Genuine(s, item) && Genuine(s, s.slot.value);
    DeliverInOrder(t, item);
  }

  lemma TakeMessageNumbered(s: State)
    requires Numbered(s) && s.queue != []
    ensures Numbered(TakeMessage(s))
  {
    var s' := TakeMessage(s);
    assert forall j :: 0 <= j < |s'.queue| ==> s'.queue[j] == s.queue[j + 1];
    assert forall i :: 0 <= i < |s'.sent| ==> s'.sent[i] in s.sent || s'.sent[i] == s.queue[0];
  }

  lemma TakeMessageRemembers(s: State)
    requires InOrder(s) && Numbered(s) && NothingForgotten(s) && s.queue != []
    ensures NothingForgotten(TakeMessage(s))
  {
    var s' := TakeMessage(s);
    assert s.queue == [s.queue[0]] + s'.queue;
    assert s'.sent != [] && s'.prev >= s.prev && s'.prev >= s.queue[0].index;
    forall i | 0 <= i < |s.accepted|
      ensures s'.accepted[i] in s'.queue || (s'.slot.Some? && s'.slot.value.index >= i)
                || (s'.sent != [] && s'.prev >= i)
    {
      assert s.accepted[i] in s.queue ==> s.accepted[i] in s'.queue || s.accepted[i] == s.queue[0];
    }
  }

  lemma TakeMessageKeeps(s: State)
    requires Inv(s) && s.queue != []
    ensures Inv(TakeMessage(s))
  {
    hide Numbered, InOrder, ExactlyOnce, NothingForgotten, TakeMessage;
    TakeMessageInOrder(s);
    TakeMessageNumbered(s);
    TakeMessageOnce(s);
    TakeMessageRemembers(s);
  }

  lemma TakeMessageOnce(s: State)
    requires ExactlyOnce(s) && s.queue != []
    ensures ExactlyOnce(TakeMessage(s))
  {
    hide Ordinary;
    assert TakeMessage(s).popped + TakeMessage(s).queue == s.popped + s.queue;
  }

  lemma TakeHeartbeatInOrder(s: State)
    requires Numbered(s) && InOrder(s) && s.slot.Some?
    ensures InOrder(TakeHeartbeat(s)) && Numbered(TakeHeartbeat(s))
  {
    var t := s.(slot := None, polled := false);
    forall j | 0 <= j < |s.queue| ensures s.queue[j].index != s.slot.value.index {
      assert Genuine(s, s.queue[j]) && Genuine(s, s.slot.value);
    }
    DeliverInOrder(t, s.slot.value);
  }

  lemma TakeHeartbeatRemembers(s: State)
    requires InOrder(s) && NothingForgotten(s) && s.slot.Some?
    ensures NothingForgotten(TakeHeartbeat(s))
  {
  }

  lemma TakeHeartbeatKeeps(s: State)
    requires Inv(s) && s.slot.Some?
    ensures Inv(TakeHeartbeat(s))
  {
    TakeHeartbeatInOrder(s);
    TakeHeartbeatRemembers(s);
    hide Numbered, InOrder, NothingForgotten;
  }

  lemma PolledKeeps(s: State, polled: bool)
    requires Inv(s)
    ensures Inv(s.(polled := polled))
  {
  }

  lemma StepKeeps(s: State, a: Action, s': State, atomic: bool)
    requires Inv(s) && Next(s, a, s', atomic)
    ensures Inv(s')
  {
    hide Numbered, InOrder, ExactlyOnce, NothingForgotten, Send, TakeMessage, TakeHeartbeat;
    match a
    case Produce(m) => SendKeeps(s, m);
    case SelectBoth => if s.queue != [] { TakeMessageKeeps(s); } else { TakeHeartbeatKeeps(s); }
    case PollQueue => if s.queue != [] { TakeMessageKeeps(s); } else { PolledKeeps(s, true); }
    case PollSlot => if s.slot.Some? { TakeHeartbeatKeeps(s); } else { PolledKeeps(s, false); }
  }

  // ----- what the single-step selection adds

  /** Nothing sent is newer than a waiting ordinary message, and all ordinary messages taken were sent. */
  ghost predicate NoneLost(s: State) {
    && (s.sent != [] ==> forall j :: 0 <= j < |s.queue| ==> s.queue[j].index > s.prev)
    && s.popped == Ordinary(s.sent)
    && (forall i :: 0 <= i < |s.skipped| ==> s.skipped[i].message.heartbeat)
  }

  lemma OrdinarySnoc(items: seq<Item>, item: Item)
    ensures Ordinary(items + [item]) == Ordinary(items) + if item.message.heartbeat then [] else [item]
  {
    assert (items + [item])[..|items|] == items;
  }

  lemma PrevIsAccepted(s: State)
    requires Numbered(s) && InOrder(s)
    ensures s.sent != [] ==> s.prev < s.index
  {
    assert s.sent != [] ==> Genuine(s, s.sent[|s.sent| - 1]);
  }

  lemma SendNoneLost(s: State, m: Message)
    requires NoneLost(s) && (s.sent != [] ==> s.prev < s.index)
    ensures NoneLost(Send(s, m))
  {
    hide Ordinary;
  }

  lemma TakeMessageNoneLost(s: State)
    requires Increasing(s.queue) && NoneLost(s) && s.queue != [] && !s.queue[0].message.heartbeat
              && (s.sent == [] ==> s.prev == 0)
    ensures NoneLost(TakeMessage(s))
  {
    hide Ordinary;
    OrdinarySnoc(s.sent, s.queue[0]);
    assert forall j :: 0 <= j < |s.queue[1..]| ==> s.queue[1..][j] == s.queue[j + 1];
  }

  /** Looking at the slot after the queue loses a message exactly when an older one was queued in between. */
  lemma SlotLosesIff(s: State)
    requires InOrder(s) && NoneLost(s) && s.slot.Some?
    ensures NoneLost(TakeHeartbeat(s)) <==> forall j :: 0 <= j < |s.queue| ==> s.queue[j].index > s.slot.value.index
  {
    assert s.slot.value.message.heartbeat && (s.sent == [] ==> s.prev == 0);
    hide InOrder, Ordinary;
    OrdinarySnoc(s.sent, s.slot.value);
  }

  lemma AtomicKeepsAll(s: State, a: Action, s': State)
    requires Inv(s) && NoneLost(s) && Next(s, a, s', true)
    ensures NoneLost(s')
  {
    PrevIsAccepted(s);
    assert InOrder(s) && (s.sent == [] ==> s.prev == 0) && (s.queue != [] ==> !s.queue[0].message.heartbeat);
    hide Inv, Send, TakeMessage, TakeHeartbeat, NoneLost;
    if a.Produce? {
      SendNoneLost(s, a.m);
    } else if s.queue != [] {
      TakeMessageNoneLost(s);
    } else {
      SlotLosesIff(s);
    }
  }

  // ----- runs

  ghost predicate Run(trace: seq<State>, actions: seq<Action>, atomic: bool) {
    |trace| == |actions| + 1 && trace[0] == INITIAL
    && forall i :: 0 <= i < |actions| ==> Next(trace[i], actions[i], trace[i + 1], atomic)
  }

  lemma InitialInv()
    ensures Inv(INITIAL) && NoneLost(INITIAL)
  {
  }

  lemma {:induction false} RunKeeps(trace: seq<State>, actions: seq<Action>, atomic: bool, n: nat)
    requires Run(trace, actions, atomic) && n < |trace|
    ensures Inv(trace[n])
  {
    hide Inv, Next;
    if n == 0 {
      InitialInv();
    } else {
      RunKeeps(trace, actions, atomic, n - 1);
      StepKeeps(trace[n - 1], actions[n - 1], trace[n], atomic);
    }
  }

  /** A later item was already sent. */
  ghost predicate Outdated(s: State, item: Item) {
    exists j :: 0 <= j < |s.sent| && s.sent[j].index > item.index
  }

  /**
   Every interleaving, even with a selection in two looks: sent indices strictly increase, a skipped item was
   outdated by one already sent, and once nothing waits the last item sent is the last one accepted.
   */
  lemma SentInOrder(trace: seq<State>, actions: seq<Action>, atomic: bool, n: nat)
    requires Run(trace, actions, atomic) && n < |trace|
    ensures Increasing(trace[n].sent)
    ensures forall i :: 0 <= i < |trace[n].skipped| ==> Outdated(trace[n], trace[n].skipped[i])
    ensures trace[n].queue == [] && trace[n].slot.None? && trace[n].accepted != [] ==>
              trace[n].sent != [] && trace[n].sent[|trace[n].sent| - 1] == trace[n].accepted[|trace[n].accepted| - 1]
  {
    hide Inv, Run, Increasing;
    RunKeeps(trace, actions, atomic, n);
    InvMeaning(trace[n]);
  }

  /** The invariant read off: order, what may be skipped, and the last item of a drained channel. */
  lemma InvMeaning(s: State)
    requires Inv(s)
    ensures Increasing(s.sent)
    ensures forall i :: 0 <= i < |s.skipped| ==> Outdated(s, s.skipped[i])
    ensures s.queue == [] && s.slot.None? && s.accepted != [] ==>
              s.sent != [] && s.sent[|s.sent| - 1] == s.accepted[|s.accepted| - 1]
  {
    hide ExactlyOnce;
    assert s.sent != [] ==> Genuine(s, s.sent[|s.sent| - 1]);
    forall i | 0 <= i < |s.skipped| ensures Outdated(s, s.skipped[i]) {
      assert s.sent != [] && s.prev > s.skipped[i].index;
      assert s.sent[|s.sent| - 1].index == s.prev;
    }
    if s.queue == [] && s.slot.None? && s.accepted != [] {
      var last := |s.accepted| - 1;
      assert s.accepted[last] !in s.queue;
      assert s.sent != [] && s.prev >= last;
    }
  }

  lemma {:induction false} RunNoneLost(trace: seq<State>, actions: seq<Action>, n: nat)
    requires Run(trace, actions, true) && n < |trace|
    ensures NoneLost(trace[n])
  {
    hide Inv, Next, NoneLost;
    if n == 0 {
      InitialInv();
    } else {
      RunNoneLost(trace, actions, n - 1);
      RunKeeps(trace, actions, true, n - 1);
      AtomicKeepsAll(trace[n - 1], actions[n - 1], trace[n]);
    }
  }

  /**
   With single-step selection every accepted ordinary message is sent exactly once, in order, or still queued; only
   heartbeats are skipped.
   */
  lemma OrdinaryExactlyOnce(trace: seq<State>, actions: seq<Action>, n: nat)
    requires Run(trace, actions, true) && n < |trace|
    ensures Ordinary(trace[n].accepted) == Ordinary(trace[n].sent) + trace[n].queue
    ensures forall i :: 0 <= i < |trace[n].skipped| ==> trace[n].skipped[i].message.heartbeat
  {
    RunKeeps(trace, actions, true, n);
    RunNoneLost(trace, actions, n);
  }

  /**
   In two looks a message can be lost: queued, then outrun by a heartbeat that arrived after it, before the slot was
   looked at.
   */
  lemma TwoLooksLoseMessage(a: int, b: int) returns (trace: seq<State>, actions: seq<Action>)
    ensures Run(trace, actions, false)
    ensures var s := trace[|trace| - 1];
            s.queue == [] && s.slot.None? && Item(0, Message(false, a)) in s.accepted
                && Item(0, Message(false, a)) !in s.sent
  {
    var m, hb := Message(false, a), Message(true, b);
    var s0 := INITIAL;
    var s1 := s0.(polled := true);
    var s2 := s1.(queue := [Item(0, m)], index := 1, accepted := [Item(0, m)]);
    var s3 := s2.(slot := Some(Item(1, hb)), index := 2, accepted := [Item(0, m), Item(1, hb)]);
    var s4 := s3.(slot := None, polled := false, sent := [Item(1, hb)], prev := 1);
    var s5 := s4.(queue := [], popped := [Item(0, m)], skipped := [Item(0, m)]);
    assert Send(s1, m) == s2;
    assert Send(s2, hb) == s3 by {
      assert [Item(0, m)] + [Item(1, hb)] == [Item(0, m), Item(1, hb)];
    }
    assert TakeHeartbeat(s3) == s4;
    assert TakeMessage(s4) == s5 by {
      assert [Item(0, m)][1..] == [];
    }
    trace := [s0, s1, s2, s3, s4, s5];
    actions := [PollQueue, Produce(m), Produce(hb), PollSlot, PollQueue];
    assert Next(s0, PollQueue, s1, false) && Next(s1, Produce(m), s2, false) && Next(s2, Produce(hb), s3, false);
    assert Next(s3, PollSlot, s4, false) && Next(s4, PollQueue, s5, false);
  }

  // ----- what is refused

  /** A message is refused exactly if it is no heartbeat and 128 messages wait; otherwise it is accepted next. */
  lemma RefusedIff(s: State, m: Message)
    ensures Send(s, m) == s <==> !m.heartbeat && |s.queue| >= 128
    ensures Send(s, m) != s ==> Send(s, m).accepted == s.accepted + [Item(s.index, m)]
  {
  }

  function Produced(actions: seq<Action>): seq<Message> {
    if actions == [] then []
    else
      var rest := Produced(actions[..|actions| - 1]);
      var a := actions[|actions| - 1];
      if a.Produce? then rest + [a.m] else rest
  }

  function Messages(items: seq<Item>): (r: seq<Message>)
    ensures |r| == |items| && forall i :: 0 <= i < |r| ==> r[i] == items[i].message
  {
    seq(|items|, i requires 0 <= i < |items| => items[i].message)
  }

  /** In a run in which the queue is never full when a message comes, all that is produced is accepted, in order. */
  lemma {:induction false} AllAccepted(trace: seq<State>, actions: seq<Action>, atomic: bool, n: nat)
    requires Run(trace, actions, atomic) && n < |trace|
    requires forall i :: 0 <= i < n && actions[i].Produce? && !actions[i].m.heartbeat ==> |trace[i].queue| < 128
    ensures Messages(trace[n].accepted) == Produced(actions[..n])
  {
    if n != 0 {
      AllAccepted(trace, actions, atomic, n - 1);
      var s, a, s' := trace[n - 1], actions[n - 1], trace[n];
      assert Next(s, a, s', atomic);
      assert actions[..n][..n - 1] == actions[..n - 1] && actions[..n][n - 1] == a;
      if a.Produce? {
        RefusedIff(s, a.m);
        assert Messages(s'.accepted) == Messages(s.accepted) + [a.m];
      } else {
        assert s'.accepted == s.accepted;
      }
    }
  }

  // ----- the handle and the sender loop as objects sharing the two channels

  class MessageChannel {
    var index: nat
    var queue: seq<Item>
    var slot: Option<Item>
    var prevIndex: nat
    ghost var accepted: seq<Item>
    ghost var popped: seq<Item>
    ghost var sent: seq<Item>
    ghost var skipped: seq<Item>

    constructor ()
      ensures View() == INITIAL
    {
      index, queue, slot, prevIndex := 0, [], None, 0;
      accepted, popped, sent, skipped := [], [], [], [];
    }

    ghost function View(): State
      reads this
    {
      State(index, queue, slot, false, prevIndex, accepted, popped, sent, skipped)
    }

    /** The handle's side. */
    method SendMessage(m: Message) returns (ok: bool)
      modifies this
      ensures View() == Send(old(View()), m)
      ensures ok == (m.heartbeat || |old(queue)| < QUEUE_CAPACITY)
      ensures accepted == if ok then old(accepted) + [Item(old(index), m)] else old(accepted)
    {
      var item := Item(index, m);
      if !m.heartbeat {
        if |queue| >= QUEUE_CAPACITY {
          return false;
        }
        queue := queue + [item];
      } else {
        slot := Some(item);
      }
      accepted := accepted + [item];
      index := index + 1;
      return true;
    }

    /** One round of the sender loop. */
    method Round()
      requires CanSelect(View())
      modifies this
      ensures View() == Select(old(View()))
    {
      var item: Item;
      if queue != [] {
        item := queue[0];
        popped := popped + [item];
        queue := queue[1..];
      } else {
        item := slot.value;
        slot := None;
      }
      if prevIndex <= item.index {
        sent := sent + [item];
        prevIndex := item.index;
      } else {
        skipped := skipped + [item];
      }
    }

    /**
     The sender loop while the handle is quiet: everything waiting is sent or outdated, and the newest item goes out
     last.
     */
    method Drain()
      requires Inv(View()) && NoneLost(View())
      modifies this
      ensures Inv(View()) && NoneLost(View()) && queue == [] && slot.None? && accepted == old(accepted)
      ensures Ordinary(sent) == Ordinary(accepted)
      ensures accepted != [] ==> sent != [] && sent[|sent| - 1] == accepted[|accepted| - 1]
    {
      hide Inv, NoneLost, Ordinary;
      while queue != [] || slot.Some?
        invariant Inv(View()) && NoneLost(View()) && accepted == old(accepted)
        decreases |queue| + if slot.Some? then 1 else 0
      {
        ghost var s := View();
        StepKeeps(s, SelectBoth, Select(s), true);
        AtomicKeepsAll(s, SelectBoth, Select(s));
        Round();
      }
      InvMeaning(View());
      DrainedSentAll(View());
    }
  }

  lemma DrainedSentAll(s: State)
    requires Inv(s) && NoneLost(s) && s.queue == []
    ensures Ordinary(s.sent) == Ordinary(s.accepted)
  {
    assert s.popped + [] == s.popped;
  }
}
