/**
 Wake-ups are first in, first out: the receivers that waited are scheduled in the order in which they came to wait, by
 whatever section of whatever coroutine, and so are the senders.
 */
module ChannelWake {
  import opened ChannelSpec
  import opened ChannelRun
  import opened ChannelSafety
  import opened ChannelPutBack

  lemma {:induction false} AmongConcat(s: seq<nat>, t: seq<nat>, listed: seq<nat>)
    ensures Among(s + t, listed, true) == Among(s, listed, true) + Among(t, listed, true)
  {
    if |t| == 0 {
      assert s + t == s;
    } else {
      var n := |t| - 1;
      AmongConcat(s, t[..n], listed);
      assert (s + t)[..|s + t| - 1] == s + t[..n];
    }
  }

  lemma {:induction false} AmongNone(s: seq<nat>, listed: seq<nat>)
    requires forall i | 0 <= i < |s| :: s[i] !in listed
    ensures Among(s, listed, true) == []
  {
    if |s| > 0 { AmongNone(s[..|s| - 1], listed); }
  }

  lemma {:induction false} AmongAll(s: seq<nat>, listed: seq<nat>)
    requires forall i | 0 <= i < |s| :: s[i] in listed
    ensures Among(s, listed, true) == s
  {
    if |s| > 0 {
      AmongAll(s[..|s| - 1], listed);
      assert s == s[..|s| - 1] + [s[|s| - 1]];
    }
  }

  lemma {:induction false} AmongMore(s: seq<nat>, listed: seq<nat>, h: nat)
    requires forall i | 0 <= i < |s| :: s[i] != h
    ensures Among(s, listed + [h], true) == Among(s, listed, true)
  {
    if |s| > 0 { AmongMore(s[..|s| - 1], listed, h); }
  }

  /** Of those who ever came to wait, in `parked`, all but those who still do have been scheduled, in that order. */
  ghost predicate InTurn(scheduled: seq<nat>, parked: seq<nat>, waiting: seq<nat>) {
    && Suffix(waiting, parked)
    && Among(scheduled, parked, true) == parked[..|parked| - |waiting|]
  }

  /** A section that schedules `woken` and, among them, the first of those who wait, in their order. */
  lemma SuffixSplits(parked: seq<nat>, waiting: seq<nat>, left: seq<nat>)
    requires Suffix(waiting, parked) && Suffix(left, waiting)
    ensures Suffix(left, parked)
    ensures parked[..|parked| - |left|] == parked[..|parked| - |waiting|] + waiting[..|waiting| - |left|]
  {
    assert parked == parked[..|parked| - |waiting|] + waiting;
  }

  lemma InTurnGrows(scheduled: seq<nat>, parked: seq<nat>, waiting: seq<nat>, woken: seq<nat>, left: seq<nat>)
    requires InTurn(scheduled, parked, waiting) && Suffix(left, waiting)
    requires Among(woken, parked, true) == waiting[..|waiting| - |left|]
    ensures InTurn(scheduled + woken, parked, left)
  {
    AmongConcat(scheduled, woken, parked);
    SuffixSplits(parked, waiting, left);
  }

  lemma InTurnWaits(scheduled: seq<nat>, parked: seq<nat>, waiting: seq<nat>, h: nat)
    requires InTurn(scheduled, parked, waiting) && h !in scheduled
    ensures InTurn(scheduled, parked + [h], waiting + [h])
  {
    AmongMore(scheduled, parked, h);
    assert (parked + [h])[|parked| - |waiting|..] == waiting + [h];
    assert (parked + [h])[..|parked| - |waiting|] == parked[..|parked| - |waiting|];
  }

  // ---------------------------------------------------------------------------------------------
  // Each critical section
  // ---------------------------------------------------------------------------------------------

  /** Senders and receivers are told apart: no waiter is listed among the parked of the other kind. */
  ghost predicate Apart<T>(c: Chan<T>, senders: seq<nat>, receivers: seq<nat>) {
    && (forall h | h in Handles(c.sendWaiters) :: h !in receivers)
    && (forall h | h in c.recvWaiters :: h !in senders)
  }

  /** A list of waiters has become `left`, and among the handles `woken` those parked are its first, in order. */
  ghost predicate FirstWoken(list: seq<nat>, left: seq<nat>, woken: seq<nat>, parked: seq<nat>) {
    Suffix(left, list) && Among(woken, parked, true) == list[..|list| - |left|]
  }

  /** From c to d, the handles `woken` are scheduled: of those parked, the first of each list, in order. */
  ghost predicate WakesFirst<T>(c: Chan<T>, d: Chan<T>, woken: seq<nat>, senders: seq<nat>, receivers: seq<nat>) {
    && FirstWoken(Handles(c.sendWaiters), Handles(d.sendWaiters), woken, senders)
    && FirstWoken(c.recvWaiters, d.recvWaiters, woken, receivers)
  }

  ghost predicate ListsParked<T>(c: Chan<T>, senders: seq<nat>, receivers: seq<nat>) {
    && Suffix(Handles(c.sendWaiters), senders) && Suffix(c.recvWaiters, receivers)
    && Apart(c, senders, receivers)
  }

  lemma AmongOne(h: nat, listed: seq<nat>)
    ensures Among([h], listed, true) == if h in listed then [h] else []
  {
    assert Among([], listed, true) == [];
    assert [h][..0] == [];
  }

  lemma HandOverWakes<T>(c: Chan<T>, v: T, senders: seq<nat>, receivers: seq<nat>)
    requires c.recvWaiters != [] && ListsParked(c, senders, receivers)
    ensures WakesFirst(c, HandOver(c, v).ch, HandOver(c, v).scheduled, senders, receivers)
  {
    var s, r := Handles(c.sendWaiters), c.recvWaiters;
    assert r[0] in r;
    AmongOne(r[0], senders);
    AmongOne(r[0], receivers);
    assert r[..1] == [r[0]] && s[..0] == [] && Suffix(s, s) && Suffix(r[1..], r);
  }

  lemma TrySendWakes<T>(c: Chan<T>, v: T, senders: seq<nat>, receivers: seq<nat>)
    requires ListsParked(c, senders, receivers)
    ensures WakesFirst(c, TrySend(c, v).ch, TrySend(c, v).scheduled, senders, receivers)
  {
    if !c.closed && c.recvWaiters != [] { HandOverWakes(c, v, senders, receivers); }
  }

  lemma FirstSenderWakes<T>(c: Chan<T>, senders: seq<nat>, receivers: seq<nat>)
    requires c.sendWaiters != [] && ListsParked(c, senders, receivers)
    ensures WakesFirst(c, c.(sendWaiters := c.sendWaiters[1..]), [c.sendWaiters[0].handle], senders, receivers)
  {
    var s := Handles(c.sendWaiters);
    assert s[0] in s && Handles(c.sendWaiters[1..]) == s[1..];
    AmongOne(s[0], senders);
    AmongOne(s[0], receivers);
  }

  lemma TryRecvWakes<T>(c: Chan<T>, senders: seq<nat>, receivers: seq<nat>)
    requires ListsParked(c, senders, receivers)
    ensures WakesFirst(c, TryRecv(c).ch, TryRecv(c).scheduled, senders, receivers)
  {
    if c.sendWaiters != [] { FirstSenderWakes(c, senders, receivers); }
  }

  lemma RegisterSendWakes<T>(c: Chan<T>, op: nat, v: T, senders: seq<nat>, receivers: seq<nat>)
    requires ListsParked(c, senders, receivers) && op !in senders && op !in receivers
    requires c.closed || c.recvWaiters != []
    ensures WakesFirst(c, RegisterSend(c, op, v).ch, RegisterSend(c, op, v).scheduled, senders, receivers)
  {
    if c.closed {
      AmongOne(op, senders);
      AmongOne(op, receivers);
    } else {
      HandOverWakes(c, v, senders, receivers);
    }
  }

  lemma RegisterRecvWakes<T>(c: Chan<T>, op: nat, senders: seq<nat>, receivers: seq<nat>)
    requires ListsParked(c, senders, receivers) && op !in senders && op !in receivers
    requires c.closed || c.sendWaiters != []
    ensures WakesFirst(c, RegisterRecv(c, op).ch, RegisterRecv(c, op).scheduled, senders, receivers)
  {
    AmongOne(op, senders);
    AmongOne(op, receivers);
    if !c.closed {
      FirstSenderWakes(c, senders, receivers);
      AmongConcat([op], [c.sendWaiters[0].handle], senders);
      AmongConcat([op], [c.sendWaiters[0].handle], receivers);
    }
  }

  lemma AllWoken(list: seq<nat>, others: seq<nat>, parked: seq<nat>)
    requires Suffix(list, parked) && forall h | h in others :: h !in parked
    ensures FirstWoken(list, [], list + others, parked) && FirstWoken(list, [], others + list, parked)
  {
    AmongConcat(list, others, parked);
    AmongConcat(others, list, parked);
    AmongNone(others, parked);
    forall i | 0 <= i < |list| ensures list[i] in parked { assert list[i] == parked[|parked| - |list| + i]; }
    AmongAll(list, parked);
  }

  lemma CloseDrainWakes<T>(c: Chan<T>, senders: seq<nat>, receivers: seq<nat>)
    requires ListsParked(c, senders, receivers)
    ensures WakesFirst(c, CloseDrain(c).ch, CloseDrain(c).scheduled, senders, receivers)
  {
    AllWoken(Handles(c.sendWaiters), c.recvWaiters, senders);
    AllWoken(c.recvWaiters, Handles(c.sendWaiters), receivers);
    assert Handles(CloseDrain(c).ch.sendWaiters) == [];
  }

  // ---------------------------------------------------------------------------------------------
  // Whole runs
  // ---------------------------------------------------------------------------------------------

  ghost predicate AllInTurn<T>(w: World<T>) {
    && InTurn(w.scheduled, w.parkedSenders, Handles(w.ch.sendWaiters))
    && InTurn(w.scheduled, w.parkedReceivers, w.ch.recvWaiters)
  }

  lemma AllInTurnGrows<T>(w: World<T>, v: World<T>, woken: seq<nat>)
    requires AllInTurn(w) && WakesFirst(w.ch, v.ch, woken, w.parkedSenders, w.parkedReceivers)
    requires v.scheduled == w.scheduled + woken
    requires v.parkedSenders == w.parkedSenders && v.parkedReceivers == w.parkedReceivers
    ensures AllInTurn(v)
  {
    InTurnGrows(w.scheduled, w.parkedSenders, Handles(w.ch.sendWaiters), woken, Handles(v.ch.sendWaiters));
    InTurnGrows(w.scheduled, w.parkedReceivers, w.ch.recvWaiters, woken, v.ch.recvWaiters);
  }

  /** Who has waited as a sender has sent, and who has waited as a receiver has asked. */
  ghost predicate ParkedKnown<T>(w: World<T>, h: nat) {
    && (h in w.parkedSenders ==> h in Froms(w.committed))
    && (h in w.parkedReceivers ==> h in w.requests)
  }

  lemma ParkedSends<T>(w: World<T>, op: nat, body: T, h: nat)
    requires ParkedKnown(w, h)
    ensures ParkedKnown(DoSendReady(w, op, body), h)
    ensures Sending(w, op) && w.tried[op].msg.from == op ==> ParkedKnown(DoSendSuspend(w, op), h)
  {
    assert Froms(w.committed + [Msg(op, body)]) == Froms(w.committed) + [op];
    if Sending(w, op) && w.tried[op].msg.from == op {
      assert Froms(w.committed + [w.tried[op].msg]) == Froms(w.committed) + [op];
    }
  }

  lemma ParkedReceives<T>(w: World<T>, op: nat, h: nat)
    requires ParkedKnown(w, h)
    ensures ParkedKnown(DoRecvReady(w, op), h) && ParkedKnown(DoRecvSuspend(w, op), h)
  {
  }

  lemma {:induction false} ParkedAlways<T>(capacity: nat, actions: seq<Action<T>>, h: nat)
    ensures ParkedKnown(Run(capacity, actions), h)
  {
    if |actions| > 0 {
      var before, a := actions[..|actions| - 1], actions[|actions| - 1];
      var w := Run(capacity, before);
      ParkedAlways(capacity, before, h);
      if Enabled(w, a) {
        match a
        case SendReady(op, body) => ParkedSends(w, op, body, h);
        case SendSuspend(op) =>
          NumbersAlways(capacity, before, op);
          ParkedSends(w, op, w.tried[op].msg.body, h);
        case RecvReady(op) => ParkedReceives(w, op, h);
        case RecvSuspend(op) => ParkedReceives(w, op, h);
        case _ =>
      }
    }
  }

  lemma WaitersApart<T(00)>(capacity: nat, actions: seq<Action<T>>)
    ensures var w := Run(capacity, actions); Apart(w.ch, w.parkedSenders, w.parkedReceivers)
  {
    var w := Run(capacity, actions);
    var body: T :| true;
    forall h | h in Handles(w.ch.sendWaiters) || h in w.ch.recvWaiters
      ensures h in Handles(w.ch.sendWaiters) ==> h !in w.parkedReceivers
      ensures h in w.ch.recvWaiters ==> h !in w.parkedSenders
    {
      ParkedAlways(capacity, actions, h);
      BalancedAlways(capacity, actions, Msg(h, body), h);
      OneRoleAlways(capacity, actions, h);
    }
  }

  /** An operation between its two halves has neither waited nor been scheduled. */
  lemma TriedNowhere<T(00)>(capacity: nat, actions: seq<Action<T>>, op: nat)
    requires op in Run(capacity, actions).tried
    ensures var w := Run(capacity, actions);
            op !in w.parkedSenders && op !in w.parkedReceivers && op !in w.scheduled
  {
    var body: T :| true;
    ParkedAlways(capacity, actions, op);
    NumbersAlways(capacity, actions, op);
    BalancedAlways(capacity, actions, Msg(op, body), op);
  }

  lemma SendReadyInTurn<T>(w: World<T>, op: nat, body: T)
    requires AllInTurn(w) && Apart(w.ch, w.parkedSenders, w.parkedReceivers)
    ensures AllInTurn(DoSendReady(w, op, body))
  {
    var o := TrySend(w.ch, Msg(op, body));
    TrySendWakes(w.ch, Msg(op, body), w.parkedSenders, w.parkedReceivers);
    AllInTurnGrows(w, DoSendReady(w, op, body), o.scheduled);
  }

  lemma RecvReadyInTurn<T>(w: World<T>, op: nat)
    requires AllInTurn(w) && Apart(w.ch, w.parkedSenders, w.parkedReceivers)
    ensures AllInTurn(DoRecvReady(w, op))
  {
    TryRecvWakes(w.ch, w.parkedSenders, w.parkedReceivers);
    AllInTurnGrows(w, DoRecvReady(w, op), TryRecv(w.ch).scheduled);
  }

  lemma SendSuspendInTurn<T>(w: World<T>, op: nat)
    requires AllInTurn(w) && Apart(w.ch, w.parkedSenders, w.parkedReceivers) && Sending(w, op)
    requires op !in w.parkedSenders && op !in w.parkedReceivers && op !in w.scheduled
    ensures AllInTurn(DoSendSuspend(w, op))
  {
    var m, v := w.tried[op].msg, DoSendSuspend(w, op);
    if w.ch.closed || w.ch.recvWaiters != [] {
      RegisterSendWakes(w.ch, op, m, w.parkedSenders, w.parkedReceivers);
      AllInTurnGrows(w, v, RegisterSend(w.ch, op, m).scheduled);
    } else {
      assert Handles(v.ch.sendWaiters) == Handles(w.ch.sendWaiters) + [op];
      assert v.scheduled == w.scheduled + [] == w.scheduled;
      InTurnWaits(w.scheduled, w.parkedSenders, Handles(w.ch.sendWaiters), op);
    }
  }

  lemma RecvSuspendInTurn<T>(w: World<T>, op: nat)
    requires AllInTurn(w) && Apart(w.ch, w.parkedSenders, w.parkedReceivers)
    requires op !in w.parkedSenders && op !in w.parkedReceivers && op !in w.scheduled
    ensures AllInTurn(DoRecvSuspend(w, op))
  {
    var v := DoRecvSuspend(w, op);
    if w.ch.closed || w.ch.sendWaiters != [] {
      RegisterRecvWakes(w.ch, op, w.parkedSenders, w.parkedReceivers);
      AllInTurnGrows(w, v, RegisterRecv(w.ch, op).scheduled);
    } else {
      assert v.scheduled == w.scheduled + [] == w.scheduled;
      InTurnWaits(w.scheduled, w.parkedReceivers, w.ch.recvWaiters, op);
    }
  }

  lemma CloseInTurn<T>(w: World<T>)
    requires AllInTurn(w) && Apart(w.ch, w.parkedSenders, w.parkedReceivers)
    ensures AllInTurn(DoCloseWakeAll(w))
  {
    CloseDrainWakes(w.ch, w.parkedSenders, w.parkedReceivers);
    AllInTurnGrows(w, DoCloseWakeAll(w), CloseDrain(w.ch).scheduled);
  }

  lemma ExchangeInTurn<T>(w: World<T>)
    requires AllInTurn(w)
    ensures AllInTurn(Next(w, CloseExchange))
  {
    assert w.scheduled + [] == w.scheduled;
  }

  /**
   In every interleaving: of the receivers that ever came to wait, all but those that still do have been scheduled, in
   the order in which they came; and so have the senders. It makes no difference which section woke them.
   */
  lemma {:induction false} WokenInTurn<T(00)>(capacity: nat, actions: seq<Action<T>>)
    ensures AllInTurn(Run(capacity, actions))
  {
    if |actions| > 0 {
      var before, a := actions[..|actions| - 1], actions[|actions| - 1];
      var w := Run(capacity, before);
      WokenInTurn(capacity, before);
      WaitersApart(capacity, before);
      if Enabled(w, a) {
        match a
        case SendReady(op, body) => SendReadyInTurn(w, op, body);
        case RecvReady(op) => RecvReadyInTurn(w, op);
        case SendSuspend(op) =>
          TriedNowhere(capacity, before, op);
          SendSuspendInTurn(w, op);
        case RecvSuspend(op) =>
          TriedNowhere(capacity, before, op);
          RecvSuspendInTurn(w, op);
        case CloseExchange => ExchangeInTurn(w);
        case CloseWakeAll => CloseInTurn(w);
      }
    }
  }

  /** A receiver that finds a waiting sender only on registering is scheduled itself, and right after it the sender. */
  lemma AnsweredThenSender<T>(w: World<T>, op: nat)
    requires Receiving(w, op) && !w.ch.closed && w.ch.sendWaiters != []
    ensures Next(w, RecvSuspend(op)).scheduled == w.scheduled + [op] + [w.ch.sendWaiters[0].handle]
  {
  }
}
