/**
 First in, first out. The reference channel is nothing but the list A of accepted sends and the list R of
 accepted receives: the k-th receive gets the k-th message, and everything the real channel stores is a
 window of A or R. This module says exactly when the real channel is that reference channel.
 */
module ChannelFifo {
  import opened ChannelSpec
  import opened ChannelRun
  import opened ChannelSafety

  ghost function Min(a: nat, b: nat): nat {
    if a <= b then a else b
  }

  /** The elements of s with an index from lo up to, not including, hi. */
  ghost function Clip<X>(s: seq<X>, lo: nat, hi: nat): seq<X>
    requires lo <= hi
  {
    s[Min(lo, |s|)..Min(hi, |s|)]
  }

  ghost function Senders<T>(ms: seq<Msg<T>>): seq<SendWaiter<Msg<T>>> {
    seq(|ms|, i requires 0 <= i < |ms| => SendWaiter(ms[i].from, ms[i]))
  }

  /** The reference channel for the accepted sends A and the accepted receives R. */
  ghost function Reference<T>(capacity: nat, closed: bool, A: seq<Msg<T>>, R: seq<nat>): Chan<Msg<T>> {
    Chan(capacity, closed,
         Clip(A, |R|, |R| + capacity),
         if |A| > |R| + capacity then Senders(A[|R| + capacity..]) else [],
         if |R| > |A| then R[|A|..] else [])
  }

  /** The k-th accepted receive gets the k-th accepted message. */
  ghost function Matched<T>(A: seq<Msg<T>>, R: seq<nat>): seq<Delivery<Msg<T>>> {
    seq(Min(|A|, |R|), i requires 0 <= i < Min(|A|, |R|) => Delivery(R[i], A[i]))
  }

  /** The real channel is the reference channel, and what was received is what the reference says. */
  ghost predicate InOrder<T>(w: World<T>) {
    && w.ch == Reference(w.ch.capacity, w.ch.closed, w.sent, w.asked)
    && w.got == Matched(w.sent, w.asked)
  }

  // ---------------------------------------------------------------------------------------------
  // Each critical section on the reference channel
  // ---------------------------------------------------------------------------------------------

  lemma MatchedSend<T>(A: seq<Msg<T>>, R: seq<nat>, m: Msg<T>)
    ensures Matched(A + [m], R) == Matched(A, R) + if |A| < |R| then [Delivery(R[|A|], m)] else []
  {
  }

  lemma MatchedRecv<T>(A: seq<Msg<T>>, R: seq<nat>, op: nat)
    ensures Matched(A, R + [op]) == Matched(A, R) + if |R| < |A| then [Delivery(op, A[|R|])] else []
  {
  }

  lemma TrySendInOrder<T>(capacity: nat, A: seq<Msg<T>>, R: seq<nat>, m: Msg<T>)
    ensures var c := Reference(capacity, false, A, R);
            var o := TrySend(c, m);
            && o.ok == (|A| < |R| + capacity)
            && (o.ok ==> o.ch == Reference(capacity, false, A + [m], R)
                         && Matched(A, R) + o.delivered == Matched(A + [m], R))
            && (!o.ok ==> o == Quiet(c, false))
  {
    MatchedSend(A, R, m);
    var c := Reference(capacity, false, A, R);
    if |A| < |R| {
      assert c.recvWaiters[1..] == (if |R| > |A| + 1 then R[|A| + 1..] else []);
    } else if |A| < |R| + capacity {
      assert Clip(A + [m], |R|, |R| + capacity) == Clip(A, |R|, |R| + capacity) + [m];
    }
  }

  lemma TryRecvInOrder<T>(capacity: nat, closed: bool, A: seq<Msg<T>>, R: seq<nat>, op: nat)
    ensures var c := Reference(capacity, closed, A, R);
            var o := TryRecv(c);
            && o.ok == (|R| < |A| && (closed ==> capacity > 0)) == o.value.Some?
            && (o.ok ==> o.ch == Reference(capacity, closed, A, R + [op])
                         && o.value.value == A[|R|]
                         && Matched(A, R) + [Delivery(op, A[|R|])] == Matched(A, R + [op]))
            && (!o.ok ==> o == Quiet(c, false))
  {
    MatchedRecv(A, R, op);
    var c := Reference(capacity, closed, A, R);
    if |R| < |A| {
      var full := |A| > |R| + capacity;
      if full {
        assert Senders(A[|R| + capacity..])[1..] == Senders(A[|R| + 1 + capacity..]);
      }
      if capacity > 0 {
        assert Clip(A, |R| + 1, |R| + 1 + capacity)
            == c.buffer[1..] + if full then [A[|R| + capacity]] else [];
      }
    }
  }

  /** Registering a sender although there is room for its value. */
  ghost predicate StaleSend<T>(c: Chan<T>) {
    !c.closed && c.recvWaiters == [] && |c.buffer| < c.capacity
  }

  /** Registering a receiver although there is a value for it. */
  ghost predicate StaleRecv<T>(c: Chan<T>) {
    !c.closed && c.buffer != []
  }

  lemma RegisterSendInOrder<T>(capacity: nat, A: seq<Msg<T>>, R: seq<nat>, m: Msg<T>)
    ensures var c := Reference(capacity, false, A, R);
            var o := RegisterSend(c, m.from, m);
            && o.ok
            && Matched(A, R) + o.delivered == Matched(A + [m], R)
            && (o.ch == Reference(capacity, false, A + [m], R) <==> !StaleSend(c))
  {
    MatchedSend(A, R, m);
    var c := Reference(capacity, false, A, R);
    if |A| < |R| {
      assert c.recvWaiters[1..] == (if |R| > |A| + 1 then R[|A| + 1..] else []);
    } else if |A| >= |R| + capacity {
      assert Senders((A + [m])[|R| + capacity..]) == c.sendWaiters + [SendWaiter(m.from, m)];
    }
  }

  /** The converse needs the messages to be distinguishable. */
  lemma RegisterRecvInOrder<T>(capacity: nat, A: seq<Msg<T>>, R: seq<nat>, op: nat)
    requires forall i, j | 0 <= i < j < |A| :: A[i] != A[j]
    ensures var c := Reference(capacity, false, A, R);
            var o := RegisterRecv(c, op);
            && o.ok
            && ((o.ch == Reference(capacity, false, A, R + [op])
                 && Matched(A, R) + o.delivered == Matched(A, R + [op]))
                <==> !StaleRecv(c))
  {
    MatchedRecv(A, R, op);
    var c := Reference(capacity, false, A, R);
    var o := RegisterRecv(c, op);
    if |A| > |R| + capacity {
      assert Senders(A[|R| + capacity..])[1..] == Senders(A[|R| + 1 + capacity..]);
      assert o.delivered == [Delivery(op, A[|R| + capacity])];
      if capacity > 0 { assert (Matched(A, R) + o.delivered)[|R|] != Matched(A, R + [op])[|R|]; }
    } else if |A| > |R| {
      assert o.ch.recvWaiters == [op];
    } else {
      assert (R + [op])[|A|..] == R[|A|..] + [op];
    }
  }

  lemma DrainInOrder<T>(capacity: nat, closed: bool, A: seq<Msg<T>>, R: seq<nat>)
    ensures var c := Reference(capacity, closed, A, R);
            var A' := AllBut(A, |c.sendWaiters|);
            var R' := AllBut(R, |c.recvWaiters|);
            CloseDrain(c).ch == Reference(capacity, closed, A', R') && Matched(A', R') == Matched(A, R)
  {
  }

  // ---------------------------------------------------------------------------------------------
  // One step of an interleaved run
  // ---------------------------------------------------------------------------------------------

  /** A coroutine suspends although, meanwhile, the channel could have served it. */
  ghost predicate Stale<T>(w: World<T>, a: Action<T>) {
    || (a.SendSuspend? && Sending(w, a.op) && StaleSend(w.ch))
    || (a.RecvSuspend? && Receiving(w, a.op) && StaleRecv(w.ch))
  }

  ghost predicate Distinct<X>(s: seq<X>) {
    forall i, j | 0 <= i < j < |s| :: s[i] != s[j]
  }

  lemma SendReadyInOrder<T>(w: World<T>, op: nat, body: T)
    requires InOrder(w)
    ensures InOrder(DoSendReady(w, op, body))
  {
    if !w.ch.closed { TrySendInOrder(w.ch.capacity, w.sent, w.asked, Msg(op, body)); }
    assert w.got + [] == w.got;
  }

  lemma RecvReadyInOrder<T>(w: World<T>, op: nat)
    requires InOrder(w)
    ensures InOrder(DoRecvReady(w, op))
  {
    TryRecvInOrder(w.ch.capacity, w.ch.closed, w.sent, w.asked, op);
    assert w.got + [] == w.got;
  }

  lemma SendSuspendInOrder<T>(w: World<T>, op: nat)
    requires InOrder(w) && Sending(w, op) && w.tried[op].msg.from == op
    ensures InOrder(DoSendSuspend(w, op)) <==> !StaleSend(w.ch)
  {
    if !w.ch.closed { RegisterSendInOrder(w.ch.capacity, w.sent, w.asked, w.tried[op].msg); }
    assert w.got + [] == w.got;
  }

  lemma RecvSuspendInOrder<T>(w: World<T>, op: nat)
    requires InOrder(w) && Distinct(w.sent)
    ensures InOrder(DoRecvSuspend(w, op)) <==> !StaleRecv(w.ch)
  {
    if !w.ch.closed { RegisterRecvInOrder(w.ch.capacity, w.sent, w.asked, op); }
    assert w.got + [] == w.got;
  }

  lemma CloseInOrder<T>(w: World<T>)
    requires InOrder(w)
    ensures InOrder(DoCloseWakeAll(w))
  {
    DrainInOrder(w.ch.capacity, w.ch.closed, w.sent, w.asked);
    assert w.got + [] == w.got;
  }

  lemma StepInOrder<T>(w: World<T>, a: Action<T>)
    requires InOrder(w) && Distinct(w.sent)
    requires a.SendSuspend? && Sending(w, a.op) ==> w.tried[a.op].msg.from == a.op
    ensures InOrder(Next(w, a)) <==> !Stale(w, a)
  {
    if Enabled(w, a) {
      match a
      case SendReady(op, body) => SendReadyInOrder(w, op, body);
      case SendSuspend(op) => SendSuspendInOrder(w, op);
      case RecvReady(op) => RecvReadyInOrder(w, op);
      case RecvSuspend(op) => RecvSuspendInOrder(w, op);
      case CloseExchange => assert w.got + [] == w.got;
      case CloseWakeAll => CloseInOrder(w);
    }
  }

  /** The accepted sends are among the committed ones, so they are all different. */
  ghost predicate SentWithin<T>(w: World<T>, h: nat) {
    Count(Froms(w.sent), h) <= Count(Froms(w.committed), h)
  }

  lemma {:induction false} PrefixCounts<T>(ms: seq<Msg<T>>, n: nat, h: nat)
    requires n <= |ms|
    ensures Count(Froms(ms[..n]), h) <= Count(Froms(ms), h)
  {
    assert Froms(ms) == Froms(ms)[..n] + Froms(ms)[n..];
    assert Froms(ms[..n]) == Froms(ms)[..n];
  }

  lemma SentWithinSend<T>(w: World<T>, op: nat, body: T, h: nat)
    requires SentWithin(w, h)
    ensures SentWithin(DoSendReady(w, op, body), h)
    ensures Sending(w, op) ==> SentWithin(DoSendSuspend(w, op), h)
  {
    FromsGrow(w.sent, Msg(op, body), h);
    FromsGrow(w.committed, Msg(op, body), h);
    if Sending(w, op) {
      FromsGrow(w.sent, w.tried[op].msg, h);
      FromsGrow(w.committed, w.tried[op].msg, h);
    }
  }

  lemma SentWithinStep<T>(w: World<T>, a: Action<T>, h: nat)
    requires SentWithin(w, h)
    ensures SentWithin(Next(w, a), h)
  {
    if Enabled(w, a) {
      match a
      case SendReady(op, body) => SentWithinSend(w, op, body, h);
      case SendSuspend(op) => SentWithinSend(w, op, w.tried[op].msg.body, h);
      case CloseWakeAll => PrefixCounts(w.sent, |AllBut(w.sent, |w.ch.sendWaiters|)|, h);
      case _ =>
    }
  }

  lemma {:induction false} SentWithinAlways<T>(capacity: nat, actions: seq<Action<T>>, h: nat)
    ensures SentWithin(Run(capacity, actions), h)
  {
    if |actions| > 0 {
      SentWithinAlways(capacity, actions[..|actions| - 1], h);
      SentWithinStep(Run(capacity, actions[..|actions| - 1]), actions[|actions| - 1], h);
    }
  }

  lemma SentDistinct<T>(capacity: nat, actions: seq<Action<T>>)
    ensures Distinct(Run(capacity, actions).sent)
  {
    var w := Run(capacity, actions);
    forall i, j | 0 <= i < j < |w.sent| ensures w.sent[i] != w.sent[j] {
      SentWithinAlways(capacity, actions, w.sent[i].from);
      NumbersAlways(capacity, actions, w.sent[i].from);
      if w.sent[i] == w.sent[j] { OneMessagePerSender(w.sent, i, j); }
    }
  }

  // ---------------------------------------------------------------------------------------------
  // Whole runs
  // ---------------------------------------------------------------------------------------------

  lemma {:induction false} InOrderUnlessStale<T>(capacity: nat, actions: seq<Action<T>>)
    requires forall k | 0 <= k < |actions| :: !Stale(Run(capacity, actions[..k]), actions[k])
    ensures InOrder(Run(capacity, actions))
  {
    if |actions| > 0 {
      var n := |actions| - 1;
      forall k | 0 <= k < n ensures !Stale(Run(capacity, actions[..n][..k]), actions[..n][k]) {
        assert actions[..n][..k] == actions[..k];
      }
      InOrderUnlessStale(capacity, actions[..n]);
      LastStepInOrder(capacity, actions);
    }
  }

  lemma LastStepInOrder<T>(capacity: nat, actions: seq<Action<T>>)
    requires |actions| > 0 && InOrder(Run(capacity, actions[..|actions| - 1]))
    ensures InOrder(Run(capacity, actions))
       <==> !Stale(Run(capacity, actions[..|actions| - 1]), actions[|actions| - 1])
  {
    var before, a := actions[..|actions| - 1], actions[|actions| - 1];
    SentDistinct(capacity, before);
    if a.SendSuspend? { NumbersAlways(capacity, before, a.op); }
    StepInOrder(Run(capacity, before), a);
  }

  /**
   The channel matches the reference channel at every point of a run if and only if no coroutine of that run suspends
   although the channel could meanwhile have served it. ChannelObserve says what the receivers can see of that.
   */
  lemma FifoExactly<T>(capacity: nat, actions: seq<Action<T>>)
    ensures (forall k | 0 <= k <= |actions| :: InOrder(Run(capacity, actions[..k])))
       <==> (forall k | 0 <= k < |actions| :: !Stale(Run(capacity, actions[..k]), actions[k]))
  {
    if forall k | 0 <= k <= |actions| :: InOrder(Run(capacity, actions[..k])) {
      forall k | 0 <= k < |actions| ensures !Stale(Run(capacity, actions[..k]), actions[k]) {
        assert actions[..k + 1][..k] == actions[..k];
        assert InOrder(Run(capacity, actions[..k])) && InOrder(Run(capacity, actions[..k + 1]));
        LastStepInOrder(capacity, actions[..k + 1]);
      }
    }
    if forall k | 0 <= k < |actions| :: !Stale(Run(capacity, actions[..k]), actions[k]) {
      forall k | 0 <= k <= |actions| ensures InOrder(Run(capacity, actions[..k])) {
        forall i | 0 <= i < k ensures !Stale(Run(capacity, actions[..k][..i]), actions[..k][i]) {
          assert actions[..k][..i] == actions[..i];
        }
        InOrderUnlessStale(capacity, actions[..k]);
      }
    }
  }

  /** Rendezvous: an unbuffered channel is first in, first out in every interleaving. */
  lemma RendezvousInOrder<T>(actions: seq<Action<T>>)
    ensures InOrder(Run(0, actions))
  {
    forall k | 0 <= k < |actions| ensures !Stale(Run(0, actions[..k]), actions[k]) {
      ShapeAlways(Start<T>(0), actions[..k]);
    }
    InOrderUnlessStale(0, actions);
  }

  /** A channel with one buffered value and one receiver that registered too late to see it. */
  ghost function Overlooked<T>(m: Msg<T>): World<T> {
    Start<T>(1).(ch := Chan(1, false, [m], [], [1]), begun := {1, 2}, committed := [m], freed := [2], sent := [m],
                 suspended := [1], requests := [1], parkedReceivers := [1], asked := [1])
  }

  lemma OverlookedReachable<T>(first: T)
    ensures Next(Next(Next(Start(1), RecvReady(1)), SendReady(2, first)), RecvSuspend(1)) == Overlooked(Msg(2, first))
  {
    var m := Msg(2, first);
    var w1 := Start<T>(1).(begun := {1}, tried := map[1 := ToRecv]);
    var w2 := w1.(ch := w1.ch.(buffer := [m]), begun := {1, 2}, committed := [m], freed := [2], sent := [m]);
    assert Next(Start(1), RecvReady(1)) == w1;
    assert Next(w1, SendReady(2, first)) == w2;
    assert w2.tried - {1} == map[];
  }

  /**
   With a buffer it is not: a receiver that found nothing registers after a value has been buffered, and then
   gets the value of a later sender, ahead of the buffered one.
   */
  lemma OvertakingExample<T>(first: T, second: T)
    ensures var w := Run(1, [RecvReady(1), SendReady(2, first), RecvSuspend(1), SendReady(3, second)]);
            w.sent == [Msg(2, first), Msg(3, second)] && w.got == [Delivery(1, Msg(3, second))]
            && w.ch.buffer == [Msg(2, first)] && !InOrder(w)
  {
    FourSteps(Start<T>(1), RecvReady(1), SendReady(2, first), RecvSuspend(1), SendReady(3, second));
    OverlookedReachable(first);
    var w := DoSendReady(Overlooked(Msg(2, first)), 3, second);
    assert w.got[0] != Matched(w.sent, w.asked)[0];
  }
}
