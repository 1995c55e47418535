/**
 The channel when `co_await` runs its two halves without interruption, as a single executing thread sees it:
 first in, first out for every capacity, nobody is stranded, and the channel fails no receive before the end.
 */
module ChannelAwait {
  import opened ChannelSpec
  import opened ChannelRun
  import opened ChannelSafety
  import opened ChannelFifo

  /** What a coroutine does to the channel; each operation number is used once. */
  datatype Use<+T> =
    | Send(op: nat, body: T)       // co_await ch.send(body)
    | Recv(op: nat)                // co_await ch.recv(slot)
    | Offer(op: nat, body: T)      // a single try_send
    | Poll(op: nat)                // a single try_recv
    | BeginClose                   // close(): the exchange
    | EndClose                     // close(): the locked drain

  ghost function Steps<T>(w: World<T>, u: Use<T>): seq<Action<T>> {
    match u
    case Send(op, body) => if op in w.begun then [] else [SendReady(op, body), SendSuspend(op)]
    case Recv(op) => if op in w.begun then [] else [RecvReady(op), RecvSuspend(op)]
    case Offer(op, body) => [SendReady(op, body)]
    case Poll(op) => [RecvReady(op)]
    case BeginClose => [CloseExchange]
    case EndClose => [CloseWakeAll]
  }

  /** The interleaved run that a list of uninterrupted uses amounts to. */
  ghost function Actions<T>(capacity: nat, uses: seq<Use<T>>): seq<Action<T>> {
    if |uses| == 0 then []
    else
      var before := Actions(capacity, uses[..|uses| - 1]);
      before + Steps(Run(capacity, before), uses[|uses| - 1])
  }

  ghost function RunUses<T>(capacity: nat, uses: seq<Use<T>>): World<T> {
    Run(capacity, Actions(capacity, uses))
  }

  ghost function Apply<T>(w: World<T>, u: Use<T>): World<T> {
    Continue(w, Steps(w, u))
  }

  lemma OneMoreUse<T>(capacity: nat, uses: seq<Use<T>>)
    requires |uses| > 0
    ensures RunUses(capacity, uses) == Apply(RunUses(capacity, uses[..|uses| - 1]), uses[|uses| - 1])
  {
    var before := Actions(capacity, uses[..|uses| - 1]);
    ContinueConcat(Start(capacity), before, Steps(Run(capacity, before), uses[|uses| - 1]));
  }

  lemma TwoSteps<T>(w: World<T>, a: Action<T>, b: Action<T>)
    ensures Continue(w, [a]) == Next(w, a)
    ensures Continue(w, [a, b]) == Next(Next(w, a), b)
  {
    assert [a, b][..1] == [a];
    assert Continue(w, [a]) == Next(w, a);
  }

  /** World v is w after outcome o, as far as the channel and the two scheduling logs are concerned. */
  ghost predicate Reflects<T>(w: World<T>, v: World<T>, o: Outcome<Msg<T>>) {
    && v.ch == o.ch
    && v.scheduled == w.scheduled + o.scheduled
    && v.got == w.got + o.delivered
    && v.failed == w.failed + o.failed
  }

  lemma SendUseReflects<T>(w: World<T>, op: nat, body: T)
    requires op !in w.begun && op !in w.tried
    ensures Reflects(w, Apply(w, Send(op, body)), AwaitSend(w.ch, op, Msg(op, body)))
  {
    var v := DoSendReady(w, op, body);
    TwoSteps(w, SendReady(op, body), SendSuspend(op));
    assert Next(w, SendReady(op, body)) == v;
    if Sending(v, op) {
      assert v == w.(begun := w.begun + {op}, tried := w.tried[op := ToSend(Msg(op, body))]);
    }
  }

  lemma RecvUseReflects<T>(w: World<T>, op: nat)
    requires op !in w.begun && op !in w.tried
    ensures Reflects(w, Apply(w, Recv(op)), AwaitRecv(w.ch, op))
  {
    var v := DoRecvReady(w, op);
    TwoSteps(w, RecvReady(op), RecvSuspend(op));
    assert Next(w, RecvReady(op)) == v;
    if Receiving(v, op) {
      assert v == w.(begun := w.begun + {op}, tried := w.tried[op := ToRecv]);
    }
  }

  /** In order, nobody stranded, and a failed receive means that there is nothing left to receive. */
  ghost predicate Orderly<T>(w: World<T>) {
    && InOrder(w)
    && w.stranded == []
    && (w.failed != [] ==> w.ch.closed && w.ch.buffer == [])
  }

  lemma SendReadyOrderly<T>(w: World<T>, op: nat, body: T)
    requires Orderly(w)
    ensures Orderly(DoSendReady(w, op, body))
  {
    SendReadyInOrder(w, op, body);
  }

  lemma RecvReadyOrderly<T>(w: World<T>, op: nat)
    requires Orderly(w)
    ensures Orderly(DoRecvReady(w, op))
  {
    RecvReadyInOrder(w, op);
  }

  /** Right after a failed try_send there is no waiting receiver and no room. */
  lemma SendJustFailed<T>(w: World<T>, op: nat, body: T)
    requires op !in w.tried && Sending(DoSendReady(w, op, body), op)
    ensures var v := DoSendReady(w, op, body);
            !StaleSend(v.ch) && !HandsOver(v, op) && v.tried[op].msg.from == op
  {
  }

  lemma SendSuspendOrderly<T>(v: World<T>, op: nat)
    requires Orderly(v) && Sending(v, op) && v.tried[op].msg.from == op
    requires !StaleSend(v.ch) && !HandsOver(v, op)
    ensures Orderly(DoSendSuspend(v, op))
  {
    SendSuspendInOrder(v, op);
  }

  /** Right after a failed try_recv there is nothing buffered. */
  lemma RecvJustFailed<T>(w: World<T>, op: nat)
    requires op !in w.tried && Receiving(DoRecvReady(w, op), op)
    ensures var v := DoRecvReady(w, op);
            v.ch == w.ch && v.sent == w.sent && v.ch.buffer == []
  {
  }

  lemma RecvSuspendOrderly<T>(v: World<T>, op: nat)
    requires Orderly(v) && Distinct(v.sent) && v.ch.buffer == []
    ensures Orderly(DoRecvSuspend(v, op))
  {
    RecvSuspendInOrder(v, op);
  }

  lemma EndCloseOrderly<T>(w: World<T>)
    requires Orderly(w) && Shape(w) && w.draining
    ensures Orderly(DoCloseWakeAll(w))
  {
    CloseInOrder(w);
  }

  lemma SendOrderly<T>(w: World<T>, op: nat, body: T)
    requires Orderly(w) && op !in w.begun && op !in w.tried
    ensures Orderly(Next(Next(w, SendReady(op, body)), SendSuspend(op)))
  {
    var v := DoSendReady(w, op, body);
    assert Next(w, SendReady(op, body)) == v;
    SendReadyOrderly(w, op, body);
    if Sending(v, op) {
      SendJustFailed(w, op, body);
      SendSuspendOrderly(v, op);
    }
  }

  lemma RecvOrderly<T>(w: World<T>, op: nat)
    requires Orderly(w) && Distinct(w.sent) && op !in w.begun && op !in w.tried
    ensures Orderly(Next(Next(w, RecvReady(op)), RecvSuspend(op)))
  {
    var v := DoRecvReady(w, op);
    assert Next(w, RecvReady(op)) == v;
    RecvReadyOrderly(w, op);
    if Receiving(v, op) {
      RecvJustFailed(w, op);
      RecvSuspendOrderly(v, op);
    }
  }

  lemma SingleStepOrderly<T>(w: World<T>, a: Action<T>)
    requires Orderly(w) && Shape(w) && !a.SendSuspend? && !a.RecvSuspend?
    ensures Orderly(Next(w, a))
  {
    if Enabled(w, a) {
      match a
      case SendReady(op, body) => SendReadyOrderly(w, op, body);
      case RecvReady(op) => RecvReadyOrderly(w, op);
      case CloseExchange => assert w.got + [] == w.got;
      case CloseWakeAll => EndCloseOrderly(w);
    }
  }

  lemma ApplyOrderly<T>(w: World<T>, u: Use<T>)
    requires Orderly(w) && Shape(w) && Distinct(w.sent) && w.tried.Keys <= w.begun
    ensures Orderly(Apply(w, u))
  {
    match u
    case Send(op, body) =>
      if op !in w.begun {
        TwoSteps(w, SendReady(op, body), SendSuspend(op));
        SendOrderly(w, op, body);
      }
    case Recv(op) =>
      if op !in w.begun {
        TwoSteps(w, RecvReady(op), RecvSuspend(op));
        RecvOrderly(w, op);
      }
    case _ =>
      var a := Steps(w, u)[0];
      TwoSteps(w, a, a);
      assert Steps(w, u) == [a];
      SingleStepOrderly(w, a);
  }

  /**
   The channel's law: with uninterrupted awaits, any capacity and closing in two steps, the channel is the
   reference channel at every point, nobody is stranded, and a receive that it has failed means the end of the stream.
   */
  lemma {:induction false} AwaitsInOrder<T>(capacity: nat, uses: seq<Use<T>>)
    ensures Orderly(RunUses(capacity, uses))
  {
    if |uses| > 0 {
      var before := uses[..|uses| - 1];
      var actions := Actions(capacity, before);
      AwaitsInOrder(capacity, before);
      OneMoreUse(capacity, uses);
      ShapeAlways(Start<T>(capacity), actions);
      SentDistinct(capacity, actions);
      var w := RunUses(capacity, before);
      forall h | h in w.tried ensures h in w.begun { NumbersAlways(capacity, actions, h); }
      ApplyOrderly(w, uses[|uses| - 1]);
    }
  }

  /** Who got what, what is stored, and who waits, for index k. */
  ghost predicate EntryInPlace<T>(w: World<T>, k: nat) {
    var n, r, capacity := |w.sent|, |w.asked|, w.ch.capacity;
    && |w.got| == Min(n, r)
    && (k < Min(n, r) ==> w.got[k] == Delivery(w.asked[k], w.sent[k]))
    && (r <= k < n ==> if k < r + capacity then k - r < |w.ch.buffer| && w.ch.buffer[k - r] == w.sent[k]
                       else k - r - capacity < |w.ch.sendWaiters|
                            && w.ch.sendWaiters[k - r - capacity] == SendWaiter(w.sent[k].from, w.sent[k]))
    && (n <= k < r ==> k - n < |w.ch.recvWaiters| && w.ch.recvWaiters[k - n] == w.asked[k])
    && |w.ch.buffer| + |w.ch.sendWaiters| + r == |w.ch.recvWaiters| + n
  }

  lemma InOrderPlaces<T>(w: World<T>, k: nat)
    requires InOrder(w)
    ensures EntryInPlace(w, k)
  {
  }

  /** What the law says entry by entry. */
  lemma KthToKth<T>(capacity: nat, uses: seq<Use<T>>, k: nat)
    ensures EntryInPlace(RunUses(capacity, uses), k) && RunUses(capacity, uses).ch.capacity == capacity
  {
    AwaitsInOrder(capacity, uses);
    ShapeAlways(Start<T>(capacity), Actions(capacity, uses));
    InOrderPlaces(RunUses(capacity, uses), k);
  }

  lemma WaitingExactly<T>(w: World<T>, k: nat)
    requires InOrder(w) && k < |w.sent| && Count(Froms(w.sent), w.sent[k].from) <= 1
    ensures Count(Handles(w.ch.sendWaiters), w.sent[k].from) >= 1 <==> k >= |w.asked| + w.ch.capacity
  {
    var h, ahead := w.sent[k].from, |w.asked| + w.ch.capacity;
    var waiting := Handles(w.ch.sendWaiters);
    assert forall i | 0 <= i < |waiting| :: waiting[i] == w.sent[ahead + i].from;
    if k >= ahead {
      assert waiting[k - ahead] == h;
    } else if h in waiting {
      var i :| 0 <= i < |waiting| && waiting[i] == h;
      TwiceCounts(Froms(w.sent), k, ahead + i);
    }
  }

  /**
   The channel lets the k-th accepted send go on exactly when k is below the number of accepted receives plus the
   capacity: it keeps send number k + capacity in its list until receive number k is accepted, and no longer. Whether
   the scheduler leaves the sender suspended until then is the subject of ChannelWindow.
   */
  lemma ReleasedExactly<T>(capacity: nat, uses: seq<Use<T>>, k: nat)
    requires k < |RunUses(capacity, uses).sent|
    ensures var w := RunUses(capacity, uses);
            w.sent[k].from in w.freed <==> k < |w.asked| + capacity
  {
    var w := RunUses(capacity, uses);
    var actions := Actions(capacity, uses);
    var h := w.sent[k].from;
    AwaitsInOrder(capacity, uses);
    ShapeAlways(Start<T>(capacity), actions);
    SentWithinAlways(capacity, actions, h);
    NumbersAlways(capacity, actions, h);
    BalancedAlways(capacity, actions, w.sent[k], h);
    assert Froms(w.sent)[k] == h;
    WaitingExactly(w, k);
  }

  // ---------------------------------------------------------------------------------------------
  // The end of the stream
  // ---------------------------------------------------------------------------------------------

  lemma {:induction false} DryForever<T>(w: World<T>, more: seq<Action<T>>)
    requires w.ch.closed && w.ch.buffer == []
    ensures var v := Continue(w, more); v.got == w.got && v.ch.closed && v.ch.buffer == []
  {
    if |more| > 0 {
      var v := Continue(w, more[..|more| - 1]);
      DryForever(w, more[..|more| - 1]);
      DryStep(v, more[|more| - 1]);
    }
  }

  lemma DryStep<T>(w: World<T>, a: Action<T>)
    requires w.ch.closed && w.ch.buffer == []
    ensures var v := Next(w, a); v.got == w.got && v.ch.closed && v.ch.buffer == []
  {
    assert w.got + [] == w.got;
  }

  lemma FreshNumber(used: set<nat>) returns (n: nat)
    ensures forall x | x in used :: x < n
  {
    n := 0;
    var rest := used;
    while rest != {}
      invariant forall x | x in used && x !in rest :: x < n
      decreases rest
    {
      var x :| x in rest;
      if n <= x { n := x + 1; }
      rest := rest - {x};
    }
  }

  /** Nothing is ever received any more, whatever happens. */
  ghost predicate Over<T(!new)>(w: World<T>) {
    forall more: seq<Action<T>> :: Continue(w, more).got == w.got
  }

  /** On a closed channel, in any interleaving, receiving is over for good exactly when the buffer is empty. */
  lemma OverExactly<T(00, !new)>(w: World<T>)
    requires w.ch.closed
    ensures Over(w) <==> w.ch.buffer == []
  {
    if w.ch.buffer == [] {
      forall more: seq<Action<T>> ensures Continue(w, more).got == w.got { DryForever(w, more); }
    } else {
      var op := FreshNumber(w.begun);
      TwoSteps(w, RecvReady(op), RecvReady(op));
      assert Continue(w, [RecvReady(op)]) == DoRecvReady(w, op);
      assert |DoRecvReady(w, op).got| > |w.got|;
    }
  }

  /** With uninterrupted awaits, once the channel has failed a receive it answers none any more. */
  lemma EndOfStream<T>(capacity: nat, uses: seq<Use<T>>, more: seq<Action<T>>)
    requires RunUses(capacity, uses).failed != []
    ensures Continue(RunUses(capacity, uses), more).got == RunUses(capacity, uses).got
  {
    AwaitsInOrder(capacity, uses);
    DryForever(RunUses(capacity, uses), more);
  }

  /** A failed receive means that nothing is left. */
  ghost predicate EndsClean<T>(w: World<T>) {
    w.failed != [] ==> w.ch.buffer == []
  }

  /** A receive is failed, by its own registration or by the drain, while a value is buffered. */
  ghost predicate Premature<T>(w: World<T>, a: Action<T>) {
    || (a.RecvSuspend? && Receiving(w, a.op) && w.ch.closed && w.ch.buffer != [])
    || (a.CloseWakeAll? && w.draining && w.ch.recvWaiters != [] && w.ch.buffer != [])
  }

  lemma StepEndsClean<T>(w: World<T>, a: Action<T>)
    requires Shape(w) && EndsClean(w)
    ensures EndsClean(Next(w, a)) <==> !Premature(w, a)
  {
    if w.failed != [] { DryStep(w, a); }
  }

  lemma LastStepEndsClean<T>(capacity: nat, actions: seq<Action<T>>)
    requires |actions| > 0 && EndsClean(Run(capacity, actions[..|actions| - 1]))
    ensures EndsClean(Run(capacity, actions))
       <==> !Premature(Run(capacity, actions[..|actions| - 1]), actions[|actions| - 1])
  {
    ShapeAlways(Start<T>(capacity), actions[..|actions| - 1]);
    StepEndsClean(Run(capacity, actions[..|actions| - 1]), actions[|actions| - 1]);
  }

  lemma {:induction false} EndsCleanUnlessPremature<T>(capacity: nat, actions: seq<Action<T>>)
    requires forall k | 0 <= k < |actions| :: !Premature(Run(capacity, actions[..k]), actions[k])
    ensures EndsClean(Run(capacity, actions))
  {
    if |actions| > 0 {
      var n := |actions| - 1;
      forall k | 0 <= k < n ensures !Premature(Run(capacity, actions[..n][..k]), actions[..n][k]) {
        assert actions[..n][..k] == actions[..k];
      }
      EndsCleanUnlessPremature(capacity, actions[..n]);
      LastStepEndsClean(capacity, actions);
    }
  }

  /**
   In any interleaving, a receive that the channel fails always means the end of the stream if and only if it fails
   none prematurely. ChannelFinal adds the receives that are told false by being resumed too early.
   */
  lemma EndOfStreamExactly<T>(capacity: nat, actions: seq<Action<T>>)
    ensures (forall k | 0 <= k <= |actions| :: EndsClean(Run(capacity, actions[..k])))
       <==> (forall k | 0 <= k < |actions| :: !Premature(Run(capacity, actions[..k]), actions[k]))
  {
    if forall k | 0 <= k <= |actions| :: EndsClean(Run(capacity, actions[..k])) {
      forall k | 0 <= k < |actions| ensures !Premature(Run(capacity, actions[..k]), actions[k]) {
        assert actions[..k + 1][..k] == actions[..k];
        assert EndsClean(Run(capacity, actions[..k])) && EndsClean(Run(capacity, actions[..k + 1]));
        LastStepEndsClean(capacity, actions[..k + 1]);
      }
    }
    if forall k | 0 <= k < |actions| :: !Premature(Run(capacity, actions[..k]), actions[k]) {
      forall k | 0 <= k <= |actions| ensures EndsClean(Run(capacity, actions[..k])) {
        forall i | 0 <= i < k ensures !Premature(Run(capacity, actions[..k][..i]), actions[..k][i]) {
          assert actions[..k][..i] == actions[..i];
        }
        EndsCleanUnlessPremature(capacity, actions[..k]);
      }
    }
  }

  lemma TakeNext<T>(w: World<T>, op: nat)
    requires w.ch.buffer != [] && op !in w.begun
    ensures var v := Next(w, RecvReady(op));
            && v.got == w.got + [Delivery(op, w.ch.buffer[0])]
            && w.ch.buffer[1..] <= v.ch.buffer
            && (w.ch.sendWaiters == [] ==> v.ch == w.ch.(buffer := w.ch.buffer[1..]))
            && v.begun == w.begun + {op} && v.sent == w.sent && v.asked == w.asked + [op]
  {
  }

  /** World v is w after receives with the numbers ops have taken the first values out of the buffer, in order. */
  ghost predicate HandedOut<T>(w: World<T>, ops: seq<nat>, v: World<T>)
    requires |ops| <= |w.ch.buffer|
  {
    && v.got == w.got + seq(|ops|, i requires 0 <= i < |ops| => Delivery(ops[i], w.ch.buffer[i]))
    && w.ch.buffer[|ops|..] <= v.ch.buffer
    && (w.ch.sendWaiters == [] ==> v.ch == w.ch.(buffer := w.ch.buffer[|ops|..]))
    && v.begun == w.begun + (set op | op in ops) && v.sent == w.sent && v.asked == w.asked + ops
  }

  lemma OneMoreHandedOut<T>(w: World<T>, ops: seq<nat>, v: World<T>, op: nat)
    requires |ops| < |w.ch.buffer| && HandedOut(w, ops, v) && op !in v.begun
    ensures HandedOut(w, ops + [op], Next(v, RecvReady(op)))
  {
    TakeNext(v, op);
    assert v.ch.buffer[0] == w.ch.buffer[|ops|];
    assert w.ch.buffer[|ops| + 1..] == w.ch.buffer[|ops|..][1..];
  }

  /**
   Receives hand out what is buffered in the order in which it stands there, whether the channel is open, closed, or
   being closed while senders still wait.
   */
  lemma {:induction false} RemainderInOrder<T>(w: World<T>, ops: seq<nat>)
    requires |ops| <= |w.ch.buffer|
    requires Distinct(ops) && forall op | op in ops :: op !in w.begun
    ensures HandedOut(w, ops, Continue(w, Receives<T>(ops)))
  {
    if |ops| > 0 {
      var n := |ops| - 1;
      RemainderInOrder(w, ops[..n]);
      assert Receives<T>(ops)[..n] == Receives<T>(ops[..n]);
      assert ops == ops[..n] + [ops[n]];
      OneMoreHandedOut(w, ops[..n], Continue(w, Receives<T>(ops[..n])), ops[n]);
    }
  }

  ghost function Receives<T>(ops: seq<nat>): seq<Action<T>> {
    seq(|ops|, i requires 0 <= i < |ops| => RecvReady(ops[i]))
  }

  /** A channel that has been closed and drained, with one buffered value and a receiver about to register. */
  ghost function LateReceiver<T>(m: Msg<T>): World<T> {
    Start<T>(1).(ch := Chan(1, true, [m], [], []), draining := true, begun := {1, 2}, tried := map[1 := ToRecv],
                 committed := [m], freed := [2], sent := [m])
  }

  lemma LateReceiverReachable<T>(body: T)
    ensures Next(Next(Next(Start(1), RecvReady(1)), SendReady(2, body)), CloseExchange) == LateReceiver(Msg(2, body))
  {
    var m := Msg(2, body);
    var w1 := Start<T>(1).(begun := {1}, tried := map[1 := ToRecv]);
    assert Next(Start(1), RecvReady(1)) == w1;
    assert Next(w1, SendReady(2, body))
        == w1.(ch := w1.ch.(buffer := [m]), begun := {1, 2}, committed := [m], freed := [2], sent := [m]);
  }

  /** With interruptions it can be otherwise: a receive fails although a value is left for the next one. */
  lemma FalseEndExample<T>(body: T)
    ensures var w := Run(1, [RecvReady(1), SendReady(2, body), CloseExchange, RecvSuspend(1)]);
            w.failed == [1] && w.got == [] && w.ch.buffer == [Msg(2, body)]
    ensures Run(1, [RecvReady(1), SendReady(2, body), CloseExchange, RecvSuspend(1)] + [RecvReady(3)]).got
            == [Delivery(3, Msg(2, body))]
  {
    var actions := [RecvReady(1), SendReady(2, body), CloseExchange, RecvSuspend(1)];
    var w := DoRecvSuspend(LateReceiver(Msg(2, body)), 1);
    FourSteps(Start<T>(1), RecvReady(1), SendReady(2, body), CloseExchange, RecvSuspend(1));
    LateReceiverReachable(body);
    ContinueConcat(Start<T>(1), actions, [RecvReady(3)]);
    TwoSteps(w, RecvReady(3), RecvReady(3));
    assert w.ch == Chan(1, true, [Msg(2, body)], [], []);
  }
}
