/**
 What a stale registration can be seen to do. The channel may look first in, first out for a while after one; but
 then some way of going on, in which nobody else registers too late, delivers out of order.
 */
module ChannelObserve {
  import opened ChannelSpec
  import opened ChannelRun
  import opened ChannelSafety
  import opened ChannelFifo
  import opened ChannelAwait

  /** The k-th accepted receive that has got a value got the k-th accepted message, and no earlier one got none. */
  ghost predicate Faithful<T>(w: World<T>) {
    w.got == Matched(w.sent, w.asked)
  }

  /** No step of `more` is stale. */
  ghost predicate Calm<T>(w: World<T>, more: seq<Action<T>>) {
    forall k | 0 <= k < |more| :: !Stale(Continue(w, more[..k]), more[k])
  }

  /** However things go on calmly, what is received is what the reference channel gives. */
  ghost predicate StaysFaithful<T(!new)>(w: World<T>) {
    forall more: seq<Action<T>> :: Calm(w, more) ==> Faithful(Continue(w, more))
  }

  lemma {:induction false} CalmKeepsOrder<T>(capacity: nat, actions: seq<Action<T>>, more: seq<Action<T>>)
    requires InOrder(Run(capacity, actions)) && Calm(Run(capacity, actions), more)
    ensures InOrder(Run(capacity, actions + more))
  {
    if |more| == 0 {
      assert actions + more == actions;
    } else {
      var n := |more| - 1;
      var w := Run(capacity, actions);
      forall k | 0 <= k < n ensures !Stale(Continue(w, more[..n][..k]), more[..n][k]) {
        assert more[..n][..k] == more[..k];
      }
      CalmKeepsOrder(capacity, actions, more[..n]);
      ContinueConcat(Start(capacity), actions, more[..n]);
      assert (actions + more)[..|actions + more| - 1] == actions + more[..n];
      LastStepInOrder(capacity, actions + more);
    }
  }

  lemma InOrderStaysFaithful<T(!new)>(capacity: nat, actions: seq<Action<T>>)
    requires InOrder(Run(capacity, actions))
    ensures StaysFaithful(Run(capacity, actions))
  {
    var w := Run(capacity, actions);
    forall more: seq<Action<T>> | Calm(w, more) ensures Faithful(Continue(w, more)) {
      CalmKeepsOrder(capacity, actions, more);
      ContinueConcat(Start(capacity), actions, more);
    }
  }

  /** A stale receive is out of order at once: it gets a later value than the first buffered one, or none. */
  lemma StaleRecvShows<T>(w: World<T>, op: nat)
    requires InOrder(w) && Distinct(w.sent) && Receiving(w, op) && StaleRecv(w.ch)
    ensures !Faithful(DoRecvSuspend(w, op))
  {
    var v := DoRecvSuspend(w, op);
    var r := |w.asked|;
    assert Matched(v.sent, v.asked)[r] == Delivery(op, w.sent[r]);
    if w.ch.sendWaiters != [] {
      assert v.got[r] == Delivery(op, w.sent[r + w.ch.capacity]);
    } else {
      assert |v.got| == r;
    }
  }

  /** After a stale send, a new send finds room and its message is buffered ahead of the one that waits. */
  lemma StaleSendOvertaken<T>(w: World<T>, op: nat, late: nat)
    requires InOrder(w) && Sending(w, op) && StaleSend(w.ch) && late !in w.begun
    ensures var m := w.tried[op].msg;
            var x := Msg(late, m.body);
            var v := Next(DoSendSuspend(w, op), SendReady(late, m.body));
            && v.ch.buffer == w.sent[|w.asked|..] + [x] && v.sent == w.sent + [m, x]
            && v.got == w.got && v.asked == w.asked && v.begun == w.begun + {late}
            && |w.asked| <= |w.sent|
  {
    var m := w.tried[op].msg;
    var u := DoSendSuspend(w, op);
    assert u.ch == w.ch.(sendWaiters := w.ch.sendWaiters + [SendWaiter(op, m)]);
    assert u.got == w.got && u.sent == w.sent + [m];
    assert w.ch.buffer == w.sent[|w.asked|..];
  }

  /** It is exposed when everything up to that message is received. */
  lemma StaleSendShows<T>(w: World<T>, op: nat) returns (more: seq<Action<T>>)
    requires InOrder(w) && Sending(w, op) && op in w.begun && StaleSend(w.ch) && w.tried[op].msg.from == op
    ensures Calm(DoSendSuspend(w, op), more) && !Faithful(Continue(DoSendSuspend(w, op), more))
  {
    var u, m := DoSendSuspend(w, op), w.tried[op].msg;
    var late := FreshNumber(w.begun);
    StaleSendOvertaken(w, op, late);
    var v := Next(u, SendReady(late, m.body));
    var ops := seq(|v.ch.buffer|, i => late + 1 + i);
    RemainderInOrder(v, ops);
    more := [SendReady(late, m.body)] + Receives<T>(ops);
    ContinueConcat(u, [SendReady(late, m.body)], Receives<T>(ops));
    TwoSteps(u, SendReady(late, m.body), SendReady(late, m.body));
    var z := Continue(u, more);
    assert z == Continue(v, Receives<T>(ops));
    var n := |w.sent|;
    assert z.got[n].value == Msg(late, m.body);
    assert Matched(z.sent, z.asked)[n].value == m;
  }

  /** A step from an in-order state leaves the channel faithful, however things go on, exactly if it is not stale. */
  lemma StaleShows<T(!new)>(capacity: nat, actions: seq<Action<T>>, a: Action<T>)
    requires InOrder(Run(capacity, actions))
    ensures StaysFaithful(Run(capacity, actions + [a])) <==> !Stale(Run(capacity, actions), a)
  {
    var w := Run(capacity, actions);
    assert (actions + [a])[..|actions|] == actions;
    if !Stale(w, a) {
      LastStepInOrder(capacity, actions + [a]);
      InOrderStaysFaithful(capacity, actions + [a]);
    } else {
      SentDistinct(capacity, actions);
      NumbersAlways(capacity, actions, a.op);
      if a.SendSuspend? {
        var more := StaleSendShows(w, a.op);
      } else {
        StaleRecvShows(w, a.op);
        assert Calm(Next(w, a), []) && !Faithful(Continue(Next(w, a), []));
      }
    }
  }

  lemma {:induction false} FaithfulIsInOrder<T(!new)>(capacity: nat, actions: seq<Action<T>>, k: nat)
    requires k <= |actions|
    requires forall i | 0 <= i <= |actions| :: StaysFaithful(Run(capacity, actions[..i]))
    ensures InOrder(Run(capacity, actions[..k]))
    ensures forall i | 0 <= i < k :: !Stale(Run(capacity, actions[..i]), actions[i])
  {
    if k > 0 {
      FaithfulIsInOrder(capacity, actions, k - 1);
      assert actions[..k] == actions[..k - 1] + [actions[k - 1]];
      assert StaysFaithful(Run(capacity, actions[..k]));
      StaleShows(capacity, actions[..k - 1], actions[k - 1]);
      assert actions[..k][..k - 1] == actions[..k - 1];
      LastStepInOrder(capacity, actions[..k]);
    }
  }

  /**
   Exactly when first in, first out can be relied on: from every point of a run, every calm way of going on delivers
   the k-th message to the k-th receive, if and only if no coroutine of that run registers too late.
   */
  lemma FifoObservable<T(!new)>(capacity: nat, actions: seq<Action<T>>)
    ensures (forall k | 0 <= k <= |actions| :: StaysFaithful(Run(capacity, actions[..k])))
       <==> (forall k | 0 <= k < |actions| :: !Stale(Run(capacity, actions[..k]), actions[k]))
  {
    if forall k | 0 <= k <= |actions| :: StaysFaithful(Run(capacity, actions[..k])) {
      FaithfulIsInOrder(capacity, actions, |actions|);
    }
    if forall k | 0 <= k < |actions| :: !Stale(Run(capacity, actions[..k]), actions[k]) {
      FifoExactly(capacity, actions);
      forall k | 0 <= k <= |actions| ensures StaysFaithful(Run(capacity, actions[..k])) {
        InOrderStaysFaithful(capacity, actions[..k]);
      }
    }
  }
}
