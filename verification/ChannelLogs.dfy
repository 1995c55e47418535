/**
 The records that the laws of the channel speak of are what they say: each is read off the list of steps alone, in the
 order of the steps.
 */
module ChannelLogs {
  import opened ChannelSpec
  import opened ChannelRun
  import opened ChannelSafety

  /** What the steps of a run give, one after the other. */
  ghost function LogOf<T>(capacity: nat, actions: seq<Action<T>>, what: (World<T>, Action<T>) -> seq<nat>): seq<nat> {
    if |actions| == 0 then []
    else
      var n := |actions| - 1;
      LogOf(capacity, actions[..n], what) + what(Run(capacity, actions[..n]), actions[n])
  }

  /** The send that a step gives to the channel: it is done with await_ready and need not suspend, or it suspends. */
  ghost function Gives<T>(w: World<T>, a: Action<T>): seq<nat> {
    if Enabled(w, a) && ((a.SendReady? && a.op !in Next(w, a).tried) || a.SendSuspend?) then [a.op] else []
  }

  /** The receive that a step puts to the channel: it is answered at once, or it suspends. */
  ghost function Takes<T>(w: World<T>, a: Action<T>): seq<nat> {
    if Enabled(w, a) && ((a.RecvReady? && a.op !in Next(w, a).tried) || a.RecvSuspend?) then [a.op] else []
  }

  ghost function Suspends<T>(w: World<T>, a: Action<T>): seq<nat> {
    if Enabled(w, a) && (a.SendSuspend? || a.RecvSuspend?) then [a.op] else []
  }

  /** The sender that comes to wait: nobody waits to receive, and the channel is open. */
  ghost function WaitsToSend<T>(w: World<T>, a: Action<T>): seq<nat> {
    if Enabled(w, a) && a.SendSuspend? && !w.ch.closed && w.ch.recvWaiters == [] then [a.op] else []
  }

  ghost function WaitsToReceive<T>(w: World<T>, a: Action<T>): seq<nat> {
    if Enabled(w, a) && a.RecvSuspend? && !w.ch.closed && w.ch.sendWaiters == [] then [a.op] else []
  }

  lemma GivesStep<T>(w: World<T>, a: Action<T>)
    requires a.SendReady? && a.op !in w.begun ==> a.op !in w.tried
    requires a.SendSuspend? && Sending(w, a.op) ==> w.tried[a.op].msg.from == a.op
    ensures Froms(Next(w, a).committed) == Froms(w.committed) + Gives(w, a)
  {
    if Enabled(w, a) && a.SendReady? {
      assert Froms(w.committed + [Msg(a.op, a.body)]) == Froms(w.committed) + [a.op];
    }
    if Enabled(w, a) && a.SendSuspend? {
      assert Froms(w.committed + [w.tried[a.op].msg]) == Froms(w.committed) + [a.op];
    }
  }

  lemma TakesStep<T>(w: World<T>, a: Action<T>)
    requires a.RecvReady? && a.op !in w.begun ==> a.op !in w.tried
    ensures Next(w, a).requests == w.requests + Takes(w, a)
  {
  }

  lemma SuspendsStep<T>(w: World<T>, a: Action<T>)
    ensures Next(w, a).suspended == w.suspended + Suspends(w, a)
  {
  }

  lemma WaitsStep<T>(w: World<T>, a: Action<T>)
    ensures Next(w, a).parkedSenders == w.parkedSenders + WaitsToSend(w, a)
    ensures Next(w, a).parkedReceivers == w.parkedReceivers + WaitsToReceive(w, a)
  {
  }

  /** As long as the channel is open, nothing given to it and nothing put to it has been withdrawn. */
  lemma OpenStep<T>(w: World<T>, a: Action<T>)
    requires Shape(w) && (!w.ch.closed ==> w.sent == w.committed && w.asked == w.requests)
    ensures var v := Next(w, a); !v.ch.closed ==> v.sent == v.committed && v.asked == v.requests
  {
    if w.ch.closed { ClosedStays(w, a); }
  }

  /**
   In every interleaving, the messages committed, the receives asked for, the coroutines suspended and those that ever
   came to wait are those that the steps say, in the order of the steps; and while the channel is open, the sends and
   receives that the reference channel is made of are just these.
   */
  lemma {:induction false} LogsAreSteps<T>(capacity: nat, actions: seq<Action<T>>)
    ensures var w := Run(capacity, actions);
            && Froms(w.committed) == LogOf(capacity, actions, Gives)
            && w.requests == LogOf(capacity, actions, Takes)
            && w.suspended == LogOf(capacity, actions, Suspends)
            && w.parkedSenders == LogOf(capacity, actions, WaitsToSend)
            && w.parkedReceivers == LogOf(capacity, actions, WaitsToReceive)
            && (!w.ch.closed ==> w.sent == w.committed && w.asked == w.requests)
  {
    if |actions| > 0 {
      var before, a := actions[..|actions| - 1], actions[|actions| - 1];
      var w := Run(capacity, before);
      LogsAreSteps(capacity, before);
      ShapeAlways(Start<T>(capacity), before);
      if !a.CloseExchange? && !a.CloseWakeAll? { NumbersAlways(capacity, before, a.op); }
      GivesStep(w, a);
      TakesStep(w, a);
      SuspendsStep(w, a);
      WaitsStep(w, a);
      OpenStep(w, a);
    }
  }

  /** Somebody began to send message m in this run. */
  ghost predicate Began<T>(actions: seq<Action<T>>, m: Msg<T>) {
    SendReady(m.from, m.body) in actions
  }

  /** What is committed, and what is still to be, is what was sent. */
  ghost predicate Sincere<T>(w: World<T>, actions: seq<Action<T>>) {
    && (forall m | m in w.committed :: Began(actions, m))
    && (forall op | Sending(w, op) :: Began(actions, w.tried[op].msg))
  }

  /** The message that a step gives to the channel or sets aside for its second half. */
  lemma WhereMessagesComeFrom<T>(w: World<T>, a: Action<T>)
    ensures forall m | m in Next(w, a).committed && m !in w.committed ::
              (a.SendReady? && m == Msg(a.op, a.body)) || (a.SendSuspend? && Sending(w, a.op) && m == w.tried[a.op].msg)
    ensures forall op | Sending(Next(w, a), op) ::
              (a.SendReady? && op == a.op && Next(w, a).tried[op].msg == Msg(a.op, a.body))
              || (Sending(w, op) && Next(w, a).tried[op] == w.tried[op])
  {
  }

  lemma SincereStep<T>(w: World<T>, actions: seq<Action<T>>, a: Action<T>)
    requires Sincere(w, actions)
    ensures Sincere(Next(w, a), actions + [a])
  {
    var v := Next(w, a);
    WhereMessagesComeFrom(w, a);
    forall m | Began(actions, m) ensures Began(actions + [a], m) {}
    assert a in actions + [a];
  }

  /** In every interleaving, every message committed, and so every one received, has the body it was sent with. */
  lemma {:induction false} MessagesKept<T>(capacity: nat, actions: seq<Action<T>>)
    ensures Sincere(Run(capacity, actions), actions)
  {
    if |actions| > 0 {
      var n := |actions| - 1;
      MessagesKept(capacity, actions[..n]);
      SincereStep(Run(capacity, actions[..n]), actions[..n], actions[n]);
      assert actions == actions[..n] + [actions[n]];
    }
  }
}
