/**
 What a receive that returns false tells about the end of the stream, when the scheduler may resume it before the
 channel does.
 */
module ChannelFinal {
  import opened ChannelSpec
  import opened ChannelRun
  import opened ChannelSafety
  import opened ChannelAwait
  import opened ChannelPutBack

  lemma RegisteredReceiver<T>(w: World<T>, x: nat)
    requires !w.ch.closed && w.ch.recvWaiters == [] && !TryRecv(w.ch).ok && x !in w.begun
    ensures var u := Next(Next(w, RecvReady(x)), RecvSuspend(x));
            u.got == w.got && !u.ch.closed && u.ch.recvWaiters == [x] && u.begun == w.begun + {x}
  {
    var v := w.(begun := w.begun + {x}, tried := w.tried[x := ToRecv]);
    assert Next(w, RecvReady(x)) == v;
    assert Next(v, RecvSuspend(x)) == DoRecvSuspend(v, x);
  }

  lemma SendDelivers<T>(w: World<T>, x: nat, body: T)
    requires !w.ch.closed && w.ch.recvWaiters != [] && x !in w.begun
    ensures Next(w, SendReady(x, body)).got == w.got + [Delivery(w.ch.recvWaiters[0], Msg(x, body))]
  {
  }

  /** On an open channel something can always come. */
  lemma OpenDelivers<T(00)>(w: World<T>) returns (more: seq<Action<T>>)
    requires !w.ch.closed
    ensures Continue(w, more).got != w.got
  {
    var body: T :| true;
    var x := FreshNumber(w.begun);
    if w.ch.recvWaiters != [] {
      more := [SendReady(x, body)];
      TwoSteps(w, SendReady(x, body), SendReady(x, body));
      SendDelivers(w, x, body);
    } else if TryRecv(w.ch).ok {
      more := [RecvReady(x)];
      TwoSteps(w, RecvReady(x), RecvReady(x));
      assert |DoRecvReady(w, x).got| > |w.got|;
    } else {
      var u := Next(Next(w, RecvReady(x)), RecvSuspend(x));
      RegisteredReceiver(w, x);
      more := [RecvReady(x), RecvSuspend(x)] + [SendReady(x + 1, body)];
      TwoSteps(w, RecvReady(x), RecvSuspend(x));
      ContinueConcat(w, [RecvReady(x), RecvSuspend(x)], [SendReady(x + 1, body)]);
      TwoSteps(u, SendReady(x + 1, body), SendReady(x + 1, body));
      SendDelivers(u, x + 1, body);
    }
  }

  lemma OverIsDry<T(00, !new)>(w: World<T>)
    ensures Over(w) <==> w.ch.closed && w.ch.buffer == []
  {
    if w.ch.closed {
      OverExactly(w);
    } else {
      var more := OpenDelivers(w);
    }
  }

  /** A receive has been told false: by the channel, or by being resumed without an answer. */
  ghost predicate ToldSo<T>(s: Session<T>) {
    s.w.failed != [] || exists op :: op in s.returned && !s.returned[op]
  }

  /** False means that the stream has ended. */
  ghost predicate FalseIsFinal<T(!new)>(s: Session<T>) {
    ToldSo(s) ==> Over(s.w)
  }

  /** A receive is told false, by the channel or by the put-back, although something may still come. */
  ghost predicate Hasty<T>(s: Session<T>, m: Move<T>) {
    match m
    case Act(a) => Premature(s.w, a)
    case Return(op) => InRecv(s, op) && op in s.w.ch.recvWaiters && (!s.w.ch.closed || s.w.ch.buffer != [])
  }

  ghost predicate FalseIsDry<T>(s: Session<T>) {
    ToldSo(s) ==> s.w.ch.closed && s.w.ch.buffer == []
  }

  lemma ActFinal<T>(s: Session<T>, a: Action<T>)
    requires Shape(s.w) && FalseIsDry(s)
    ensures FalseIsDry(Go(s, Act(a))) <==> !Premature(s.w, a)
  {
    ShapeStep(s.w, a);
    StepEndsClean(s.w, a);
    if ToldSo(s) { DryStep(s.w, a); }
  }

  lemma MoveFinal<T(00)>(capacity: nat, moves: seq<Move<T>>, m: Move<T>)
    requires FalseIsDry(Play(capacity, moves))
    ensures FalseIsDry(Go(Play(capacity, moves), m)) <==> !Hasty(Play(capacity, moves), m)
  {
    var s := Play(capacity, moves);
    PlayRuns(capacity, moves);
    ShapeAlways(Start<T>(capacity), Acts(moves));
    match m
    case Act(a) => ActFinal(s, a);
    case Return(op) =>
      if InRecv(s, op) {
        var v := Go(s, m);
        FalseExactly(capacity, moves, op);
        assert forall x :: x in s.returned ==> x in v.returned && v.returned[x] == s.returned[x];
      }
  }

  lemma DryIsFinal<T(00, !new)>(s: Session<T>)
    ensures FalseIsFinal(s) <==> FalseIsDry(s)
  {
    OverIsDry(s.w);
  }

  lemma {:induction false} FinalUntil<T(00, !new)>(capacity: nat, moves: seq<Move<T>>, k: nat)
    requires k <= |moves| && forall i | 0 <= i < k :: !Hasty(Play(capacity, moves[..i]), moves[i])
    ensures FalseIsFinal(Play(capacity, moves[..k]))
  {
    if k > 0 {
      FinalUntil(capacity, moves, k - 1);
      LastMove(capacity, moves, k - 1);
      DryIsFinal(Play(capacity, moves[..k - 1]));
      MoveFinal(capacity, moves[..k - 1], moves[k - 1]);
    }
    DryIsFinal(Play(capacity, moves[..k]));
  }

  /**
   When false means the end of the stream: at every point of a run, once some receive has been told false nothing is
   ever received again, if and only if no receive of the run is told so while the channel is open or holds values.
   */
  lemma FalseIsFinalExactly<T(00, !new)>(capacity: nat, moves: seq<Move<T>>)
    ensures (forall k | 0 <= k <= |moves| :: FalseIsFinal(Play(capacity, moves[..k])))
       <==> (forall k | 0 <= k < |moves| :: !Hasty(Play(capacity, moves[..k]), moves[k]))
  {
    if forall k | 0 <= k <= |moves| :: FalseIsFinal(Play(capacity, moves[..k])) {
      forall k | 0 <= k < |moves| ensures !Hasty(Play(capacity, moves[..k]), moves[k]) {
        LastMove(capacity, moves, k);
        assert FalseIsFinal(Play(capacity, moves[..k])) && FalseIsFinal(Play(capacity, moves[..k + 1]));
        DryIsFinal(Play(capacity, moves[..k]));
        DryIsFinal(Play(capacity, moves[..k + 1]));
        MoveFinal(capacity, moves[..k], moves[k]);
      }
    }
    if forall k | 0 <= k < |moves| :: !Hasty(Play(capacity, moves[..k]), moves[k]) {
      forall k | 0 <= k <= |moves| ensures FalseIsFinal(Play(capacity, moves[..k])) {
        FinalUntil(capacity, moves, k);
      }
    }
  }

  /** Message 2 has gone to receiver 1, who had been told false. */
  ghost function AfterLoss<T>(capacity: nat, m: Msg<T>): World<T> {
    Alone<T>(capacity).(ch := Chan(capacity, false, [], [], []), begun := {1, 2}, got := [Delivery(1, m)],
                        committed := [m], sent := [m], freed := [2], scheduled := [1])
  }

  lemma AfterLossReachable<T>(capacity: nat, lost: T)
    ensures Next(Alone<T>(capacity), SendReady(2, lost)) == AfterLoss(capacity, Msg(2, lost))
  {
  }

  lemma SendThenReceive<T>(w: World<T>, x: nat, y: nat, body: T)
    requires !w.ch.closed && w.ch.buffer == [] && w.ch.recvWaiters == [] && w.ch.sendWaiters == []
    requires w.ch.capacity >= 1 && x !in w.begun && y !in w.begun && x != y
    ensures var v := Next(Next(w, SendReady(x, body)), RecvReady(y));
            v.got == w.got + [Delivery(y, Msg(x, body))] && !v.ch.closed && v.failed == w.failed
  {
    var u := Next(w, SendReady(x, body));
    assert u.ch == w.ch.(buffer := [Msg(x, body)]) && u.got == w.got && u.begun == w.begun + {x};
  }

  /** No await is interrupted, nobody closes, one receive is told false, and a later one gets a value. */
  lemma FalseNotFinalExample<T>(capacity: nat, lost: T, body: T)
    requires capacity >= 1
    ensures var s := Play(capacity, [Act(RecvReady(1)), Act(RecvSuspend(1)), Return(1)]
                                    + [Act(SendReady(2, lost)), Act(SendReady(3, body)), Act(RecvReady(4))]);
            && !s.w.ch.closed && s.w.failed == [] && s.returned == map[1 := false]
            && s.w.got == [Delivery(1, Msg(2, lost)), Delivery(4, Msg(3, body))]
  {
    var before: seq<Move<T>> := [Act(RecvReady(1)), Act(RecvSuspend(1)), Return(1)];
    var a: Move<T>, b: Move<T>, c: Move<T> := Act(SendReady(2, lost)), Act(SendReady(3, body)), Act(RecvReady(4));
    var s := ToldFalse<T>(capacity);
    ToldFalseReachable<T>(capacity);
    PlayConcat(Fresh<T>(capacity), before, [a, b, c]);
    ThreeMoves(s, a, b, c);
    AfterLossReachable(capacity, lost);
    SendThenReceive(AfterLoss(capacity, Msg(2, lost)), 3, 4, body);
  }
}
