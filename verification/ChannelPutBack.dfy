/**
 Awaits that the scheduler ends before the channel does. Whatever is not done when resume returns, the loop puts back
 into its queue, and so also a coroutine that has just suspended in a channel. When it is resumed for that reason, its
 await ends: a receive with the result that its awaiter happens to hold, a send with nothing to tell. Its waiter stays
 in the channel's list.

 To the steps of ChannelRun this module adds that end of an await, which may come at any time after the suspension.
 A coroutine that goes on may await again; that is an operation with a number of its own. What receives return and
 which messages are lost is here; ChannelFinal has the end of the stream, and ChannelWindow has the sends.
 */
module ChannelPutBack {
  import opened ChannelSpec
  import opened ChannelRun
  import opened ChannelSafety

  datatype Move<+T> =
    | Act(action: Action<T>)
    | Return(op: nat)          // the coroutine is resumed after its suspension, and its await ends

  datatype Session<+T> = Session(
    w: World<T>,
    returned: map<nat, bool>,  // the results of the receives that have come to an end after suspending
    gone: seq<nat>)            // the sends that have come to an end, at once or after suspending

  /** The coroutine of receive op is suspended in its await. */
  ghost predicate InRecv<T>(s: Session<T>, op: nat) {
    op in s.w.suspended && op in s.w.requests && op !in s.returned
  }

  /** The coroutine of send op is suspended in its await. */
  ghost predicate InSend<T>(s: Session<T>, op: nat) {
    op in s.w.suspended && op in Froms(s.w.committed) && op !in s.gone
  }

  /** The send that an action ends at once. */
  ghost function EndsAtOnce<T>(w: World<T>, a: Action<T>): seq<nat> {
    if a.SendReady? && a.op !in w.begun && TrySend(w.ch, Msg(a.op, a.body)).ok then [a.op] else []
  }

  ghost function Go<T>(s: Session<T>, m: Move<T>): Session<T> {
    match m
    case Act(a) => s.(w := Next(s.w, a), gone := s.gone + EndsAtOnce(s.w, a))
    case Return(op) =>
      if InRecv(s, op) then s.(returned := s.returned[op := op in Receivers(s.w.got)])
      else if InSend(s, op) then s.(gone := s.gone + [op])
      else s
  }

  ghost function PlayFrom<T>(s: Session<T>, moves: seq<Move<T>>): Session<T> {
    if |moves| == 0 then s
    else Go(PlayFrom(s, moves[..|moves| - 1]), moves[|moves| - 1])
  }

  ghost function Fresh<T>(capacity: nat): Session<T> {
    Session(Start(capacity), map[], [])
  }

  ghost function Play<T>(capacity: nat, moves: seq<Move<T>>): Session<T> {
    PlayFrom(Fresh(capacity), moves)
  }

  lemma {:induction false} PlayConcat<T>(s: Session<T>, a: seq<Move<T>>, b: seq<Move<T>>)
    ensures PlayFrom(s, a + b) == PlayFrom(PlayFrom(s, a), b)
  {
    if |b| == 0 {
      assert a + b == a;
    } else {
      var n := |b| - 1;
      assert (a + b)[..|a + b| - 1] == a + b[..n];
      PlayConcat(s, a, b[..n]);
    }
  }

  lemma OneMove<T>(s: Session<T>, m: Move<T>)
    ensures PlayFrom(s, [m]) == Go(s, m)
  {
    assert PlayFrom(s, []) == s;
  }

  lemma ThreeMoves<T>(s: Session<T>, a: Move<T>, b: Move<T>, c: Move<T>)
    ensures PlayFrom(s, [a, b, c]) == Go(Go(Go(s, a), b), c)
  {
    assert [a, b, c][..2] == [a, b] && [a, b][..1] == [a];
    assert PlayFrom(s, [a]) == Go(s, a);
    assert PlayFrom(s, [a, b]) == Go(Go(s, a), b);
  }

  lemma LastMove<T>(capacity: nat, moves: seq<Move<T>>, k: nat)
    requires k < |moves|
    ensures Play(capacity, moves[..k + 1]) == Go(Play(capacity, moves[..k]), moves[k])
  {
    assert moves[..k + 1][..k] == moves[..k];
  }

  ghost function Acts<T>(moves: seq<Move<T>>): seq<Action<T>> {
    if |moves| == 0 then []
    else
      var m := moves[|moves| - 1];
      Acts(moves[..|moves| - 1]) + if m.Act? then [m.action] else []
  }

  /** The channel does not notice, so that all that holds of its runs holds here. */
  lemma {:induction false} PlayRuns<T>(capacity: nat, moves: seq<Move<T>>)
    ensures Play(capacity, moves).w == Run(capacity, Acts(moves))
  {
    if |moves| > 0 {
      var n := |moves| - 1;
      PlayRuns(capacity, moves[..n]);
      if moves[n].Act? {
        assert Acts(moves)[..|Acts(moves)| - 1] == Acts(moves[..n]);
      } else {
        assert Acts(moves) == Acts(moves[..n]);
      }
    }
  }

  // ---------------------------------------------------------------------------------------------
  // An operation sends or receives, not both
  // ---------------------------------------------------------------------------------------------

  ghost predicate OneRole<T>(w: World<T>, h: nat) {
    Count(w.requests, h) + Count(Froms(w.committed), h) <= 1
  }

  lemma OneRoleSend<T>(w: World<T>, op: nat, body: T, h: nat)
    requires Numbered(w, h) && OneRole(w, h)
    ensures op !in w.begun ==> OneRole(DoSendReady(w, op, body), h)
    ensures Sending(w, op) && w.tried[op].msg.from == op ==> OneRole(DoSendSuspend(w, op), h)
  {
    FromsGrow(w.committed, Msg(op, body), h);
    if Sending(w, op) { FromsGrow(w.committed, w.tried[op].msg, h); }
  }

  lemma OneRoleRecv<T>(w: World<T>, op: nat, h: nat)
    requires Numbered(w, h) && OneRole(w, h)
    ensures op !in w.begun ==> OneRole(DoRecvReady(w, op), h)
    ensures Receiving(w, op) ==> OneRole(DoRecvSuspend(w, op), h)
  {
    CountConcat(w.requests, [op], h);
  }

  lemma OneRoleStep<T>(w: World<T>, a: Action<T>, h: nat)
    requires Numbered(w, h) && OneRole(w, h)
    requires a.SendSuspend? && Sending(w, a.op) ==> w.tried[a.op].msg.from == a.op
    ensures OneRole(Next(w, a), h)
  {
    if Enabled(w, a) {
      match a
      case SendReady(op, body) => OneRoleSend(w, op, body, h);
      case SendSuspend(op) => OneRoleSend(w, op, w.tried[op].msg.body, h);
      case RecvReady(op) => OneRoleRecv(w, op, h);
      case RecvSuspend(op) => OneRoleRecv(w, op, h);
      case _ =>
    }
  }

  lemma {:induction false} OneRoleAlways<T>(capacity: nat, actions: seq<Action<T>>, h: nat)
    ensures OneRole(Run(capacity, actions), h)
  {
    if |actions| > 0 {
      var before, a := actions[..|actions| - 1], actions[|actions| - 1];
      OneRoleAlways(capacity, before, h);
      NumbersAlways(capacity, before, h);
      if a.SendSuspend? { NumbersAlways(capacity, before, a.op); }
      OneRoleStep(Run(capacity, before), a, h);
    }
  }

  // ---------------------------------------------------------------------------------------------
  // What a receive returns
  // ---------------------------------------------------------------------------------------------

  /** A coroutine that has suspended depends on the put-back if it waits in a list or has been forgotten. */
  lemma OnlyPutBackExactly<T(00)>(capacity: nat, actions: seq<Action<T>>, op: nat)
    requires op in Run(capacity, actions).suspended
    ensures var w := Run(capacity, actions);
            op !in w.scheduled <==>
              op in Handles(w.ch.sendWaiters) || op in w.ch.recvWaiters || HandedOver(capacity, actions, op)
  {
    StrandedExactly(capacity, actions, op);
    StrandedLogged(capacity, actions, op);
    ScheduledOnce(capacity, actions, op);
  }

  lemma WaitingNotScheduled<T(00)>(capacity: nat, actions: seq<Action<T>>, op: nat)
    requires op in Run(capacity, actions).suspended && op in Run(capacity, actions).requests
    ensures var w := Run(capacity, actions); op in w.ch.recvWaiters <==> op !in w.scheduled
  {
    var w := Run(capacity, actions);
    var body: T :| true;
    ScheduledOnce(capacity, actions, op);
    OneRoleAlways(capacity, actions, op);
    BalancedAlways(capacity, actions, Msg(op, body), op);
    assert Count(w.requests, op) >= 1;
  }

  /**
   Exactly when a receive that suspended ends with false: when it failed, which only a closed channel does, or when it
   was resumed while it still waits. On an open channel that means that the channel had not scheduled it: false there
   is the doing of the put-back alone.
   */
  lemma FalseExactly<T(00)>(capacity: nat, moves: seq<Move<T>>, op: nat)
    requires InRecv(Play(capacity, moves), op)
    ensures var s := Play(capacity, moves);
            var v := Go(s, Return(op));
            && op in v.returned
            && (!v.returned[op] <==> op in s.w.failed || op in s.w.ch.recvWaiters)
            && (!s.w.ch.closed ==> (!v.returned[op] <==> op !in s.w.scheduled))
  {
    PlayRuns(capacity, moves);
    ReceiversFate(capacity, Acts(moves), op);
    WaitingNotScheduled(capacity, Acts(moves), op);
  }

  /** The point at which receive op came to its end. */
  ghost predicate ReturnsAt<T>(capacity: nat, moves: seq<Move<T>>, op: nat, k: nat)
    requires k < |moves|
  {
    moves[k] == Return(op) && InRecv(Play(capacity, moves[..k]), op)
  }

  lemma {:induction false} ReturnedOnce<T>(capacity: nat, moves: seq<Move<T>>, op: nat) returns (k: nat)
    requires op in Play(capacity, moves).returned
    ensures k < |moves| && ReturnsAt(capacity, moves, op, k)
    ensures Play(capacity, moves).returned[op] <==> op in Receivers(Play(capacity, moves[..k]).w.got)
  {
    var n := |moves| - 1;
    var s := Play(capacity, moves[..n]);
    if op in s.returned {
      k := ReturnedOnce(capacity, moves[..n], op);
      assert moves[..n][..k] == moves[..k];
    } else {
      k := n;
    }
  }

  lemma {:induction false} ReturnedStays<T>(capacity: nat, moves: seq<Move<T>>, op: nat, k: nat)
    requires k < |moves| && ReturnsAt(capacity, moves, op, k)
    ensures op in Play(capacity, moves).returned
    ensures Play(capacity, moves).returned[op] <==> op in Receivers(Play(capacity, moves[..k]).w.got)
  {
    var n := |moves| - 1;
    if k < n {
      assert moves[..n][..k] == moves[..k];
      ReturnedStays(capacity, moves[..n], op, k);
    }
  }

  lemma FailedGrows<T>(w: World<T>, a: Action<T>)
    ensures w.failed <= Next(w, a).failed
  {
  }

  lemma {:induction false} FailedStays<T>(w: World<T>, more: seq<Action<T>>, op: nat)
    requires op in w.failed
    ensures op in Continue(w, more).failed
  {
    if |more| > 0 {
      FailedStays(w, more[..|more| - 1], op);
      FailedGrows(Continue(w, more[..|more| - 1]), more[|more| - 1]);
    }
  }

  lemma {:induction false} ActsOfPrefix<T>(moves: seq<Move<T>>, k: nat) returns (rest: seq<Action<T>>)
    requires k <= |moves|
    ensures Acts(moves) == Acts(moves[..k]) + rest
  {
    if k == |moves| {
      rest := [];
      assert moves[..k] == moves;
    } else {
      var n := |moves| - 1;
      rest := ActsOfPrefix(moves[..n], k);
      assert moves[..n][..k] == moves[..k];
      rest := rest + if moves[n].Act? then [moves[n].action] else [];
    }
  }

  /** The message of reception i was written for a receive that had already come to its end with false. */
  ghost predicate Lost<T>(s: Session<T>, i: nat)
    requires i < |s.w.got|
  {
    s.w.got[i].to in s.returned && !s.returned[s.w.got[i].to]
  }

  /** Receive op came to its end at k, while it still waited. */
  ghost predicate LeftWaiting<T>(capacity: nat, moves: seq<Move<T>>, op: nat, k: nat)
    requires k < |moves|
  {
    ReturnsAt(capacity, moves, op, k) && op in Play(capacity, moves[..k]).w.ch.recvWaiters
  }

  /** A receive that got a value in the end had not failed before. */
  lemma NotFailedBefore<T(00)>(capacity: nat, moves: seq<Move<T>>, i: nat, k: nat)
    requires k < |moves| && i < |Play(capacity, moves).w.got|
    ensures Play(capacity, moves).w.got[i].to !in Play(capacity, moves[..k]).w.failed
  {
    var w := Play(capacity, moves).w;
    var op := w.got[i].to;
    var rest := ActsOfPrefix(moves, k);
    PlayRuns(capacity, moves);
    PlayRuns(capacity, moves[..k]);
    ContinueConcat(Start<T>(capacity), Acts(moves[..k]), rest);
    ReceiversFate(capacity, Acts(moves), op);
    assert Receivers(w.got)[i] == op;
    assert Count(Receivers(w.got), op) >= 1;
    if op in Play(capacity, moves[..k]).w.failed { FailedStays(Play(capacity, moves[..k]).w, rest, op); }
  }

  /**
   Which messages are lost: one that the channel has handed over is lost if and only if its receiver had been resumed
   while it still waited.
   */
  lemma LostExactly<T(00)>(capacity: nat, moves: seq<Move<T>>, i: nat)
    requires i < |Play(capacity, moves).w.got|
    ensures Lost(Play(capacity, moves), i)
       <==> exists k | 0 <= k < |moves| :: LeftWaiting(capacity, moves, Play(capacity, moves).w.got[i].to, k)
  {
    var s := Play(capacity, moves);
    var op := s.w.got[i].to;
    if Lost(s, i) {
      var k := ReturnedOnce(capacity, moves, op);
      NotFailedBefore(capacity, moves, i, k);
      FalseExactly(capacity, moves[..k], op);
      assert LeftWaiting(capacity, moves, op, k);
    }
    if k :| 0 <= k < |moves| && LeftWaiting(capacity, moves, op, k) {
      ReturnedStays(capacity, moves, op, k);
      FalseExactly(capacity, moves[..k], op);
    }
  }

  /** Receiver 1 waits, alone, in an open channel. */
  ghost function Alone<T>(capacity: nat): World<T> {
    Start<T>(capacity).(ch := Chan(capacity, false, [], [], [1]), begun := {1}, suspended := [1], requests := [1],
                        parkedReceivers := [1], asked := [1])
  }

  lemma AloneReachable<T>(capacity: nat)
    ensures Play<T>(capacity, [Act(RecvReady(1)), Act(RecvSuspend(1))]) == Session(Alone(capacity), map[], [])
  {
    var a: Move<T>, b: Move<T> := Act(RecvReady(1)), Act(RecvSuspend(1));
    LastMove(capacity, [a, b], 0);
    LastMove(capacity, [a, b], 1);
    assert [a, b][..2] == [a, b] && [a, b][..0] == [];
    var w1 := Start<T>(capacity).(begun := {1}, tried := map[1 := ToRecv]);
    assert Next(Start<T>(capacity), RecvReady(1)) == w1;
    assert w1.tried - {1} == map[];
    assert Next(w1, RecvSuspend(1)) == Alone(capacity);
  }

  /** Receiver 1 has been resumed and told false. */
  ghost function ToldFalse<T>(capacity: nat): Session<T> {
    Session(Alone(capacity), map[1 := false], [])
  }

  lemma ToldFalseReachable<T>(capacity: nat)
    ensures Play<T>(capacity, [Act(RecvReady(1)), Act(RecvSuspend(1)), Return(1)]) == ToldFalse(capacity)
  {
    var moves: seq<Move<T>> := [Act(RecvReady(1)), Act(RecvSuspend(1)), Return(1)];
    assert moves[..2] == [Act(RecvReady(1)), Act(RecvSuspend(1))] && moves[..3] == moves;
    AloneReachable<T>(capacity);
    LastMove(capacity, moves, 2);
  }

  /**
   One receiver on an open channel is resumed by the put-back and told false; then a message is sent to it, the sender
   is let go at once, and the message is lost.
   */
  lemma LostExample<T>(capacity: nat, body: T)
    ensures var s := Play(capacity, [Act(RecvReady(1)), Act(RecvSuspend(1)), Return(1), Act(SendReady(2, body))]);
            && !s.w.ch.closed && s.returned == map[1 := false]
            && s.w.got == [Delivery(1, Msg(2, body))] && s.gone == [2] && Lost(s, 0)
  {
    var moves := [Act(RecvReady(1)), Act(RecvSuspend(1)), Return(1), Act(SendReady(2, body))];
    assert moves[..3] == [Act(RecvReady(1)), Act(RecvSuspend(1)), Return(1)] && moves[..4] == moves;
    ToldFalseReachable<T>(capacity);
    LastMove(capacity, moves, 3);
  }
}
