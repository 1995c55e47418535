/**
 How far senders can be ahead of the receivers. The channel lets no more senders go than it has room for; but the
 scheduler may resume one that still waits, whose send then ends with its value neither received nor buffered.
 */
module ChannelWindow {
  import opened ChannelSpec
  import opened ChannelRun
  import opened ChannelSafety
  import opened ChannelAwait
  import opened ChannelPutBack

  lemma {:induction false} AmongSplits(hs: seq<nat>, gone: seq<nat>)
    ensures |Among(hs, gone, true)| + |Among(hs, gone, false)| == |hs|
  {
    if |hs| > 0 { AmongSplits(hs[..|hs| - 1], gone); }
  }

  /** The sends that have come to an end although the channel still holds their senders in its list. */
  ghost function Early<T>(s: Session<T>): seq<nat> {
    Among(Handles(s.w.ch.sendWaiters), s.gone, true)
  }

  /** The sends whose value the channel has taken, but which have not come to an end yet. */
  ghost function Owed<T>(s: Session<T>): seq<nat> {
    Among(s.w.freed + s.w.stranded, s.gone, false)
  }

  // ---------------------------------------------------------------------------------------------
  // Every send ends once
  // ---------------------------------------------------------------------------------------------

  /** A send ends at most once, and one that the channel has accepted has ended or is suspended. */
  ghost predicate GoneOnce<T>(s: Session<T>, h: nat) {
    && Count(s.gone, h) <= (if h in Froms(s.w.committed) then 1 else 0)
    && (h in Froms(s.w.committed) ==> h in s.gone || h in s.w.suspended)
  }

  lemma GoneOnceSend<T>(s: Session<T>, op: nat, body: T, h: nat)
    requires GoneOnce(s, h) && Numbered(s.w, h) && op !in s.w.begun
    ensures GoneOnce(Go(s, Act(SendReady(op, body))), h)
  {
    FromsGrow(s.w.committed, Msg(op, body), h);
    CountConcat(s.gone, [op], h);
  }

  lemma GoneOnceSuspend<T>(s: Session<T>, op: nat, h: nat)
    requires GoneOnce(s, h) && Sending(s.w, op) && s.w.tried[op].msg.from == op
    ensures GoneOnce(Go(s, Act(SendSuspend(op))), h)
  {
    FromsGrow(s.w.committed, s.w.tried[op].msg, h);
    CountConcat(s.w.suspended, [op], h);
    assert Next(s.w, SendSuspend(op)) == DoSendSuspend(s.w, op);
  }

  lemma CommitsOnlySends<T>(w: World<T>, a: Action<T>)
    requires a.RecvReady? || a.RecvSuspend? || a.CloseExchange? || a.CloseWakeAll? || !Enabled(w, a)
    ensures Next(w, a).committed == w.committed && w.suspended <= Next(w, a).suspended
  {
  }

  lemma GoneOnceStep<T>(s: Session<T>, m: Move<T>, h: nat)
    requires GoneOnce(s, h) && Numbered(s.w, h)
    requires m.Act? && m.action.SendSuspend? && Sending(s.w, m.action.op) ==>
               s.w.tried[m.action.op].msg.from == m.action.op
    ensures GoneOnce(Go(s, m), h)
  {
    match m
    case Return(op) => CountConcat(s.gone, [op], h);
    case Act(a) =>
      if Enabled(s.w, a) && a.SendReady? {
        GoneOnceSend(s, a.op, a.body, h);
      } else if Enabled(s.w, a) && a.SendSuspend? {
        GoneOnceSuspend(s, a.op, h);
      } else {
        CommitsOnlySends(s.w, a);
        assert s.gone + [] == s.gone;
      }
  }

  lemma {:induction false} GoneOnceAlways<T>(capacity: nat, moves: seq<Move<T>>, h: nat)
    ensures GoneOnce(Play(capacity, moves), h)
  {
    if |moves| > 0 {
      var before, m := moves[..|moves| - 1], moves[|moves| - 1];
      GoneOnceAlways(capacity, before, h);
      PlayRuns(capacity, before);
      NumbersAlways(capacity, Acts(before), h);
      if m.Act? && m.action.SendSuspend? { NumbersAlways(capacity, Acts(before), m.action.op); }
      GoneOnceStep(Play(capacity, before), m, h);
    }
  }

  // ---------------------------------------------------------------------------------------------
  // The window, exactly
  // ---------------------------------------------------------------------------------------------

  lemma GonePlaces<T(00)>(capacity: nat, moves: seq<Move<T>>, h: nat)
    ensures var s := Play(capacity, moves);
            Count(s.gone, h) == Count(Among(s.w.freed + s.w.stranded, s.gone, true), h) + Count(Early(s), h)
  {
    var s := Play(capacity, moves);
    var body: T :| true;
    PlayRuns(capacity, moves);
    GoneOnceAlways(capacity, moves, h);
    BalancedAlways(capacity, Acts(moves), Msg(h, body), h);
    NumbersAlways(capacity, Acts(moves), h);
    CountConcat(s.w.freed, s.w.stranded, h);
    AmongCounts(s.w.freed + s.w.stranded, s.gone, true, h);
    AmongCounts(Handles(s.w.ch.sendWaiters), s.gone, true, h);
  }

  /**
   The books on senders: those that have gone on, and those that are owed it, are as many as the values received,
   buffered and dropped, and those that went on early.
   */
  lemma GoneExactly<T(00)>(capacity: nat, moves: seq<Move<T>>)
    ensures var s := Play(capacity, moves);
            |s.gone| + |Owed(s)| == |s.w.got| + |s.w.ch.buffer| + |s.w.dropped| + |Early(s)|
  {
    var s := Play(capacity, moves);
    var out := s.w.freed + s.w.stranded;
    PlayRuns(capacity, moves);
    WindowBound(capacity, Acts(moves));
    AmongSplits(out, s.gone);
    forall h: nat
      ensures Count(s.gone, h) == Count(Among(out, s.gone, true), h) + Count(Early(s), h) + Count([], h) + Count([], h)
    {
      GonePlaces(capacity, moves, h);
    }
    SumsEqual(s.gone, Among(out, s.gone, true), Early(s), [], []);
  }

  /** On an open channel, no more than `capacity` senders have gone on ahead of the values received. */
  ghost predicate InWindow<T>(s: Session<T>) {
    !s.w.ch.closed ==> |s.gone| <= |s.w.got| + s.w.ch.capacity
  }

  /** The window is overrun when more senders went on early than there is room, and senders owed it, to make up. */
  lemma WindowExactly<T(00)>(capacity: nat, moves: seq<Move<T>>)
    ensures var s := Play(capacity, moves);
            !s.w.ch.closed ==>
              (InWindow(s) <==> |Early(s)| <= (capacity - |s.w.ch.buffer|) + |Owed(s)|)
  {
    GoneExactly(capacity, moves);
    PlayRuns(capacity, moves);
    ShapeAlways(Start<T>(capacity), Acts(moves));
  }

  /** A send comes to its end while its sender still waits in an open channel. */
  ghost predicate LeavesEarly<T>(s: Session<T>, m: Move<T>) {
    m.Return? && InSend(s, m.op) && !s.w.ch.closed && m.op in Handles(s.w.ch.sendWaiters)
  }

  /** A suspended send can come to its end before the channel lets it go, exactly when it waits or is forgotten. */
  lemma SendReturnsExactly<T(00)>(capacity: nat, moves: seq<Move<T>>, op: nat)
    requires InSend(Play(capacity, moves), op)
    ensures var s := Play(capacity, moves);
            && Go(s, Return(op)).gone == s.gone + [op]
            && (op !in s.w.freed <==> op in Handles(s.w.ch.sendWaiters) || HandedOver(capacity, Acts(moves), op))
  {
    var s := Play(capacity, moves);
    var body: T :| true;
    PlayRuns(capacity, moves);
    StrandedLogged(capacity, Acts(moves), op);
    BalancedAlways(capacity, Acts(moves), Msg(op, body), op);
    NumbersAlways(capacity, Acts(moves), op);
    OneRoleAlways(capacity, Acts(moves), op);
    assert Count(Froms(s.w.committed), op) >= 1;
  }

  // ---------------------------------------------------------------------------------------------
  // When the window can be relied on
  // ---------------------------------------------------------------------------------------------

  /** No sender that waits in an open channel has gone on. */
  ghost predicate NoneEarly<T>(s: Session<T>) {
    !s.w.ch.closed ==> forall h | h in Handles(s.w.ch.sendWaiters) :: h !in s.gone
  }

  lemma {:induction false} NoneAmong(hs: seq<nat>, gone: seq<nat>)
    ensures Among(hs, gone, true) == [] <==> forall h | h in hs :: h !in gone
  {
    if |hs| > 0 {
      NoneAmong(hs[..|hs| - 1], gone);
      assert hs == hs[..|hs| - 1] + [hs[|hs| - 1]];
    }
  }

  lemma NoneEarlyInWindow<T(00)>(capacity: nat, moves: seq<Move<T>>)
    requires NoneEarly(Play(capacity, moves))
    ensures InWindow(Play(capacity, moves))
  {
    var s := Play(capacity, moves);
    NoneAmong(Handles(s.w.ch.sendWaiters), s.gone);
    WindowExactly(capacity, moves);
    PlayRuns(capacity, moves);
    ShapeAlways(Start<T>(capacity), Acts(moves));
  }

  /** Nobody comes into the list of senders but by registering. */
  lemma SendersOfSections<T>(c: Chan<T>, op: nat, v: T, h: nat)
    requires h !in Handles(c.sendWaiters)
    ensures h !in Handles(TrySend(c, v).ch.sendWaiters) && h !in Handles(TryRecv(c).ch.sendWaiters)
    ensures h in Handles(RegisterSend(c, op, v).ch.sendWaiters) ==> h == op
    ensures h !in Handles(RegisterRecv(c, op).ch.sendWaiters) && h !in Handles(CloseDrain(c).ch.sendWaiters)
  {
    var hs := Handles(c.sendWaiters);
    if c.sendWaiters != [] {
      assert Handles(c.sendWaiters[1..]) == hs[1..];
      assert h !in hs[1..];
    }
    assert Handles(c.sendWaiters + [SendWaiter(op, v)]) == hs + [op];
  }

  lemma SendersAfter<T(00)>(w: World<T>, a: Action<T>, h: nat)
    requires h !in Handles(w.ch.sendWaiters) && h in Handles(Next(w, a).ch.sendWaiters)
    ensures a == SendSuspend(h) && Sending(w, h)
  {
    var body: T :| true;
    ChannelAfter(w, a);
    var m := if a.SendReady? then Msg(a.op, a.body) else if a.SendSuspend? then w.tried[a.op].msg else Msg(h, body);
    SendersOfSections(w.ch, if a.CloseExchange? || a.CloseWakeAll? then h else a.op, m, h);
  }

  /** A send that has not been committed does not wait and has not gone on. */
  lemma UncommittedNowhere<T(00)>(capacity: nat, moves: seq<Move<T>>, h: nat)
    requires h !in Play(capacity, moves).w.begun || h in Play(capacity, moves).w.tried
    ensures var s := Play(capacity, moves); h !in Handles(s.w.ch.sendWaiters) && h !in s.gone
  {
    var s := Play(capacity, moves);
    var body: T :| true;
    PlayRuns(capacity, moves);
    NumbersAlways(capacity, Acts(moves), h);
    BalancedAlways(capacity, Acts(moves), Msg(h, body), h);
    GoneOnceAlways(capacity, moves, h);
  }

  lemma ActNoneEarly<T(00)>(capacity: nat, moves: seq<Move<T>>, a: Action<T>)
    requires NoneEarly(Play(capacity, moves))
    ensures NoneEarly(Go(Play(capacity, moves), Act(a)))
  {
    var s := Play(capacity, moves);
    var v := Go(s, Act(a));
    if s.w.ch.closed { ClosedStays(s.w, a); }
    forall h | !v.w.ch.closed && h in Handles(v.w.ch.sendWaiters) ensures h !in v.gone {
      if h !in Handles(s.w.ch.sendWaiters) {
        SendersAfter(s.w, a, h);
        UncommittedNowhere(capacity, moves, h);
      }
      if a.SendReady? && a.op == h && h !in s.w.begun { UncommittedNowhere(capacity, moves, h); }
    }
  }

  lemma MoveNoneEarly<T(00)>(capacity: nat, moves: seq<Move<T>>, m: Move<T>)
    requires NoneEarly(Play(capacity, moves))
    ensures NoneEarly(Go(Play(capacity, moves), m)) <==> !LeavesEarly(Play(capacity, moves), m)
  {
    if m.Act? { ActNoneEarly(capacity, moves, m.action); }
    if LeavesEarly(Play(capacity, moves), m) {
      PlayRuns(capacity, moves);
      OneRoleAlways(capacity, Acts(moves), m.op);
      assert m.op in Go(Play(capacity, moves), m).gone;
    }
  }

  ghost predicate EarlyAt<T>(s: Session<T>, more: seq<Move<T>>, k: nat)
    requires k < |more|
  {
    LeavesEarly(PlayFrom(s, more[..k]), more[k])
  }

  /** In `more`, no send ends early. */
  ghost predicate Patient<T>(s: Session<T>, more: seq<Move<T>>) {
    forall k | 0 <= k < |more| :: !EarlyAt(s, more, k)
  }

  /** However things go on patiently, the window is kept. */
  ghost predicate StaysInWindow<T(!new)>(s: Session<T>) {
    forall more: seq<Move<T>> :: Patient(s, more) ==> InWindow(PlayFrom(s, more))
  }

  lemma PlayMore<T>(capacity: nat, moves: seq<Move<T>>, m: Move<T>)
    ensures Play(capacity, moves + [m]) == Go(Play(capacity, moves), m)
  {
    assert (moves + [m])[..|moves|] == moves;
  }

  lemma PatientPrefix<T>(s: Session<T>, more: seq<Move<T>>, n: nat)
    requires n < |more| && Patient(s, more)
    ensures Patient(s, more[..n]) && !LeavesEarly(PlayFrom(s, more[..n]), more[n])
  {
    assert !EarlyAt(s, more, n);
    forall k | 0 <= k < n ensures !EarlyAt(s, more[..n], k) {
      assert !EarlyAt(s, more, k);
      assert more[..n][..k] == more[..k];
    }
  }

  lemma {:induction false} PatientKeepsWindow<T(00)>(capacity: nat, moves: seq<Move<T>>, more: seq<Move<T>>)
    requires NoneEarly(Play(capacity, moves)) && Patient(Play(capacity, moves), more)
    ensures NoneEarly(Play(capacity, moves + more))
  {
    if |more| == 0 {
      assert moves + more == moves;
    } else {
      var before, m := more[..|more| - 1], more[|more| - 1];
      assert more == before + [m] && moves + more == moves + before + [m];
      PatientPrefix(Play(capacity, moves), more, |more| - 1);
      PatientKeepsWindow(capacity, moves, before);
      PlayConcat(Fresh<T>(capacity), moves, before);
      PlayMore(capacity, moves + before, m);
      MoveNoneEarly(capacity, moves + before, m);
    }
  }

  lemma NoneEarlyStays<T(00, !new)>(capacity: nat, moves: seq<Move<T>>)
    requires NoneEarly(Play(capacity, moves))
    ensures StaysInWindow(Play(capacity, moves))
  {
    var s := Play(capacity, moves);
    forall more: seq<Move<T>> | Patient(s, more) ensures InWindow(PlayFrom(s, more)) {
      PatientKeepsWindow(capacity, moves, more);
      NoneEarlyInWindow(capacity, moves + more);
      PlayConcat(Fresh<T>(capacity), moves, more);
    }
  }

  lemma {:induction false} AmongMember(hs: seq<nat>, gone: seq<nat>) returns (h: nat)
    requires Among(hs, gone, false) != []
    ensures h in hs && h !in gone
  {
    var n := |hs| - 1;
    if hs[n] !in gone { h := hs[n]; } else { h := AmongMember(hs[..n], gone); }
  }

  lemma {:induction false} AmongSome(hs: seq<nat>, gone: seq<nat>, h: nat)
    requires h in hs && h in gone
    ensures |Among(hs, gone, true)| >= 1
  {
    NoneAmong(hs, gone);
  }

  /**
   While a sender that has gone on still waits, and the window is not overrun: a step that ends one send more, by
   somebody who is owed it or by a new send that finds room, and receives nothing.
   */
  lemma OneMoreGone<T(00)>(capacity: nat, moves: seq<Move<T>>, early: nat) returns (m: Move<T>)
    requires var s := Play(capacity, moves);
             !s.w.ch.closed && early in Handles(s.w.ch.sendWaiters) && early in s.gone && InWindow(s)
    ensures var s := Play(capacity, moves);
            var v := Go(s, m);
            && !LeavesEarly(s, m)
            && !v.w.ch.closed && early in Handles(v.w.ch.sendWaiters) && early in v.gone
            && |v.gone| == |s.gone| + 1 && |v.w.got| == |s.w.got| && v.w.ch.capacity == s.w.ch.capacity
  {
    var s := Play(capacity, moves);
    var body: T :| true;
    PlayRuns(capacity, moves);
    ShapeAlways(Start<T>(capacity), Acts(moves));
    WindowExactly(capacity, moves);
    AmongSome(Handles(s.w.ch.sendWaiters), s.gone, early);
    if Owed(s) != [] {
      var op := AmongMember(s.w.freed + s.w.stranded, s.gone);
      OwedCanReturn(capacity, moves, op);
      m := Return(op);
    } else {
      var op := FreshNumber(s.w.begun);
      m := Act(SendReady(op, body));
    }
  }

  lemma OwedCanReturn<T(00)>(capacity: nat, moves: seq<Move<T>>, op: nat)
    requires var s := Play(capacity, moves); op in s.w.freed + s.w.stranded && op !in s.gone
    ensures var s := Play(capacity, moves);
            InSend(s, op) && !InRecv(s, op) && op !in Handles(s.w.ch.sendWaiters)
  {
    var s := Play(capacity, moves);
    var body: T :| true;
    PlayRuns(capacity, moves);
    GoneOnceAlways(capacity, moves, op);
    OneRoleAlways(capacity, Acts(moves), op);
    NumbersAlways(capacity, Acts(moves), op);
    BalancedAlways(capacity, Acts(moves), Msg(op, body), op);
    assert Count(s.w.freed, op) + Count(s.w.stranded, op) >= 1;
  }

  lemma PlayCons<T>(s: Session<T>, m: Move<T>, rest: seq<Move<T>>)
    ensures PlayFrom(s, [m] + rest) == PlayFrom(Go(s, m), rest)
  {
    OneMove(s, m);
    PlayConcat(s, [m], rest);
  }

  lemma PatientCons<T>(s: Session<T>, m: Move<T>, rest: seq<Move<T>>)
    requires !LeavesEarly(s, m) && Patient(Go(s, m), rest)
    ensures Patient(s, [m] + rest) && PlayFrom(s, [m] + rest) == PlayFrom(Go(s, m), rest)
  {
    PlayCons(s, m, rest);
    forall k | 0 <= k < |[m] + rest| ensures !EarlyAt(s, [m] + rest, k) {
      if k > 0 {
        assert !EarlyAt(Go(s, m), rest, k - 1);
        assert ([m] + rest)[..k] == [m] + rest[..k - 1];
        PlayCons(s, m, rest[..k - 1]);
      }
    }
  }

  /** A sender that has gone on while it waits lets the window be overrun. */
  lemma {:induction false} EarlyShows<T(00)>(capacity: nat, moves: seq<Move<T>>, early: nat)
      returns (more: seq<Move<T>>)
    requires var s := Play(capacity, moves);
             !s.w.ch.closed && early in Handles(s.w.ch.sendWaiters) && early in s.gone
    ensures Patient(Play(capacity, moves), more) && !InWindow(PlayFrom(Play(capacity, moves), more))
    decreases var s := Play(capacity, moves); |s.w.got| + s.w.ch.capacity + 1 - |s.gone|
  {
    var s := Play(capacity, moves);
    if !InWindow(s) {
      more := [];
    } else {
      var m := OneMoreGone(capacity, moves, early);
      PlayMore(capacity, moves, m);
      var rest := EarlyShows(capacity, moves + [m], early);
      PatientCons(s, m, rest);
      more := [m] + rest;
    }
  }

  /** After a patient past, a step keeps the window for good exactly if nobody leaves early by it. */
  lemma LeavingShows<T(00, !new)>(capacity: nat, moves: seq<Move<T>>, m: Move<T>)
    requires NoneEarly(Play(capacity, moves))
    ensures StaysInWindow(Play(capacity, moves + [m])) <==> !LeavesEarly(Play(capacity, moves), m)
  {
    PlayMore(capacity, moves, m);
    MoveNoneEarly(capacity, moves, m);
    if LeavesEarly(Play(capacity, moves), m) {
      var v := Play(capacity, moves + [m]);
      var early :| early in Handles(v.w.ch.sendWaiters) && early in v.gone;
      var more := EarlyShows(capacity, moves + [m], early);
    } else {
      NoneEarlyStays(capacity, moves + [m]);
    }
  }

  lemma PatientSoFar<T(00)>(capacity: nat, moves: seq<Move<T>>)
    requires Patient(Fresh(capacity), moves)
    ensures NoneEarly(Play(capacity, moves))
  {
    assert Play<T>(capacity, []) == Fresh(capacity) && [] + moves == moves;
    PatientKeepsWindow(capacity, [], moves);
  }

  /** The first move by which a send ends early. */
  lemma {:induction false} FirstEarly<T>(s: Session<T>, moves: seq<Move<T>>) returns (k: nat)
    requires !Patient(s, moves)
    ensures k < |moves| && EarlyAt(s, moves, k) && Patient(s, moves[..k])
  {
    var n := |moves| - 1;
    if Patient(s, moves[..n]) {
      k := n;
      forall i | 0 <= i < n ensures !EarlyAt(s, moves, i) {
        assert !EarlyAt(s, moves[..n], i);
        assert moves[..n][..i] == moves[..i];
      }
    } else {
      k := FirstEarly(s, moves[..n]);
      assert moves[..n][..k] == moves[..k];
    }
  }

  /**
   When the capacity bounds the senders: from every point of a run, as long as no send ends early from there on, at
   most `capacity` senders have gone on ahead of the values received, if and only if no send of the run ends while
   its sender waits in the open channel.
   */
  lemma WindowObservable<T(00, !new)>(capacity: nat, moves: seq<Move<T>>)
    ensures (forall k | 0 <= k <= |moves| :: StaysInWindow(Play(capacity, moves[..k])))
       <==> Patient(Fresh(capacity), moves)
  {
    if Patient(Fresh(capacity), moves) {
      forall k | 0 <= k <= |moves| ensures StaysInWindow(Play(capacity, moves[..k])) {
        if k < |moves| { PatientPrefix(Fresh(capacity), moves, k); } else { assert moves[..k] == moves; }
        PatientSoFar(capacity, moves[..k]);
        NoneEarlyStays(capacity, moves[..k]);
      }
    } else {
      var k := FirstEarly(Fresh(capacity), moves);
      PatientSoFar(capacity, moves[..k]);
      LeavingShows(capacity, moves[..k], moves[k]);
      assert moves[..k + 1] == moves[..k] + [moves[k]];
      assert !StaysInWindow(Play(capacity, moves[..k + 1]));
    }
  }

  /** One sender on an unbuffered channel that nobody ever receives from: it goes on all the same. */
  lemma EarlySendExample<T>(body: T)
    ensures var s := Play(0, [Act(SendReady(1, body)), Act(SendSuspend(1)), Return(1)]);
            && !s.w.ch.closed && s.gone == [1] && s.w.got == [] && s.w.requests == [] && !InWindow(s)
            && s.w.ch.sendWaiters == [SendWaiter(1, Msg(1, body))]
  {
    var m := Msg(1, body);
    var s := Session(Start<T>(0), map[], []);
    ThreeMoves(s, Act(SendReady(1, body)), Act(SendSuspend(1)), Return(1));
    var w1 := Start<T>(0).(begun := {1}, tried := map[1 := ToSend(m)]);
    assert Next(s.w, SendReady(1, body)) == w1;
    var w2 := DoSendSuspend(w1, 1);
    assert Next(w1, SendSuspend(1)) == w2;
    assert w2.suspended == [1] && w2.committed == [m] && w2.ch == Chan(0, false, [], [SendWaiter(1, m)], []);
    assert Froms(w2.committed) == [1];
  }
}
