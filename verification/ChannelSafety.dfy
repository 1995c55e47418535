/**
 What every interleaving of a channel's users keeps, whatever the capacity, with closing as two steps.
 */
module ChannelSafety {
  import opened ChannelSpec
  import opened ChannelRun

  /** Bounds and the shape of the lists. */
  ghost predicate Shaped<T>(c: Chan<T>, draining: bool) {
    && |c.buffer| <= c.capacity
    && (c.sendWaiters == [] || c.recvWaiters == [])
    && (draining ==> c.closed)
    && (c.closed && !draining ==> c.sendWaiters == [] && c.recvWaiters == [])
  }

  lemma SectionsKeepShape<T>(c: Chan<T>, draining: bool, h: nat, v: T)
    requires Shaped(c, draining)
    ensures Shaped(TrySend(c, v).ch, draining) && Shaped(TryRecv(c).ch, draining)
    ensures Shaped(RegisterSend(c, h, v).ch, draining) && Shaped(RegisterRecv(c, h).ch, draining)
    ensures Shaped(CloseFlag(c).ch, draining || !c.closed) && Shaped(CloseDrain(c).ch, false)
  {
  }

  ghost predicate Shape<T>(w: World<T>) {
    && Shaped(w.ch, w.draining)
    && (w.failed != [] || w.dropped != [] ==> w.ch.closed)
  }

  /** What a step does to capacity and flag. */
  ghost predicate Keeps<T>(w: World<T>, v: World<T>) {
    && Shape(v)
    && v.ch.capacity == w.ch.capacity
    && (w.ch.closed ==> v.ch.closed)
  }

  lemma ShapeSendReady<T>(w: World<T>, op: nat, body: T)
    requires Shape(w)
    ensures Keeps(w, DoSendReady(w, op, body))
  {
    SectionsKeepShape(w.ch, w.draining, op, Msg(op, body));
  }

  lemma ShapeRecvReady<T>(w: World<T>, op: nat)
    requires Shape(w)
    ensures Keeps(w, DoRecvReady(w, op))
  {
  }

  lemma ShapeSendSuspend<T>(w: World<T>, op: nat)
    requires Shape(w) && Sending(w, op)
    ensures Keeps(w, DoSendSuspend(w, op))
  {
    SectionsKeepShape(w.ch, w.draining, op, w.tried[op].msg);
  }

  lemma ShapeRecvSuspend<T>(w: World<T>, op: nat)
    requires Shape(w)
    ensures Keeps(w, DoRecvSuspend(w, op))
  {
  }

  lemma ShapeStep<T>(w: World<T>, a: Action<T>)
    requires Shape(w)
    ensures Keeps(w, Next(w, a))
  {
    if Enabled(w, a) {
      match a
      case SendReady(op, body) => ShapeSendReady(w, op, body);
      case SendSuspend(op) => ShapeSendSuspend(w, op);
      case RecvReady(op) => ShapeRecvReady(w, op);
      case RecvSuspend(op) => ShapeRecvSuspend(w, op);
      case CloseExchange =>
      case CloseWakeAll =>
    }
  }

  lemma {:induction false} ShapeAlways<T>(w: World<T>, actions: seq<Action<T>>)
    requires Shape(w)
    ensures Shape(Continue(w, actions))
    ensures Continue(w, actions).ch.capacity == w.ch.capacity
    ensures w.ch.closed ==> Continue(w, actions).ch.closed
  {
    if |actions| > 0 {
      ShapeAlways(w, actions[..|actions| - 1]);
      ShapeStep(Continue(w, actions[..|actions| - 1]), actions[|actions| - 1]);
    }
  }

  /** Once a close has drained the lists they stay empty, whatever the coroutines do next. */
  lemma DrainedForever<T>(capacity: nat, actions: seq<Action<T>>, more: seq<Action<T>>)
    requires Run<T>(capacity, actions).ch.closed && !Run<T>(capacity, actions).draining
    ensures var c := Run(capacity, actions + more).ch;
            c.closed && c.sendWaiters == [] && c.recvWaiters == []
  {
    ContinueConcat(Start(capacity), actions, more);
    ShapeAlways(Start(capacity), actions);
    StaysDrained(Run(capacity, actions), more);
    ShapeAlways(Run(capacity, actions), more);
  }

  lemma {:induction false} StaysDrained<T>(w: World<T>, more: seq<Action<T>>)
    requires Shape(w) && w.ch.closed && !w.draining
    ensures !Continue(w, more).draining
  {
    if |more| > 0 {
      StaysDrained(w, more[..|more| - 1]);
      ShapeAlways(w, more[..|more| - 1]);
    }
  }

  // ---------------------------------------------------------------------------------------------
  // What one critical section does to the books, counted for one value x and one handle h at a time
  // ---------------------------------------------------------------------------------------------

  ghost function Count<X>(s: seq<X>, x: X): nat {
    multiset(s)[x]
  }

  lemma CountConcat<X>(s: seq<X>, t: seq<X>, x: X)
    ensures Count(s + t, x) == Count(s, x) + Count(t, x)
  {
  }

  lemma CountFront<X>(s: seq<X>, x: X)
    requires s != []
    ensures Count(s, x) == Count([s[0]], x) + Count(s[1..], x)
  {
    assert s == [s[0]] + s[1..];
  }

  /** The handles among hs that are, or are not, in `others`. */
  ghost function Among(hs: seq<nat>, others: seq<nat>, wanted: bool): seq<nat> {
    if |hs| == 0 then []
    else
      var n := |hs| - 1;
      Among(hs[..n], others, wanted) + if (hs[n] in others) == wanted then [hs[n]] else []
  }

  lemma {:induction false} AmongCounts(hs: seq<nat>, others: seq<nat>, wanted: bool, h: nat)
    ensures Count(Among(hs, others, wanted), h) == if (h in others) == wanted then Count(hs, h) else 0
  {
    if |hs| > 0 {
      var n := |hs| - 1;
      AmongCounts(hs[..n], others, wanted, h);
      assert hs == hs[..n] + [hs[n]];
      CountConcat(hs[..n], [hs[n]], h);
      CountConcat(Among(hs[..n], others, wanted), if (hs[n] in others) == wanted then [hs[n]] else [], h);
    }
  }

  /** How often x is inside the channel: buffered, or waiting with its sender. */
  ghost function Inside<T>(c: Chan<T>, x: T): nat {
    Count(c.buffer, x) + Count(Values(c.sendWaiters), x)
  }

  /**
   Starting from c, with the values `put` and the waiters `newSenders` and `newReceivers` coming in, outcome o
   accounts for everything: each value stays inside, goes to a waiting receiver, or is in `taken`; each
   waiter stays in its list or is resumed; and exactly the resumed ones are scheduled, once each.
   */
  ghost predicate Accounts<T>(c: Chan<T>, o: Outcome<T>, put: seq<T>, taken: seq<T>,
                              newSenders: seq<nat>, newReceivers: seq<nat>, x: T, h: nat)
  {
    && Inside(c, x) + Count(put, x) == Inside(o.ch, x) + Count(Payloads(o.delivered), x) + Count(taken, x)
    && Count(Handles(c.sendWaiters), h) + Count(newSenders, h)
       == Count(Handles(o.ch.sendWaiters), h) + Count(o.released, h)
    && Count(c.recvWaiters, h) + Count(newReceivers, h)
       == Count(o.ch.recvWaiters, h) + Count(Receivers(o.delivered), h) + Count(o.failed, h)
    && Count(o.scheduled, h) == Count(o.released, h) + Count(Receivers(o.delivered), h) + Count(o.failed, h)
  }

  lemma HandOverAccounts<T>(c: Chan<T>, v: T, x: T, h: nat)
    requires c.recvWaiters != []
    ensures Accounts(c, HandOver(c, v), [v], [], [], [], x, h)
  {
    var o := HandOver(c, v);
    CountFront(c.recvWaiters, h);
    assert Payloads(o.delivered) == [v] && Receivers(o.delivered) == [c.recvWaiters[0]];
  }

  lemma TrySendAccounts<T>(c: Chan<T>, v: T, x: T, h: nat)
    ensures var o := TrySend(c, v); Accounts(c, o, if o.ok then [v] else [], [], [], [], x, h)
  {
    if !c.closed && c.recvWaiters != [] {
      HandOverAccounts(c, v, x, h);
    } else {
      CountConcat(c.buffer, [v], x);
    }
  }

  lemma FirstSenderLeaves<T>(ws: seq<SendWaiter<T>>, x: T, h: nat)
    requires ws != []
    ensures Count(Handles(ws), h) == Count([ws[0].handle], h) + Count(Handles(ws[1..]), h)
    ensures Count(Values(ws), x) == Count([ws[0].value], x) + Count(Values(ws[1..]), x)
  {
    CountFront(Handles(ws), h);
    CountFront(Values(ws), x);
    assert Handles(ws)[1..] == Handles(ws[1..]);
    assert Values(ws)[1..] == Values(ws[1..]);
  }

  lemma TryRecvAccounts<T>(c: Chan<T>, x: T, h: nat)
    ensures var o := TryRecv(c);
            && o.ok == o.value.Some?
            && Accounts(c, o, [], if o.ok then [o.value.value] else [], [], [], x, h)
  {
    if c.buffer != [] { CountFront(c.buffer, x); }
    if c.sendWaiters != [] {
      FirstSenderLeaves(c.sendWaiters, x, h);
      if c.buffer != [] { CountConcat(c.buffer[1..], [c.sendWaiters[0].value], x); }
    }
  }

  lemma RegisterSendAccounts<T>(c: Chan<T>, s: nat, v: T, x: T, h: nat)
    ensures var o := RegisterSend(c, s, v);
            Accounts(c, o, [v], if o.ok then [] else [v], if c.closed || c.recvWaiters == [] then [s] else [], [], x, h)
  {
    if !c.closed && c.recvWaiters != [] {
      HandOverAccounts(c, v, x, h);
    } else {
      var w := SendWaiter(s, v);
      assert Handles(c.sendWaiters + [w]) == Handles(c.sendWaiters) + [s];
      assert Values(c.sendWaiters + [w]) == Values(c.sendWaiters) + [v];
      CountConcat(Handles(c.sendWaiters), [s], h);
      CountConcat(Values(c.sendWaiters), [v], x);
    }
  }

  lemma RegisterRecvAccounts<T>(c: Chan<T>, r: nat, x: T, h: nat)
    ensures Accounts(c, RegisterRecv(c, r), [], [], [], [r], x, h)
  {
    var o := RegisterRecv(c, r);
    if !c.closed && c.sendWaiters != [] {
      FirstSenderLeaves(c.sendWaiters, x, h);
      assert Payloads(o.delivered) == [c.sendWaiters[0].value] && Receivers(o.delivered) == [r];
    }
  }

  lemma CloseDrainAccounts<T>(c: Chan<T>, x: T, h: nat)
    ensures Accounts(c, CloseDrain(c), [], Values(c.sendWaiters), [], [], x, h)
  {
    CountConcat(Handles(c.sendWaiters), c.recvWaiters, h);
  }

  // ---------------------------------------------------------------------------------------------
  // Conservation over whole runs
  // ---------------------------------------------------------------------------------------------

  ghost function Froms<T>(ms: seq<Msg<T>>): (hs: seq<nat>)
    ensures |hs| == |ms|
  {
    seq(|ms|, i requires 0 <= i < |ms| => ms[i].from)
  }

  ghost function Waiting<T>(c: Chan<T>, h: nat): nat {
    Count(Handles(c.sendWaiters), h) + Count(c.recvWaiters, h)
  }

  /** Nothing is lost, duplicated or invented, counted for message m and handle h. */
  ghost predicate Balanced<T>(w: World<T>, m: Msg<T>, h: nat) {
    // every message given to the channel was received, is inside the channel, or was dropped by a close
    && Count(w.committed, m) == Count(Payloads(w.got), m) + Inside(w.ch, m) + Count(w.dropped, m)
    // every receive got a value, waits, or failed
    && Count(w.requests, h) == Count(Receivers(w.got), h) + Count(w.ch.recvWaiters, h) + Count(w.failed, h)
    // every sender was let go, waits, or is stranded
    && Count(Froms(w.committed), h)
       == Count(w.freed, h) + Count(Handles(w.ch.sendWaiters), h) + Count(w.stranded, h)
    // every suspended coroutine was scheduled, waits, or is stranded
    && Count(w.suspended, h) == Count(w.scheduled, h) + Waiting(w.ch, h) + Count(w.stranded, h)
  }

  lemma LogsGrow<T>(w: World<T>, o: Outcome<Msg<T>>, m: Msg<T>, h: nat)
    ensures Count(Payloads(w.got + o.delivered), m) == Count(Payloads(w.got), m) + Count(Payloads(o.delivered), m)
    ensures Count(Receivers(w.got + o.delivered), h) == Count(Receivers(w.got), h) + Count(Receivers(o.delivered), h)
    ensures Count(w.failed + o.failed, h) == Count(w.failed, h) + Count(o.failed, h)
    ensures Count(w.freed + o.released, h) == Count(w.freed, h) + Count(o.released, h)
    ensures Count(w.scheduled + o.scheduled, h) == Count(w.scheduled, h) + Count(o.scheduled, h)
  {
    assert Payloads(w.got + o.delivered) == Payloads(w.got) + Payloads(o.delivered);
    assert Receivers(w.got + o.delivered) == Receivers(w.got) + Receivers(o.delivered);
  }

  lemma FromsGrow<T>(ms: seq<Msg<T>>, x: Msg<T>, h: nat)
    ensures Count(Froms(ms + [x]), h) == Count(Froms(ms), h) + Count([x.from], h)
  {
    assert Froms(ms + [x]) == Froms(ms) + [x.from];
  }

  lemma BalancedSendReady<T>(w: World<T>, op: nat, body: T, m: Msg<T>, h: nat)
    requires Balanced(w, m, h)
    ensures Balanced(DoSendReady(w, op, body), m, h)
  {
    var x := Msg(op, body);
    var o := TrySend(w.ch, x);
    TrySendAccounts(w.ch, x, m, h);
    LogsGrow(w, if o.ok then o.(released := [op]) else o, m, h);
    FromsGrow(w.committed, x, h);
    CountConcat(w.committed, [x], m);
  }

  /** A receive answered on the spot with x, for any outcome o whose books are in order. */
  lemma BalancedTake<T>(w: World<T>, o: Outcome<Msg<T>>, op: nat, x: Msg<T>, m: Msg<T>, h: nat)
    requires Balanced(w, m, h)
    requires o.delivered == [] && Accounts(w.ch, o, [], [x], [], [], m, h)
    ensures Balanced(Record(w, o.(delivered := [Delivery(op, x)])).(requests := w.requests + [op]), m, h)
  {
    var d := Delivery(op, x);
    LogsGrow(w, o.(delivered := [d]), m, h);
    assert Payloads([d]) == [x] && Receivers([d]) == [op];
    CountConcat(w.requests, [op], h);
  }

  lemma BalancedRecvReady<T>(w: World<T>, op: nat, m: Msg<T>, h: nat)
    requires Balanced(w, m, h) && TryRecv(w.ch).ok
    ensures Balanced(DoRecvReady(w, op), m, h)
  {
    var o := TryRecv(w.ch);
    TryRecvAccounts(w.ch, m, h);
    BalancedTake(w, o, op, o.value.value, m, h);
  }

  lemma BalancedRecvNotReady<T>(w: World<T>, op: nat, m: Msg<T>, h: nat)
    requires Balanced(w, m, h) && !TryRecv(w.ch).ok
    ensures Balanced(DoRecvReady(w, op), m, h)
  {
    assert TryRecv(w.ch) == Quiet(w.ch, false);
    assert w.got + [] == w.got;
  }

  lemma BalancedSendSuspend<T>(w: World<T>, op: nat, m: Msg<T>, h: nat)
    requires Balanced(w, m, h) && Sending(w, op) && w.tried[op].msg.from == op
    ensures Balanced(DoSendSuspend(w, op), m, h)
  {
    var x := w.tried[op].msg;
    RegisterSendAccounts(w.ch, op, x, m, h);
    LogsGrow(w, RegisterSend(w.ch, op, x), m, h);
    FromsGrow(w.committed, x, h);
    CountConcat(w.committed, [x], m);
    CountConcat(w.dropped, [x], m);
    CountConcat(w.suspended, [op], h);
    CountConcat(w.stranded, [op], h);
  }

  /** World v is w after a receive with number op has registered with outcome o, as far as the books go. */
  ghost predicate AsksAnd<T>(w: World<T>, v: World<T>, op: nat, o: Outcome<Msg<T>>) {
    && v.ch == o.ch && v.got == w.got + o.delivered && v.failed == w.failed + o.failed
    && v.freed == w.freed + o.released && v.scheduled == w.scheduled + o.scheduled
    && v.requests == w.requests + [op] && v.suspended == w.suspended + [op]
    && v.committed == w.committed && v.dropped == w.dropped && v.stranded == w.stranded
  }

  lemma BalancedAsks<T>(w: World<T>, v: World<T>, op: nat, o: Outcome<Msg<T>>, m: Msg<T>, h: nat)
    requires Balanced(w, m, h) && AsksAnd(w, v, op, o) && Accounts(w.ch, o, [], [], [], [op], m, h)
    ensures Balanced(v, m, h)
  {
    LogsGrow(w, o, m, h);
    CountConcat(w.requests, [op], h);
    CountConcat(w.suspended, [op], h);
  }

  lemma BalancedRecvSuspend<T>(w: World<T>, op: nat, m: Msg<T>, h: nat)
    requires Balanced(w, m, h)
    ensures Balanced(DoRecvSuspend(w, op), m, h)
  {
    var o := RegisterRecv(w.ch, op);
    RegisterRecvAccounts(w.ch, op, m, h);
    assert AsksAnd(w, DoRecvSuspend(w, op), op, o);
    BalancedAsks(w, DoRecvSuspend(w, op), op, o, m, h);
  }

  lemma BalancedClose<T>(w: World<T>, m: Msg<T>, h: nat)
    requires Balanced(w, m, h)
    ensures Balanced(DoCloseWakeAll(w), m, h)
  {
    CloseDrainAccounts(w.ch, m, h);
    LogsGrow(w, CloseDrain(w.ch), m, h);
    CountConcat(w.dropped, Values(w.ch.sendWaiters), m);
  }

  lemma BalancedStep<T>(w: World<T>, a: Action<T>, m: Msg<T>, h: nat)
    requires Balanced(w, m, h)
    requires a.SendSuspend? && Sending(w, a.op) ==> w.tried[a.op].msg.from == a.op
    ensures Balanced(Next(w, a), m, h)
  {
    if Enabled(w, a) {
      match a
      case SendReady(op, body) => BalancedSendReady(w, op, body, m, h);
      case SendSuspend(op) => BalancedSendSuspend(w, op, m, h);
      case RecvReady(op) =>
        if TryRecv(w.ch).ok { BalancedRecvReady(w, op, m, h); } else { BalancedRecvNotReady(w, op, m, h); }
      case RecvSuspend(op) => BalancedRecvSuspend(w, op, m, h);
      case CloseExchange => assert w.got + [] == w.got;
      case CloseWakeAll => BalancedClose(w, m, h);
    }
  }

  lemma {:induction false} BalancedAlways<T>(capacity: nat, actions: seq<Action<T>>, m: Msg<T>, h: nat)
    ensures Balanced(Run(capacity, actions), m, h)
  {
    if |actions| > 0 {
      var before, a := actions[..|actions| - 1], actions[|actions| - 1];
      BalancedAlways(capacity, before, m, h);
      if a.SendSuspend? { NumbersAlways(capacity, before, a.op); }
      BalancedStep(Run(capacity, before), a, m, h);
    }
  }

  // ---------------------------------------------------------------------------------------------
  // Every operation is used once
  // ---------------------------------------------------------------------------------------------

  /** Handle h begins, commits, asks and suspends at most once, and nothing of it is on record before its turn. */
  ghost predicate Numbered<T>(w: World<T>, h: nat) {
    && (h in w.tried ==> h in w.begun)
    && (Sending(w, h) ==> w.tried[h].msg.from == h)
    && (h !in w.begun || h in w.tried ==>
          Count(w.suspended, h) == Count(w.requests, h) == Count(Froms(w.committed), h) == 0)
    && Count(w.suspended, h) <= 1 && Count(w.requests, h) <= 1 && Count(Froms(w.committed), h) <= 1
  }

  lemma NumbersSendReady<T>(w: World<T>, op: nat, body: T, h: nat)
    requires Numbered(w, h) && op !in w.begun
    ensures Numbered(DoSendReady(w, op, body), h)
  {
    FromsGrow(w.committed, Msg(op, body), h);
  }

  lemma NumbersRecvReady<T>(w: World<T>, op: nat, h: nat)
    requires Numbered(w, h) && op !in w.begun
    ensures Numbered(DoRecvReady(w, op), h)
  {
    CountConcat(w.requests, [op], h);
  }

  lemma NumbersSendSuspend<T>(w: World<T>, op: nat, h: nat)
    requires Numbered(w, h) && Sending(w, op) && w.tried[op].msg.from == op
    ensures Numbered(DoSendSuspend(w, op), h)
  {
    FromsGrow(w.committed, w.tried[op].msg, h);
    CountConcat(w.suspended, [op], h);
  }

  lemma NumbersRecvSuspend<T>(w: World<T>, op: nat, h: nat)
    requires Numbered(w, h) && Receiving(w, op)
    ensures Numbered(DoRecvSuspend(w, op), h)
  {
    CountConcat(w.requests, [op], h);
    CountConcat(w.suspended, [op], h);
  }

  lemma NumbersStep<T>(w: World<T>, a: Action<T>, h: nat)
    requires Numbered(w, h)
    requires a.SendSuspend? && Sending(w, a.op) ==> w.tried[a.op].msg.from == a.op
    ensures Numbered(Next(w, a), h)
  {
    if Enabled(w, a) {
      match a
      case SendReady(op, body) => NumbersSendReady(w, op, body, h);
      case SendSuspend(op) => NumbersSendSuspend(w, op, h);
      case RecvReady(op) => NumbersRecvReady(w, op, h);
      case RecvSuspend(op) => NumbersRecvSuspend(w, op, h);
      case _ =>
    }
  }

  lemma {:induction false} NumbersAlways<T>(capacity: nat, actions: seq<Action<T>>, h: nat)
    ensures Numbered(Run(capacity, actions), h)
  {
    if |actions| > 0 {
      var before, a := actions[..|actions| - 1], actions[|actions| - 1];
      NumbersAlways(capacity, before, h);
      if a.SendSuspend? { NumbersAlways(capacity, before, a.op); }
      NumbersStep(Run(capacity, before), a, h);
    }
  }

  // ---------------------------------------------------------------------------------------------
  // The theorems
  // ---------------------------------------------------------------------------------------------

  lemma SumsEqual<X>(total: seq<X>, a: seq<X>, b: seq<X>, c: seq<X>, d: seq<X>)
    requires forall x :: Count(total, x) == Count(a, x) + Count(b, x) + Count(c, x) + Count(d, x)
    ensures multiset(total) == multiset(a) + multiset(b) + multiset(c) + multiset(d)
    ensures |total| == |a| + |b| + |c| + |d|
  {
    var sum := multiset(a) + multiset(b) + multiset(c) + multiset(d);
    forall x ensures multiset(total)[x] == sum[x] {
      assert Count(total, x) == Count(a, x) + Count(b, x) + Count(c, x) + Count(d, x);
    }
    assert multiset(total) == sum;
    assert |multiset(total)| == |total|;
  }

  /** Conservation: in every interleaving, nothing is lost, duplicated or invented. */
  lemma Conservation<T(00)>(capacity: nat, actions: seq<Action<T>>)
    ensures var w := Run(capacity, actions);
            && multiset(w.committed) == multiset(Payloads(w.got)) + multiset(w.ch.buffer)
                                        + multiset(Values(w.ch.sendWaiters)) + multiset(w.dropped)
            && multiset(w.requests) == multiset(Receivers(w.got)) + multiset(w.ch.recvWaiters) + multiset(w.failed)
            && (w.dropped != [] || w.failed != [] ==> w.ch.closed)
  {
    var w := Run(capacity, actions);
    var body: T :| true;
    forall m: Msg<T>
      ensures Count(w.committed, m) == Count(Payloads(w.got), m) + Count(w.ch.buffer, m)
                                       + Count(Values(w.ch.sendWaiters), m) + Count(w.dropped, m)
    {
      BalancedAlways(capacity, actions, m, 0);
    }
    SumsEqual(w.committed, Payloads(w.got), w.ch.buffer, Values(w.ch.sendWaiters), w.dropped);
    forall h: nat
      ensures Count(w.requests, h) == Count(Receivers(w.got), h) + Count(w.ch.recvWaiters, h) + Count(w.failed, h)
                                      + Count([], h)
    {
      BalancedAlways(capacity, actions, Msg(h, body), h);
    }
    SumsEqual(w.requests, Receivers(w.got), w.ch.recvWaiters, w.failed, []);
    ShapeAlways(Start<T>(capacity), actions);
  }

  lemma TwiceCounts<X>(s: seq<X>, i: nat, j: nat)
    requires i < j < |s| && s[i] == s[j]
    ensures Count(s, s[i]) >= 2
  {
    assert s == s[..j] + s[j..];
    assert s[..j][i] == s[i] && s[j..][0] == s[i];
  }

  lemma OneMessagePerSender<T>(ms: seq<Msg<T>>, i: nat, j: nat)
    requires i < |ms| && j < |ms| && ms[i].from == ms[j].from && Count(Froms(ms), ms[i].from) <= 1
    ensures i == j
  {
    if i < j { TwiceCounts(Froms(ms), i, j); }
    if j < i { TwiceCounts(Froms(ms), j, i); }
  }

  lemma {:induction false} MessagesWithin<T>(ms: seq<Msg<T>>, m: Msg<T>)
    ensures Count(ms, m) <= Count(Froms(ms), m.from)
  {
    if ms != [] {
      var n := |ms| - 1;
      MessagesWithin(ms[..n], m);
      assert ms == ms[..n] + [ms[n]];
      FromsGrow(ms[..n], ms[n], m.from);
      CountConcat(ms[..n], [ms[n]], m);
    }
  }

  /** Nothing is received that was not sent, and by nobody who did not ask. */
  lemma ReceivedWasSent<T>(capacity: nat, actions: seq<Action<T>>, i: nat)
    requires i < |Run(capacity, actions).got|
    ensures var w := Run(capacity, actions);
            w.got[i].value in w.committed && w.got[i].to in w.requests
  {
    var w := Run(capacity, actions);
    var m, op := w.got[i].value, w.got[i].to;
    assert Payloads(w.got)[i] == m && Receivers(w.got)[i] == op;
    BalancedAlways(capacity, actions, m, op);
    assert Count(w.committed, m) > 0 && Count(w.requests, op) > 0;
  }

  /** No message is received twice, and no receive gets two messages. */
  lemma ReceivedOnce<T>(capacity: nat, actions: seq<Action<T>>, i: nat, j: nat)
    requires i < j < |Run(capacity, actions).got|
    ensures var w := Run(capacity, actions);
            w.got[i].value.from != w.got[j].value.from && w.got[i].to != w.got[j].to
  {
    var w := Run(capacity, actions);
    var m, n := w.got[i].value, w.got[j].value;
    assert Payloads(w.got)[i] == m && Payloads(w.got)[j] == n;
    assert Receivers(w.got)[i] == w.got[i].to && Receivers(w.got)[j] == w.got[j].to;
    BalancedAlways(capacity, actions, m, w.got[i].to);
    BalancedAlways(capacity, actions, n, w.got[i].to);
    NumbersAlways(capacity, actions, w.got[i].to);
    NumbersAlways(capacity, actions, m.from);
    if w.got[j].to == w.got[i].to { TwiceCounts(Receivers(w.got), i, j); }
    if n.from == m.from {
      assert Count(w.committed, m) > 0 && Count(w.committed, n) > 0;
      var k :| 0 <= k < |w.committed| && w.committed[k] == m;
      var l :| 0 <= l < |w.committed| && w.committed[l] == n;
      OneMessagePerSender(w.committed, k, l);
      TwiceCounts(Payloads(w.got), i, j);
      MessagesWithin(w.committed, m);
    }
  }

  /**
   A coroutine that suspended is in exactly one of four places: scheduled (once), in one of the waiting lists,
   or stranded. A coroutine that did not suspend is never scheduled by the channel.
   */
  lemma ScheduledOnce<T(00)>(capacity: nat, actions: seq<Action<T>>, op: nat)
    ensures var w := Run(capacity, actions);
            Count(w.scheduled, op) + Count(Handles(w.ch.sendWaiters), op) + Count(w.ch.recvWaiters, op)
            + Count(w.stranded, op) == if op in w.suspended then 1 else 0
  {
    var body: T :| true;
    BalancedAlways(capacity, actions, Msg(op, body), op);
    NumbersAlways(capacity, actions, op);
  }

  /**
   Every receive that was answered or suspended has exactly one fate: the channel has written a value and the result
   true, it has written false, or the receive still waits; and it writes false only when closed.
   */
  lemma ReceiversFate<T(00)>(capacity: nat, actions: seq<Action<T>>, op: nat)
    ensures var w := Run(capacity, actions);
            && Count(Receivers(w.got), op) + Count(w.failed, op) + Count(w.ch.recvWaiters, op)
               == (if op in w.requests then 1 else 0)
            && (op in w.failed ==> w.ch.closed)
  {
    var body: T :| true;
    BalancedAlways(capacity, actions, Msg(op, body), op);
    NumbersAlways(capacity, actions, op);
    ShapeAlways(Start<T>(capacity), actions);
  }

  /**
   The window: on an open channel, the senders let go on and those stranded are as many as the values received
   and buffered, so that the channel lets no more than `capacity` senders go ahead of the receivers. ChannelWindow
   adds those that the scheduler resumes while they wait.
   */
  lemma WindowBound<T(00)>(capacity: nat, actions: seq<Action<T>>)
    ensures var w := Run(capacity, actions);
            && |w.freed| + |w.stranded| == |w.got| + |w.ch.buffer| + |w.dropped|
            && (!w.ch.closed ==> |w.freed| <= |w.got| + capacity)
  {
    var w := Run(capacity, actions);
    var body: T :| true;
    Conservation(capacity, actions);
    assert |w.committed| == |w.got| + |w.ch.buffer| + |w.ch.sendWaiters| + |w.dropped| by {
      assert |multiset(w.committed)| == |w.committed|;
    }
    forall h: nat
      ensures Count(Froms(w.committed), h)
              == Count(w.freed, h) + Count(Handles(w.ch.sendWaiters), h) + Count(w.stranded, h) + Count([], h)
    {
      BalancedAlways(capacity, actions, Msg(h, body), h);
    }
    SumsEqual(Froms(w.committed), w.freed, Handles(w.ch.sendWaiters), w.stranded, []);
    ShapeAlways(Start<T>(capacity), actions);
  }

  // ---------------------------------------------------------------------------------------------
  // Arrival order, and the sender that the channel forgets
  // ---------------------------------------------------------------------------------------------

  ghost predicate Suffix<X>(s: seq<X>, whole: seq<X>) {
    |s| <= |whole| && s == whole[|whole| - |s|..]
  }

  ghost predicate InArrivalOrder<T>(w: World<T>) {
    Suffix(Handles(w.ch.sendWaiters), w.parkedSenders) && Suffix(w.ch.recvWaiters, w.parkedReceivers)
  }

  /** Waiters leave their list in the order in which they came. */
  lemma {:induction false} ArrivalOrder<T>(capacity: nat, actions: seq<Action<T>>)
    ensures InArrivalOrder(Run(capacity, actions))
  {
    if |actions| > 0 {
      var before, a := actions[..|actions| - 1], actions[|actions| - 1];
      ArrivalOrder(capacity, before);
      ArrivalOrderStep(Run(capacity, before), a);
    }
  }

  lemma SuffixGrows<X>(s: seq<X>, whole: seq<X>, new': seq<X>, s': seq<X>)
    requires Suffix(s, whole) && Suffix(s', s + new')
    ensures Suffix(s', whole + new')
  {
    assert whole + new' == whole[..|whole| - |s|] + (s + new');
  }

  /** From c to d, waiters left from the front of the lists and the new ones came in at the back. */
  ghost predicate OrderGrows<T>(c: Chan<T>, d: Chan<T>, newSenders: seq<nat>, newReceivers: seq<nat>) {
    && Suffix(Handles(d.sendWaiters), Handles(c.sendWaiters) + newSenders)
    && Suffix(d.recvWaiters, c.recvWaiters + newReceivers)
  }

  lemma TrySendOrder<T>(c: Chan<T>, v: T)
    ensures OrderGrows(c, TrySend(c, v).ch, [], [])
  {
  }

  lemma TryRecvOrder<T>(c: Chan<T>)
    ensures OrderGrows(c, TryRecv(c).ch, [], [])
  {
    if c.sendWaiters != [] { assert Handles(c.sendWaiters[1..]) == Handles(c.sendWaiters)[1..]; }
  }

  lemma RegisterSendOrder<T>(c: Chan<T>, h: nat, v: T)
    ensures OrderGrows(c, RegisterSend(c, h, v).ch, if !c.closed && c.recvWaiters == [] then [h] else [], [])
  {
    assert Handles(c.sendWaiters + [SendWaiter(h, v)]) == Handles(c.sendWaiters) + [h];
  }

  lemma RegisterRecvOrder<T>(c: Chan<T>, h: nat)
    ensures OrderGrows(c, RegisterRecv(c, h).ch, [], if !c.closed && c.sendWaiters == [] then [h] else [])
  {
    if c.sendWaiters != [] { assert Handles(c.sendWaiters[1..]) == Handles(c.sendWaiters)[1..]; }
  }

  lemma ArrivalOrderGrows<T>(w: World<T>, v: World<T>, newSenders: seq<nat>, newReceivers: seq<nat>)
    requires InArrivalOrder(w) && OrderGrows(w.ch, v.ch, newSenders, newReceivers)
    requires v.parkedSenders == w.parkedSenders + newSenders
    requires v.parkedReceivers == w.parkedReceivers + newReceivers
    ensures InArrivalOrder(v)
  {
    SuffixGrows(Handles(w.ch.sendWaiters), w.parkedSenders, newSenders, Handles(v.ch.sendWaiters));
    SuffixGrows(w.ch.recvWaiters, w.parkedReceivers, newReceivers, v.ch.recvWaiters);
  }

  lemma ArrivalOrderSendSuspend<T>(w: World<T>, op: nat)
    requires InArrivalOrder(w) && Sending(w, op)
    ensures InArrivalOrder(DoSendSuspend(w, op))
  {
    var v := DoSendSuspend(w, op);
    RegisterSendOrder(w.ch, op, w.tried[op].msg);
    if !w.ch.closed && w.ch.recvWaiters == [] {
      ArrivalOrderGrows(w, v, [op], []);
    } else {
      ArrivalOrderGrows(w, v, [], []);
    }
  }

  lemma ArrivalOrderRecvSuspend<T>(w: World<T>, op: nat)
    requires InArrivalOrder(w)
    ensures InArrivalOrder(DoRecvSuspend(w, op))
  {
    var v := DoRecvSuspend(w, op);
    RegisterRecvOrder(w.ch, op);
    if !w.ch.closed && w.ch.sendWaiters == [] {
      ArrivalOrderGrows(w, v, [], [op]);
    } else {
      ArrivalOrderGrows(w, v, [], []);
    }
  }

  lemma ArrivalOrderSendReady<T>(w: World<T>, op: nat, body: T)
    requires InArrivalOrder(w)
    ensures InArrivalOrder(DoSendReady(w, op, body))
  {
    TrySendOrder(w.ch, Msg(op, body));
    ArrivalOrderKept(w, DoSendReady(w, op, body));
  }

  lemma ArrivalOrderKept<T>(w: World<T>, v: World<T>)
    requires InArrivalOrder(w) && OrderGrows(w.ch, v.ch, [], [])
    requires v.parkedSenders == w.parkedSenders && v.parkedReceivers == w.parkedReceivers
    ensures InArrivalOrder(v)
  {
    ArrivalOrderGrows(w, v, [], []);
  }

  lemma ArrivalOrderRecvReady<T>(w: World<T>, op: nat)
    requires InArrivalOrder(w)
    ensures InArrivalOrder(DoRecvReady(w, op))
  {
    TryRecvOrder(w.ch);
    ArrivalOrderKept(w, DoRecvReady(w, op));
  }

  lemma ArrivalOrderClose<T>(w: World<T>)
    requires InArrivalOrder(w)
    ensures InArrivalOrder(DoCloseWakeAll(w))
  {
    assert Handles<Msg<T>>([]) == [];
  }

  lemma ArrivalOrderStep<T>(w: World<T>, a: Action<T>)
    requires InArrivalOrder(w)
    ensures InArrivalOrder(Next(w, a))
  {
    if Enabled(w, a) {
      match a
      case SendReady(op, body) => ArrivalOrderSendReady(w, op, body);
      case RecvReady(op) => ArrivalOrderRecvReady(w, op);
      case SendSuspend(op) => ArrivalOrderSendSuspend(w, op);
      case RecvSuspend(op) => ArrivalOrderRecvSuspend(w, op);
      case CloseExchange =>
      case CloseWakeAll => ArrivalOrderClose(w);
    }
  }

  lemma {:induction false} StrandedLogged<T>(capacity: nat, actions: seq<Action<T>>, op: nat)
    ensures op in Run(capacity, actions).stranded <==> HandedOver(capacity, actions, op)
  {
    if |actions| > 0 {
      var n := |actions| - 1;
      var w := Run(capacity, actions[..n]);
      StrandedLogged(capacity, actions[..n], op);
      forall k | 0 <= k <= n ensures actions[..n][..k] == actions[..k] {}
      assert op in Next(w, actions[n]).stranded
        <==> op in w.stranded || (actions[n] == SendSuspend(op) && HandsOver(w, op)) by {
        StrandedStep(w, actions[n], op);
      }
    }
  }

  /** Somewhere in the run, op registered as a sender on an open channel that had a waiting receiver. */
  ghost predicate HandedOver<T>(capacity: nat, actions: seq<Action<T>>, op: nat) {
    exists k | 0 <= k < |actions| :: actions[k] == SendSuspend(op) && HandsOver(Run(capacity, actions[..k]), op)
  }

  /** Suspended, never scheduled by the channel, and in neither of its lists: the channel has forgotten op. */
  ghost predicate Forgotten<T>(w: World<T>, op: nat) {
    op in w.suspended && op !in w.scheduled && op !in w.ch.recvWaiters && op !in Handles(w.ch.sendWaiters)
  }

  /**
   A coroutine is forgotten by the channel, exactly when it registered as a sender on an open channel that had a
   waiting receiver.
   */
  lemma StrandedExactly<T(00)>(capacity: nat, actions: seq<Action<T>>, op: nat)
    ensures Forgotten(Run(capacity, actions), op) <==> HandedOver(capacity, actions, op)
  {
    StrandedLogged(capacity, actions, op);
    ScheduledOnce(capacity, actions, op);
  }

  lemma StrandedStep<T>(w: World<T>, a: Action<T>, op: nat)
    ensures op in Next(w, a).stranded <==> op in w.stranded || (a == SendSuspend(op) && HandsOver(w, op))
  {
  }

  /**
   A forgotten sender is never scheduled by the channel and never waits there again, whatever happens later. That it
   goes on all the same is the work of the scheduler, which puts back whatever is not done when resume returns.
   */
  lemma StrandedForever<T(00)>(capacity: nat, actions: seq<Action<T>>, more: seq<Action<T>>, op: nat)
    requires Forgotten(Run(capacity, actions), op)
    ensures Forgotten(Run(capacity, actions + more), op)
  {
    StrandedExactly(capacity, actions, op);
    var k :| 0 <= k < |actions| && actions[k] == SendSuspend(op) && HandsOver(Run(capacity, actions[..k]), op);
    assert (actions + more)[..k] == actions[..k];
    assert (actions + more)[k] == SendSuspend(op);
    StrandedExactly(capacity, actions + more, op);
  }

  /** Sender 2 has found no receiver and is about to register; receiver 1 has registered in the meantime. */
  ghost function Crossed<T>(m: Msg<T>): World<T> {
    Start<T>(0).(ch := Chan(0, false, [], [], [1]), begun := {1, 2}, tried := map[2 := ToSend(m)],
                 suspended := [1], requests := [1], parkedReceivers := [1], asked := [1])
  }

  lemma CrossedReachable<T>(body: T)
    ensures Next(Next(Next(Start(0), RecvReady(1)), SendReady(2, body)), RecvSuspend(1)) == Crossed(Msg(2, body))
  {
    var w1 := Start<T>(0).(begun := {1}, tried := map[1 := ToRecv]);
    var w2 := w1.(begun := {1, 2}, tried := map[1 := ToRecv, 2 := ToSend(Msg(2, body))]);
    assert Next(Start(0), RecvReady(1)) == w1;
    assert Next(w1, SendReady(2, body)) == w2;
    assert w2.tried - {1} == map[2 := ToSend(Msg(2, body))];
  }

  /**
   It does happen, already on an unbuffered channel with one sender and one receiver: both find nobody, the
   receiver registers first, and the sender then hands its value over and is not scheduled by the channel.
   */
  lemma StrandedExample<T>(body: T)
    ensures var w := Run(0, [RecvReady(1), SendReady(2, body), RecvSuspend(1), SendSuspend(2)]);
            w.got == [Delivery(1, Msg(2, body))] && w.scheduled == [1] && Forgotten(w, 2)
  {
    FourSteps(Start<T>(0), RecvReady(1), SendReady(2, body), RecvSuspend(1), SendSuspend(2));
    CrossedReachable(body);
    assert HandsOver(Crossed(Msg(2, body)), 2);
  }
}
