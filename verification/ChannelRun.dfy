/**
 Any number of coroutines using one channel, interleaved in any order.

 A coroutine's `co_await ch.send(v)` is two critical sections with room for others in between:
 `await_ready` (try_send) and, if that said no, `await_suspend` (register_send_waiter). Receiving is the same,
 and `close` is the exchange of the flag followed, later, by the locked drain. A run is any list of such
 steps; a step that is not enabled where it stands in the list changes nothing, so every list is a run.

 Each operation, an await or a single try, has a number of its own, which stands for its coroutine where a handle is
 meant; several awaits of one coroutine are so told apart. Each message is tagged with the operation that sent it, so
 that two sends of equal values can be told apart.
 */
module ChannelRun {
  import opened ChannelSpec

  datatype Msg<+T> = Msg(from: nat, body: T)

  datatype Action<+T> =
    | SendReady(op: nat, body: T)
    | SendSuspend(op: nat)
    | RecvReady(op: nat)
    | RecvSuspend(op: nat)
    | CloseExchange
    | CloseWakeAll

  /** What an operation between its two halves still has to do. */
  datatype Pending<+T> = ToSend(msg: Msg<T>) | ToRecv

  datatype World<+T> = World(
    ch: Chan<Msg<T>>,
    draining: bool,                  // close has set the flag but not yet taken the lock
    begun: set<nat>,                 // operation numbers in use
    tried: map<nat, Pending<T>>,     // await_ready said no, await_suspend has not run yet
    committed: seq<Msg<T>>,          // every message given to the channel for good
    requests: seq<nat>,              // every receive answered by await_ready or suspended
    suspended: seq<nat>,             // every coroutine that ran await_suspend
    got: seq<Delivery<Msg<T>>>,      // values received, in the order of reception
    failed: seq<nat>,                // receives that ended with result false
    dropped: seq<Msg<T>>,            // messages thrown away by a close
    freed: seq<nat>,                 // senders that were let go on
    stranded: seq<nat>,              // senders whose value was taken but who were not scheduled
    scheduled: seq<nat>,             // handles passed to runtime::schedule by the channel
    parkedSenders: seq<nat>,         // every sender ever put into the list of waiting senders
    parkedReceivers: seq<nat>,
    sent: seq<Msg<T>>,               // accepted sends, in order, but for those a close withdrew
    asked: seq<nat>)                 // accepted receives, in order, but for those a close withdrew

  ghost function Start<T>(capacity: nat): World<T> {
    World(Empty(capacity), false, {}, map[], [], [], [], [], [], [], [], [], [], [], [], [], [])
  }

  ghost predicate Sending<T>(w: World<T>, op: nat) {
    op in w.tried && w.tried[op].ToSend?
  }

  ghost predicate Receiving<T>(w: World<T>, op: nat) {
    op in w.tried && w.tried[op].ToRecv?
  }

  ghost predicate Enabled<T>(w: World<T>, a: Action<T>) {
    match a
    case SendReady(op, _) => op !in w.begun
    case SendSuspend(op) => Sending(w, op)
    case RecvReady(op) => op !in w.begun
    case RecvSuspend(op) => Receiving(w, op)
    case CloseExchange => true
    case CloseWakeAll => w.draining
  }

  /** Records what a critical section did. */
  ghost function Record<T>(w: World<T>, o: Outcome<Msg<T>>): World<T> {
    w.(ch := o.ch,
       got := w.got + o.delivered,
       failed := w.failed + o.failed,
       freed := w.freed + o.released,
       scheduled := w.scheduled + o.scheduled)
  }

  ghost function DoSendReady<T>(w: World<T>, op: nat, body: T): World<T> {
    var m := Msg(op, body);
    var o := TrySend(w.ch, m);
    if o.ok then
      Record(w, o.(released := [op])).(
        begun := w.begun + {op}, committed := w.committed + [m], sent := w.sent + [m])
    else
      Record(w, o).(begun := w.begun + {op}, tried := w.tried[op := ToSend(m)])
  }

  ghost function DoRecvReady<T>(w: World<T>, op: nat): World<T> {
    var o := TryRecv(w.ch);
    if o.value.Some? then
      Record(w, o.(delivered := [Delivery(op, o.value.value)])).(
        begun := w.begun + {op}, requests := w.requests + [op], asked := w.asked + [op])
    else
      Record(w, o).(begun := w.begun + {op}, tried := w.tried[op := ToRecv])
  }

  ghost function DoSendSuspend<T>(w: World<T>, op: nat): World<T>
    requires Sending(w, op)
  {
    var m := w.tried[op].msg;
    var o := RegisterSend(w.ch, op, m);
    var v := Record(w, o).(tried := w.tried - {op}, suspended := w.suspended + [op],
                           committed := w.committed + [m]);
    if !o.ok then v.(dropped := w.dropped + [m])
    else if HandsOver(w, op) then v.(stranded := w.stranded + [op], sent := w.sent + [m])
    else v.(parkedSenders := w.parkedSenders + [op], sent := w.sent + [m])
  }

  /** The branch of register_send_waiter that gives the value to a waiting receiver. */
  ghost predicate HandsOver<T>(w: World<T>, op: nat) {
    Sending(w, op) && !w.ch.closed && w.ch.recvWaiters != []
  }

  ghost function DoRecvSuspend<T>(w: World<T>, op: nat): World<T> {
    var o := RegisterRecv(w.ch, op);
    var v := Record(w, o).(tried := w.tried - {op}, suspended := w.suspended + [op],
                           requests := w.requests + [op]);
    if !o.ok then v
    else if w.ch.sendWaiters == [] then
      v.(parkedReceivers := w.parkedReceivers + [op], asked := w.asked + [op])
    else v.(asked := w.asked + [op])
  }

  ghost function AllBut<X>(s: seq<X>, n: nat): seq<X> {
    if n <= |s| then s[..|s| - n] else []
  }

  ghost function DoCloseWakeAll<T>(w: World<T>): World<T> {
    Record(w, CloseDrain(w.ch)).(
      draining := false,
      dropped := w.dropped + Values(w.ch.sendWaiters),
      sent := AllBut(w.sent, |w.ch.sendWaiters|),
      asked := AllBut(w.asked, |w.ch.recvWaiters|))
  }

  ghost function Next<T>(w: World<T>, a: Action<T>): World<T> {
    if !Enabled(w, a) then w
    else match a
      case SendReady(op, body) => DoSendReady(w, op, body)
      case SendSuspend(op) => DoSendSuspend(w, op)
      case RecvReady(op) => DoRecvReady(w, op)
      case RecvSuspend(op) => DoRecvSuspend(w, op)
      case CloseExchange =>
        var o := CloseFlag(w.ch);
        Record(w, o).(draining := w.draining || o.ok)
      case CloseWakeAll => DoCloseWakeAll(w)
  }

  /** An action is its critical section, as far as the channel is concerned. */
  lemma ChannelAfter<T>(w: World<T>, a: Action<T>)
    requires Enabled(w, a)
    ensures a.SendReady? ==> Next(w, a).ch == TrySend(w.ch, Msg(a.op, a.body)).ch
    ensures a.RecvReady? ==> Next(w, a).ch == TryRecv(w.ch).ch
    ensures a.SendSuspend? ==> Next(w, a).ch == RegisterSend(w.ch, a.op, w.tried[a.op].msg).ch
    ensures a.RecvSuspend? ==> Next(w, a).ch == RegisterRecv(w.ch, a.op).ch
    ensures a.CloseExchange? ==> Next(w, a).ch == CloseFlag(w.ch).ch
    ensures a.CloseWakeAll? ==> Next(w, a).ch == CloseDrain(w.ch).ch
  {
  }

  lemma ClosedStays<T>(w: World<T>, a: Action<T>)
    requires w.ch.closed
    ensures Next(w, a).ch.closed
  {
  }

  ghost function Continue<T>(w: World<T>, actions: seq<Action<T>>): World<T> {
    if |actions| == 0 then w
    else Next(Continue(w, actions[..|actions| - 1]), actions[|actions| - 1])
  }

  ghost function Run<T>(capacity: nat, actions: seq<Action<T>>): World<T> {
    Continue(Start(capacity), actions)
  }

  lemma {:induction false} ContinueConcat<T>(w: World<T>, a: seq<Action<T>>, b: seq<Action<T>>)
    ensures Continue(w, a + b) == Continue(Continue(w, a), b)
  {
    if |b| == 0 {
      assert a + b == a;
    } else {
      var n := |b| - 1;
      assert (a + b)[..|a + b| - 1] == a + b[..n];
      ContinueConcat(w, a, b[..n]);
    }
  }

  /** Unrolls a short run. */
  lemma FourSteps<T>(w: World<T>, a: Action<T>, b: Action<T>, c: Action<T>, d: Action<T>)
    ensures Continue(w, [a, b, c, d]) == Next(Next(Next(Next(w, a), b), c), d)
  {
    assert [a, b, c, d][..3] == [a, b, c];
    assert [a, b, c][..2] == [a, b];
    assert [a, b][..1] == [a];
    assert Continue(w, [a]) == Next(w, a);
    assert Continue(w, [a, b]) == Next(Next(w, a), b);
    assert Continue(w, [a, b, c]) == Next(Next(Next(w, a), b), c);
  }
}
