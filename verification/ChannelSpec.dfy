/**
 The channel's critical sections as functions from one channel value to the next.

 Every function below is one section that `channel<T>` runs under its mutex (or, for CloseFlag, its one
 atomic exchange). Besides the new channel value it says what the section did to the coroutines involved:
 which receivers had their value slot written and their result set to true, which receivers had their
 result set to false, which senders were let go, and the handles passed to `runtime::schedule`, in order.
 */
module ChannelSpec {
  import opened Wrappers

  /** A blocked sender: its coroutine handle and the value it carries. */
  datatype SendWaiter<+T> = SendWaiter(handle: nat, value: T)

  /** The fields of `channel<T>`. A blocked receiver is known by its handle. */
  datatype Chan<+T> = Chan(
    capacity: nat,
    closed: bool,
    buffer: seq<T>,
    sendWaiters: seq<SendWaiter<T>>,
    recvWaiters: seq<nat>)

  /** A value written into the slot of a receiver whose result is set to true. */
  datatype Delivery<+T> = Delivery(to: nat, value: T)

  datatype Outcome<+T> = Outcome(
    ch: Chan<T>,
    ok: bool,
    value: Option<T>,
    delivered: seq<Delivery<T>>,
    failed: seq<nat>,
    released: seq<nat>,
    scheduled: seq<nat>)

  function Quiet<T>(c: Chan<T>, ok: bool): Outcome<T> {
    Outcome(c, ok, None, [], [], [], [])
  }

  function Empty<T>(capacity: nat): Chan<T> {
    Chan(capacity, false, [], [], [])
  }

  predicate IsEmpty<T>(c: Chan<T>) {
    c.buffer == []
  }

  predicate IsFull<T>(c: Chan<T>) {
    c.capacity == 0 || |c.buffer| >= c.capacity
  }

  /** Gives v to the receiver that has waited longest. */
  function HandOver<T>(c: Chan<T>, v: T): Outcome<T>
    requires c.recvWaiters != []
  {
    var r := c.recvWaiters[0];
    Outcome(c.(recvWaiters := c.recvWaiters[1..]), true, None, [Delivery(r, v)], [], [], [r])
  }

  function TrySend<T>(c: Chan<T>, v: T): Outcome<T> {
    if c.closed then Quiet(c, false)
    else if |c.recvWaiters| > 0 then HandOver(c, v)
    else if IsFull(c) then Quiet(c, false)
    else Quiet(c.(buffer := c.buffer + [v]), true)
  }

  function TryRecv<T>(c: Chan<T>): Outcome<T> {
    if c.closed && |c.buffer| == 0 then Quiet(c, false)
    else if |c.buffer| > 0 then
      if |c.sendWaiters| > 0 then
        var s := c.sendWaiters[0];
        Outcome(
          c.(buffer := c.buffer[1..] + [s.value], sendWaiters := c.sendWaiters[1..]),
          true, Some(c.buffer[0]), [], [], [s.handle], [s.handle])
      else
        Quiet(c.(buffer := c.buffer[1..]), true).(value := Some(c.buffer[0]))
    else if |c.sendWaiters| > 0 then
      var s := c.sendWaiters[0];
      Outcome(c.(sendWaiters := c.sendWaiters[1..]), true, Some(s.value), [], [], [s.handle], [s.handle])
    else Quiet(c, false)
  }

  /** `ok` says that the value was accepted: it waits, or a waiting receiver took it. */
  function RegisterSend<T>(c: Chan<T>, h: nat, v: T): Outcome<T> {
    if c.closed then Quiet(c, false).(released := [h], scheduled := [h])
    else if |c.recvWaiters| > 0 then HandOver(c, v)
    else Quiet(c.(sendWaiters := c.sendWaiters + [SendWaiter(h, v)]), true)
  }

  /** `ok` says that the request was accepted: it waits, or a waiting sender answered it. */
  function RegisterRecv<T>(c: Chan<T>, h: nat): Outcome<T> {
    if c.closed then Quiet(c, false).(failed := [h], scheduled := [h])
    else if |c.sendWaiters| > 0 then
      var s := c.sendWaiters[0];
      Outcome(c.(sendWaiters := c.sendWaiters[1..]), true, None,
              [Delivery(h, s.value)], [], [s.handle], [h, s.handle])
    else Quiet(c.(recvWaiters := c.recvWaiters + [h]), true)
  }

  /** The atomic exchange that starts a close; `ok` says that this call found the channel open. */
  function CloseFlag<T>(c: Chan<T>): Outcome<T> {
    Quiet(c.(closed := true), !c.closed)
  }

  function Handles<T>(ws: seq<SendWaiter<T>>): (hs: seq<nat>)
    ensures |hs| == |ws|
  {
    seq(|ws|, i requires 0 <= i < |ws| => ws[i].handle)
  }

  function Values<T>(ws: seq<SendWaiter<T>>): (vs: seq<T>)
    ensures |vs| == |ws|
  {
    seq(|ws|, i requires 0 <= i < |ws| => ws[i].value)
  }

  function Receivers<T>(ds: seq<Delivery<T>>): (hs: seq<nat>)
    ensures |hs| == |ds|
  {
    seq(|ds|, i requires 0 <= i < |ds| => ds[i].to)
  }

  function Payloads<T>(ds: seq<Delivery<T>>): (vs: seq<T>)
    ensures |vs| == |ds|
  {
    seq(|ds|, i requires 0 <= i < |ds| => ds[i].value)
  }

  /** The locked second half of a close: wakes every sender, then fails every receiver. */
  function CloseDrain<T>(c: Chan<T>): Outcome<T> {
    var senders := Handles(c.sendWaiters);
    Outcome(c.(sendWaiters := [], recvWaiters := []), true, None,
            [], c.recvWaiters, senders, senders + c.recvWaiters)
  }

  /** What the two halves of `co_await ch.send(v)` come to when nothing runs in between. */
  function AwaitSend<T>(c: Chan<T>, h: nat, v: T): Outcome<T> {
    var o := TrySend(c, v);
    if o.ok then o else RegisterSend(c, h, v)
  }

  /** Likewise for `co_await ch.recv(slot)`; a value found at once is delivered to the receiver itself. */
  function AwaitRecv<T>(c: Chan<T>, h: nat): Outcome<T> {
    var o := TryRecv(c);
    if o.ok && o.value.Some? then o.(delivered := [Delivery(h, o.value.value)]) else RegisterRecv(c, h)
  }
}
