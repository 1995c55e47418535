/**
 The channel itself: a mutable object whose methods are the critical sections of `channel<T>`, each proved
 against the function of ChannelSpec that describes it.
 */
module Channels {
  import opened Wrappers
  import opened ChannelSpec

  /** The awaiter of one receive: the slot for the value and the result that await_resume returns. */
  class RecvAwaiter<T> {
    const handle: nat
    var value: T
    var result: bool

    constructor (handle: nat, value: T)
      ensures this.handle == handle && this.value == value && !this.result
    {
      this.handle := handle;
      this.value := value;
      this.result := false;
    }
  }

  ghost function HandlesOf<T>(ws: seq<RecvAwaiter<T>>): (hs: seq<nat>)
    ensures |hs| == |ws|
  {
    seq(|ws|, i requires 0 <= i < |ws| => ws[i].handle)
  }

  /**
   Awaiters are told apart as objects, because one coroutine, and so one handle, may wait more than once. The
   awaiters `hit` are, in order, those that outcome o delivers a value to and those that it fails; they hold what
   was written into them, and the others among `known` are as they were.
   */
  twostate predicate Written<T>(o: Outcome<T>, known: seq<RecvAwaiter<T>>, hit: seq<RecvAwaiter<T>>)
    reads known, hit
  {
    var n := |o.delivered|;
    && |hit| == n + |o.failed|
    && (forall i | 0 <= i < n ::
          hit[i].handle == o.delivered[i].to && hit[i].value == o.delivered[i].value && hit[i].result)
    && (forall i | n <= i < |hit| ::
          hit[i].handle == o.failed[i - n] && hit[i].value == old(hit[i].value) && !hit[i].result)
    && (forall a | a in known && a !in hit :: a.value == old(a.value) && a.result == old(a.result))
  }

  /** The waiting receivers that a try_send or a sender's registration with outcome o serves: the first, or nobody. */
  ghost function Served<T>(o: Outcome<T>, ws: seq<RecvAwaiter<T>>): seq<RecvAwaiter<T>> {
    if |o.delivered| <= |ws| then ws[..|o.delivered|] else []
  }

  class Channel<T> {
    const capacity: nat
    var closed: bool
    var buffer: seq<T>
    var sendWaiters: seq<SendWaiter<T>>
    var recvWaiters: seq<RecvAwaiter<T>>
    var scheduled: seq<nat>  // the handles passed to runtime::schedule, in order

    ghost predicate Valid()
      reads this
    {
      forall i, j | 0 <= i < j < |recvWaiters| :: recvWaiters[i] != recvWaiters[j]
    }

    ghost function View(): Chan<T>
      reads this
    {
      Chan(capacity, closed, buffer, sendWaiters, HandlesOf(recvWaiters))
    }

    /**
     This object is as outcome o left it: its fields, with the awaiters `waiting` in its list, the handles it has
     scheduled, and what was written into the awaiters `hit` among those it knew.
     */
    twostate predicate Became(o: Outcome<T>, waiting: seq<RecvAwaiter<T>>,
                              known: seq<RecvAwaiter<T>>, hit: seq<RecvAwaiter<T>>)
      reads this, known, hit
    {
      && View() == o.ch
      && recvWaiters == waiting
      && scheduled == old(scheduled) + o.scheduled
      && Written(o, known, hit)
    }

    /** The same when only the receivers at the front may have been served. */
    twostate predicate ServedFront(o: Outcome<T>, was: seq<RecvAwaiter<T>>)
      reads this, was
    {
      var hit := Served(o, was);
      Became(o, was[|hit|..], was, hit)
    }

    constructor (capacity: nat)
      ensures Valid() && View() == Empty(capacity) && scheduled == []
    {
      this.capacity := capacity;
      closed, buffer, sendWaiters, recvWaiters, scheduled := false, [], [], [], [];
    }

    /** recv_waiter::resume after the value has been written, in the first waiting receiver. */
    method ResumeFirstReceiver(v: T)
      requires Valid() && recvWaiters != []
      modifies this`recvWaiters, this`scheduled, recvWaiters[0]
      ensures Valid() && ServedFront(HandOver(old(View()), v), old(recvWaiters))
    {
      var waiter := recvWaiters[0];
      recvWaiters := recvWaiters[1..];
      waiter.value := v;
      waiter.result := true;
      scheduled := scheduled + [waiter.handle];
      assert HandlesOf(recvWaiters) == HandlesOf(old(recvWaiters))[1..];
    }

    /** try_send, in both overloads. */
    method TrySend(v: T) returns (ok: bool)
      requires Valid()
      modifies this, recvWaiters
      ensures Valid() && ok == ChannelSpec.TrySend(old(View()), v).ok
      ensures ServedFront(ChannelSpec.TrySend(old(View()), v), old(recvWaiters))
    {
      if closed { return false; }
      if |recvWaiters| > 0 {
        ResumeFirstReceiver(v);
        return true;
      }
      if capacity == 0 || |buffer| >= capacity { return false; }
      buffer := buffer + [v];
      return true;
    }

    method TryRecv() returns (ok: bool, value: Option<T>)
      requires Valid()
      modifies this`buffer, this`sendWaiters, this`scheduled
      ensures Valid()
      ensures var o := ChannelSpec.TryRecv(old(View())); ok == o.ok && value == o.value
      ensures Became(ChannelSpec.TryRecv(old(View())), old(recvWaiters), old(recvWaiters), [])
    {
      if closed && |buffer| == 0 { return false, None; }
      if |buffer| > 0 {
        value := Some(buffer[0]);
        buffer := buffer[1..];
        if |sendWaiters| > 0 {
          var waiter := sendWaiters[0];
          sendWaiters := sendWaiters[1..];
          buffer := buffer + [waiter.value];
          scheduled := scheduled + [waiter.handle];
        }
        return true, value;
      }
      if |sendWaiters| > 0 {
        var waiter := sendWaiters[0];
        sendWaiters := sendWaiters[1..];
        scheduled := scheduled + [waiter.handle];
        return true, Some(waiter.value);
      }
      return false, None;
    }

    method RegisterSendWaiter(handle: nat, v: T)
      requires Valid()
      modifies this, recvWaiters
      ensures Valid() && ServedFront(RegisterSend(old(View()), handle, v), old(recvWaiters))
    {
      if closed {
        scheduled := scheduled + [handle];
        return;
      }
      if |recvWaiters| > 0 {
        ResumeFirstReceiver(v);
        return;
      }
      sendWaiters := sendWaiters + [SendWaiter(handle, v)];
    }

    /** After a receive has been registered with outcome o: the awaiter has been answered or failed, or it waits. */
    twostate predicate Registered(o: Outcome<T>, was: seq<RecvAwaiter<T>>, awaiter: RecvAwaiter<T>)
      reads this, was, awaiter
    {
      if o.delivered == [] && o.failed == [] then Became(o, was + [awaiter], was + [awaiter], [])
      else Became(o, was, was + [awaiter], [awaiter])
    }

    /** The awaiter is a new object, as that of each co_await is; its handle may be that of a coroutine that waits. */
    method RegisterRecvWaiter(awaiter: RecvAwaiter<T>)
      requires Valid() && awaiter !in recvWaiters
      modifies this, awaiter
      ensures Valid() && Registered(RegisterRecv(old(View()), awaiter.handle), old(recvWaiters), awaiter)
    {
      if closed {
        awaiter.result := false;
        scheduled := scheduled + [awaiter.handle];
        return;
      }
      if |sendWaiters| > 0 {
        var waiter := sendWaiters[0];
        sendWaiters := sendWaiters[1..];
        awaiter.value := waiter.value;
        awaiter.result := true;
        scheduled := scheduled + [awaiter.handle];
        scheduled := scheduled + [waiter.handle];
        return;
      }
      recvWaiters := recvWaiters + [awaiter];
      assert HandlesOf(recvWaiters) == HandlesOf(old(recvWaiters)) + [awaiter.handle];
    }

    /** The first half of close(): the exchange. */
    method ExchangeClosed() returns (wasClosed: bool)
      requires Valid()
      modifies this`closed
      ensures Valid() && wasClosed == old(closed)
      ensures Became(CloseFlag(old(View())), old(recvWaiters), old(recvWaiters), [])
    {
      wasClosed := closed;
      closed := true;
    }

    /** The second half of close(): wakes every waiter, under the lock. */
    method WakeAllWaiters()
      requires Valid()
      modifies this, recvWaiters
      ensures Valid() && Became(CloseDrain(old(View())), [], old(recvWaiters), old(recvWaiters))
    {
      ghost var senders := Handles(sendWaiters);
      for i := 0 to |sendWaiters|
        invariant sendWaiters == old(sendWaiters) && recvWaiters == old(recvWaiters)
        invariant closed == old(closed) && buffer == old(buffer)
        invariant scheduled == old(scheduled) + senders[..i]
        invariant forall a | a in recvWaiters :: a.value == old(a.value) && a.result == old(a.result)
      {
        scheduled := scheduled + [sendWaiters[i].handle];
      }
      sendWaiters := [];
      ghost var receivers := HandlesOf(recvWaiters);
      for i := 0 to |recvWaiters|
        invariant sendWaiters == [] && recvWaiters == old(recvWaiters)
        invariant closed == old(closed) && buffer == old(buffer)
        invariant scheduled == old(scheduled) + (senders + receivers[..i])
        invariant forall a | a in recvWaiters :: a.value == old(a.value)
        invariant forall k | 0 <= k < i :: !recvWaiters[k].result
      {
        recvWaiters[i].result := false;
        scheduled := scheduled + [recvWaiters[i].handle];
      }
      assert receivers[..|recvWaiters|] == receivers;
      recvWaiters := [];
    }

    /** close() without interruption. */
    method Close()
      requires Valid()
      modifies this, recvWaiters
      ensures Valid() && closed
      ensures !old(closed) ==>
                Became(CloseDrain(CloseFlag(old(View())).ch), [], old(recvWaiters), old(recvWaiters))
      ensures old(closed) ==> Became(Quiet(old(View()), true), old(recvWaiters), old(recvWaiters), [])
    {
      var wasClosed := ExchangeClosed();
      if wasClosed { return; }
      WakeAllWaiters();
    }

    method IsClosed() returns (r: bool)
      ensures r == View().closed
    {
      r := closed;
    }

    method IsEmpty() returns (r: bool)
      ensures r == ChannelSpec.IsEmpty(View())
    {
      r := |buffer| == 0;
    }

    method IsFull() returns (r: bool)
      ensures r == ChannelSpec.IsFull(View())
    {
      if capacity == 0 { return true; }
      r := |buffer| >= capacity;
    }

    /** `co_await ch.send(v)` without interruption: await_ready, then await_suspend if it said no. */
    method Send(handle: nat, v: T) returns (suspended: bool)
      requires Valid()
      modifies this, recvWaiters
      ensures Valid() && suspended == !ChannelSpec.TrySend(old(View()), v).ok
      ensures ServedFront(AwaitSend(old(View()), handle, v), old(recvWaiters))
    {
      var ready := TrySend(v);
      if !ready { RegisterSendWaiter(handle, v); }
      suspended := !ready;
    }

    /** `co_await ch.recv(slot)` without interruption; a value found at once is written into the awaiter. */
    method Recv(awaiter: RecvAwaiter<T>) returns (suspended: bool)
      requires Valid() && awaiter !in recvWaiters
      modifies this, awaiter
      ensures Valid() && suspended == !ChannelSpec.TryRecv(old(View())).ok
      ensures Registered(AwaitRecv(old(View()), awaiter.handle), old(recvWaiters), awaiter)
    {
      var ready, value := TryRecv();
      if ready {
        awaiter.value := value.value;
        awaiter.result := true;
      } else {
        RegisterRecvWaiter(awaiter);
      }
      suspended := !ready;
    }
  }
}
