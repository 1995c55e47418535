/**
 The timer part of the event loop: the table that add_timer, cancel_timer and handle_timers update in place. The
 clock's reading and the hash map's iteration order come in from outside; running a callback is an entry in `fired`.
 */
module EventLoops {
  import opened TimerSpec

  /** The table after the due timers among those seen have been erased. */
  ghost function Left(timers: Table, seen: set<nat>, now: Instant): Table {
    map h | h in timers && (h in seen ==> timers[h] > now) :: timers[h]
  }

  lemma LeftStep(timers: Table, seen: set<nat>, now: Instant, h: nat)
    requires h in timers && h !in seen
    ensures h in Left(timers, seen, now) && Left(timers, seen, now)[h] == timers[h]
    ensures Left(timers, seen + {h}, now)
         == if timers[h] <= now then Left(timers, seen, now) - {h} else Left(timers, seen, now)
  {
  }

  /** The smallest timeout of the timers seen so far that are not due, or the maximum. */
  ghost predicate TimeoutSoFar(timers: Table, seen: set<nat>, now: Instant, t: int) {
    && (forall h | h in seen && h in timers && timers[h] > now :: t <= Millis(timers[h] - now))
    && (t == MAX_MILLIS || exists h :: h in seen && h in timers && timers[h] > now && t == Millis(timers[h] - now))
  }

  lemma TimeoutStep(timers: Table, seen: set<nat>, now: Instant, t: int, h: nat)
    requires h in timers && TimeoutSoFar(timers, seen, now, t)
    ensures TimeoutSoFar(timers, seen + {h}, now,
                         if timers[h] > now && Millis(timers[h] - now) < t then Millis(timers[h] - now) else t)
  {
  }

  /** After visiting the timers `before`, which are those in `seen`: what is left, what has fired, the timeout. */
  ghost predicate Visited(timers: Table, before: seq<nat>, seen: set<nat>, now: Instant,
                          left: Table, fired: seq<nat>, t: int)
  {
    && left == Left(timers, seen, now)
    && fired == Due(before, timers, now)
    && TimeoutSoFar(timers, seen, now, t)
  }

  lemma VisitDue(timers: Table, before: seq<nat>, seen: set<nat>, now: Instant,
                 left: Table, fired: seq<nat>, t: int, h: nat)
    requires Visited(timers, before, seen, now, left, fired, t) && h in timers && h !in seen && timers[h] <= now
    ensures Visited(timers, before + [h], seen + {h}, now, left - {h}, fired + [h], t)
  {
    LeftStep(timers, seen, now, h);
    TimeoutStep(timers, seen, now, t, h);
    DueGrows(before, h, timers, now);
  }

  lemma VisitPending(timers: Table, before: seq<nat>, seen: set<nat>, now: Instant,
                     left: Table, fired: seq<nat>, t: int, h: nat)
    requires Visited(timers, before, seen, now, left, fired, t) && h in timers && h !in seen && timers[h] > now
    ensures var mine := Millis(timers[h] - now);
            Visited(timers, before + [h], seen + {h}, now, left, fired, if mine < t then mine else t)
  {
    LeftStep(timers, seen, now, h);
    TimeoutStep(timers, seen, now, t, h);
    DueGrows(before, h, timers, now);
  }

  lemma AllSeen(timers: Table, seen: set<nat>, now: Instant, t: int)
    requires timers.Keys <= seen && TimeoutSoFar(timers, seen, now, t)
    ensures Left(timers, seen, now) == Remaining(timers, now)
    ensures IsTimeout(Remaining(timers, now), now, t)
  {
    var rest := Remaining(timers, now);
    assert forall k | k in rest :: k in seen && rest[k] == timers[k];
    if t != MAX_MILLIS {
      var g :| g in seen && g in timers && timers[g] > now && t == Millis(timers[g] - now);
      assert g in rest && rest[g] == timers[g];
    }
    forall h | h in rest ensures Millis(rest[h] - now) < MAX_MILLIS {}
  }

  lemma FiredGrows(fs: seq<Firing>, due: seq<nat>, now: Instant)
    ensures Fired(fs + Firings(due, now)) == Fired(fs) + due
  {
  }

  class EventLoop {
    var timers: map<nat, Instant>
    var nextTimerId: nat
    var fired: seq<nat>

    /** This object is loop l of a whole run, but for the logs that it does not keep. */
    ghost predicate Mirrors(l: Loop)
      reads this
    {
      timers == l.timers && nextTimerId == l.nextId && fired == Fired(l.fired)
    }

    constructor ()
      ensures forall now :: Mirrors(Start(now))
      ensures timers == map[] && nextTimerId == 1 && fired == []
    {
      timers, nextTimerId, fired := map[], 1, [];
    }

    method AddTimer(now: Instant, delay: int) returns (handle: nat)
      requires InRange(now + delay * NANOS_PER_MILLI)
      modifies this`timers, this`nextTimerId
      ensures handle == old(nextTimerId) && nextTimerId == old(nextTimerId) + 1
      ensures timers == old(timers)[handle := now + delay * NANOS_PER_MILLI]
      ensures forall l: Loop | l.now == now && old(Mirrors(l)) :: Mirrors(Next(l, Add(delay)))
    {
      var expireTime := now + delay * NANOS_PER_MILLI;
      handle := nextTimerId;
      nextTimerId := nextTimerId + 1;
      timers := timers[handle := expireTime];
    }

    method CancelTimer(handle: nat) returns (wasPending: bool)
      modifies this`timers
      ensures wasPending <==> handle in old(timers)
      ensures timers == old(timers) - {handle}
      ensures forall l: Loop | old(Mirrors(l)) :: Mirrors(Next(l, Cancel(handle)))
    {
      wasPending := handle in timers;
      timers := timers - {handle};
    }

    /** The loop over the table in the given order, erasing while it goes. */
    method ScanTimers(now: Instant, order: seq<nat>) returns (timeout: int)
      requires IsOrder(order, timers)
      modifies this`timers, this`fired
      ensures timers == Remaining(old(timers), now)
      ensures fired == old(fired) + Due(order, old(timers), now)
      ensures IsTimeout(timers, now, timeout)
    {
      timeout := MAX_MILLIS;
      ghost var was := timers;
      ghost var seen: set<nat>, before: seq<nat>, due: seq<nat> := {}, [], [];
      for i := 0 to |order|
        invariant forall k | 0 <= k < |order| :: order[k] in seen <==> k < i
        invariant before == order[..i] && fired == old(fired) + due
        invariant Visited(was, before, seen, now, timers, due, timeout)
      {
        var handle := order[i];
        var expireTime := timers[handle];
        if expireTime <= now {
          VisitDue(was, before, seen, now, timers, due, timeout, handle);
          fired, due := fired + [handle], due + [handle];
          timers := timers - {handle};
        } else {
          VisitPending(was, before, seen, now, timers, due, timeout, handle);
          var remaining := Millis(expireTime - now);
          if remaining < timeout { timeout := remaining; }
        }
        seen, before := seen + {handle}, before + [handle];
      }
      assert before == order;
      AllSeen(was, seen, now, timeout);
    }

    /** One pass over the table. */
    method HandleTimers(now: Instant, order: seq<nat>) returns (timeout: int)
      requires IsOrder(order, timers)
      modifies this`timers, this`fired
      ensures timers == Remaining(old(timers), now)
      ensures fired == old(fired) + Due(order, old(timers), now)
      ensures IsTimeout(timers, now, timeout)
      ensures forall l: Loop | l.now == now && old(Mirrors(l)) :: Mirrors(Next(l, Pass(order)))
    {
      ghost var due := Due(order, timers, now);
      timeout := ScanTimers(now, order);
      forall l: Loop | l.now == now && old(Mirrors(l)) ensures Mirrors(Next(l, Pass(order))) {
        FiredGrows(l.fired, due, now);
      }
    }
  }
}
