/**
 The timers of the event loop as functions on a table of deadlines. Times are nanoseconds since the epoch of the
 steady clock and fit into 64 bits with a sign; delays and timeouts are milliseconds.
 */
module TimerSpec {

  const NANOS_PER_MILLI := 1_000_000
  const MAX_MILLIS := 0x7FFF_FFFF_FFFF_FFFF  // std::chrono::milliseconds::max()

  type Instant = t: int | -0x8000_0000_0000_0000 <= t < 0x8000_0000_0000_0000

  type Table = map<nat, Instant>

  /** duration_cast of a positive difference: drops the fraction of a millisecond. */
  function Millis(nanos: nat): nat {
    nanos / NANOS_PER_MILLI
  }

  function Remaining(timers: Table, now: Instant): Table {
    map h | h in timers && timers[h] > now :: timers[h]
  }

  /** An iteration order of the table: each timer once. */
  ghost predicate IsOrder(order: seq<nat>, timers: Table) {
    && (forall i, j | 0 <= i < j < |order| :: order[i] != order[j])
    && (forall h :: h in order <==> h in timers)
  }

  /** The timers that are due, in iteration order. */
  ghost function Due(order: seq<nat>, timers: Table, now: Instant): seq<nat> {
    if |order| == 0 then []
    else
      var n := |order| - 1;
      var h := order[n];
      Due(order[..n], timers, now) + if h in timers && timers[h] <= now then [h] else []
  }

  lemma DueGrows(order: seq<nat>, h: nat, timers: Table, now: Instant)
    ensures Due(order + [h], timers, now)
         == Due(order, timers, now) + if h in timers && timers[h] <= now then [h] else []
  {
    assert (order + [h])[..|order|] == order;
  }

  /** t is the smallest whole number of milliseconds until one of the deadlines, or the maximum if there are none. */
  ghost predicate IsTimeout(timers: Table, now: Instant, t: int)
    requires forall h | h in timers :: timers[h] > now
  {
    if timers == map[] then t == MAX_MILLIS
    else
      && (exists h | h in timers :: t == Millis(timers[h] - now))
      && (forall h | h in timers :: t <= Millis(timers[h] - now))
  }

  lemma {:induction false} DueOnce(order: seq<nat>, timers: Table, now: Instant, h: nat)
    requires IsOrder(order, timers)
    ensures multiset(Due(order, timers, now))[h] == if h in timers && timers[h] <= now then 1 else 0
  {
    DueCounts(order, timers, now, h);
    if h in timers { OnceInOrder(order, h); }
  }

  lemma {:induction false} DueCounts(order: seq<nat>, timers: Table, now: Instant, h: nat)
    ensures multiset(Due(order, timers, now))[h]
         == if h in timers && timers[h] <= now then multiset(order)[h] else 0
  {
    if |order| > 0 {
      var n := |order| - 1;
      DueCounts(order[..n], timers, now, h);
      assert order == order[..n] + [order[n]];
    }
  }

  lemma {:induction false} OnceInOrder(order: seq<nat>, h: nat)
    requires forall i, j | 0 <= i < j < |order| :: order[i] != order[j]
    requires h in order
    ensures multiset(order)[h] == 1
  {
    var k :| 0 <= k < |order| && order[k] == h;
    assert order == order[..k] + [h] + order[k + 1..];
    assert h !in order[..k] && h !in order[k + 1..];
  }

  /** The result of a pass does not depend on the iteration order: same timers fired, each once, same timeout. */
  lemma OrderIsIrrelevant(timers: Table, now: Instant, order: seq<nat>, order': seq<nat>, t: int, t': int)
    requires IsOrder(order, timers) && IsOrder(order', timers)
    requires IsTimeout(Remaining(timers, now), now, t) && IsTimeout(Remaining(timers, now), now, t')
    ensures multiset(Due(order, timers, now)) == multiset(Due(order', timers, now))
    ensures t == t'
  {
    forall h: nat ensures multiset(Due(order, timers, now))[h] == multiset(Due(order', timers, now))[h] {
      DueOnce(order, timers, now, h);
      DueOnce(order', timers, now, h);
    }
  }

  ghost predicate IsEarliest(timers: Table, e: int) {
    && (exists h | h in timers :: timers[h] == e)
    && (forall h | h in timers :: e <= timers[h])
  }

  /**
   Waiting for the timeout never passes the earliest deadline and stops less than a millisecond before it; and the
   timeout is the maximum exactly when there is nothing to wait for.
   */
  lemma TimeoutBound(timers: Table, now: Instant, t: int)
    requires forall h | h in timers :: timers[h] > now
    requires IsTimeout(timers, now, t)
    ensures forall e | IsEarliest(timers, e) :: e - NANOS_PER_MILLI < now + t * NANOS_PER_MILLI <= e
    ensures t == MAX_MILLIS <==> timers == map[]
  {
    if timers != map[] {
      var h :| h in timers && t == Millis(timers[h] - now);
      assert t < MAX_MILLIS;
      forall e | IsEarliest(timers, e) ensures e - NANOS_PER_MILLI < now + t * NANOS_PER_MILLI <= e {
        var g :| g in timers && timers[g] == e;
        assert t <= Millis(e - now) <= Millis(timers[h] - now);
      }
    }
  }

  // ---------------------------------------------------------------------------------------------
  // Whole runs
  // ---------------------------------------------------------------------------------------------

  datatype Firing = Firing(handle: nat, at: Instant)

  datatype Action =
    | Tick(nanos: nat)         // the steady clock moves on
    | Add(delay: int)
    | Cancel(handle: nat)
    | Pass(order: seq<nat>)    // handle_timers, with the hash map's iteration order

  datatype Loop = Loop(
    now: Instant,
    timers: Table,
    nextId: nat,
    fired: seq<Firing>,
    cancelled: seq<nat>,
    deadlines: Table)          // what each handle was given when it was added

  ghost function Start(now: Instant): Loop {
    Loop(now, map[], 1, [], [], map[])
  }

  ghost predicate InRange(t: int) {
    -0x8000_0000_0000_0000 <= t < 0x8000_0000_0000_0000
  }

  ghost function Firings(hs: seq<nat>, now: Instant): (fs: seq<Firing>)
    ensures |fs| == |hs|
  {
    seq(|hs|, i requires 0 <= i < |hs| => Firing(hs[i], now))
  }

  ghost function Fired(fs: seq<Firing>): (hs: seq<nat>)
    ensures |hs| == |fs|
  {
    seq(|fs|, i requires 0 <= i < |fs| => fs[i].handle)
  }

  /** A step that cannot be taken changes nothing. Times that would leave the clock's range cannot be asked for. */
  ghost function Next(l: Loop, a: Action): Loop {
    match a
    case Tick(nanos) => if InRange(l.now + nanos) then l.(now := l.now + nanos) else l
    case Add(delay) =>
      var deadline := l.now + delay * NANOS_PER_MILLI;
      if !InRange(deadline) then l
      else l.(timers := l.timers[l.nextId := deadline], nextId := l.nextId + 1,
              deadlines := l.deadlines[l.nextId := deadline])
    case Cancel(h) =>
      if h in l.timers then l.(timers := l.timers - {h}, cancelled := l.cancelled + [h]) else l
    case Pass(order) =>
      if IsOrder(order, l.timers) then
        l.(timers := Remaining(l.timers, l.now), fired := l.fired + Firings(Due(order, l.timers, l.now), l.now))
      else l
  }

  ghost function Run(now: Instant, actions: seq<Action>): Loop {
    if |actions| == 0 then Start(now)
    else Next(Run(now, actions[..|actions| - 1]), actions[|actions| - 1])
  }

  /** Handle h is pending, fired or cancelled, in exactly one way and once, if it was ever returned; else nowhere. */
  ghost predicate OneFate(l: Loop, h: nat) {
    && (if h in l.timers then 1 else 0) + multiset(Fired(l.fired))[h] + multiset(l.cancelled)[h]
       == (if 1 <= h < l.nextId then 1 else 0)
    && (h in l.deadlines <==> 1 <= h < l.nextId)
    && (h in l.timers ==> h in l.deadlines && l.timers[h] == l.deadlines[h])
  }

  /** Nothing fires early. */
  ghost predicate Punctual(l: Loop) {
    forall f | f in l.fired :: f.handle in l.deadlines && l.deadlines[f.handle] <= f.at <= l.now
  }

  lemma FateOfPass(l: Loop, order: seq<nat>, h: nat)
    requires IsOrder(order, l.timers) && OneFate(l, h) && l.nextId >= 1
    ensures OneFate(Next(l, Pass(order)), h)
  {
    var due := Due(order, l.timers, l.now);
    DueOnce(order, l.timers, l.now, h);
    assert Fired(l.fired + Firings(due, l.now)) == Fired(l.fired) + due;
  }

  lemma FateStep(l: Loop, a: Action, h: nat)
    requires OneFate(l, h) && l.nextId >= 1
    ensures OneFate(Next(l, a), h) && Next(l, a).nextId >= l.nextId
  {
    match a
    case Tick(_) =>
    case Add(_) =>
    case Cancel(g) => assert multiset(l.cancelled + [g]) == multiset(l.cancelled) + multiset{g};
    case Pass(order) => if IsOrder(order, l.timers) { FateOfPass(l, order, h); }
  }

  lemma PunctualStep(l: Loop, a: Action)
    requires Punctual(l) && (forall h :: OneFate(l, h))
    ensures Punctual(Next(l, a))
  {
    var v := Next(l, a);
    forall f | f in v.fired ensures f.handle in v.deadlines && v.deadlines[f.handle] <= f.at <= v.now {
      assert OneFate(l, f.handle) && OneFate(l, l.nextId);
      if f !in l.fired {
        var due := Due(a.order, l.timers, l.now);
        assert f in Firings(due, l.now);
        assert f.handle in due;
        DueOnce(a.order, l.timers, l.now, f.handle);
      }
    }
  }

  /**
   The life of a timer over whole runs: every handle that was returned is pending, fired or cancelled, exactly one
   of these and once; it is fresh when returned; and it never fires before its deadline.
   */
  lemma {:induction false} TimerLife(now: Instant, actions: seq<Action>)
    ensures var l := Run(now, actions);
            Punctual(l) && l.nextId >= 1 && forall h :: OneFate(l, h)
  {
    if |actions| > 0 {
      var l := Run(now, actions[..|actions| - 1]);
      TimerLife(now, actions[..|actions| - 1]);
      var v := Next(l, actions[|actions| - 1]);
      forall h ensures OneFate(v, h) { FateStep(l, actions[|actions| - 1], h); }
      FateStep(l, actions[|actions| - 1], 0);
      PunctualStep(l, actions[|actions| - 1]);
    }
  }

  /** A pass leaves no timer behind whose deadline has come, in any iteration order. */
  lemma NoneOverdue(now: Instant, actions: seq<Action>, order: seq<nat>, h: nat)
    requires IsOrder(order, Run(now, actions).timers)
    ensures var l := Run(now, actions);
            var v := Next(l, Pass(order));
            h in l.timers ==> h in l.deadlines
                              && (Firing(h, l.now) in v.fired <==> l.deadlines[h] <= l.now)
                              && (h in v.timers <==> l.deadlines[h] > l.now)
  {
    var l := Run(now, actions);
    TimerLife(now, actions);
    assert OneFate(l, h);
    var due := Due(order, l.timers, l.now);
    DueOnce(order, l.timers, l.now, h);
    if h in l.timers {
      if h in due {
        var i :| 0 <= i < |due| && due[i] == h;
        assert Firings(due, l.now)[i] == Firing(h, l.now);
      }
    }
  }

  /** Timer h has the deadline d: so it is pending, or it has not fired before. */
  ghost predicate OnTime(l: Loop, h: nat, d: int) {
    && h < l.nextId
    && (h in l.timers ==> l.timers[h] == d)
    && (forall f | f in l.fired && f.handle == h :: f.at >= d)
  }

  lemma OnTimeStep(l: Loop, a: Action, h: nat, d: int)
    requires OnTime(l, h, d)
    ensures OnTime(Next(l, a), h, d)
  {
    var v := Next(l, a);
    forall f | f in v.fired && f.handle == h ensures f.at >= d {
      if f !in l.fired {
        assert f in Firings(Due(a.order, l.timers, l.now), l.now);
        assert h in Due(a.order, l.timers, l.now);
        DueOnce(a.order, l.timers, l.now, h);
      }
    }
  }

  lemma NotFiredBefore(l: Loop, h: nat)
    requires OneFate(l, h) && h >= l.nextId
    ensures h !in l.timers && forall f | f in l.fired :: f.handle != h
  {
    forall f | f in l.fired ensures f.handle != h {
      var i :| 0 <= i < |l.fired| && l.fired[i] == f;
      assert Fired(l.fired)[i] == f.handle;
    }
  }

  /**
   A timer added at point k of a run has, as long as it is pending, the deadline that it was given then, the present
   plus the delay; and it never fires before that. Right after being added it is pending.
   */
  lemma {:induction false} DelayIsKept(now: Instant, actions: seq<Action>, k: nat)
    requires k < |actions| && actions[k].Add?
    requires InRange(Run(now, actions[..k]).now + actions[k].delay * 1_000_000)
    ensures var l := Run(now, actions[..k]);
            && OnTime(Run(now, actions), l.nextId, l.now + actions[k].delay * 1_000_000)
            && (k == |actions| - 1 ==> l.nextId in Run(now, actions).timers)
  {
    var n := |actions| - 1;
    var l := Run(now, actions[..k]);
    if k == n {
      TimerLife(now, actions[..k]);
      assert OneFate(l, l.nextId);
      NotFiredBefore(l, l.nextId);
    } else {
      assert actions[..n][..k] == actions[..k];
      DelayIsKept(now, actions[..n], k);
      OnTimeStep(Run(now, actions[..n]), actions[n], l.nextId, l.now + actions[k].delay * 1_000_000);
    }
  }
}
