/**
 select: when a case is ready, when executing it succeeds, and which case a shuffled list of cases picks.
 */
module SelectSpec {
  import opened Wrappers
  import opened ChannelSpec
  import opened ChannelRun
  import opened ChannelSafety
  import opened ChannelFifo
  import opened ChannelAwait

  /** A case together with the state of its channel. */
  datatype CaseView<+T> = RecvView(ch: Chan<T>) | SendView(ch: Chan<T>, value: T) | DefaultView

  /** try_ready. */
  predicate Ready<T>(v: CaseView<T>) {
    match v
    case RecvView(c) => !IsEmpty(c) || c.closed
    case SendView(c, _) => !IsFull(c) || c.closed
    case DefaultView => true
  }

  /** What try_execute returns. */
  predicate Succeeds<T>(v: CaseView<T>) {
    match v
    case RecvView(c) => TryRecv(c).ok
    case SendView(c, x) => TrySend(c, x).ok
    case DefaultView => true
  }

  // ---------------------------------------------------------------------------------------------
  // Readiness
  // ---------------------------------------------------------------------------------------------

  /**
   Readiness tells success exactly when values are left or, on an open channel, no sender waits beside the empty
   buffer.
   */
  lemma RecvReadyExactly<T>(c: Chan<T>)
    ensures (Ready(RecvView(c)) <==> Succeeds(RecvView(c)))
       <==> (if c.closed then c.buffer != [] else c.buffer != [] || c.sendWaiters == [])
  {
  }

  /** Readiness tells success exactly when the channel is open and no receiver waits beside a full buffer. */
  lemma SendReadyExactly<T>(c: Chan<T>, x: T)
    ensures (Ready(SendView(c, x)) <==> Succeeds(SendView(c, x)))
       <==> (!c.closed && (IsFull(c) ==> c.recvWaiters == []))
  {
  }

  /** Sending on a closed channel, and receiving on a closed channel whose buffer is empty. */
  predicate FailsWhenChosen<T>(v: CaseView<T>) {
    !v.DefaultView? && v.ch.closed && (v.SendView? || v.ch.buffer == [])
  }

  /**
   A case that is chosen runs its operation and its callback, but for two families: those are ready, fail, and run
   nothing.
   */
  lemma ChosenButFailsExactly<T>(v: CaseView<T>)
    ensures Ready(v) && !Succeeds(v) <==> FailsWhenChosen(v)
  {
  }

  /**
   In every state that uninterrupted awaits can bring about, readiness is exact for an open buffered channel.
   This rests on the law of the channel: senders wait only beside a full buffer, receivers only beside an empty one.
   */
  lemma ReadyIsExact<T>(capacity: nat, uses: seq<Use<T>>, x: Msg<T>)
    requires capacity >= 1 && !RunUses(capacity, uses).ch.closed
    ensures var c := RunUses(capacity, uses).ch;
            && (Ready(RecvView(c)) <==> Succeeds(RecvView(c)))
            && (Ready(SendView(c, x)) <==> Succeeds(SendView(c, x)))
  {
    var c := RunUses(capacity, uses).ch;
    AwaitsInOrder(capacity, uses);
    ShapeAlways(Start<T>(capacity), Actions(capacity, uses));
    RecvReadyExactly(c);
    SendReadyExactly(c, x);
  }

  /** An unbuffered open channel is never ready, in any interleaving, even when the operation would succeed. */
  lemma RendezvousNeverReady<T>(actions: seq<Action<T>>, x: Msg<T>)
    requires !Run(0, actions).ch.closed
    ensures var c := Run(0, actions).ch;
            && !Ready(RecvView(c)) && (Succeeds(RecvView(c)) <==> c.sendWaiters != [])
            && !Ready(SendView(c, x)) && (Succeeds(SendView(c, x)) <==> c.recvWaiters != [])
  {
    ShapeAlways(Start<T>(0), actions);
  }

  // ---------------------------------------------------------------------------------------------
  // The choice
  // ---------------------------------------------------------------------------------------------

  /** A shuffle of n places: place i gets what was at order[i]. */
  ghost predicate IsShuffle(order: seq<nat>, n: nat) {
    |order| == n && Distinct(order) && forall i | 0 <= i < n :: order[i] < n
  }

  function Arranged<X>(s: seq<X>, order: seq<nat>): (r: seq<X>)
    requires forall i | 0 <= i < |order| :: order[i] < |s|
    ensures |r| == |order|
  {
    seq(|order|, i requires 0 <= i < |order| => s[order[i]])
  }

  /** The first ready case. */
  function Pick<T>(vs: seq<CaseView<T>>): (r: Option<nat>)
    ensures r.Some? ==> r.value < |vs| && Ready(vs[r.value]) && forall j | 0 <= j < r.value :: !Ready(vs[j])
    ensures r.None? ==> forall j | 0 <= j < |vs| :: !Ready(vs[j])
  {
    PickFrom(vs, 0)
  }

  function PickFrom<T>(vs: seq<CaseView<T>>, i: nat): (r: Option<nat>)
    requires i <= |vs|
    ensures r.Some? ==> i <= r.value < |vs| && Ready(vs[r.value]) && forall j | i <= j < r.value :: !Ready(vs[j])
    ensures r.None? ==> forall j | i <= j < |vs| :: !Ready(vs[j])
    decreases |vs| - i
  {
    if i == |vs| then None
    else if Ready(vs[i]) then Some(i)
    else PickFrom(vs, i + 1)
  }

  /** A scan that stops at the first ready case stops at the one that Pick gives. */
  lemma FirstReadyIsPicked<T>(vs: seq<CaseView<T>>, i: nat)
    requires i <= |vs| && forall k | 0 <= k < i :: !Ready(vs[k])
    requires i < |vs| ==> Ready(vs[i])
    ensures Pick(vs) == if i < |vs| then Some(i) else None
  {
    if i < |vs| { assert Pick(vs).Some?; }
  }

  /** Case i, as it was given, can be the one that is picked. */
  ghost predicate CanBePicked<T>(vs: seq<CaseView<T>>, i: nat) {
    exists order: seq<nat> :: IsShuffle(order, |vs|)
      && var p := Pick(Arranged(vs, order)); p.Some? && order[p.value] == i
  }

  ghost function Below(n: nat): (r: set<nat>)
    ensures |r| == n && forall x: nat :: x in r <==> x < n
  {
    if n == 0 then {} else Below(n - 1) + {n - 1}
  }

  /** Every case occurs in every shuffle. */
  lemma {:induction false} ShuffleIsOnto(order: seq<nat>, n: nat, x: nat)
    requires IsShuffle(order, n) && x < n
    ensures x in order
  {
    var seen := set i | 0 <= i < |order| :: order[i];
    DistinctSize(order);
    if x !in seen {
      assert seen <= Below(n) - {x};
      SubsetSize(seen, Below(n) - {x});
    }
  }

  lemma {:induction false} DistinctSize(order: seq<nat>)
    requires Distinct(order)
    ensures |set i | 0 <= i < |order| :: order[i]| == |order|
  {
    if |order| > 0 {
      var n := |order| - 1;
      DistinctSize(order[..n]);
      var before := set i | 0 <= i < n :: order[..n][i];
      assert (set i | 0 <= i < |order| :: order[i]) == before + {order[n]};
    }
  }

  lemma {:induction false} SubsetSize<X>(a: set<X>, b: set<X>)
    requires a <= b
    ensures |a| <= |b|
  {
    if a != {} {
      var x :| x in a;
      SubsetSize(a - {x}, b - {x});
    }
  }

  /** Over all shuffles, the cases that can be picked are exactly the ready ones, the default included. */
  lemma ChoicesExactly<T>(vs: seq<CaseView<T>>, i: nat)
    requires i < |vs|
    ensures CanBePicked(vs, i) <==> Ready(vs[i])
  {
    if Ready(vs[i]) {
      var order := seq(|vs|, k requires 0 <= k < |vs| => if k == 0 then i else if k == i then 0 else k);
      assert IsShuffle(order, |vs|);
      assert Arranged(vs, order)[0] == vs[i];
      assert Pick(Arranged(vs, order)) == Some(0);
    }
  }

  /** Whether anything is picked does not depend on the shuffle; with a default something always is. */
  lemma PickedAtOnce<T>(vs: seq<CaseView<T>>, order: seq<nat>)
    requires IsShuffle(order, |vs|)
    ensures Pick(Arranged(vs, order)).Some? <==> exists i | 0 <= i < |vs| :: Ready(vs[i])
    ensures DefaultView in vs ==> Pick(Arranged(vs, order)).Some?
  {
    forall i | 0 <= i < |vs| && Ready(vs[i]) ensures Pick(Arranged(vs, order)).Some? {
      ShuffleIsOnto(order, |vs|, i);
      var k :| 0 <= k < |order| && order[k] == i;
      assert Ready(Arranged(vs, order)[k]);
    }
    if Pick(Arranged(vs, order)).Some? {
      assert Ready(vs[order[Pick(Arranged(vs, order)).value]]);
    }
  }

  // ---------------------------------------------------------------------------------------------
  // The busy wait, with others at work between its rounds
  // ---------------------------------------------------------------------------------------------

  /** The round in which the busy wait ends, if it is at round r: the first one whose pass picks a case. */
  ghost function WaitEnds<T>(rounds: seq<seq<CaseView<T>>>, orders: seq<seq<nat>>, r: nat): nat
    requires r <= |rounds| == |orders| && forall k | 0 <= k < |rounds| :: IsShuffle(orders[k], |rounds[k]|)
    decreases |rounds| - r
  {
    if r == |rounds| then r
    else
      assert IsShuffle(orders[r], |rounds[r]|);
      if Pick(Arranged(rounds[r], orders[r])).Some? then r else WaitEnds(rounds, orders, r + 1)
  }

  ghost predicate SomeReady<T>(vs: seq<CaseView<T>>) {
    exists i | 0 <= i < |vs| :: Ready(vs[i])
  }

  /** Whatever the shuffles and the changes between rounds, the wait ends in the first round with a ready case. */
  lemma {:induction false} WaitEndsExactly<T>(rounds: seq<seq<CaseView<T>>>, orders: seq<seq<nat>>, r: nat)
    requires r <= |rounds| == |orders| && forall k | 0 <= k < |rounds| :: IsShuffle(orders[k], |rounds[k]|)
    ensures var end := WaitEnds(rounds, orders, r);
            && r <= end <= |rounds|
            && (forall k | r <= k < end :: !SomeReady(rounds[k]))
            && (end < |rounds| ==> SomeReady(rounds[end]))
    decreases |rounds| - r
  {
    if r < |rounds| {
      PickedAtOnce(rounds[r], orders[r]);
      if !SomeReady(rounds[r]) { WaitEndsExactly(rounds, orders, r + 1); }
    }
  }
}
