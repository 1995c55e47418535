/**
 select on channel objects. Each case carries a number that stands for its callback; running the callback is an
 entry in `called`. The shuffles come in from outside, one for each pass over the cases; a run that has used them
 up without a choice is still waiting.
 */
module Selects {
  import opened Wrappers
  import opened ChannelSpec
  import opened Channels
  import opened SelectSpec

  datatype SelectCase<T> =
    | RecvCase(ch: Channel<T>, callback: nat)
    | SendCase(ch: Channel<T>, value: T, callback: nat)
    | DefaultCase(callback: nat)

  ghost function ViewOf<T>(c: SelectCase<T>): CaseView<T>
    reads if c.DefaultCase? then {} else {c.ch}
  {
    match c
    case RecvCase(ch, _) => RecvView(ch.View())
    case SendCase(ch, x, _) => SendView(ch.View(), x)
    case DefaultCase(_) => DefaultView
  }

  // ---------------------------------------------------------------------------------------------
  // What select may touch, as a value
  // ---------------------------------------------------------------------------------------------

  /** What an awaiter holds. */
  datatype Slot<T> = Slot(value: T, result: bool)

  /** Everything about the channels, and what a set of awaiters holds. */
  datatype Picture<T> = Picture(
    chans: map<Channel<T>, Chan<T>>,
    waiting: map<Channel<T>, seq<RecvAwaiter<T>>>,
    scheduled: map<Channel<T>, seq<nat>>,
    slots: map<RecvAwaiter<T>, Slot<T>>)

  ghost predicate Shows<T>(p: Picture<T>, c: SelectCase<T>) {
    c.DefaultCase? || (c.ch in p.chans && c.ch in p.waiting && c.ch in p.scheduled)
  }

  ghost function ViewIn<T>(p: Picture<T>, c: SelectCase<T>): CaseView<T>
    requires Shows(p, c)
  {
    match c
    case RecvCase(ch, _) => RecvView(p.chans[ch])
    case SendCase(ch, x, _) => SendView(p.chans[ch], x)
    case DefaultCase(_) => DefaultView
  }

  ghost function ViewsIn<T>(p: Picture<T>, cs: seq<SelectCase<T>>): seq<CaseView<T>>
    requires forall i | 0 <= i < |cs| :: Shows(p, cs[i])
  {
    seq(|cs|, i requires 0 <= i < |cs| => ViewIn(p, cs[i]))
  }

  /** Channel ch goes through outcome o, which may serve the receivers waiting at the front. */
  ghost function Through<T>(p: Picture<T>, ch: Channel<T>, o: Outcome<T>): Picture<T>
    requires ch in p.waiting && ch in p.scheduled
  {
    var hit := Served(o, p.waiting[ch]);
    p.(chans := p.chans[ch := o.ch],
       waiting := p.waiting[ch := p.waiting[ch][|hit|..]],
       scheduled := p.scheduled[ch := p.scheduled[ch] + o.scheduled],
       slots := if hit == [] then p.slots else p.slots[hit[0] := Slot(o.delivered[0].value, true)])
  }

  /** Case c is executed: its one operation on its channel. */
  ghost function Executed<T>(p: Picture<T>, c: SelectCase<T>): Picture<T>
    requires Shows(p, c)
  {
    match c
    case RecvCase(ch, _) => Through(p, ch, TryRecv(p.chans[ch]))
    case SendCase(ch, x, _) => Through(p, ch, TrySend(p.chans[ch], x))
    case DefaultCase(_) => p
  }

  /** The callbacks that executing c runs: its own exactly if the operation succeeds. */
  ghost function Ran<T>(p: Picture<T>, c: SelectCase<T>): seq<nat>
    requires Shows(p, c)
  {
    if Succeeds(ViewIn(p, c)) then [c.callback] else []
  }

  /** The value that executing c receives. */
  ghost function Received<T>(p: Picture<T>, c: SelectCase<T>): Option<T>
    requires Shows(p, c)
  {
    if c.RecvCase? then TryRecv(p.chans[c.ch]).value else None
  }

  /** The picture speaks of channels whose lists hold the awaiters that it shows. */
  ghost predicate Proper<T>(p: Picture<T>) {
    && p.chans.Keys == p.waiting.Keys == p.scheduled.Keys
    && forall ch | ch in p.chans :: p.chans[ch].recvWaiters == HandlesOf(p.waiting[ch])
  }

  /** From p to q, nothing has happened but to channel ch and to what awaiters hold. */
  ghost predicate Elsewhere<T>(p: Picture<T>, q: Picture<T>, ch: Channel<T>) {
    && p.chans.Keys == q.chans.Keys && p.waiting.Keys == q.waiting.Keys && p.scheduled.Keys == q.scheduled.Keys
    && (forall d | d in p.chans && d != ch :: q.chans[d] == p.chans[d])
    && (forall d | d in p.waiting && d != ch :: q.waiting[d] == p.waiting[d])
    && (forall d | d in p.scheduled && d != ch :: q.scheduled[d] == p.scheduled[d])
  }

  /** One x has come into channel ch: to the first waiting receiver if there is one, and else into the buffer. */
  ghost predicate SentOne<T>(p: Picture<T>, q: Picture<T>, ch: Channel<T>, x: T)
    requires ch in p.chans && ch in p.waiting && ch in p.scheduled && Elsewhere(p, q, ch)
  {
    var c, ws := p.chans[ch], p.waiting[ch];
    if ws != [] then
      && q.chans[ch] == c.(recvWaiters := HandlesOf(ws[1..])) && q.waiting[ch] == ws[1..]
      && q.scheduled[ch] == p.scheduled[ch] + [ws[0].handle]
      && q.slots == p.slots[ws[0] := Slot(x, true)]
    else
      && q.chans[ch] == c.(buffer := c.buffer + [x]) && q.waiting[ch] == ws
      && q.scheduled[ch] == p.scheduled[ch] && q.slots == p.slots
  }

  /**
   One x has been taken out of channel ch: the front of the buffer, whose place at the back goes to the value of the
   first waiting sender, or that value itself if nothing is buffered. That sender, if any, is scheduled.
   */
  ghost predicate TookOne<T>(p: Picture<T>, q: Picture<T>, ch: Channel<T>, x: T)
    requires ch in p.chans && ch in p.waiting && ch in p.scheduled && Elsewhere(p, q, ch)
  {
    var c := p.chans[ch];
    var first := if c.sendWaiters != [] then [c.sendWaiters[0].value] else [];
    var values := c.buffer + first;
    && values != [] && x == values[0]
    && q.chans[ch] == c.(buffer := if c.buffer != [] then values[1..] else [],
                         sendWaiters := if c.sendWaiters != [] then c.sendWaiters[1..] else [])
    && q.scheduled[ch] == p.scheduled[ch] + (if c.sendWaiters != [] then [c.sendWaiters[0].handle] else [])
    && q.waiting[ch] == p.waiting[ch] && q.slots == p.slots
  }

  /**
   From p to q, one operation of case c at most: a send puts one value in if the channel is open and a receiver waits
   or there is room, a receive takes one out if one is buffered or, on an open channel, a sender waits; and nothing
   else changes.
   */
  ghost predicate OneOperation<T>(p: Picture<T>, q: Picture<T>, c: SelectCase<T>, received: Option<T>)
    requires Shows(p, c)
  {
    match c
    case RecvCase(ch, _) =>
      var before := p.chans[ch];
      if before.buffer != [] || (!before.closed && before.sendWaiters != [])
      then received.Some? && Elsewhere(p, q, ch) && TookOne(p, q, ch, received.value)
      else received == None && q == p
    case SendCase(ch, x, _) =>
      var before := p.chans[ch];
      received == None
      && if !before.closed && (p.waiting[ch] != [] || |before.buffer| < before.capacity)
         then Elsewhere(p, q, ch) && SentOne(p, q, ch, x)
         else q == p
    case DefaultCase(_) => received == None && q == p
  }

  lemma QuietThrough<T>(p: Picture<T>, ch: Channel<T>, ok: bool)
    requires ch in p.chans && ch in p.waiting && ch in p.scheduled
    ensures Through(p, ch, Quiet(p.chans[ch], ok)) == p
  {
    var o := Quiet(p.chans[ch], ok);
    var q := Through(p, ch, o);
    assert Served(o, p.waiting[ch]) == [];
    assert p.scheduled[ch] + [] == p.scheduled[ch] && p.waiting[ch][0..] == p.waiting[ch];
    SameMap(p.chans, q.chans);
    SameMap(p.waiting, q.waiting);
    SameMap(p.scheduled, q.scheduled);
  }

  lemma RecvIsOne<T>(p: Picture<T>, c: SelectCase<T>)
    requires Proper(p) && Shows(p, c) && c.RecvCase?
    ensures OneOperation(p, Executed(p, c), c, Received(p, c))
  {
    var o := TryRecv(p.chans[c.ch]);
    if !o.ok {
      QuietThrough(p, c.ch, false);
    } else {
      assert Served(o, p.waiting[c.ch]) == [];
      assert p.scheduled[c.ch] + [] == p.scheduled[c.ch];
    }
  }

  lemma SendIsOne<T>(p: Picture<T>, c: SelectCase<T>)
    requires Proper(p) && Shows(p, c) && c.SendCase?
    ensures OneOperation(p, Executed(p, c), c, Received(p, c))
  {
    var ws := p.waiting[c.ch];
    var o := TrySend(p.chans[c.ch], c.value);
    if !o.ok {
      QuietThrough(p, c.ch, false);
    } else if ws != [] {
      assert HandlesOf(ws)[1..] == HandlesOf(ws[1..]);
      assert Served(o, ws) == [ws[0]];
    } else {
      assert Served(o, ws) == [];
      assert p.scheduled[c.ch] + [] == p.scheduled[c.ch];
    }
  }

  lemma ExecutedIsOne<T>(p: Picture<T>, c: SelectCase<T>)
    requires Proper(p) && Shows(p, c)
    ensures OneOperation(p, Executed(p, c), c, Received(p, c))
  {
    match c
    case RecvCase(_, _) => RecvIsOne(p, c);
    case SendCase(_, _, _) => SendIsOne(p, c);
    case DefaultCase(_) =>
  }

  /**
   From picture p, with the callbacks `were` run, to q and `now`, over the cases cs: the one that Pick gives, at
   `place`, has been executed, giving `received`, and nothing else happened; or Pick gives none, the place is past
   the end, and nothing happened at all.
   */
  ghost predicate Decided<T>(p: Picture<T>, were: seq<nat>, q: Picture<T>, now: seq<nat>,
                             cs: seq<SelectCase<T>>, place: nat, received: Option<T>)
    requires forall i | 0 <= i < |cs| :: Shows(p, cs[i])
  {
    match Pick(ViewsIn(p, cs))
    case Some(i) =>
      && place == i && q == Executed(p, cs[i]) && now == were + Ran(p, cs[i]) && received == Received(p, cs[i])
      && OneOperation(p, q, cs[i], received)
    case None => place == |cs| && q == p && now == were && received == None
  }

  /** A select that decides runs the callback of its case, once, and no other, unless that case fails when chosen. */
  lemma OneCallback<T>(p: Picture<T>, were: seq<nat>, q: Picture<T>, now: seq<nat>,
                       cs: seq<SelectCase<T>>, place: nat, received: Option<T>)
    requires forall i | 0 <= i < |cs| :: Shows(p, cs[i])
    requires Decided(p, were, q, now, cs, place, received) && place < |cs|
    ensures now == were + if FailsWhenChosen(ViewIn(p, cs[place])) then [] else [cs[place].callback]
  {
    ChosenButFailsExactly(ViewIn(p, cs[place]));
    assert ViewsIn(p, cs)[place] == ViewIn(p, cs[place]);
  }

  /** Shuffling once more does not make a case ready. */
  lemma StillNone<T>(p: Picture<T>, cs: seq<SelectCase<T>>, order: seq<nat>)
    requires (forall i | 0 <= i < |cs| :: Shows(p, cs[i])) && IsShuffle(order, |cs|)
    requires Pick(ViewsIn(p, cs)).None?
    ensures Pick(ViewsIn(p, Arranged(cs, order))).None?
  {
    assert ViewsIn(p, Arranged(cs, order)) == Arranged(ViewsIn(p, cs), order);
    PickedAtOnce(ViewsIn(p, cs), order);
  }

  lemma NoDefault<T>(p: Picture<T>, cs: seq<SelectCase<T>>, i: nat)
    requires (forall k | 0 <= k < |cs| :: Shows(p, cs[k])) && Pick(ViewsIn(p, cs)).None? && i < |cs|
    ensures !cs[i].DefaultCase?
  {
    assert !Ready(ViewsIn(p, cs)[i]);
  }

  lemma SameMap<K, V>(m: map<K, V>, n: map<K, V>)
    requires m.Keys == n.Keys && forall k | k in m :: m[k] == n[k]
    ensures n == m
  {
  }

  lemma UpdatedAt<K, V>(m: map<K, V>, n: map<K, V>, k: K)
    requires m.Keys == n.Keys && k in m && forall l | l in m && l != k :: n[l] == m[l]
    ensures n == m[k := n[k]]
  {
  }

  class Select<T> {
    var called: seq<nat>
    ghost const channels: set<Channel<T>>  // those that the cases are about

    constructor (ghost channels: set<Channel<T>>)
      ensures called == [] && this.channels == channels
    {
      this.channels := channels;
      called := [];
    }

    /** The channels are in order, and everyone who waits there is among `known`. */
    ghost predicate Valid(known: set<RecvAwaiter<T>>)
      reads channels
    {
      forall ch | ch in channels :: ch.Valid() && forall a | a in ch.recvWaiters :: a in known
    }

    ghost function View(known: set<RecvAwaiter<T>>): Picture<T>
      reads channels, known
    {
      Picture(
        map ch | ch in channels :: ch.View(),
        map ch | ch in channels :: ch.recvWaiters,
        map ch | ch in channels :: ch.scheduled,
        map a | a in known :: Slot(a.value, a.result))
    }

    ghost predicate Covers(c: SelectCase<T>) {
      c.DefaultCase? || c.ch in channels
    }

    ghost predicate CoversAll(cs: seq<SelectCase<T>>) {
      forall i | 0 <= i < |cs| :: Covers(cs[i])
    }

    method TryReady(c: SelectCase<T>) returns (r: bool)
      ensures r == Ready(ViewOf(c))
    {
      match c
      case RecvCase(ch, _) =>
        var empty := ch.IsEmpty();
        var closed := ch.IsClosed();
        r := !empty || closed;
      case SendCase(ch, _, _) =>
        var full := ch.IsFull();
        var closed := ch.IsClosed();
        r := !full || closed;
      case DefaultCase(_) =>
        r := true;
    }

    /** The picture was `before`; since then channel ch has gone through outcome o, serving `hit`, and that is all. */
    ghost predicate OnlyServed(before: Picture<T>, ch: Channel<T>, o: Outcome<T>, known: set<RecvAwaiter<T>>,
                               hit: seq<RecvAwaiter<T>>)
      requires before.chans.Keys == before.waiting.Keys == before.scheduled.Keys == channels
      requires ch in channels && before.slots.Keys == known
      reads channels, known
    {
      && hit == Served(o, before.waiting[ch]) && |hit| <= 1
      && ch.View() == o.ch && ch.recvWaiters == before.waiting[ch][|hit|..]
      && ch.scheduled == before.scheduled[ch] + o.scheduled
      && (forall c | c in channels && c != ch ::
            c.View() == before.chans[c] && c.recvWaiters == before.waiting[c] && c.scheduled == before.scheduled[c])
      && (forall a | a in known && a !in hit :: Slot(a.value, a.result) == before.slots[a])
      && (hit != [] ==> hit[0] in known && hit[0].value == o.delivered[0].value && hit[0].result)
    }

    lemma SlotsServed(before: Picture<T>, ch: Channel<T>, o: Outcome<T>, known: set<RecvAwaiter<T>>,
                      hit: seq<RecvAwaiter<T>>)
      requires before.chans.Keys == before.waiting.Keys == before.scheduled.Keys == channels
      requires ch in channels && before.slots.Keys == known && OnlyServed(before, ch, o, known, hit)
      ensures View(known).slots == Through(before, ch, o).slots
    {
      if hit == [] {
        SameMap(before.slots, View(known).slots);
      } else {
        UpdatedAt(before.slots, View(known).slots, hit[0]);
      }
    }

    lemma PictureServed(before: Picture<T>, ch: Channel<T>, o: Outcome<T>, known: set<RecvAwaiter<T>>,
                        hit: seq<RecvAwaiter<T>>)
      requires before.chans.Keys == before.waiting.Keys == before.scheduled.Keys == channels
      requires ch in channels && before.slots.Keys == known
      requires OnlyServed(before, ch, o, known, hit)
      ensures View(known) == Through(before, ch, o)
    {
      var p := View(known);
      UpdatedAt(before.chans, p.chans, ch);
      UpdatedAt(before.waiting, p.waiting, ch);
      UpdatedAt(before.scheduled, p.scheduled, ch);
      SlotsServed(before, ch, o, known, hit);
    }

    method Receive(ch: Channel<T>, ghost known: set<RecvAwaiter<T>>) returns (ok: bool, received: Option<T>)
      requires Valid(known) && ch in channels
      modifies channels
      ensures Valid(known)
      ensures var o := TryRecv(old(ch.View()));
              OnlyServed(old(View(known)), ch, o, known, []) && ok == o.ok && received == o.value
    {
      ok, received := ch.TryRecv();
    }

    method Deliver(ch: Channel<T>, x: T, ghost known: set<RecvAwaiter<T>>) returns (ok: bool)
      requires Valid(known) && ch in channels
      modifies channels, known
      ensures Valid(known)
      ensures var o := TrySend(old(ch.View()), x);
              OnlyServed(old(View(known)), ch, o, known, Served(o, old(ch.recvWaiters))) && ok == o.ok
    {
      ok := ch.TrySend(x);
    }

    /** What try_execute of a receive does, but for the callback. */
    method ExecuteRecv(ch: Channel<T>, ghost known: set<RecvAwaiter<T>>) returns (ok: bool, received: Option<T>)
      requires Valid(known) && ch in channels
      modifies channels
      ensures Valid(known)
      ensures var o := TryRecv(old(ch.View()));
              View(known) == Through(old(View(known)), ch, o) && ok == o.ok && received == o.value
    {
      ghost var before := View(known);
      ok, received := Receive(ch, known);
      PictureServed(before, ch, TryRecv(before.chans[ch]), known, []);
    }

    /** What try_execute of a send does, but for the callback. */
    method ExecuteSend(ch: Channel<T>, x: T, ghost known: set<RecvAwaiter<T>>) returns (ok: bool)
      requires Valid(known) && ch in channels
      modifies channels, known
      ensures Valid(known)
      ensures var o := TrySend(old(ch.View()), x); View(known) == Through(old(View(known)), ch, o) && ok == o.ok
    {
      ghost var before := View(known);
      ok := Deliver(ch, x, known);
      ghost var o := TrySend(before.chans[ch], x);
      PictureServed(before, ch, o, known, Served(o, before.waiting[ch]));
    }

    /** Runs a callback. */
    method Call(callback: nat, ghost known: set<RecvAwaiter<T>>)
      modifies this`called
      ensures called == old(called) + [callback] && View(known) == old(View(known))
    {
      called := called + [callback];
    }

    lemma ViewIsProper(known: set<RecvAwaiter<T>>)
      ensures Proper(View(known))
    {
    }

    /** What try_execute does, but for the callback. */
    method Operate(c: SelectCase<T>, ghost known: set<RecvAwaiter<T>>) returns (ok: bool, received: Option<T>)
      requires Valid(known) && Covers(c)
      modifies channels, known
      ensures Valid(known) && ok == Succeeds(old(ViewOf(c)))
      ensures View(known) == Executed(old(View(known)), c) && received == Received(old(View(known)), c)
    {
      received := None;
      match c {
        case RecvCase(ch, _) => ok, received := ExecuteRecv(ch, known);
        case SendCase(ch, x, _) => ok := ExecuteSend(ch, x, known);
        case DefaultCase(_) => ok := true;
      }
    }

    method TryExecute(c: SelectCase<T>, ghost known: set<RecvAwaiter<T>>) returns (ok: bool, received: Option<T>)
      requires Valid(known) && Covers(c)
      modifies this`called, channels, known
      ensures Valid(known) && ok == Succeeds(old(ViewOf(c)))
      ensures View(known) == Executed(old(View(known)), c)
      ensures called == old(called) + Ran(old(View(known)), c) && received == Received(old(View(known)), c)
      ensures OneOperation(old(View(known)), View(known), c, received)
    {
      ViewIsProper(known);
      ExecutedIsOne(View(known), c);
      ok, received := Operate(c, known);
      if ok { Call(c.callback, known); }
    }

    /** std::shuffle, with the permutation that the random engine comes up with. */
    method Shuffle(cases: array<SelectCase<T>>, order: seq<nat>)
      requires IsShuffle(order, cases.Length)
      modifies cases
      ensures cases[..] == Arranged(old(cases[..]), order)
    {
      var was := cases[..];
      for i := 0 to cases.Length
        invariant cases[..i] == Arranged(was, order)[..i]
      {
        cases[i] := was[order[i]];
      }
      assert cases[..cases.Length] == cases[..];
    }

    /** The loop over the cases up to the first ready one; the place is past the end if there is none. */
    method FirstReady(cases: array<SelectCase<T>>) returns (place: nat)
      ensures place <= cases.Length
      ensures forall k | 0 <= k < place :: !Ready(ViewOf(cases[k]))
      ensures place < cases.Length ==> Ready(ViewOf(cases[place]))
    {
      for i := 0 to cases.Length
        invariant forall k | 0 <= k < i :: !Ready(ViewOf(cases[k]))
      {
        var ready := TryReady(cases[i]);
        if ready { return i; }
      }
      return cases.Length;
    }

    /** Executes the first ready case. */
    method Scan(cases: array<SelectCase<T>>, ghost known: set<RecvAwaiter<T>>)
      returns (place: nat, received: Option<T>)
      requires Valid(known) && CoversAll(cases[..])
      modifies this`called, channels, known
      ensures Valid(known) && cases[..] == old(cases[..])
      ensures Decided(old(View(known)), old(called), View(known), called, cases[..], place, received)
    {
      place := FirstReady(cases);
      FirstReadyIsPicked(ViewsIn(View(known), cases[..]), place);
      received := None;
      if place < cases.Length {
        var c := cases[place];
        var ok;
        ok, received := TryExecute(c, known);
      }
    }

    /** Shuffles the cases and executes the first ready one. */
    method Pass(cases: array<SelectCase<T>>, order: seq<nat>, ghost known: set<RecvAwaiter<T>>)
      returns (place: nat, received: Option<T>)
      requires IsShuffle(order, cases.Length) && Valid(known) && CoversAll(cases[..])
      modifies this`called, cases, channels, known
      ensures Valid(known) && cases[..] == Arranged(old(cases[..]), order) && CoversAll(cases[..])
      ensures Decided(old(View(known)), old(called), View(known), called, cases[..], place, received)
    {
      ghost var before := View(known);
      Shuffle(cases, order);
      assert View(known) == before;
      place, received := Scan(cases, known);
    }

    /** The second loop of select: looks for a default case. */
    method FindDefault(cases: array<SelectCase<T>>) returns (found: Option<nat>)
      ensures found.Some? <==> exists i | 0 <= i < cases.Length :: cases[i].DefaultCase?
      ensures found.Some? ==> found.value < cases.Length && cases[found.value].DefaultCase?
    {
      for i := 0 to cases.Length
        invariant forall k | 0 <= k < i :: !cases[k].DefaultCase?
      {
        if cases[i].DefaultCase? { return Some(i); }
      }
      return None;
    }

    /** The busy wait, for as many shuffles as there are: without interference it goes on forever. */
    method BusyWait(cases: array<SelectCase<T>>, orders: seq<seq<nat>>, ghost known: set<RecvAwaiter<T>>)
      returns (place: nat, received: Option<T>)
      requires Valid(known) && CoversAll(cases[..])
      requires forall i | 0 <= i < |orders| :: IsShuffle(orders[i], cases.Length)
      requires Pick(ViewsIn(View(known), cases[..])).None?
      modifies this`called, cases, channels, known
      ensures Valid(known) && place == cases.Length && received.None?
      ensures View(known) == old(View(known)) && called == old(called)
    {
      place, received := cases.Length, None;
      for r := 0 to |orders|
        invariant Valid(known) && place == cases.Length && received.None? && CoversAll(cases[..])
        invariant View(known) == old(View(known)) && called == old(called)
        invariant Pick(ViewsIn(View(known), cases[..])).None?
      {
        StillNone(View(known), cases[..], orders[r]);
        place, received := Pass(cases, orders[r], known);
      }
    }

    /**
     select, with its first shuffle and the later ones. The first pass decides: either it executes the first ready
     case of the first shuffle, and nothing else; or none is ready, and as long as nobody else touches the channels
     the wait never ends and nothing happens. The loop that looks for a default case never finds one, because a
     default is always ready.
     */
    method Run(cases: array<SelectCase<T>>, first: seq<nat>, later: seq<seq<nat>>,
               ghost known: set<RecvAwaiter<T>>)
      returns (place: nat, received: Option<T>)
      requires Valid(known) && CoversAll(cases[..]) && IsShuffle(first, cases.Length)
      requires forall i | 0 <= i < |later| :: IsShuffle(later[i], cases.Length)
      modifies this`called, cases, channels, known
      ensures Valid(known)
      ensures Decided(old(View(known)), old(called), View(known), called,
                      Arranged(old(cases[..]), first), place, received)
      ensures place < cases.Length ==>
                var c := Arranged(old(cases[..]), first)[place];
                called == old(called) + if FailsWhenChosen(ViewIn(old(View(known)), c)) then [] else [c.callback]
    {
      ghost var before, were := View(known), called;
      place, received := Pass(cases, first, known);
      if place < cases.Length {
        OneCallback(before, were, View(known), called, cases[..], place, received);
        return;
      }
      var default := FindDefault(cases);
      if default.Some? {
        NoDefault(View(known), cases[..], default.value);
        assert false;
      }
      place, received := BusyWait(cases, later, known);
    }
  }
}
