/**
 select among other users of its channels, interleaved in any order. Asking whether a case is ready takes up to two
 reads, executing it is a third access, and the others may come in between.

 A run is any list of steps; a step that is not enabled changes nothing. The cases come in the order of the first
 shuffle, which is theirs to choose; later shuffles are part of the steps.
 */
module SelectRun {
  import opened ChannelSpec
  import opened ChannelRun
  import opened ChannelSafety
  import opened SelectSpec

  /** A case, with the number of its channel. */
  datatype Case<+T> =
    | Recv(ch: nat, callback: nat)
    | Send(ch: nat, body: T, callback: nat)
    | Default(callback: nat)

  /** Where select is, with the place of the case that it deals with. */
  datatype Place =
    | Asking(i: nat)          // about to read whether the buffer is empty, or full
    | Doubting(i: nat)        // it is; about to read whether the channel is closed
    | Chosen(i: nat)          // the case is ready; about to execute it
    | Over(i: nat, ok: bool)  // it has been executed, with success or not

  datatype Step<+T> =
    | Other(c: nat, action: Action<T>)   // somebody else's step on channel c
    | Mine(op: nat, order: seq<nat>)     // the next step of select: the number for its try, the order of its shuffle

  datatype Sel<+T> = Sel(
    worlds: seq<World<T>>,
    logs: seq<seq<Action<T>>>,    // what was done to each channel
    others: seq<seq<Action<T>>>,  // what the others did to it
    cases: seq<Case<T>>,
    place: Place,
    first: bool,                  // in the first pass over the cases
    mine: seq<Action<T>>,         // what select did to a channel
    called: seq<nat>)

  ghost function Start<T>(capacities: seq<nat>, cases: seq<Case<T>>): Sel<T> {
    var n := |capacities|;
    Sel(seq(n, c requires 0 <= c < n => ChannelRun.Start(capacities[c])), seq(n, _ => []), seq(n, _ => []),
        cases, Asking(0), true, [], [])
  }

  ghost predicate Sound<T>(s: Sel<T>) {
    && |s.logs| == |s.others| == |s.worlds|
    && (forall i | 0 <= i < |s.cases| :: s.cases[i].Default? || s.cases[i].ch < |s.worlds|)
    && (s.place.Asking? || s.place.i < |s.cases|)
    && (s.place.Doubting? ==> !s.cases[s.place.i].Default?)
  }

  /** A case with its channel as it is now. */
  ghost function ViewIn<T>(s: Sel<T>, c: Case<T>): CaseView<Msg<T>>
    requires c.Default? || c.ch < |s.worlds|
  {
    match c
    case Recv(ch, _) => RecvView(s.worlds[ch].ch)
    case Send(ch, body, _) => SendView(s.worlds[ch].ch, Msg(0, body))
    case Default(_) => DefaultView
  }

  /** The first read of try_ready. */
  ghost predicate SeemsReady<T>(v: CaseView<T>) {
    match v
    case RecvView(c) => !IsEmpty(c)
    case SendView(c, _) => !IsFull(c)
    case DefaultView => true
  }

  ghost function Act<T>(s: Sel<T>, c: nat, a: Action<T>): Sel<T>
    requires c < |s.worlds| == |s.logs|
  {
    s.(worlds := s.worlds[c := Next(s.worlds[c], a)], logs := s.logs[c := s.logs[c] + [a]])
  }

  /** The try that executes case c, under the number op. */
  ghost function Try<T>(c: Case<T>, op: nat): Action<T>
    requires !c.Default?
  {
    if c.Recv? then RecvReady(op) else SendReady(op, c.body)
  }

  ghost function Execute<T>(s: Sel<T>, i: nat, op: nat): Sel<T>
    requires Sound(s) && i < |s.cases|
  {
    var c := s.cases[i];
    if !c.Default? && op in s.worlds[c.ch].begun then s
    else
      var ok := Succeeds(ViewIn(s, c));
      var v := if c.Default? then s else Act(s, c.ch, Try(c, op)).(mine := s.mine + [Try(c, op)]);
      v.(place := Over(i, ok), called := s.called + if ok then [c.callback] else [])
  }

  ghost function DoMine<T>(s: Sel<T>, op: nat, order: seq<nat>): Sel<T>
    requires Sound(s)
  {
    match s.place
    case Asking(i) =>
      if i < |s.cases| then s.(place := if SeemsReady(ViewIn(s, s.cases[i])) then Chosen(i) else Doubting(i))
      else if s.first && exists d :: 0 <= d < |s.cases| && s.cases[d].Default? then
        var d :| 0 <= d < |s.cases| && s.cases[d].Default?;
        s.(place := Chosen(d))
      else if IsShuffle(order, |s.cases|) then
        s.(cases := Arranged(s.cases, order), place := Asking(0), first := false)
      else s
    case Doubting(i) =>
      s.(place := if s.worlds[s.cases[i].ch].ch.closed then Chosen(i) else Asking(i + 1))
    case Chosen(i) => Execute(s, i, op)
    case Over(_, _) => s
  }

  ghost function Go<T>(s: Sel<T>, step: Step<T>): Sel<T> {
    if !Sound(s) then s
    else match step
      case Other(c, a) =>
        if c < |s.worlds| then Act(s, c, a).(others := s.others[c := s.others[c] + [a]]) else s
      case Mine(op, order) => DoMine(s, op, order)
  }

  ghost function Play<T>(capacities: seq<nat>, cases: seq<Case<T>>, steps: seq<Step<T>>): Sel<T> {
    if |steps| == 0 then Start(capacities, cases)
    else Go(Play(capacities, cases, steps[..|steps| - 1]), steps[|steps| - 1])
  }

  /** The cases are about channels that there are. */
  ghost predicate Known<T>(capacities: seq<nat>, cases: seq<Case<T>>) {
    forall i | 0 <= i < |cases| :: cases[i].Default? || cases[i].ch < |capacities|
  }

  lemma SoundStep<T>(s: Sel<T>, step: Step<T>)
    requires Sound(s)
    ensures Sound(Go(s, step)) && |Go(s, step).worlds| == |s.worlds|
  {
  }

  lemma {:induction false} SoundAlways<T>(capacities: seq<nat>, cases: seq<Case<T>>, steps: seq<Step<T>>)
    requires Known(capacities, cases)
    ensures var s := Play(capacities, cases, steps); Sound(s) && |s.worlds| == |capacities|
  {
    if |steps| > 0 {
      SoundAlways(capacities, cases, steps[..|steps| - 1]);
      SoundStep(Play(capacities, cases, steps[..|steps| - 1]), steps[|steps| - 1]);
    }
  }

  // ---------------------------------------------------------------------------------------------
  // A select is one try, or none
  // ---------------------------------------------------------------------------------------------

  /** The log is what the others did, with what select did put in at one place. */
  ghost predicate Merged<X>(log: seq<X>, others: seq<X>, mine: seq<X>) {
    exists p | 0 <= p <= |others| :: log == others[..p] + mine + others[p..]
  }

  lemma MergedGrows<X>(log: seq<X>, others: seq<X>, mine: seq<X>, x: X)
    requires Merged(log, others, mine)
    ensures Merged(log + [x], others + [x], mine)
  {
    var p :| 0 <= p <= |others| && log == others[..p] + mine + others[p..];
    assert log + [x] == (others + [x])[..p] + mine + (others + [x])[p..];
  }

  lemma MergedFirst<X>(log: seq<X>, others: seq<X>, x: X)
    requires Merged(log, others, [])
    ensures Merged(log + [x], others, [x])
  {
    var p :| 0 <= p <= |others| && log == others[..p] + [] + others[p..];
    assert log == others;
    assert log + [x] == others[..|others|] + [x] + others[|others|..];
  }

  /** What select has done to channel c. */
  ghost function MineTo<T>(s: Sel<T>, c: nat): seq<Action<T>>
    requires Sound(s)
  {
    if s.place.Over? && !s.cases[s.place.i].Default? && s.cases[s.place.i].ch == c
    then s.mine else []
  }

  /** Channel c has gone through a run of its own; select has added at most one try to what the others did. */
  ghost predicate ChannelRuns<T>(capacity: nat, s: Sel<T>, c: nat)
    requires Sound(s) && c < |s.worlds|
  {
    s.worlds[c] == Run(capacity, s.logs[c]) && Merged(s.logs[c], s.others[c], MineTo(s, c))
  }

  lemma RunGrows<T>(capacity: nat, actions: seq<Action<T>>, a: Action<T>)
    ensures Run(capacity, actions + [a]) == Next(Run(capacity, actions), a)
  {
    assert (actions + [a])[..|actions|] == actions;
  }

  lemma OtherKeepsRuns<T>(capacity: nat, s: Sel<T>, d: nat, a: Action<T>, c: nat)
    requires Sound(s) && c < |s.worlds| && ChannelRuns(capacity, s, c)
    ensures ChannelRuns(capacity, Go(s, Other(d, a)), c)
  {
    if d == c {
      RunGrows(capacity, s.logs[c], a);
      MergedGrows(s.logs[c], s.others[c], MineTo(s, c), a);
    }
  }

  lemma ExecuteEffect<T>(s: Sel<T>, op: nat)
    requires Sound(s) && s.place.Chosen? && !s.cases[s.place.i].Default?
    requires op !in s.worlds[s.cases[s.place.i].ch].begun
    ensures var v := Execute(s, s.place.i, op);
            var c := s.cases[s.place.i];
            && v.place.Over? && v.place.i == s.place.i && v.cases == s.cases && v.others == s.others
            && v.worlds == s.worlds[c.ch := Next(s.worlds[c.ch], Try(c, op))]
            && v.logs == s.logs[c.ch := s.logs[c.ch] + [Try(c, op)]] && v.mine == s.mine + [Try(c, op)]
  {
  }

  lemma OneMore<T>(capacity: nat, w: World<T>, log: seq<Action<T>>, others: seq<Action<T>>, a: Action<T>)
    requires w == Run(capacity, log) && Merged(log, others, [])
    ensures Next(w, a) == Run(capacity, log + [a]) && Merged(log + [a], others, [a])
  {
    RunGrows(capacity, log, a);
    MergedFirst(log, others, a);
  }

  lemma ExecuteHere<T>(capacity: nat, s: Sel<T>, op: nat)
    requires Sound(s) && s.place.Chosen? && !s.cases[s.place.i].Default? && s.mine == []
    requires ChannelRuns(capacity, s, s.cases[s.place.i].ch) && op !in s.worlds[s.cases[s.place.i].ch].begun
    ensures ChannelRuns(capacity, Execute(s, s.place.i, op), s.cases[s.place.i].ch)
  {
    var v, ch, a := Execute(s, s.place.i, op), s.cases[s.place.i].ch, Try(s.cases[s.place.i], op);
    assert MineTo(s, ch) == [];
    OneMore(capacity, s.worlds[ch], s.logs[ch], s.others[ch], a);
    ExecuteEffect(s, op);
    assert v.mine == [a];
    assert MineTo(v, ch) == [a];
  }

  lemma ExecuteKeepsRuns<T>(capacity: nat, s: Sel<T>, op: nat, c: nat)
    requires Sound(s) && c < |s.worlds| && ChannelRuns(capacity, s, c) && s.place.Chosen? && s.mine == []
    ensures ChannelRuns(capacity, Execute(s, s.place.i, op), c)
  {
    var k := s.cases[s.place.i];
    var v := Execute(s, s.place.i, op);
    if !k.Default? && k.ch == c && op !in s.worlds[c].begun {
      ExecuteHere(capacity, s, op);
    } else {
      assert v.worlds[c] == s.worlds[c] && v.logs[c] == s.logs[c] && v.others[c] == s.others[c];
      assert MineTo(v, c) == [];
    }
  }

  /** What select itself has to show: one try and one callback at most, and those of the case it executed. */
  ghost predicate OneTry<T>(s: Sel<T>)
    requires Sound(s)
  {
    if s.place.Over? then
      var c := s.cases[s.place.i];
      && (if c.Default? then s.mine == [] && s.place.ok else exists op :: s.mine == [Try(c, op)])
      && s.called == if s.place.ok then [c.callback] else []
    else
      s.mine == [] && s.called == []
  }

  lemma OneTryStep<T>(s: Sel<T>, step: Step<T>)
    requires Sound(s) && OneTry(s)
    ensures Sound(Go(s, step)) && OneTry(Go(s, step))
  {
    SoundStep(s, step);
    if step.Mine? && s.place.Chosen? {
      var c := s.cases[s.place.i];
      if !c.Default? && step.op !in s.worlds[c.ch].begun { assert Go(s, step).mine == [Try(c, step.op)]; }
    }
  }

  /** Until it executes a case, select changes nothing but its own place and the order of its cases. */
  lemma AskingTouchesNothing<T>(s: Sel<T>, op: nat, order: seq<nat>)
    requires Sound(s) && !s.place.Chosen?
    ensures var v := Go(s, Mine(op, order));
            && v.worlds == s.worlds && v.logs == s.logs && v.others == s.others && v.mine == s.mine
            && (if s.place.Over? then v == s else !v.place.Over?)
  {
  }

  lemma StepKeepsRuns<T>(capacity: nat, s: Sel<T>, step: Step<T>, c: nat)
    requires Sound(s) && OneTry(s) && c < |s.worlds| && ChannelRuns(capacity, s, c)
    ensures Sound(Go(s, step)) && |Go(s, step).worlds| == |s.worlds| && ChannelRuns(capacity, Go(s, step), c)
  {
    SoundStep(s, step);
    match step
    case Other(d, a) => OtherKeepsRuns(capacity, s, d, a, c);
    case Mine(op, order) =>
      if s.place.Chosen? { ExecuteKeepsRuns(capacity, s, op, c); } else { AskingTouchesNothing(s, op, order); }
  }

  /**
   In every interleaving, a select executes one case at most: one try on one channel, which the channel sees as one
   more step among those of the others; and it runs that case's callback exactly if the try succeeded. So whatever
   holds of all runs of a channel holds with selects at work.
   */
  lemma {:induction false} SelectIsOneTry<T>(capacities: seq<nat>, cases: seq<Case<T>>, steps: seq<Step<T>>, c: nat)
    requires Known(capacities, cases) && c < |capacities|
    ensures var s := Play(capacities, cases, steps);
            Sound(s) && |s.worlds| == |capacities| && OneTry(s) && ChannelRuns(capacities[c], s, c)
  {
    if |steps| == 0 {
      var none: seq<Action<T>> := [];
      assert none == none[..0] + none + none[0..];
    } else {
      var before, step := steps[..|steps| - 1], steps[|steps| - 1];
      var s := Play(capacities, cases, before);
      SelectIsOneTry(capacities, cases, before, c);
      OneTryStep(s, step);
      StepKeepsRuns(capacities[c], s, step, c);
    }
  }

  // ---------------------------------------------------------------------------------------------
  // What was ready, and what can come in between
  // ---------------------------------------------------------------------------------------------

  /** At point k of the run, case c was ready. */
  ghost predicate WasReady<T>(capacities: seq<nat>, cases: seq<Case<T>>, steps: seq<Step<T>>, c: Case<T>, k: nat) {
    && k <= |steps|
    && var s := Play(capacities, cases, steps[..k]);
       Sound(s) && (c.Default? || c.ch < |s.worlds|) && Ready(ViewIn(s, c))
  }

  lemma ChoiceStep<T>(s: Sel<T>, step: Step<T>)
    requires Sound(s)
    ensures s.place.Chosen? || s.place.Over? ==>
              var v := Go(s, step); (v.place.Chosen? || v.place.Over?) && v.place.i == s.place.i && v.cases == s.cases
  {
  }

  lemma BecomesChosen<T>(s: Sel<T>, step: Step<T>)
    requires Sound(s) && !s.place.Chosen? && !s.place.Over?
    ensures var v := Go(s, step);
            v.place.Chosen? || v.place.Over? ==>
              v.cases == s.cases && v.place.i < |s.cases| && Ready(ViewIn(s, s.cases[v.place.i]))
  {
  }

  /** The case that is chosen, and then executed, was ready at some point. */
  lemma {:induction false} ChosenWasReady<T>(capacities: seq<nat>, cases: seq<Case<T>>, steps: seq<Step<T>>)
      returns (k: nat)
    requires Known(capacities, cases)
    requires var s := Play(capacities, cases, steps); s.place.Chosen? || s.place.Over?
    ensures var s := Play(capacities, cases, steps);
            s.place.i < |s.cases| && WasReady(capacities, cases, steps, s.cases[s.place.i], k)
  {
    var n := |steps| - 1;
    var s := Play(capacities, cases, steps[..n]);
    SoundAlways(capacities, cases, steps[..n]);
    SoundAlways(capacities, cases, steps);
    if s.place.Chosen? || s.place.Over? {
      ChoiceStep(s, steps[n]);
      k := ChosenWasReady(capacities, cases, steps[..n]);
      assert steps[..n][..k] == steps[..k];
    } else {
      BecomesChosen(s, steps[n]);
      k := n;
    }
  }

  // ---------------------------------------------------------------------------------------------
  // What is passed over, and what must be chosen
  // ---------------------------------------------------------------------------------------------

  /** There is nothing buffered to receive, or no room to send; a default never looks like that. */
  ghost predicate LooksBlocked<T>(s: Sel<T>, c: Case<T>) {
    && !c.Default? && c.ch < |s.worlds|
    && var ch := s.worlds[c.ch].ch;
       if c.Recv? then ch.buffer == [] else ch.capacity == 0 || |ch.buffer| >= ch.capacity
  }

  /** At point k, select asked about its case number i, found it blocked, and has gone on with the cases since. */
  ghost predicate AskedAt<T>(capacities: seq<nat>, cases: seq<Case<T>>, steps: seq<Step<T>>, i: nat, k: nat) {
    && k <= |steps|
    && var s, t := Play(capacities, cases, steps), Play(capacities, cases, steps[..k]);
       && t.place == Asking(i) && t.cases == s.cases
       && i < |s.cases| && LooksBlocked(t, s.cases[i])
  }

  /** At point k, select doubted its case number i, and found the channel open. */
  ghost predicate OpenAt<T>(capacities: seq<nat>, cases: seq<Case<T>>, steps: seq<Step<T>>, i: nat, k: nat) {
    && k <= |steps|
    && var s, t := Play(capacities, cases, steps), Play(capacities, cases, steps[..k]);
       && t.place == Doubting(i) && t.cases == s.cases
       && i < |s.cases| && !s.cases[i].Default? && s.cases[i].ch < |t.worlds|
       && !t.worlds[s.cases[i].ch].ch.closed
  }

  lemma DoubtStep<T>(s: Sel<T>, step: Step<T>)
    requires Sound(s) && Go(s, step).place.Doubting?
    ensures var v := Go(s, step);
            && v.cases == s.cases && v.place.i < |s.cases|
            && (v.place == s.place || (s.place == Asking(v.place.i) && LooksBlocked(s, s.cases[v.place.i])))
  {
  }

  lemma {:induction false} DoubtedSince<T>(capacities: seq<nat>, cases: seq<Case<T>>, steps: seq<Step<T>>)
      returns (k: nat)
    requires Known(capacities, cases) && Play(capacities, cases, steps).place.Doubting?
    ensures k < |steps| && AskedAt(capacities, cases, steps, Play(capacities, cases, steps).place.i, k)
  {
    var n := |steps| - 1;
    var s := Play(capacities, cases, steps[..n]);
    SoundAlways(capacities, cases, steps[..n]);
    DoubtStep(s, steps[n]);
    if s.place.Doubting? {
      k := DoubtedSince(capacities, cases, steps[..n]);
      assert steps[..n][..k] == steps[..k];
    } else {
      k := n;
    }
  }

  lemma PassStep<T>(s: Sel<T>, step: Step<T>, i: nat)
    requires Sound(s) && i < Go(s, step).place.i && i < |Go(s, step).cases|
    ensures Go(s, step).cases == s.cases
    ensures i < s.place.i || (s.place == Doubting(i) && !s.worlds[s.cases[i].ch].ch.closed)
  {
  }

  lemma StillAsked<T>(capacities: seq<nat>, cases: seq<Case<T>>, steps: seq<Step<T>>, i: nat, k: nat)
    requires |steps| > 0 && k < |steps|
    requires Play(capacities, cases, steps).cases == Play(capacities, cases, steps[..|steps| - 1]).cases
    ensures AskedAt(capacities, cases, steps[..|steps| - 1], i, k) ==> AskedAt(capacities, cases, steps, i, k)
    ensures OpenAt(capacities, cases, steps[..|steps| - 1], i, k) ==> OpenAt(capacities, cases, steps, i, k)
  {
    assert steps[..|steps| - 1][..k] == steps[..k];
  }

  /**
   In every interleaving, select goes past a case only after finding, in this order, that there was nothing to
   receive, or no room to send, and that the channel was open. It never goes past a default.
   */
  lemma {:induction false} PassedOver<T>(capacities: seq<nat>, cases: seq<Case<T>>, steps: seq<Step<T>>, i: nat)
      returns (k: nat, l: nat)
    requires Known(capacities, cases)
    requires var s := Play(capacities, cases, steps); i < s.place.i && i < |s.cases|
    ensures k < l < |steps| && AskedAt(capacities, cases, steps, i, k) && OpenAt(capacities, cases, steps, i, l)
  {
    var n := |steps| - 1;
    var s := Play(capacities, cases, steps[..n]);
    SoundAlways(capacities, cases, steps[..n]);
    PassStep(s, steps[n], i);
    if i < s.place.i {
      k, l := PassedOver(capacities, cases, steps[..n], i);
      StillAsked(capacities, cases, steps, i, l);
    } else {
      k := DoubtedSince(capacities, cases, steps[..n]);
      l := n;
    }
    StillAsked(capacities, cases, steps, i, k);
  }

  ghost function Views<T>(s: Sel<T>): seq<CaseView<Msg<T>>>
    requires Sound(s)
  {
    seq(|s.cases|, i requires 0 <= i < |s.cases| => ViewIn(s, s.cases[i]))
  }

  /** n steps of select with nobody else at work. */
  ghost function Alone<T>(s: Sel<T>, n: nat, op: nat, order: seq<nat>): Sel<T>
    decreases n
  {
    if n == 0 then s else Alone(Go(s, Mine(op, order)), n - 1, op, order)
  }

  lemma {:induction false} AloneTwice<T>(s: Sel<T>, m: nat, n: nat, op: nat, order: seq<nat>)
    ensures Alone(s, m + n, op, order) == Alone(Alone(s, m, op, order), n, op, order)
    decreases m
  {
    if m > 0 { AloneTwice(Go(s, Mine(op, order)), m - 1, n, op, order); }
  }

  /** What select makes of case i alone: it chooses it, in one step or two, if it is ready, and else goes past it. */
  lemma AskAlone<T>(s: Sel<T>, i: nat, op: nat, order: seq<nat>) returns (n: nat)
    requires Sound(s) && s.place == Asking(i) && i < |s.cases|
    ensures Alone(s, n, op, order) == s.(place := if Ready(ViewIn(s, s.cases[i])) then Chosen(i) else Asking(i + 1))
  {
    var t := Go(s, Mine(op, order));
    n := if t.place.Chosen? then 1 else 2;
    assert Alone(s, 1, op, order) == Alone(t, 0, op, order) == t;
    if !t.place.Chosen? {
      assert Sound(t) && t == s.(place := Doubting(i));
      assert Alone(s, 2, op, order) == Alone(t, 1, op, order) == Alone(Go(t, Mine(op, order)), 0, op, order);
    }
  }

  /** A pass, or what is left of it from case i, that nobody disturbs stops at the first ready case, or past the end. */
  lemma {:induction false} QuietPass<T>(s: Sel<T>, i: nat, op: nat, order: seq<nat>) returns (n: nat)
    requires Sound(s) && s.place == Asking(i) && i <= |s.cases|
    ensures var p := PickFrom(Views(s), i);
            Alone(s, n, op, order) == s.(place := if p.Some? then Chosen(p.value) else Asking(|s.cases|))
    decreases |s.cases| - i
  {
    if i == |s.cases| {
      n := 0;
    } else {
      var m := AskAlone(s, i, op, order);
      if Ready(ViewIn(s, s.cases[i])) {
        n := m;
      } else {
        var t := s.(place := Asking(i + 1));
        assert Views(t) == Views(s);
        var rest := QuietPass(t, i + 1, op, order);
        n := m + rest;
        AloneTwice(s, m, rest, op, order);
      }
    }
  }

  /** The number is new to all the channels. */
  ghost predicate New<T>(s: Sel<T>, op: nat) {
    forall c | 0 <= c < |s.worlds| :: op !in s.worlds[c].begun
  }

  /** Executing a chosen case always ends the select, and with success exactly if its value has come or gone. */
  lemma TryTells<T>(s: Sel<T>, op: nat, order: seq<nat>)
    requires Sound(s) && s.place.Chosen? && New(s, op)
    ensures var v := Go(s, Mine(op, order));
            var c := s.cases[s.place.i];
            && v.place.Over? && v.place.i == s.place.i && Sound(v) && |v.worlds| == |s.worlds|
            && (c.Default? ==> v.place.ok && v.worlds == s.worlds)
            && (c.Recv? ==> |v.worlds[c.ch].got| == |s.worlds[c.ch].got| + if v.place.ok then 1 else 0)
            && (c.Send? ==> v.worlds[c.ch].sent == s.worlds[c.ch].sent + if v.place.ok then [Msg(op, c.body)] else [])
  {
    SoundStep(s, Mine(op, order));
    var c := s.cases[s.place.i];
    if c.Recv? { RecvTells(s.worlds[c.ch], op); }
    if c.Send? { SendTells(s.worlds[c.ch], op, c.body); }
  }

  lemma RecvTells<T>(w: World<T>, op: nat)
    requires op !in w.begun
    ensures |Next(w, RecvReady(op)).got| == |w.got| + if Succeeds(RecvView(w.ch)) then 1 else 0
  {
  }

  lemma SendTells<T>(w: World<T>, op: nat, body: T)
    requires op !in w.begun
    ensures Next(w, SendReady(op, body)).sent
         == w.sent + if Succeeds(SendView(w.ch, Msg(0, body))) then [Msg(op, body)] else []
  {
  }

  /**
   A select that nobody disturbs, from the start of a pass: if some case is ready it executes the one that Pick gives
   and is over; and if none is, it gets to the end of the pass having changed nothing, and begins another one.
   */
  lemma QuietSelect<T>(s: Sel<T>, op: nat, order: seq<nat>) returns (n: nat)
    requires Sound(s) && s.place == Asking(0) && New(s, op)
    ensures var v := Alone(s, n, op, order);
            match Pick(Views(s))
            case Some(p) => v.place == Over(p, Succeeds(Views(s)[p]))
            case None =>
              && v == s.(place := Asking(|s.cases|))
              && (IsShuffle(order, |s.cases|) ==>
                    Alone(s, n + 1, op, order)
                    == s.(cases := Arranged(s.cases, order), place := Asking(0), first := false))
  {
    n := QuietPass(s, 0, op, order);
    var p := Pick(Views(s));
    if p.Some? {
      var t := s.(place := Chosen(p.value));
      AloneTwice(s, n, 1, op, order);
      assert Alone(t, 1, op, order) == Alone(Go(t, Mine(op, order)), 0, op, order);
      TryTells(t, op, order);
      n := n + 1;
    } else {
      var t := s.(place := Asking(|s.cases|));
      AloneTwice(s, n, 1, op, order);
      assert Alone(t, 1, op, order) == Alone(Go(t, Mine(op, order)), 0, op, order);
      forall i | 0 <= i < |s.cases| ensures !s.cases[i].Default? { assert !Ready(Views(s)[i]); }
    }
  }

  /** The cases are those that were given, in some order. */
  ghost predicate Rearranged<X>(now: seq<X>, was: seq<X>) {
    exists order: seq<nat> :: IsShuffle(order, |was|) && now == Arranged(was, order)
  }

  lemma RearrangedTwice<X>(s: seq<X>, first: seq<nat>, second: seq<nat>)
    requires IsShuffle(first, |s|) && IsShuffle(second, |s|)
    ensures Rearranged(Arranged(Arranged(s, first), second), s)
  {
    var order := Arranged(first, second);
    assert IsShuffle(order, |s|);
    assert Arranged(Arranged(s, first), second) == Arranged(s, order);
  }

  lemma CasesStep<T>(s: Sel<T>, step: Step<T>)
    ensures Go(s, step).cases == s.cases
      || (step.Mine? && IsShuffle(step.order, |s.cases|) && Go(s, step).cases == Arranged(s.cases, step.order))
  {
  }

  /** Later shuffles neither lose nor repeat a case. */
  lemma {:induction false} CasesAlways<T>(capacities: seq<nat>, cases: seq<Case<T>>, steps: seq<Step<T>>)
    ensures Rearranged(Play(capacities, cases, steps).cases, cases)
  {
    if |steps| == 0 {
      var order := seq(|cases|, i requires 0 <= i < |cases| => i as nat);
      assert IsShuffle(order, |cases|) && Arranged(cases, order) == cases;
    } else {
      var s := Play(capacities, cases, steps[..|steps| - 1]);
      var step := steps[|steps| - 1];
      CasesAlways(capacities, cases, steps[..|steps| - 1]);
      CasesStep(s, step);
      if Go(s, step).cases != s.cases {
        var first: seq<nat> :| IsShuffle(first, |cases|) && s.cases == Arranged(cases, first);
        RearrangedTwice(cases, first, step.order);
      }
    }
  }

  ghost predicate NoDefault<T>(cases: seq<Case<T>>, n: nat) {
    forall i | 0 <= i < n && i < |cases| :: !cases[i].Default?
  }

  /** The cases that the first pass has been through hold no default, and after it there is none at all. */
  ghost predicate DefaultDecides<T>(s: Sel<T>) {
    && (s.place.Asking? || s.place.Doubting? ==> NoDefault(s.cases, s.place.i))
    && (!s.first ==> NoDefault(s.cases, |s.cases|))
  }

  lemma DefaultStep<T>(s: Sel<T>, step: Step<T>)
    requires Sound(s) && DefaultDecides(s)
    ensures DefaultDecides(Go(s, step))
  {
  }

  /** A select with a default decides in its first pass; the loop that looks for a default never finds one. */
  lemma {:induction false} DefaultDecidesAlways<T>(capacities: seq<nat>, cases: seq<Case<T>>, steps: seq<Step<T>>)
    requires Known(capacities, cases)
    ensures var s := Play(capacities, cases, steps);
            && DefaultDecides(s)
            && (!s.first || s.place == Asking(|s.cases|) ==> forall c | c in s.cases :: !c.Default?)
  {
    if |steps| > 0 {
      DefaultDecidesAlways(capacities, cases, steps[..|steps| - 1]);
      SoundAlways(capacities, cases, steps[..|steps| - 1]);
      DefaultStep(Play(capacities, cases, steps[..|steps| - 1]), steps[|steps| - 1]);
    }
  }

  lemma BufferedStep<T>(w: World<T>, a: Action<T>)
    requires w.ch.buffer != [] && !a.RecvReady?
    ensures Next(w, a).ch.buffer != []
  {
    if Enabled(w, a) { ChannelAfter(w, a); }
  }

  /** What is buffered stays there for a receive, unless another receive comes in between. */
  lemma {:induction false} BufferedStays<T>(w: World<T>, more: seq<Action<T>>)
    requires w.ch.buffer != [] && forall a | a in more :: !a.RecvReady?
    ensures Continue(w, more).ch.buffer != [] && Succeeds(RecvView(Continue(w, more).ch))
  {
    if |more| > 0 {
      BufferedStays(w, more[..|more| - 1]);
      BufferedStep(Continue(w, more[..|more| - 1]), more[|more| - 1]);
    }
  }

  lemma RoomStep<T>(w: World<T>, a: Action<T>)
    requires !IsFull(w.ch) && !a.SendReady? && !Next(w, a).ch.closed
    ensures !w.ch.closed && !IsFull(Next(w, a).ch)
  {
    if w.ch.closed { ClosedStays(w, a); }
    if Enabled(w, a) { ChannelAfter(w, a); }
  }

  /** Room stays there for a send, unless another send or a close comes in between. */
  lemma {:induction false} RoomStays<T>(w: World<T>, more: seq<Action<T>>, x: Msg<T>)
    requires !IsFull(w.ch) && !Continue(w, more).ch.closed && forall a | a in more :: !a.SendReady?
    ensures var c := Continue(w, more).ch; !IsFull(c) && Succeeds(SendView(c, x))
  {
    if |more| > 0 {
      var before := more[..|more| - 1];
      if Continue(w, before).ch.closed { ClosedStays(Continue(w, before), more[|more| - 1]); }
      RoomStays(w, before, x);
      RoomStep(Continue(w, before), more[|more| - 1]);
    }
  }

  lemma {:induction false} OpenBefore<T>(w: World<T>, more: seq<Action<T>>)
    requires !Continue(w, more).ch.closed
    ensures !w.ch.closed
  {
    if |more| > 0 {
      var before := more[..|more| - 1];
      if Continue(w, before).ch.closed { ClosedStays(Continue(w, before), more[|more| - 1]); }
      OpenBefore(w, before);
    }
  }

  /** Since point k, when case c was ready, the others have done `more` to its channel, and select nothing. */
  ghost predicate ReadySince<T>(capacities: seq<nat>, cases: seq<Case<T>>, steps: seq<Step<T>>, c: Case<T>,
                                k: nat, more: seq<Action<T>>)
    requires !c.Default?
  {
    && WasReady(capacities, cases, steps, c, k)
    && var s, t := Play(capacities, cases, steps), Play(capacities, cases, steps[..k]);
       && Sound(s) && c.ch < |s.worlds| == |t.worlds|
       && s.worlds[c.ch] == Continue(t.worlds[c.ch], more)
       && s.others[c.ch] == t.others[c.ch] + more
  }

  /** While a case is chosen and not executed, its channel sees the others only. */
  lemma StillChosen<T>(s: Sel<T>, step: Step<T>, t: Sel<T>, ch: nat, more: seq<Action<T>>)
      returns (new': seq<Action<T>>)
    requires Sound(s) && Sound(t) && ch < |s.worlds| == |t.worlds| && s.place.Chosen? && Go(s, step).place.Chosen?
    requires s.worlds[ch] == Continue(t.worlds[ch], more) && s.others[ch] == t.others[ch] + more
    ensures var v := Go(s, step);
            && Sound(v) && |v.worlds| == |s.worlds|
            && v.worlds[ch] == Continue(t.worlds[ch], more + new') && v.others[ch] == t.others[ch] + (more + new')
  {
    SoundStep(s, step);
    if step.Other? && step.c == ch {
      new' := [step.action];
      assert (more + new')[..|more|] == more;
    } else {
      new' := [];
      assert more + new' == more;
    }
  }

  lemma {:induction false} ChosenSince<T>(capacities: seq<nat>, cases: seq<Case<T>>, steps: seq<Step<T>>)
      returns (k: nat, more: seq<Action<T>>)
    requires Known(capacities, cases)
    requires var s := Play(capacities, cases, steps);
             s.place.Chosen? && s.place.i < |s.cases| && !s.cases[s.place.i].Default?
    ensures var s := Play(capacities, cases, steps); ReadySince(capacities, cases, steps, s.cases[s.place.i], k, more)
  {
    var n := |steps| - 1;
    var s, v := Play(capacities, cases, steps[..n]), Play(capacities, cases, steps);
    var c := v.cases[v.place.i];
    SoundAlways(capacities, cases, steps[..n]);
    SoundAlways(capacities, cases, steps);
    if s.place.Chosen? {
      ChoiceStep(s, steps[n]);
      k, more := ChosenSince(capacities, cases, steps[..n]);
      assert steps[..n][..k] == steps[..k];
      var new' := StillChosen(s, steps[n], Play(capacities, cases, steps[..k]), c.ch, more);
      more := more + new';
    } else {
      NotFromOver(s, steps[n]);
      BecomesChosen(s, steps[n]);
      k, more := n, [];
    }
  }

  lemma NotFromOver<T>(s: Sel<T>, step: Step<T>)
    ensures s.place.Over? ==> Go(s, step).place.Over?
  {
  }

  /** Somebody else's try of the same kind as case c. */
  ghost predicate Rival<T>(c: Case<T>, a: Action<T>) {
    if c.Recv? then a.RecvReady? else a.SendReady?
  }

  /**
   With others at work, executing a chosen case fails for one of two reasons: it is one of the two that fail when
   chosen, as its channel is now; or since it was ready another try of the same kind has come in between.
   */
  lemma FailsOnlyIf<T>(capacities: seq<nat>, cases: seq<Case<T>>, steps: seq<Step<T>>, op: nat, order: seq<nat>)
      returns (k: nat, more: seq<Action<T>>)
    requires Known(capacities, cases)
    requires var s := Play(capacities, cases, steps);
             s.place.Chosen? && Go(s, Mine(op, order)).place == Over(s.place.i, false)
    ensures var s := Play(capacities, cases, steps);
            && Sound(s)
            && var c := s.cases[s.place.i];
               && !c.Default? && ReadySince(capacities, cases, steps, c, k, more)
               && (FailsWhenChosen(ViewIn(s, c)) || exists a :: a in more && Rival(c, a))
  {
    var s := Play(capacities, cases, steps);
    SoundAlways(capacities, cases, steps);
    var c := s.cases[s.place.i];
    k, more := ChosenSince(capacities, cases, steps);
    var w := Play(capacities, cases, steps[..k]).worlds[c.ch];
    if !s.worlds[c.ch].ch.closed && forall a | a in more :: !Rival(c, a) {
      OpenBefore(w, more);
      if c.Recv? { BufferedStays(w, more); } else { RoomStays(w, more, Msg(0, c.body)); }
    }
  }

  /** A channel with one value. */
  ghost function OneValue<T>(body: T): World<T> {
    var m := Msg(1, body);
    ChannelRun.Start<T>(1).(ch := Chan(1, false, [m], [], []), begun := {1}, committed := [m], freed := [1],
                            sent := [m])
  }

  lemma OneValueReachable<T>(body: T)
    ensures Next(ChannelRun.Start<T>(1), SendReady(1, body)) == OneValue(body)
  {
  }

  /** select, with one receive case on it that it has found ready. */
  ghost function Tempted<T>(body: T, callback: nat): Sel<T> {
    Sel([OneValue(body)], [[SendReady(1, body)]], [[SendReady(1, body)]],
        [Recv(0, callback)], Chosen(0), true, [], [])
  }

  lemma FourSteps<T>(capacities: seq<nat>, cases: seq<Case<T>>, a: Step<T>, b: Step<T>, c: Step<T>, d: Step<T>)
    ensures Play(capacities, cases, [a, b, c, d]) == Go(Go(Go(Go(Start(capacities, cases), a), b), c), d)
  {
    assert [a, b, c, d][..3] == [a, b, c] && [a, b, c][..2] == [a, b] && [a, b][..1] == [a];
    assert Play(capacities, cases, [a]) == Go(Start(capacities, cases), a);
    assert Play(capacities, cases, [a, b]) == Go(Go(Start(capacities, cases), a), b);
    assert Play(capacities, cases, [a, b, c]) == Go(Go(Go(Start(capacities, cases), a), b), c);
  }

  lemma TemptedStart<T>(body: T, callback: nat)
    ensures Go(Start([1], [Recv(0, callback)]), Other(0, SendReady(1, body)))
            == Tempted(body, callback).(place := Asking(0))
  {
    var s := Start<T>([1], [Recv(0, callback)]);
    var t := Tempted(body, callback);
    assert s.worlds == [ChannelRun.Start<T>(1)] && s.logs == [[]] && s.others == [[]];
    assert Sound(s);
    OneValueReachable(body);
    assert s.worlds[0 := t.worlds[0]] == t.worlds;
    assert s.logs[0] + [SendReady(1, body)] == t.logs[0];
    assert s.logs[0 := t.logs[0]] == t.logs && s.others[0 := t.others[0]] == t.others;
  }

  lemma TemptedRobbed<T>(body: T, callback: nat)
    ensures var v := Go(Go(Tempted(body, callback), Other(0, RecvReady(2))), Mine(3, []));
            v.place == Over(0, false) && v.called == [] && |v.worlds| == 1 && !v.worlds[0].ch.closed
  {
    var t := Tempted(body, callback);
    assert Sound(t);
    var w := Next(t.worlds[0], RecvReady(2));
    assert w.ch == Chan(1, false, [], [], []) && w.begun == {1, 2};
    var u := Go(t, Other(0, RecvReady(2)));
    assert u.worlds == [w] && Sound(u);
    assert Next(w, RecvReady(3)).ch == w.ch;
  }

  /** One receive case, and somebody else takes the value between the question and the try: select runs nothing. */
  lemma StolenExample<T>(body: T, callback: nat)
    ensures var s := Play([1], [Recv(0, callback)],
                          [Other(0, SendReady(1, body)), Mine(0, []), Other(0, RecvReady(2)), Mine(3, [])]);
            s.place == Over(0, false) && s.called == [] && |s.worlds| == 1 && !s.worlds[0].ch.closed
  {
    var t := Tempted(body, callback);
    FourSteps([1], [Recv(0, callback)], Other(0, SendReady(1, body)), Mine(0, []), Other(0, RecvReady(2)), Mine(3, []));
    TemptedStart(body, callback);
    assert Go(t.(place := Asking(0)), Mine(0, [])) == t;
    TemptedRobbed(body, callback);
  }
}
