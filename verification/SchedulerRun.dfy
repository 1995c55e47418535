/**
 The scheduler's threads, interleaved: workers, the main loop and any number of callers of `schedule`,
 `task_started` and `task_completed`, until `stop`.

 Each actor is one thread of control; a call that a coroutine makes while a thread resumes it is the work of
 another actor, which only allows more interleavings. One step is one atomic access or one locked section. A
 step that is not enabled changes nothing, so every list of steps is a run.
 */
module SchedulerRun {

  /** Where an actor is. */
  datatype Place =
    | Idle
    | Asking(handle: nat)      // in schedule: about to look whether the coroutine is done
    | Counting(handle: nat)    // in schedule: about to increment the counter
    | Pushing(handle: nat)     // in schedule: about to push
    | Holding(handle: nat)     // popped: about to look whether the coroutine is done
    | Resuming(handle: nat)    // inside resume
    | Returned(handle: nat)    // resume has returned: about to look whether the coroutine is done
    | Completing               // in task_completed: about to read the counter
    | Decrementing             // in task_completed: read a positive counter, about to decrement it

  datatype Ending = Suspends | Finishes | Throws

  datatype Action =
    | CallSchedule(actor: nat, handle: nat)
    | CallStarted(actor: nat)                 // task<T>::run, besides its call of schedule
    | CallCompleted(actor: nat)               // task::run on a task that never entered the queue
    | Pop(actor: nat)
    | Advance(actor: nat, ending: Ending)     // the actor's next step; the ending is that of a resume

  datatype Sys = Sys(
    queue: seq<nat>,
    active: int,            // active_tasks_
    places: seq<Place>,
    done: set<nat>)         // finished, or ended by an exception

  ghost function Start(actors: nat): Sys {
    Sys([], 0, seq(actors, _ => Idle), {})
  }

  ghost predicate At(s: Sys, t: nat, p: Place) {
    t < |s.places| && s.places[t] == p
  }

  ghost function Move(s: Sys, t: nat, p: Place): Sys
    requires t < |s.places|
  {
    s.(places := s.places[t := p])
  }

  ghost function DoAdvance(s: Sys, t: nat, ending: Ending): Sys
    requires t < |s.places|
  {
    match s.places[t]
    case Idle => s
    case Asking(h) => Move(s, t, if h in s.done then Idle else Counting(h))
    case Counting(h) => Move(s, t, Pushing(h)).(active := s.active + 1)
    case Pushing(h) => Move(s, t, Idle).(queue := s.queue + [h])
    case Holding(h) => Move(s, t, if h in s.done then Completing else Resuming(h))
    case Resuming(h) =>
      (match ending
       case Suspends => Move(s, t, Returned(h))
       case Finishes => Move(s, t, Returned(h)).(done := s.done + {h})
       case Throws => Move(s, t, Completing).(done := s.done + {h}))
    case Returned(h) => Move(s, t, if h in s.done then Completing else Asking(h))
    case Completing => Move(s, t, if s.active > 0 then Decrementing else Idle)
    case Decrementing => Move(s, t, Idle).(active := s.active - 1)
  }

  ghost function Next(s: Sys, a: Action): Sys {
    match a
    case CallSchedule(t, h) => if At(s, t, Idle) then Move(s, t, Asking(h)) else s
    case CallStarted(t) => if At(s, t, Idle) then s.(active := s.active + 1) else s
    case CallCompleted(t) => if At(s, t, Idle) then Move(s, t, Completing) else s
    case Pop(t) =>
      if At(s, t, Idle) && s.queue != [] then Move(s, t, Holding(s.queue[0])).(queue := s.queue[1..]) else s
    case Advance(t, ending) => if t < |s.places| then DoAdvance(s, t, ending) else s
  }

  ghost function Run(actors: nat, actions: seq<Action>): Sys {
    if |actions| == 0 then Start(actors)
    else Next(Run(actors, actions[..|actions| - 1]), actions[|actions| - 1])
  }

  // ---------------------------------------------------------------------------------------------
  // What happens at a step, read off the step and the state before it
  // ---------------------------------------------------------------------------------------------

  /** The place from which step a advances its actor. */
  ghost function From(s: Sys, a: Action): Place {
    if a.Advance? && a.actor < |s.places| then s.places[a.actor] else Idle
  }

  /** task<T>::run counts a start, besides the one that schedule counts. */
  ghost predicate Starts(s: Sys, a: Action) {
    a.CallStarted? && At(s, a.actor, Idle)
  }

  /** A thread that has resumed a coroutine finds that it is not done, and puts it back. */
  ghost predicate PutsBack(s: Sys, a: Action) {
    From(s, a).Returned? && From(s, a).handle !in s.done
  }

  /** An increment that no completion will answer. */
  ghost predicate Leaks(s: Sys, a: Action) {
    Starts(s, a) || PutsBack(s, a)
  }

  /** task::run signals the completion of a task that was never counted. */
  ghost predicate Signals(s: Sys, a: Action) {
    a.CallCompleted? && At(s, a.actor, Idle)
  }

  /** A completion finds nothing to take. */
  ghost predicate FindsNothing(s: Sys, a: Action) {
    From(s, a).Completing? && s.active <= 0
  }

  /** At how many steps of a run something happens. */
  ghost function Times(actors: nat, actions: seq<Action>, event: (Sys, Action) -> bool): nat {
    if |actions| == 0 then 0
    else
      var n := |actions| - 1;
      Times(actors, actions[..n], event) + if event(Run(actors, actions[..n]), actions[n]) then 1 else 0
  }

  // ---------------------------------------------------------------------------------------------
  // The counter
  // ---------------------------------------------------------------------------------------------

  /** A place at which one increment of the counter is still to be answered by a decrement. */
  ghost predicate Counted(p: Place) {
    p.Pushing? || p.Holding? || p.Resuming? || p.Returned? || p.Completing? || p.Decrementing?
  }

  /** How many actors are at places of a kind. */
  ghost function HowMany(ps: seq<Place>, kind: Place -> bool): nat {
    if |ps| == 0 then 0
    else HowMany(ps[..|ps| - 1], kind) + if kind(ps[|ps| - 1]) then 1 else 0
  }

  lemma {:induction false} OneMoves(ps: seq<Place>, t: nat, p: Place, kind: Place -> bool)
    requires t < |ps|
    ensures HowMany(ps[t := p], kind) + (if kind(ps[t]) then 1 else 0)
         == HowMany(ps, kind) + if kind(p) then 1 else 0
  {
    var n := |ps| - 1;
    if t < n {
      OneMoves(ps[..n], t, p, kind);
      assert ps[t := p][..n] == ps[..n][t := p];
    } else {
      assert ps[t := p][..n] == ps[..n];
    }
  }

  lemma {:induction false} AtLeastOne(ps: seq<Place>, t: nat, kind: Place -> bool)
    requires t < |ps| && kind(ps[t])
    ensures HowMany(ps, kind) >= 1
  {
    if t < |ps| - 1 { AtLeastOne(ps[..|ps| - 1], t, kind); }
  }

  lemma {:induction false} NoneAtFirst(actors: nat, kind: Place -> bool)
    requires !kind(Idle)
    ensures HowMany(seq(actors, _ => Idle), kind) == 0
  {
    if actors > 0 {
      NoneAtFirst(actors - 1, kind);
      assert seq(actors, _ => Idle)[..actors - 1] == seq(actors - 1, _ => Idle);
    }
  }

  lemma {:induction false} FewerOfLess(ps: seq<Place>, less: Place -> bool, more: Place -> bool)
    requires forall p :: less(p) ==> more(p)
    ensures HowMany(ps, less) <= HowMany(ps, more)
  {
    if |ps| > 0 { FewerOfLess(ps[..|ps| - 1], less, more); }
  }

  ghost function InFlight(ps: seq<Place>): nat {
    HowMany(ps, Counted)
  }

  /** The counter against the work, after some leaks, signalled completions and completions that found nothing. */
  ghost predicate Balanced(s: Sys, leaks: nat, signals: nat, idle: nat) {
    s.active + signals == |s.queue| + InFlight(s.places) + leaks + idle
  }

  ghost function One(b: bool): nat {
    if b then 1 else 0
  }

  lemma BalancedStep(s: Sys, a: Action, leaks: nat, signals: nat, idle: nat)
    requires Balanced(s, leaks, signals, idle)
    ensures Balanced(Next(s, a), leaks + One(Leaks(s, a)), signals + One(Signals(s, a)), idle + One(FindsNothing(s, a)))
  {
    var t, v := a.actor, Next(s, a);
    if t < |s.places| {
      OneMoves(s.places, t, v.places[t], Counted);
      assert v.places == s.places[t := v.places[t]];
    }
  }

  /**
   The counter, exactly, in every interleaving: the work in the queue and in flight, plus the starts counted twice
   and the coroutines put back, minus the completions signalled for uncounted tasks, but for those completions that
   found nothing to take.
   */
  lemma {:induction false} CounterExactly(actors: nat, actions: seq<Action>)
    ensures Balanced(Run(actors, actions), Times(actors, actions, Leaks), Times(actors, actions, Signals),
                     Times(actors, actions, FindsNothing))
  {
    if |actions| == 0 {
      NoneAtFirst(actors, Counted);
    } else {
      var n := |actions| - 1;
      CounterExactly(actors, actions[..n]);
      BalancedStep(Run(actors, actions[..n]), actions[n], Times(actors, actions[..n], Leaks),
                   Times(actors, actions[..n], Signals), Times(actors, actions[..n], FindsNothing));
    }
  }

  // ---------------------------------------------------------------------------------------------
  // Exactly when the counter can be relied on
  // ---------------------------------------------------------------------------------------------

  /** Every unit of work, queued or in flight, has its increment. */
  ghost predicate Covered(s: Sys) {
    s.active >= |s.queue| + InFlight(s.places)
  }

  /** task::run signals a completion that no start was counted for, while the counter has nothing to spare. */
  ghost predicate Uncovers(s: Sys, a: Action) {
    a.CallCompleted? && At(s, a.actor, Idle) && s.active == |s.queue| + InFlight(s.places)
  }

  ghost function Surplus(s: Sys): nat
    requires Covered(s)
  {
    s.active - |s.queue| - InFlight(s.places)
  }

  /** As long as the work is covered, a completion always finds a positive counter. */
  lemma StepCovered(s: Sys, a: Action)
    requires Covered(s)
    ensures Covered(Next(s, a)) <==> !Uncovers(s, a)
    ensures !FindsNothing(s, a)
  {
    BalancedStep(s, a, Surplus(s), 0, 0);
    if a.Advance? && a.actor < |s.places| && s.places[a.actor].Completing? { AtLeastOne(s.places, a.actor, Counted); }
  }

  lemma LastStep(actors: nat, actions: seq<Action>, k: nat)
    requires k < |actions|
    ensures Run(actors, actions[..k + 1]) == Next(Run(actors, actions[..k]), actions[k])
  {
    assert actions[..k + 1][..k] == actions[..k];
  }

  lemma {:induction false} CoveredUntil(actors: nat, actions: seq<Action>, k: nat)
    requires k <= |actions| && forall i | 0 <= i < k :: !Uncovers(Run(actors, actions[..i]), actions[i])
    ensures Covered(Run(actors, actions[..k])) && Times(actors, actions[..k], FindsNothing) == 0
  {
    if k == 0 {
      NoneAtFirst(actors, Counted);
    } else {
      CoveredUntil(actors, actions, k - 1);
      LastStep(actors, actions, k - 1);
      assert actions[..k][..k - 1] == actions[..k - 1];
      StepCovered(Run(actors, actions[..k - 1]), actions[k - 1]);
    }
  }

  /** No more completions have been signalled for uncounted tasks than increments have leaked. */
  ghost predicate Afforded(actors: nat, actions: seq<Action>) {
    Times(actors, actions, Signals) <= Times(actors, actions, Leaks)
  }

  lemma AffordedIsCovered(actors: nat, actions: seq<Action>)
    ensures Afforded(actors, actions) ==> Covered(Run(actors, actions))
    ensures Times(actors, actions, FindsNothing) == 0 && Covered(Run(actors, actions)) ==> Afforded(actors, actions)
  {
    CounterExactly(actors, actions);
  }

  /**
   The work is covered at every point of a run if and only if no completion is signalled for an uncounted task
   while the counter has nothing to spare; that is, if and only if at every point at most as many such completions
   have been signalled as increments have leaked.
   */
  lemma CoverageExactly(actors: nat, actions: seq<Action>)
    ensures (forall k | 0 <= k <= |actions| :: Covered(Run(actors, actions[..k])))
       <==> (forall k | 0 <= k < |actions| :: !Uncovers(Run(actors, actions[..k]), actions[k]))
    ensures (forall k | 0 <= k <= |actions| :: Covered(Run(actors, actions[..k])))
       <==> (forall k | 0 <= k <= |actions| :: Afforded(actors, actions[..k]))
  {
    forall k | 0 <= k <= |actions| && Afforded(actors, actions[..k]) ensures Covered(Run(actors, actions[..k])) {
      AffordedIsCovered(actors, actions[..k]);
    }
    if forall k | 0 <= k <= |actions| :: Covered(Run(actors, actions[..k])) {
      forall k | 0 <= k < |actions| ensures !Uncovers(Run(actors, actions[..k]), actions[k]) {
        LastStep(actors, actions, k);
        assert Covered(Run(actors, actions[..k])) && Covered(Run(actors, actions[..k + 1]));
        StepCovered(Run(actors, actions[..k]), actions[k]);
      }
    }
    if forall k | 0 <= k < |actions| :: !Uncovers(Run(actors, actions[..k]), actions[k]) {
      forall k | 0 <= k <= |actions|
        ensures Covered(Run(actors, actions[..k])) && Afforded(actors, actions[..k])
      {
        CoveredUntil(actors, actions, k);
        AffordedIsCovered(actors, actions[..k]);
      }
    }
  }

  /**
   Termination detection. As long as every completion answers a counted start, the counter never underflows, a
   completion always finds it positive, and a zero means that nothing is queued and nobody is at work.
   */
  lemma DetectionIsSafe(actors: nat, actions: seq<Action>)
    requires forall a | a in actions :: !a.CallCompleted?
    ensures var s := Run(actors, actions);
            && s.active >= |s.queue| + InFlight(s.places)
            && (forall t | 0 <= t < |s.places| && s.places[t].Completing? :: s.active > 0)
            && (s.active == 0 ==> s.queue == [] && forall t | 0 <= t < |s.places| :: !Counted(s.places[t]))
  {
    var s := Run(actors, actions);
    assert actions[..|actions|] == actions;
    CoveredUntil(actors, actions, |actions|);
    forall t | 0 <= t < |s.places| && Counted(s.places[t]) ensures s.active > 0 {
      AtLeastOne(s.places, t, Counted);
    }
  }

  /** The decrement of a counter that is not positive. */
  ghost predicate Underflows(s: Sys, a: Action) {
    a.Advance? && At(s, a.actor, Decrementing) && s.active <= 0
  }

  lemma StepPositive(s: Sys, a: Action)
    ensures s.active >= 0 ==> (Next(s, a).active >= 0 <==> !Underflows(s, a))
    ensures Underflows(s, a) ==> Next(s, a).active < 0
  {
  }

  lemma {:induction false} PositiveUntil(actors: nat, actions: seq<Action>, k: nat)
    requires k <= |actions| && forall i | 0 <= i < k :: !Underflows(Run(actors, actions[..i]), actions[i])
    ensures Run(actors, actions[..k]).active >= 0
  {
    if k > 0 {
      PositiveUntil(actors, actions, k - 1);
      LastStep(actors, actions, k - 1);
      StepPositive(Run(actors, actions[..k - 1]), actions[k - 1]);
    }
  }

  /** The counter is never negative if and only if no decrement, after its check, meets an exhausted counter. */
  lemma NeverNegativeExactly(actors: nat, actions: seq<Action>)
    ensures (forall k | 0 <= k <= |actions| :: Run(actors, actions[..k]).active >= 0)
       <==> (forall k | 0 <= k < |actions| :: !Underflows(Run(actors, actions[..k]), actions[k]))
  {
    if forall k | 0 <= k < |actions| :: !Underflows(Run(actors, actions[..k]), actions[k]) {
      forall k | 0 <= k <= |actions| ensures Run(actors, actions[..k]).active >= 0 {
        PositiveUntil(actors, actions, k);
      }
    } else {
      var k :| 0 <= k < |actions| && Underflows(Run(actors, actions[..k]), actions[k]);
      LastStep(actors, actions, k);
      StepPositive(Run(actors, actions[..k]), actions[k]);
      assert Run(actors, actions[..k + 1]).active < 0;
    }
  }

  /** A coroutine is being pushed, held, resumed or looked at after its resumption. */
  ghost predicate Busy(p: Place) {
    p.Pushing? || p.Holding? || p.Resuming? || p.Returned?
  }

  /** What termination detection waits for: the queued coroutines and those in an actor's hands. */
  ghost function Work(s: Sys): nat {
    |s.queue| + HowMany(s.places, Busy)
  }

  /** A counter of zero tells that no work is left, and the counter is not negative. */
  ghost predicate Sound(s: Sys) {
    s.active >= 0 && (s.active == 0 ==> Work(s) == 0)
  }

  /** A decrement, after its check, takes away the last increment there is while work is left, or one too many. */
  ghost predicate Exhausts(s: Sys, a: Action) {
    a.Advance? && At(s, a.actor, Decrementing) && (s.active <= 0 || (s.active == 1 && Work(s) > 0))
  }

  lemma WorkStep(s: Sys, a: Action)
    ensures Work(Next(s, a)) <= Work(s) || Next(s, a).active == s.active + 1
    ensures a.Advance? && At(s, a.actor, Decrementing) ==> Work(Next(s, a)) == Work(s)
  {
    var t, v := a.actor, Next(s, a);
    if t < |s.places| {
      OneMoves(s.places, t, v.places[t], Busy);
      assert v.places == s.places[t := v.places[t]];
    }
  }

  lemma StepSound(s: Sys, a: Action)
    requires Sound(s)
    ensures Sound(Next(s, a)) <==> !Exhausts(s, a)
  {
    WorkStep(s, a);
  }

  lemma {:induction false} SoundUntil(actors: nat, actions: seq<Action>, k: nat)
    requires k <= |actions| && forall i | 0 <= i < k :: !Exhausts(Run(actors, actions[..i]), actions[i])
    ensures Sound(Run(actors, actions[..k]))
  {
    if k == 0 {
      NoneAtFirst(actors, Busy);
    } else {
      SoundUntil(actors, actions, k - 1);
      LastStep(actors, actions, k - 1);
      StepSound(Run(actors, actions[..k - 1]), actions[k - 1]);
    }
  }

  /**
   Termination detection is right at every point of a run, a zero meaning that nothing is queued, pushed, held,
   resumed or just resumed, if and only if no decrement of that run takes the last increment while work is left.
   */
  lemma DetectionExactly(actors: nat, actions: seq<Action>)
    ensures (forall k | 0 <= k <= |actions| :: Sound(Run(actors, actions[..k])))
       <==> (forall k | 0 <= k < |actions| :: !Exhausts(Run(actors, actions[..k]), actions[k]))
  {
    if forall k | 0 <= k < |actions| :: !Exhausts(Run(actors, actions[..k]), actions[k]) {
      forall k | 0 <= k <= |actions| ensures Sound(Run(actors, actions[..k])) {
        SoundUntil(actors, actions, k);
      }
    }
    if forall k | 0 <= k <= |actions| :: Sound(Run(actors, actions[..k])) {
      forall k | 0 <= k < |actions| ensures !Exhausts(Run(actors, actions[..k]), actions[k]) {
        LastStep(actors, actions, k);
        assert Sound(Run(actors, actions[..k])) && Sound(Run(actors, actions[..k + 1]));
        StepSound(Run(actors, actions[..k]), actions[k]);
      }
    }
  }

  /** Nothing is queued, and nobody has work in hand or a completion to do. */
  ghost predicate AtRest(s: Sys) {
    s.queue == [] && InFlight(s.places) == 0
  }

  /**
   A run that is covered throughout never goes wrong, and when it comes to rest the counter is the number of starts
   counted twice and coroutines put back, less that of the completions signalled: it returns to zero exactly when
   these are equally many.
   */
  lemma CoveredIsSound(actors: nat, actions: seq<Action>, k: nat)
    requires k <= |actions| && forall i | 0 <= i <= |actions| :: Covered(Run(actors, actions[..i]))
    ensures var s := Run(actors, actions[..k]);
            && Sound(s)
            && (AtRest(s) ==>
                  s.active == Times(actors, actions[..k], Leaks) - Times(actors, actions[..k], Signals))
  {
    var s := Run(actors, actions[..k]);
    CoverageExactly(actors, actions);
    assert Covered(s);
    FewerOfLess(s.places, Busy, Counted);
    CoveredUntil(actors, actions, k);
    CounterExactly(actors, actions[..k]);
  }

  // ---------------------------------------------------------------------------------------------
  // Resuming, and being done
  // ---------------------------------------------------------------------------------------------

  /** A resumption of h ends for good. */
  ghost predicate Ends(s: Sys, a: Action, h: nat) {
    From(s, a) == Resuming(h) && a.ending != Suspends
  }

  /** A resumption ends with the coroutine suspended. */
  ghost predicate EndsSuspended(s: Sys, a: Action) {
    From(s, a).Resuming? && a.ending == Suspends
  }

  ghost predicate EndsAt(actors: nat, actions: seq<Action>, h: nat, k: nat)
    requires k < |actions|
  {
    Ends(Run(actors, actions[..k]), actions[k], h)
  }

  /** The coroutines that are done are those whose resumption has ended for good. */
  lemma {:induction false} DoneExactly(actors: nat, actions: seq<Action>, h: nat)
    ensures h in Run(actors, actions).done <==> exists k | 0 <= k < |actions| :: EndsAt(actors, actions, h, k)
  {
    if |actions| > 0 {
      var n := |actions| - 1;
      DoneExactly(actors, actions[..n], h);
      forall k | 0 <= k < n ensures EndsAt(actors, actions[..n], h, k) == EndsAt(actors, actions, h, k) {
        assert actions[..n][..k] == actions[..k];
      }
      DoneStep(Run(actors, actions[..n]), actions[n], h);
      assert EndsAt(actors, actions, h, n) == Ends(Run(actors, actions[..n]), actions[n], h);
    }
  }

  lemma DoneStep(s: Sys, a: Action, h: nat)
    ensures h in Next(s, a).done <==> h in s.done || Ends(s, a, h)
  {
  }

  /**
   What is asked of a coroutine that is done: schedule turns it away, a thread that has popped it does not resume it,
   and a thread that has resumed it completes it; and one that is not done is treated the other way, each time. An
   exception that leaves resume is a completion at once.
   */
  lemma DoneDecides(s: Sys, t: nat, h: nat, ending: Ending)
    ensures var v := Next(s, Advance(t, ending));
            && (At(s, t, Asking(h)) ==> (At(v, t, Counting(h)) <==> h !in s.done))
            && (At(s, t, Holding(h)) ==> (At(v, t, Resuming(h)) <==> h !in s.done))
            && (At(s, t, Resuming(h)) ==> At(v, t, if ending == Throws then Completing else Returned(h)))
            && (At(s, t, Returned(h)) ==> (At(v, t, Asking(h)) <==> h !in s.done))
            && (h in s.done ==>
                  && (At(s, t, Asking(h)) ==> At(v, t, Idle))
                  && (At(s, t, Holding(h)) || At(s, t, Returned(h)) ==> At(v, t, Completing)))
  {
  }

  /** In every interleaving, nobody starts to push or to resume a coroutine that is done then. */
  lemma OnlyUndone(s: Sys, a: Action, t: nat, h: nat)
    ensures !At(s, t, Resuming(h)) && At(Next(s, a), t, Resuming(h)) ==> h !in s.done && At(s, t, Holding(h))
    ensures !At(s, t, Counting(h)) && At(Next(s, a), t, Counting(h)) ==> h !in s.done && At(s, t, Asking(h))
  {
  }

  ghost predicate ReturnedAreDone(s: Sys) {
    forall t | 0 <= t < |s.places| && s.places[t].Returned? :: s.places[t].handle in s.done
  }

  /** No start is counted twice, no uncounted completion is signalled, and no resumption ends suspended. */
  ghost predicate Plain(s: Sys, a: Action) {
    !Starts(s, a) && !Signals(s, a) && !EndsSuspended(s, a)
  }

  lemma PlainStep(s: Sys, a: Action)
    requires ReturnedAreDone(s) && Plain(s, a)
    ensures ReturnedAreDone(Next(s, a)) && !Leaks(s, a)
  {
  }

  lemma {:induction false} PlainUntil(actors: nat, actions: seq<Action>)
    requires forall k | 0 <= k < |actions| :: Plain(Run(actors, actions[..k]), actions[k])
    ensures ReturnedAreDone(Run(actors, actions)) && Covered(Run(actors, actions))
    ensures Times(actors, actions, Leaks) == Times(actors, actions, Signals) == 0
    ensures Times(actors, actions, FindsNothing) == 0
  {
    if |actions| == 0 {
      NoneAtFirst(actors, Counted);
    } else {
      var n := |actions| - 1;
      forall k | 0 <= k < n ensures Plain(Run(actors, actions[..n][..k]), actions[..n][k]) {
        assert actions[..n][..k] == actions[..k];
      }
      PlainUntil(actors, actions[..n]);
      PlainStep(Run(actors, actions[..n]), actions[n]);
      StepCovered(Run(actors, actions[..n]), actions[n]);
    }
  }

  /**
   In a run in which every coroutine that is resumed ends, no start is counted twice and no uncounted completion is
   signalled, the counter is the work there is, and it is back at zero when the run comes to rest.
   */
  lemma BackToZero(actors: nat, actions: seq<Action>)
    requires forall k | 0 <= k < |actions| :: Plain(Run(actors, actions[..k]), actions[k])
    ensures var s := Run(actors, actions);
            s.active == |s.queue| + InFlight(s.places) && (AtRest(s) ==> s.active == 0)
  {
    PlainUntil(actors, actions);
    CounterExactly(actors, actions);
  }

  // ---------------------------------------------------------------------------------------------
  // Two runs that go wrong
  // ---------------------------------------------------------------------------------------------

  ghost function RunFrom(s: Sys, actions: seq<Action>): Sys
    decreases |actions|
  {
    if |actions| == 0 then s
    else RunFrom(Next(s, actions[0]), actions[1..])
  }

  lemma {:induction false} RunUnrolls(actors: nat, before: seq<Action>, after: seq<Action>)
    ensures Run(actors, before + after) == RunFrom(Run(actors, before), after)
    decreases |after|
  {
    if |after| == 0 {
      assert before + after == before;
    } else {
      assert before + after == before + [after[0]] + after[1..];
      assert (before + [after[0]])[..|before|] == before;
      RunUnrolls(actors, before + [after[0]], after[1..]);
    }
  }

  lemma ThreeSteps(s: Sys, a: Action, b: Action, c: Action)
    ensures RunFrom(s, [a, b]) == Next(Next(s, a), b)
    ensures RunFrom(s, [a, b, c]) == Next(Next(Next(s, a), b), c)
  {
    assert RunFrom(s, [a, b]) == RunFrom(Next(s, a), [b]);
    assert RunFrom(Next(s, a), [b]) == RunFrom(Next(Next(s, a), b), []);
    assert RunFrom(s, [a, b, c]) == RunFrom(Next(s, a), [b, c]);
    assert RunFrom(Next(s, a), [b, c]) == RunFrom(Next(Next(s, a), b), [c]);
    assert RunFrom(Next(Next(s, a), b), [c]) == RunFrom(Next(Next(Next(s, a), b), c), []);
  }

  lemma FourSteps(s: Sys, a: Action, b: Action, c: Action, d: Action)
    ensures RunFrom(s, [a, b, c, d]) == Next(Next(Next(Next(s, a), b), c), d)
  {
    assert RunFrom(s, [a, b, c, d]) == RunFrom(Next(s, a), [b, c, d]);
    ThreeSteps(Next(s, a), b, c, d);
  }

  /** Actor 0 calls schedule, up to its end. */
  ghost function Scheduling(h: nat): seq<Action> {
    [CallSchedule(0, h), Advance(0, Suspends), Advance(0, Suspends), Advance(0, Suspends)]
  }

  ghost function Scheduled(h: nat): Sys {
    Start(2).(queue := [h], active := 1)
  }

  lemma ScheduleRuns(h: nat)
    ensures Run(2, Scheduling(h)) == Scheduled(h)
  {
    RunUnrolls(2, [], Scheduling(h));
    assert [] + Scheduling(h) == Scheduling(h);
    FourSteps(Start(2), CallSchedule(0, h), Advance(0, Suspends), Advance(0, Suspends), Advance(0, Suspends));
    assert Start(2).places == [Idle, Idle];
    assert [Idle, Idle][0 := Asking(h)][0 := Counting(h)][0 := Pushing(h)][0 := Idle] == [Idle, Idle];
  }

  /** A task that was done before it was ever queued is signalled as completed while another one is queued. */
  lemma FalseZeroExample(h: nat)
    ensures var s := Run(2, Scheduling(h) + [CallCompleted(1), Advance(1, Suspends), Advance(1, Suspends)]);
            s.active == 0 && s.queue == [h]
  {
    ScheduleRuns(h);
    RunUnrolls(2, Scheduling(h), [CallCompleted(1), Advance(1, Suspends), Advance(1, Suspends)]);
    ThreeSteps(Scheduled(h), CallCompleted(1), Advance(1, Suspends), Advance(1, Suspends));
  }

  /** Two such completions that both read a counter of one. */
  ghost function BothSignal(): seq<Action> {
    [CallCompleted(0), CallCompleted(1), Advance(0, Suspends), Advance(1, Suspends)]
  }

  ghost function BothSignalled(h: nat): Sys {
    Scheduled(h).(places := [Decrementing, Decrementing])
  }

  lemma BothRead(h: nat)
    ensures Run(2, Scheduling(h) + BothSignal()) == BothSignalled(h)
  {
    ScheduleRuns(h);
    RunUnrolls(2, Scheduling(h), BothSignal());
    FourSteps(Scheduled(h), CallCompleted(0), CallCompleted(1), Advance(0, Suspends), Advance(1, Suspends));
    assert Start(2).places == [Idle, Idle];
    assert [Idle, Idle][0 := Completing][1 := Completing][0 := Decrementing][1 := Decrementing]
        == [Decrementing, Decrementing];
  }

  /** They drive it below zero, with a coroutine in the queue. */
  lemma UnderflowExample(h: nat)
    ensures var s := Run(2, Scheduling(h) + BothSignal() + [Advance(0, Suspends), Advance(1, Suspends)]);
            s.active == -1 && s.queue == [h]
  {
    BothRead(h);
    RunUnrolls(2, Scheduling(h) + BothSignal(), [Advance(0, Suspends), Advance(1, Suspends)]);
    ThreeSteps(BothSignalled(h), Advance(0, Suspends), Advance(1, Suspends), Advance(1, Suspends));
  }

  // ---------------------------------------------------------------------------------------------
  // The queue
  // ---------------------------------------------------------------------------------------------

  /** The handle that a step pushes. */
  ghost function Pushes(s: Sys, a: Action): seq<nat> {
    if From(s, a).Pushing? then [From(s, a).handle] else []
  }

  /** The handle that a step pops, for an actor to hold. */
  ghost function Pops(s: Sys, a: Action): seq<nat> {
    var after := Next(s, a).places;
    if a.Pop? && At(s, a.actor, Idle) && a.actor < |after| && after[a.actor].Holding?
    then [after[a.actor].handle] else []
  }

  /** What the steps of a run give, one after the other. */
  ghost function Log(actors: nat, actions: seq<Action>, what: (Sys, Action) -> seq<nat>): seq<nat> {
    if |actions| == 0 then []
    else
      var n := |actions| - 1;
      Log(actors, actions[..n], what) + what(Run(actors, actions[..n]), actions[n])
  }

  lemma QueueStep(s: Sys, a: Action, pushed: seq<nat>, popped: seq<nat>)
    requires pushed == popped + s.queue
    ensures pushed + Pushes(s, a) == popped + Pops(s, a) + Next(s, a).queue
  {
  }

  /** The queue is first in, first out: what has been pushed is what the threads have popped, and then the queue. */
  lemma {:induction false} QueueInOrder(actors: nat, actions: seq<Action>)
    ensures Log(actors, actions, Pushes) == Log(actors, actions, Pops) + Run(actors, actions).queue
  {
    if |actions| > 0 {
      var n := |actions| - 1;
      QueueInOrder(actors, actions[..n]);
      QueueStep(Run(actors, actions[..n]), actions[n], Log(actors, actions[..n], Pushes),
                Log(actors, actions[..n], Pops));
    }
  }

  ghost predicate Carries(p: Place, h: nat) {
    (p.Asking? || p.Counting? || p.Pushing? || p.Holding? || p.Resuming? || p.Returned?) && p.handle == h
  }

  /** Coroutine h is done, queued, or in some actor's hands. */
  ghost predicate Somewhere(s: Sys, h: nat) {
    || h in s.done
    || h in s.queue
    || exists t :: 0 <= t < |s.places| && Carries(s.places[t], h)
  }

  lemma SomewhereStep(s: Sys, a: Action, h: nat)
    requires Somewhere(s, h)
    ensures Somewhere(Next(s, a), h)
  {
    var t, v := a.actor, Next(s, a);
    if t < |s.places| {
      assert v.places == s.places[t := v.places[t]];
      if u :| 0 <= u < |s.places| && Carries(s.places[u], h) {
        if u != t { assert Carries(v.places[u], h); }
        if u == t && v.places[t].Idle? && h !in s.done { assert v.queue[|s.queue|] == h; }
      }
      if h in s.queue && h !in v.queue { assert Carries(v.places[t], h); }
    }
  }

  /** Step k is a call of schedule for h. */
  ghost predicate AsksAt(actors: nat, actions: seq<Action>, h: nat, k: nat)
    requires k < |actions|
  {
    actions[k].CallSchedule? && actions[k].handle == h && At(Run(actors, actions[..k]), actions[k].actor, Idle)
  }

  lemma AskStep(s: Sys, a: Action)
    requires a.CallSchedule? && At(s, a.actor, Idle)
    ensures Somewhere(Next(s, a), a.handle)
  {
    assert Carries(Next(s, a).places[a.actor], a.handle);
  }

  /** No coroutine is lost for which schedule was ever called. */
  lemma {:induction false} NoTaskLost(actors: nat, actions: seq<Action>, h: nat, k: nat)
    requires k < |actions| && AsksAt(actors, actions, h, k)
    ensures Somewhere(Run(actors, actions), h)
  {
    var n := |actions| - 1;
    if k == n {
      AskStep(Run(actors, actions[..n]), actions[n]);
    } else {
      assert actions[..n][..k] == actions[..k];
      NoTaskLost(actors, actions[..n], h, k);
      SomewhereStep(Run(actors, actions[..n]), actions[n], h);
    }
  }
}
