/**
 What the scheduler does when one thread runs it, as functions on its state. A coroutine is a list of bursts, one
 for each time it is resumed; a burst is the list of coroutines it schedules (itself, when it yields) and whether
 it ends in an exception that leaves resume. A coroutine is done when it has no bursts left.
 */
module SchedulerSpec {

  datatype Burst = Burst(schedules: seq<nat>, throws: bool)

  datatype State = State(
    queue: seq<nat>,
    active: nat,                 // active_tasks_
    programs: seq<seq<Burst>>,   // what is left of each coroutine
    failed: set<nat>,
    pushed: seq<nat>,            // everything ever put into the queue
    resumed: seq<nat>,           // the coroutines resumed, in order
    rescheduled: nat)            // how often the loop put a suspended coroutine back

  predicate Done(s: State, h: nat) {
    h >= |s.programs| || |s.programs[h]| == 0
  }

  function Budget(programs: seq<seq<Burst>>): nat {
    if |programs| == 0 then 0 else Budget(programs[..|programs| - 1]) + |programs[|programs| - 1]|
  }

  lemma {:induction false} BudgetUpdate(programs: seq<seq<Burst>>, h: nat, p: seq<Burst>)
    requires h < |programs|
    ensures Budget(programs[h := p]) + |programs[h]| == Budget(programs) + |p|
  {
    var n := |programs| - 1;
    if h < n {
      BudgetUpdate(programs[..n], h, p);
      assert programs[h := p][..n] == programs[..n][h := p];
    } else {
      assert programs[h := p][..n] == programs[..n];
    }
  }

  function Schedule(s: State, h: nat): State {
    if Done(s, h) then s
    else s.(active := s.active + 1, queue := s.queue + [h], pushed := s.pushed + [h])
  }

  function ScheduleAll(s: State, hs: seq<nat>): (r: State)
    ensures r.programs == s.programs && r.failed == s.failed && r.resumed == s.resumed
            && r.rescheduled == s.rescheduled
  {
    if |hs| == 0 then s else Schedule(ScheduleAll(s, hs[..|hs| - 1]), hs[|hs| - 1])
  }

  function TaskCompleted(s: State): State {
    if s.active > 0 then s.(active := s.active - 1) else s
  }

  function Resume(s: State, h: nat): State
    requires !Done(s, h)
  {
    var burst := s.programs[h][0];
    var rest := if burst.throws then [] else s.programs[h][1..];
    ScheduleAll(s.(programs := s.programs[h := rest], resumed := s.resumed + [h],
                   failed := if burst.throws then s.failed + {h} else s.failed), burst.schedules)
  }

  /** One turn of the loop on the coroutine at the front of the queue. */
  function Turn(s: State): State
    requires |s.queue| > 0
  {
    var h := s.queue[0];
    var popped := s.(queue := s.queue[1..]);
    if Done(popped, h) then TaskCompleted(popped)
    else
      var after := Resume(popped, h);
      if Done(after, h) then TaskCompleted(after)
      else Schedule(after, h).(rescheduled := s.rescheduled + 1)
  }

  lemma TurnDecreases(s: State)
    requires |s.queue| > 0
    ensures Budget(Turn(s).programs) < Budget(s.programs)
         || (Turn(s).programs == s.programs && |Turn(s).queue| < |s.queue|)
  {
    var h := s.queue[0];
    if !Done(s, h) {
      BudgetUpdate(s.programs, h, if s.programs[h][0].throws then [] else s.programs[h][1..]);
    }
  }

  /** Turn after turn, until the queue is empty. */
  function Finish(s: State): State
    decreases Budget(s.programs), |s.queue|
  {
    if |s.queue| == 0 then s
    else
      TurnDecreases(s);
      Finish(Turn(s))
  }

  // ---------------------------------------------------------------------------------------------
  // What running to the end achieves
  // ---------------------------------------------------------------------------------------------

  /** Everything that was put into the queue is done or still there. */
  ghost predicate Covered(s: State) {
    forall h | h in s.pushed :: Done(s, h) || h in s.queue
  }

  lemma {:induction false} ScheduleAllKeeps(s: State, hs: seq<nat>)
    ensures var r := ScheduleAll(s, hs);
            && |s.queue| <= |r.queue| && s.queue == r.queue[..|s.queue|]
            && |s.pushed| <= |r.pushed| && r.pushed == s.pushed + r.queue[|s.queue|..]
            && r.active == s.active + |r.queue| - |s.queue|
  {
    if |hs| > 0 { ScheduleAllKeeps(s, hs[..|hs| - 1]); }
  }

  lemma {:induction false} ScheduleAllCovers(s: State, hs: seq<nat>)
    ensures var r := ScheduleAll(s, hs);
            (forall h | h in s.queue :: h in r.queue) && (forall h | h in r.pushed :: h in s.pushed || h in r.queue)
  {
    if |hs| > 0 { ScheduleAllCovers(s, hs[..|hs| - 1]); }
  }

  /** A turn pops one, pushes some, answers one increment if the coroutine ended, and leaks one if it did not. */
  lemma TurnKeeps(s: State, extra: nat)
    requires |s.queue| > 0 && s.active == |s.queue| + s.rescheduled + extra
    ensures var r := Turn(s);
            && |r.queue| >= |s.queue| - 1 && r.queue[..|s.queue| - 1] == s.queue[1..]
            && r.pushed == s.pushed + r.queue[|s.queue| - 1..]
            && r.active == |r.queue| + r.rescheduled + extra
  {
    var h := s.queue[0];
    var popped := s.(queue := s.queue[1..]);
    if !Done(popped, h) {
      var burst := s.programs[h][0];
      var rest := if burst.throws then [] else s.programs[h][1..];
      ScheduleAllKeeps(popped.(programs := s.programs[h := rest], resumed := s.resumed + [h],
                               failed := if burst.throws then s.failed + {h} else s.failed), burst.schedules);
    }
  }

  lemma BehindTheFirst(queue: seq<nat>, g: nat)
    requires |queue| > 0 && g in queue && g != queue[0]
    ensures g in queue[1..]
  {
    var i :| 0 <= i < |queue| && queue[i] == g;
    assert queue[1..][i - 1] == g;
  }

  lemma TurnCovers(s: State)
    requires |s.queue| > 0 && Covered(s)
    ensures Covered(Turn(s))
  {
    var h, r := s.queue[0], Turn(s);
    var popped := s.(queue := s.queue[1..]);
    forall g | g in s.queue && g != h ensures g in popped.queue { BehindTheFirst(s.queue, g); }
    if !Done(popped, h) {
      var burst := s.programs[h][0];
      var rest := if burst.throws then [] else s.programs[h][1..];
      var begun := popped.(programs := s.programs[h := rest], resumed := s.resumed + [h],
                           failed := if burst.throws then s.failed + {h} else s.failed);
      ScheduleAllCovers(begun, burst.schedules);
      var after := ScheduleAll(begun, burst.schedules);
      assert forall g | g in after.queue :: g in r.queue;
      assert Done(r, h) || h in r.queue;
      forall g | g in r.pushed ensures Done(r, g) || g in r.queue {
        assert g in s.pushed || g in after.queue || g == h;
        if g in s.pushed && g != h { assert Done(s, g) ==> Done(r, g); }
      }
    }
  }

  /** When the loop is over, everything that was ever scheduled is done. */
  lemma {:induction false} EverythingDone(s: State)
    requires Covered(s)
    ensures var r := Finish(s);
            r.queue == [] && forall h | h in r.pushed :: Done(r, h)
    decreases Budget(s.programs), |s.queue|
  {
    if |s.queue| > 0 {
      TurnDecreases(s);
      TurnCovers(s);
      EverythingDone(Turn(s));
    }
  }

  /**
   The counter left behind is the number of times the loop put a suspended coroutine back, plus the extra
   increments (task<T>::run counts each start twice). It is zero exactly when there was neither.
   */
  lemma {:induction false} CounterLeftBehind(s: State, extra: nat)
    requires s.active == |s.queue| + s.rescheduled + extra
    ensures Finish(s).active == Finish(s).rescheduled + extra && Finish(s).rescheduled >= s.rescheduled
    decreases Budget(s.programs), |s.queue|
  {
    if |s.queue| > 0 {
      TurnDecreases(s);
      TurnKeeps(s, extra);
      CounterLeftBehind(Turn(s), extra);
    }
  }

  // ---------------------------------------------------------------------------------------------
  // The order in the queue, and completions beyond the counter
  // ---------------------------------------------------------------------------------------------

  /** Those of hs that are not done, in order. */
  ghost function Undone(programs: seq<seq<Burst>>, hs: seq<nat>): seq<nat> {
    if |hs| == 0 then []
    else (if hs[0] < |programs| && |programs[hs[0]]| > 0 then [hs[0]] else []) + Undone(programs, hs[1..])
  }

  lemma {:induction false} UndoneGrows(programs: seq<seq<Burst>>, hs: seq<nat>, h: nat)
    ensures Undone(programs, hs + [h]) == Undone(programs, hs) + Undone(programs, [h])
  {
    if |hs| > 0 {
      assert (hs + [h])[1..] == hs[1..] + [h];
      UndoneGrows(programs, hs[1..], h);
    } else {
      assert hs + [h] == [h];
    }
  }

  /** Scheduling one coroutine after the other queues and counts those that are not done, in that order. */
  lemma {:induction false} ScheduledInOrder(s: State, hs: seq<nat>)
    ensures var r, more := ScheduleAll(s, hs), Undone(s.programs, hs);
            r.queue == s.queue + more && r.pushed == s.pushed + more && r.active == s.active + |more|
  {
    if |hs| > 0 {
      var n := |hs| - 1;
      ScheduledInOrder(s, hs[..n]);
      UndoneGrows(s.programs, hs[..n], hs[n]);
      assert hs == hs[..n] + [hs[n]];
      assert [hs[n]][1..] == [] && Undone(s.programs, []) == [];
    }
  }

  /**
   What a turn leaves in the queue: the coroutines behind the one in front, those that it scheduled in its burst and
   that are not done then, in order, and last that coroutine itself if it has suspended.
   */
  lemma TurnInOrder(s: State)
    requires |s.queue| > 0
    ensures var h := s.queue[0];
            Turn(s).queue == s.queue[1..] +
              if Done(s, h) then []
              else
                var burst := s.programs[h][0];
                var left := s.programs[h := if burst.throws then [] else s.programs[h][1..]];
                Undone(left, burst.schedules) + if |left[h]| > 0 then [h] else []
  {
    var h := s.queue[0];
    var popped := s.(queue := s.queue[1..]);
    if !Done(popped, h) {
      var burst := s.programs[h][0];
      var rest := if burst.throws then [] else s.programs[h][1..];
      ScheduledInOrder(popped.(programs := s.programs[h := rest], resumed := s.resumed + [h],
                               failed := if burst.throws then s.failed + {h} else s.failed), burst.schedules);
    }
  }

  /** k completions, as task::run signals them for coroutines that were done at once. */
  ghost function Completed(s: State, k: nat): State {
    if k == 0 then s else TaskCompleted(Completed(s, k - 1))
  }

  /** They take away k, or as much as there is, and nothing else. */
  lemma {:induction false} CompletionsStopAtZero(s: State, k: nat)
    ensures Completed(s, k) == s.(active := if k <= s.active then s.active - k else 0)
  {
    if k > 0 { CompletionsStopAtZero(s, k - 1); }
  }

  // ---------------------------------------------------------------------------------------------
  // Which programs bring the counter back to zero
  // ---------------------------------------------------------------------------------------------

  /** Coroutine h, if it is resumed at all, ends in its first burst: it never suspends. */
  ghost predicate OneShot(programs: seq<seq<Burst>>, h: nat) {
    h >= |programs| || |programs[h]| <= 1 || programs[h][0].throws
  }

  ghost predicate Within(hs: seq<nat>, S: set<nat>) {
    forall h | h in hs :: h in S
  }

  ghost predicate AllOneShot(programs: seq<seq<Burst>>, S: set<nat>) {
    forall h | h in S :: OneShot(programs, h)
  }

  /** S holds what is queued and whatever its coroutines schedule in their first bursts. */
  ghost predicate ClosedUnder(s: State, S: set<nat>) {
    && Within(s.queue, S)
    && (forall h | h in S && !Done(s, h) :: Within(s.programs[h][0].schedules, S))
  }

  /** Nothing that can come to run ever suspends. */
  ghost predicate NeverSuspends(s: State) {
    exists S: set<nat> :: ClosedUnder(s, S) && AllOneShot(s.programs, S)
  }

  lemma {:induction false} ScheduleAllQueues(s: State, hs: seq<nat>, h: nat)
    ensures h in ScheduleAll(s, hs).queue <==> h in s.queue || (h in hs && !Done(s, h))
  {
    if |hs| > 0 {
      ScheduleAllQueues(s, hs[..|hs| - 1], h);
      assert hs == hs[..|hs| - 1] + [hs[|hs| - 1]];
    }
  }

  /** What a turn puts into the queue and what it leaves of the programs. */
  lemma TurnQueues(s: State, g: nat)
    requires |s.queue| > 0
    ensures var h, r := s.queue[0], Turn(s);
            && (Done(s, h) ==> r.programs == s.programs && r.queue == s.queue[1..])
            && (!Done(s, h) ==>
                  && r.programs == s.programs[h := if s.programs[h][0].throws then [] else s.programs[h][1..]]
                  && (g in s.queue[1..] ==> g in r.queue)
                  && (g in s.programs[h][0].schedules && g != h && !Done(s, g) ==> g in r.queue)
                  && (g in r.queue ==> g in s.queue || g in s.programs[h][0].schedules))
            && r.rescheduled == s.rescheduled + if OneShot(s.programs, h) then 0 else 1
  {
    var h := s.queue[0];
    var popped := s.(queue := s.queue[1..]);
    if !Done(popped, h) {
      var burst := s.programs[h][0];
      var rest := if burst.throws then [] else s.programs[h][1..];
      ScheduleAllQueues(popped.(programs := s.programs[h := rest], resumed := s.resumed + [h],
                                failed := if burst.throws then s.failed + {h} else s.failed), burst.schedules, g);
    }
  }

  lemma {:induction false} PutBacksGrow(s: State)
    ensures Finish(s).rescheduled >= s.rescheduled
    decreases Budget(s.programs), |s.queue|
  {
    if |s.queue| > 0 {
      TurnDecreases(s);
      TurnQueues(s, 0);
      PutBacksGrow(Turn(s));
    }
  }

  lemma NeverSuspendsKept(s: State, S: set<nat>)
    requires |s.queue| > 0 && ClosedUnder(s, S) && AllOneShot(s.programs, S)
    ensures var r := Turn(s);
            ClosedUnder(r, S) && AllOneShot(r.programs, S) && r.rescheduled == s.rescheduled
  {
    var h := s.queue[0];
    forall g | g in Turn(s).queue ensures g in S { TurnQueues(s, g); }
    TurnQueues(s, h);
  }

  lemma {:induction false} NoPutBacks(s: State, S: set<nat>)
    requires ClosedUnder(s, S) && AllOneShot(s.programs, S)
    ensures Finish(s).rescheduled == s.rescheduled
    decreases Budget(s.programs), |s.queue|
  {
    if |s.queue| > 0 {
      TurnDecreases(s);
      NeverSuspendsKept(s, S);
      NoPutBacks(Turn(s), S);
    }
  }

  /** From a set that does for the state after a turn, one that does for the state before it. */
  lemma NeverSuspendsBefore(s: State, S: set<nat>) returns (S': set<nat>)
    requires |s.queue| > 0 && Turn(s).rescheduled == s.rescheduled
    requires ClosedUnder(Turn(s), S) && AllOneShot(Turn(s).programs, S)
    ensures ClosedUnder(s, S') && AllOneShot(s.programs, S')
  {
    var h := s.queue[0];
    TurnQueues(s, h);
    var scheduled := if Done(s, h) then {} else set g | g in s.programs[h][0].schedules;
    S' := S + {h} + scheduled;
    forall g | g in s.queue ensures g in S' { TurnQueues(s, g); }
    forall g | g in scheduled && g != h && !Done(s, g) ensures g in S { TurnQueues(s, g); }
  }

  lemma {:induction false} NeverSuspended(s: State)
    requires Finish(s).rescheduled == s.rescheduled
    ensures NeverSuspends(s)
    decreases Budget(s.programs), |s.queue|
  {
    if |s.queue| == 0 {
      assert ClosedUnder(s, {});
    } else {
      TurnDecreases(s);
      TurnQueues(s, 0);
      PutBacksGrow(Turn(s));
      NeverSuspended(Turn(s));
      var S: set<nat> :| ClosedUnder(Turn(s), S) && AllOneShot(Turn(s).programs, S);
      var S' := NeverSuspendsBefore(s, S);
    }
  }

  /**
   Which programs bring the counter back to zero: it is zero when the loop is over if and only if every queued
   coroutine was counted once (task<T>::run counts its start twice) and what is queued, what that schedules, and so
   on, all ends in its first burst.
   */
  lemma ReturnsToZeroExactly(s: State, extra: nat)
    requires s.active == |s.queue| + extra && s.rescheduled == 0
    ensures Finish(s).active == 0 <==> extra == 0 && NeverSuspends(s)
  {
    CounterLeftBehind(s, extra);
    if NeverSuspends(s) {
      var S: set<nat> :| ClosedUnder(s, S) && AllOneShot(s.programs, S);
      NoPutBacks(s, S);
    }
    if Finish(s).active == 0 { NeverSuspended(s); }
  }

  /** One coroutine that suspends once. */
  function Twice(): seq<seq<Burst>> {
    [[Burst([], false), Burst([], false)]]
  }

  /** It is resumed twice and done, and the counter stays at one. */
  lemma LeftBehindExample()
    ensures var r := Finish(State([0], 1, Twice(), {}, [0], [], 0));
            r.active == 1 && r.queue == [] && r.resumed == [0, 0] && Done(r, 0)
  {
    var s0 := State([0], 1, Twice(), {}, [0], [], 0);
    var s1 := State([0], 2, [[Burst([], false)]], {}, [0, 0], [0], 1);
    var s2 := State([], 1, [[]], {}, [0, 0], [0, 0], 1);
    assert Turn(s0) == s1;
    assert Turn(s1) == s2;
    assert Finish(s2) == s2;
  }

  ghost function Times(hs: seq<nat>, h: nat): nat {
    multiset(hs)[h]
  }

  /** How often h was resumed plus how often it still has to be is `bursts`, unless an exception cut it short. */
  ghost predicate Tallied(s: State, h: nat, bursts: nat) {
    && (h in s.failed ==> Done(s, h))
    && (h !in s.failed ==> Times(s.resumed, h) + (if h < |s.programs| then |s.programs[h]| else 0) == bursts)
  }

  lemma TurnTallies(s: State, h: nat, bursts: nat)
    requires |s.queue| > 0 && Tallied(s, h, bursts)
    ensures Tallied(Turn(s), h, bursts)
  {
    var g := s.queue[0];
    if !Done(s, g) { assert multiset(s.resumed + [g]) == multiset(s.resumed) + multiset{g}; }
  }

  lemma {:induction false} FinishTallies(s: State, h: nat, bursts: nat)
    requires Tallied(s, h, bursts)
    ensures Tallied(Finish(s), h, bursts)
    decreases Budget(s.programs), |s.queue|
  {
    if |s.queue| > 0 {
      TurnDecreases(s);
      TurnTallies(s, h, bursts);
      FinishTallies(Turn(s), h, bursts);
    }
  }

  /**
   From a fresh start, a coroutine that was ever scheduled and did not fail is resumed exactly as often as it has
   bursts: the loop neither loses nor repeats a resumption, whatever the other coroutines do.
   */
  lemma ResumedExactly(s: State, h: nat)
    requires Covered(s) && s.resumed == [] && s.failed == {} && h < |s.programs|
    ensures var r := Finish(s);
            h in r.pushed && h !in r.failed ==> Times(r.resumed, h) == |s.programs[h]|
  {
    EverythingDone(s);
    FinishTallies(s, h, |s.programs[h]|);
  }
}
