/**
 The scheduler as an object used by one thread, each method proved against the function of SchedulerSpec that
 describes it. The coroutines' programs stand for their frames.
 */
module Schedulers {
  import opened SchedulerSpec

  const MAX_NO_PROGRESS_ITERATIONS := 500

  class Scheduler {
    var queue: seq<nat>
    var active: nat
    var programs: seq<seq<Burst>>
    ghost var failed: set<nat>
    ghost var pushed: seq<nat>
    ghost var resumed: seq<nat>
    ghost var rescheduled: nat

    ghost function View(): State
      reads this
    {
      State(queue, active, programs, failed, pushed, resumed, rescheduled)
    }

    constructor (programs: seq<seq<Burst>>)
      ensures View() == State([], 0, programs, {}, [], [], 0)
    {
      this.programs := programs;
      queue, active := [], 0;
      failed, pushed, resumed, rescheduled := {}, [], [], 0;
    }

    method IsDone(h: nat) returns (r: bool)
      ensures r == Done(View(), h)
    {
      r := h >= |programs| || |programs[h]| == 0;
    }

    method TaskStarted()
      modifies this`active
      ensures active == old(active) + 1
    {
      active := active + 1;
    }

    method TaskCompleted()
      modifies this`active
      ensures View() == SchedulerSpec.TaskCompleted(old(View()))
    {
      if active > 0 { active := active - 1; }
    }

    method Schedule(h: nat)
      modifies this`active, this`queue, this`pushed
      ensures View() == SchedulerSpec.Schedule(old(View()), h)
    {
      var done := IsDone(h);
      if done { return; }
      TaskStarted();
      queue := queue + [h];
      pushed := pushed + [h];
    }

    /** Resumes a coroutine for one burst. */
    method Resume(h: nat) returns (threw: bool)
      requires !Done(View(), h)
      modifies this
      ensures View() == SchedulerSpec.Resume(old(View()), h)
      ensures threw == old(programs)[h][0].throws
    {
      var burst := programs[h][0];
      threw := burst.throws;
      programs := programs[h := if threw then [] else programs[h][1..]];
      resumed := resumed + [h];
      if threw { failed := failed + {h}; }
      ghost var begun := View();
      for i := 0 to |burst.schedules|
        invariant View() == ScheduleAll(begun, burst.schedules[..i])
      {
        assert burst.schedules[..i + 1][..i] == burst.schedules[..i];
        Schedule(burst.schedules[i]);
      }
      assert burst.schedules[..|burst.schedules|] == burst.schedules;
    }

    /**
     What the workers and the main loop do with the coroutine at the front of the queue. `ended` says that they
     go straight on to the next one: the coroutine was done already, or left resume by an exception.
     */
    method TakeTurn() returns (ended: bool)
      requires |queue| > 0
      modifies this
      ensures View() == Turn(old(View()))
    {
      var handle := queue[0];
      queue := queue[1..];
      var done := IsDone(handle);
      if done {
        TaskCompleted();
        return true;
      }
      var threw := Resume(handle);
      if threw {
        TaskCompleted();
        return true;
      }
      done := IsDone(handle);
      if done {
        TaskCompleted();
      } else {
        Schedule(handle);
        rescheduled := rescheduled + 1;
      }
      return false;
    }

    /**
     The main loop. It ends, with the queue empty, having done what `Finish` says; and it ends by its guard against
     missing progress, rather than by its condition, exactly when the counter is not zero then.
     */
    method Run() returns (gaveUp: bool)
      modifies this
      ensures View() == Finish(old(View())) && queue == []
      ensures gaveUp <==> active > 0
    {
      var lastActive, noProgress := 0, 0;
      while active > 0 || |queue| > 0
        invariant Finish(View()) == Finish(old(View()))
        invariant noProgress < MAX_NO_PROGRESS_ITERATIONS
        invariant noProgress > 0 ==> |queue| == 0 && active == lastActive
        decreases Budget(programs), |queue|, if lastActive != active then 1 else 0,
                  MAX_NO_PROGRESS_ITERATIONS - noProgress
      {
        if |queue| > 0 {
          TurnDecreases(View());
          var ended := TakeTurn();
          if ended { continue; }
        }
        if active == lastActive && |queue| == 0 {
          noProgress := noProgress + 1;
          if noProgress >= MAX_NO_PROGRESS_ITERATIONS { return true; }
        } else {
          lastActive := active;
          noProgress := 0;
        }
      }
      return false;
    }
  }

  /** One coroutine that suspends once, run to the end: it is done, but the loop ends only by its guard. */
  method GivesUp() returns (gaveUp: bool, left: nat)
    ensures gaveUp && left == 1
  {
    var scheduler := new Scheduler(Twice());
    scheduler.Schedule(0);
    LeftBehindExample();
    assert scheduler.View() == State([0], 1, Twice(), {}, [0], [], 0);
    gaveUp := scheduler.Run();
    left := scheduler.active;
  }
}
