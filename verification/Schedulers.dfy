/** The scheduler: a task list that callers append to and workers take from. Each method is proved to be the
    step of the state machine that it stands for. */
module Schedulers {
  import opened Common
  import opened SchedulerSteps

  class Scheduler {
    var tasks: seq<Task>
    var activeCount: nat
    var stopping: bool
    /** Kept for the proofs: who runs what, and all that was ever scheduled, taken and finished. */
    ghost var inFlight: seq<Job>
    ghost var scheduled: seq<Task>
    ghost var taken: seq<Job>
    ghost var finished: multiset<Task>

    ghost function View(): State
      reads this
    {
      State(tasks, activeCount, stopping, inFlight, scheduled, taken, finished)
    }

    ghost predicate Valid()
      reads this
    {
      Balanced(View())
    }

    constructor ()
      ensures Valid() && View() == START
    {
      tasks, activeCount, stopping := [], 0, false;
      inFlight, scheduled, taken, finished := [], [], [], multiset{};
      new;
      StartBalanced();
    }

    /** scheduleNoLock: a wake-up is needed when the list was empty; a task that holds nothing is dropped. */
    method ScheduleNoLock(task: Task) returns (needTickle: bool)
      requires Valid()
      modifies this
      ensures Valid() && View() == ScheduleTask(old(View()), task)
      ensures needTickle <==> old(tasks) == []
    {
      hide Balanced;
      ApplyBalanced(View(), Schedule(task));
      needTickle := |tasks| == 0;
      if task.fiber.Some? || task.cb.Some? {
        tasks := tasks + [task];
        scheduled := scheduled + [task];
      }
    }

    /** schedule(begin, end): one lock for the whole range. A wake-up is needed exactly if the list was empty
        and there is something in the range: its first task found the list empty. */
    method ScheduleAll(batch: seq<Task>) returns (needTickle: bool)
      requires Valid()
      modifies this
      ensures Valid() && View() == ScheduleTasks(old(View()), batch)
      ensures needTickle <==> batch != [] && old(tasks) == []
    {
      hide Balanced, ScheduleTask, ScheduleTasks;
      needTickle := false;
      var i := 0;
      Start(batch);
      while i < |batch|
        invariant 0 <= i <= |batch| && Valid() && View() == ScheduleTasks(old(View()), batch[..i])
        invariant needTickle <==> i > 0 && old(tasks) == []
      {
        QueueGrows(old(View()), batch[..i]);
        ScheduleSnoc(old(View()), batch[..i], batch[i]);
        assert batch[..i + 1] == batch[..i] + [batch[i]];
        var first := ScheduleNoLock(batch[i]);
        needTickle := first || needTickle;
        i := i + 1;
      }
      assert batch[..i] == batch;
    }

    lemma Start(batch: seq<Task>)
      ensures View() == ScheduleTasks(View(), batch[..0])
    {
    }

    lemma QueueGrows(s: State, batch: seq<Task>)
      ensures ScheduleTasks(s, batch).queue == [] ==> s.queue == []
      ensures batch == [] ==> ScheduleTasks(s, batch).queue == s.queue
    {
    }

    /** The locked part of run: the worker's scan of the list takes the first task that is for its thread or for any,
        and is no fiber that is running. */
    method Take(worker: nat, running: set<nat>) returns (task: Option<Task>, tickleMe: bool)
      requires Valid() && !Busy(View(), worker)
      modifies this
      ensures Valid() && View() == TakeTask(old(View()), worker, running)
      ensures task == None ==> tasks == old(tasks) && forall j :: 0 <= j < |old(tasks)| ==>
                (old(tasks)[j].thread != None && old(tasks)[j].thread != Some(worker))
                || (old(tasks)[j].fiber.Some? && old(tasks)[j].fiber.value in running)
      ensures task.Some? ==> exists i ::
                && 0 <= i < |old(tasks)| && task == Some(old(tasks)[i])
                && (old(tasks)[i].thread == None || old(tasks)[i].thread == Some(worker))
                && (old(tasks)[i].fiber == None || old(tasks)[i].fiber.value !in running)
                && (forall j :: 0 <= j < i ==>
                      (old(tasks)[j].thread != None && old(tasks)[j].thread != Some(worker))
                      || (old(tasks)[j].fiber.Some? && old(tasks)[j].fiber.value in running))
                && tasks == old(tasks)[..i] + old(tasks)[i + 1..]
      ensures var i := Scan(old(tasks), worker, running);
              tickleMe <==> i + 1 < |old(tasks)|
                            || exists j :: 0 <= j < i && old(tasks)[j].thread.Some?
                                           && old(tasks)[j].thread.value != worker
    {
      hide Balanced, Scan;
      TakeBalanced(View(), worker, running);
      task, tickleMe := None, false;
      var i := 0;
      while i < |tasks|
        invariant 0 <= i <= |tasks| && (forall j :: 0 <= j < i ==> !Eligible(tasks[j], worker, running))
        invariant View() == old(View())
        invariant tickleMe <==> exists j :: 0 <= j < i && ForOther(tasks[j], worker)
      {
        if tasks[i].thread.Some? && tasks[i].thread.value != worker {
          i := i + 1;
          tickleMe := true;
          continue;
        }
        if tasks[i].fiber.Some? && tasks[i].fiber.value in running {
          i := i + 1;
          continue;
        }
        break;
      }
      ScanIs(tasks, worker, running, i);
      if i < |tasks| {
        task := Some(tasks[i]);
        inFlight := inFlight + [Job(worker, tasks[i])];
        taken := taken + [Job(worker, tasks[i])];
        tasks := tasks[..i] + tasks[i + 1..];
        activeCount := activeCount + 1;
        tickleMe := tickleMe || i < |tasks|;
      }
    }

    lemma ScanIs(queue: seq<Task>, worker: nat, running: set<nat>, i: nat)
      requires i <= |queue| && (forall j :: 0 <= j < i ==> !Eligible(queue[j], worker, running))
      requires i < |queue| ==> Eligible(queue[i], worker, running)
      ensures Scan(queue, worker, running) == i
    {
    }

    /** After the task's fiber has been resumed and has come back. */
    method Finish(worker: nat)
      requires Valid() && Busy(View(), worker)
      modifies this
      ensures old(View()).active > 0 && Valid() && View() == FinishTask(old(View()), worker)
    {
      hide Balanced, JobOf;
      FinishBalanced(View(), worker);
      ghost var i := JobOf(inFlight, worker);
      ghost var task := inFlight[i].task;
      activeCount := activeCount - 1;
      inFlight := inFlight[..i] + inFlight[i + 1..];
      finished := finished + multiset{task};
    }

    /** Scheduler::stopping: when it answers yes, all that was ever scheduled has been finished. */
    method Stopping() returns (r: bool)
      requires Valid()
      ensures r <==> CanStop(View())
      ensures r ==> finished == multiset(scheduled) && inFlight == []
    {
      r := stopping && |tasks| == 0 && activeCount == 0;
      if r {
        StopIsSafe(View());
      }
    }

    /** stop, up to the joining of the workers. */
    method RequestStop()
      requires Valid()
      modifies this`stopping
      ensures Valid() && View() == old(View()).(stopping := true)
    {
      var done := Stopping();
      if !done {
        stopping := true;
      }
    }
  }
}
