/** The scheduler as a state machine: a queue of tasks, the tasks in flight on the workers, and the steps
    workers and callers take under the lock. */
module SchedulerSteps {
  import opened Common

  /** ScheduleTask: a fiber or a callback, for one thread or for any. */
  datatype Task = Task(fiber: Option<nat>, cb: Option<nat>, thread: Option<nat>)

  predicate Runnable(t: Task) { t.fiber.Some? || t.cb.Some? }

  /** A worker between taking a task and finishing it. */
  datatype Job = Job(worker: nat, task: Task)

  /** The queue, the counter and the flag are the scheduler's. The rest is kept for the proofs: who holds
      which task, and what was scheduled, taken and finished so far, in that order. */
  datatype State = State(queue: seq<Task>, active: nat, stopping: bool,
                         inFlight: seq<Job>, scheduled: seq<Task>, taken: seq<Job>, finished: multiset<Task>)

  const START := State([], 0, false, [], [], [], multiset{})

  predicate ForOther(t: Task, worker: nat) { t.thread.Some? && t.thread.value != worker }

  /** Pinned to no other thread, and no fiber that is running right now. */
  predicate Eligible(t: Task, worker: nat, running: set<nat>) {
    !ForOther(t, worker) && !(t.fiber.Some? && t.fiber.value in running)
  }

  /** The position of the first eligible task, or the end. */
  function Scan(queue: seq<Task>, worker: nat, running: set<nat>): (i: nat)
    ensures i <= |queue| && (i < |queue| ==> Eligible(queue[i], worker, running))
    ensures forall j :: 0 <= j < i ==> !Eligible(queue[j], worker, running)
  {
    if queue == [] || Eligible(queue[0], worker, running) then 0
    else
      var i := 1 + Scan(queue[1..], worker, running);
      assert forall j :: 0 < j < i ==> queue[j] == queue[1..][j - 1];
      i
  }

  function Tasks(jobs: seq<Job>): (r: seq<Task>)
    ensures |r| == |jobs| && forall i :: 0 <= i < |r| ==> r[i] == jobs[i].task
  {
    seq(|jobs|, i requires 0 <= i < |jobs| => jobs[i].task)
  }

  predicate Busy(s: State, worker: nat) {
    exists i :: 0 <= i < |s.inFlight| && s.inFlight[i].worker == worker
  }

  /** Nothing is lost or run twice, the counter is the number of busy workers, and a task runs only on the
      thread it is pinned to. */
  ghost predicate Balanced(s: State) {
    && Conserved(s)
    && s.active == |s.inFlight|
    && (forall i, j :: 0 <= i < j < |s.inFlight| ==> s.inFlight[i].worker != s.inFlight[j].worker)
    && (forall i :: 0 <= i < |s.taken| ==> !ForOther(s.taken[i].task, s.taken[i].worker))
    && (forall i :: 0 <= i < |s.queue| ==> Runnable(s.queue[i]))
  }

  predicate Conserved(s: State) {
    && multiset(s.scheduled) == multiset(s.queue) + multiset(Tasks(s.taken))
    && multiset(Tasks(s.taken)) == multiset(Tasks(s.inFlight)) + s.finished
  }

  predicate CanStop(s: State) { s.stopping && s.queue == [] && s.active == 0 }

  // ------------------------------------------------------------------ steps

  datatype Step =
    | Schedule(task: Task)
    | Take(worker: nat, running: set<nat>)
    | Finish(worker: nat)
    | Stop

  function ScheduleTask(s: State, t: Task): State {
    if Runnable(t) then s.(queue := s.queue + [t], scheduled := s.scheduled + [t]) else s
  }

  /** The tasks of a range that hold something. */
  function Held(batch: seq<Task>): (r: seq<Task>)
    ensures forall t <- r :: Runnable(t) && t in batch
    ensures forall t <- batch :: Runnable(t) ==> t in r
    ensures (forall t <- batch :: Runnable(t)) ==> r == batch
  {
    if batch == [] then []
    else
      var n := |batch| - 1;
      var r := Held(batch[..n]);
      assert batch == batch[..n] + [batch[n]];
      if Runnable(batch[n]) then r + [batch[n]] else r
  }

  /** A whole range of tasks; those that hold nothing are dropped. */
  function ScheduleTasks(s: State, batch: seq<Task>): State {
    s.(queue := s.queue + Held(batch), scheduled := s.scheduled + Held(batch))
  }

  lemma ScheduleSnoc(s: State, batch: seq<Task>, t: Task)
    ensures ScheduleTasks(s, []) == s
    ensures ScheduleTask(ScheduleTasks(s, batch), t) == ScheduleTasks(s, batch + [t])
  {
    assert (batch + [t])[..|batch|] == batch;
    assert s.queue + (Held(batch) + [t]) == s.queue + Held(batch) + [t];
    assert s.scheduled + (Held(batch) + [t]) == s.scheduled + Held(batch) + [t];
  }

  function TakeTask(s: State, worker: nat, running: set<nat>): State {
    var i := Scan(s.queue, worker, running);
    if i == |s.queue| then s
    else s.(queue := s.queue[..i] + s.queue[i + 1..], active := s.active + 1,
            inFlight := s.inFlight + [Job(worker, s.queue[i])], taken := s.taken + [Job(worker, s.queue[i])])
  }

  function JobOf(jobs: seq<Job>, worker: nat): (i: nat)
    ensures i <= |jobs| && (i < |jobs| ==> jobs[i].worker == worker)
    ensures i == |jobs| ==> forall j :: 0 <= j < |jobs| ==> jobs[j].worker != worker
  {
    if jobs == [] || jobs[0].worker == worker then 0
    else
      var i := 1 + JobOf(jobs[1..], worker);
      assert forall j :: 0 < j < |jobs| ==> jobs[j] == jobs[1..][j - 1];
      i
  }

  function FinishTask(s: State, worker: nat): State
    requires s.active > 0
  {
    var i := JobOf(s.inFlight, worker);
    if i == |s.inFlight| then s
    else s.(active := s.active - 1, inFlight := s.inFlight[..i] + s.inFlight[i + 1..],
            finished := s.finished + multiset{s.inFlight[i].task})
  }

  /** A busy worker takes nothing and an idle one has nothing to finish. */
  function Apply(s: State, step: Step): State {
    match step
    case Schedule(t) => ScheduleTask(s, t)
    case Take(w, running) => if Busy(s, w) then s else TakeTask(s, w, running)
    case Finish(w) => if Busy(s, w) && s.active > 0 then FinishTask(s, w) else s
    case Stop => s.(stopping := true)
  }

  function Exec(s: State, steps: seq<Step>): State {
    if steps == [] then s else Apply(Exec(s, steps[..|steps| - 1]), steps[|steps| - 1])
  }

  // ------------------------------------------------------------------ what they keep

  lemma RemoveAt<T>(s: seq<T>, i: nat)
    requires i < |s|
    ensures multiset(s) == multiset(s[..i] + s[i + 1..]) + multiset{s[i]}
  {
    assert s == s[..i] + [s[i]] + s[i + 1..];
  }

  lemma TasksRemoveAt(jobs: seq<Job>, i: nat)
    requires i < |jobs|
    ensures multiset(Tasks(jobs)) == multiset(Tasks(jobs[..i] + jobs[i + 1..])) + multiset{jobs[i].task}
  {
    RemoveAt(Tasks(jobs), i);
    assert Tasks(jobs[..i] + jobs[i + 1..]) == Tasks(jobs)[..i] + Tasks(jobs)[i + 1..];
  }

  lemma TakeConserves(s: State, worker: nat, running: set<nat>)
    requires Conserved(s)
    ensures Conserved(TakeTask(s, worker, running))
  {
    hide Scan, Tasks;
    var i := Scan(s.queue, worker, running);
    if i < |s.queue| {
      RemoveAt(s.queue, i);
      assert Tasks(s.inFlight + [Job(worker, s.queue[i])]) == Tasks(s.inFlight) + [s.queue[i]];
      assert Tasks(s.taken + [Job(worker, s.queue[i])]) == Tasks(s.taken) + [s.queue[i]];
    }
  }

  lemma TakeBalanced(s: State, worker: nat, running: set<nat>)
    requires Balanced(s) && !Busy(s, worker)
    ensures Balanced(TakeTask(s, worker, running))
  {
    hide Conserved, Scan;
    TakeConserves(s, worker, running);
  }

  lemma FinishBalanced(s: State, worker: nat)
    requires Balanced(s) && Busy(s, worker)
    ensures s.active > 0 && Balanced(FinishTask(s, worker))
  {
    hide Conserved, JobOf;
    FinishConserves(s, worker);
  }

  lemma FinishConserves(s: State, worker: nat)
    requires Conserved(s) && s.active > 0
    ensures Conserved(FinishTask(s, worker))
  {
    hide Tasks, JobOf;
    var i := JobOf(s.inFlight, worker);
    if i < |s.inFlight| {
      TasksRemoveAt(s.inFlight, i);
    }
  }

  lemma ApplyBalanced(s: State, step: Step)
    requires Balanced(s)
    ensures Balanced(Apply(s, step))
  {
    hide TakeTask, FinishTask;
    match step {
      case Schedule(t) =>
      case Take(w, running) =>
        if !Busy(s, w) {
          TakeBalanced(s, w, running);
        }
      case Finish(w) =>
        if Busy(s, w) {
          FinishBalanced(s, w);
        }
      case Stop =>
    }
  }

  /** In every interleaving of callers and workers no task is lost, none is taken twice, and the active
      count is the number of workers that hold one. */
  lemma {:induction false} RunBalanced(steps: seq<Step>)
    ensures Balanced(Exec(START, steps))
  {
    hide Balanced, Apply;
    if steps == [] {
      assert Balanced(START) by {
        StartBalanced();
      }
    } else {
      RunBalanced(steps[..|steps| - 1]);
      ApplyBalanced(Exec(START, steps[..|steps| - 1]), steps[|steps| - 1]);
    }
  }

  lemma StartBalanced()
    ensures Balanced(START)
  {
    assert Tasks([]) == [];
  }

  /** A scan takes the first task that is for the worker's thread or for any, and is no fiber that is running; what
      stays keeps its order. It takes nothing exactly if there is none. */
  lemma TakesEarliest(s: State, worker: nat, running: set<nat>)
    ensures var t := TakeTask(s, worker, running);
            if forall j :: 0 <= j < |s.queue| ==>
                 (s.queue[j].thread != None && s.queue[j].thread != Some(worker))
                 || exists f :: f in running && s.queue[j].fiber == Some(f)
            then t == s
            else exists i ::
              && 0 <= i < |s.queue| && (s.queue[i].thread == None || s.queue[i].thread == Some(worker))
              && (forall f :: f in running ==> s.queue[i].fiber != Some(f))
              && (forall j :: 0 <= j < i ==>
                    (s.queue[j].thread != None && s.queue[j].thread != Some(worker))
                    || exists f :: f in running && s.queue[j].fiber == Some(f))
              && t.queue == s.queue[..i] + s.queue[i + 1..]
              && t.inFlight == s.inFlight + [Job(worker, s.queue[i])]
  {
    hide Scan;
    var i := Scan(s.queue, worker, running);
    if i < |s.queue| {
      assert Eligible(s.queue[i], worker, running);
      assert s.queue[i].thread == None || s.queue[i].thread == Some(worker);
      assert TakeTask(s, worker, running).queue == s.queue[..i] + s.queue[i + 1..];
    }
  }

  // ------------------------------------------------------------------ progress

  /** An idle worker whose scan meets a callback for it or for any thread becomes busy, whatever is running. */
  lemma IdleWorkerTakes(s: State, worker: nat, running: set<nat>, j: nat)
    requires j < |s.queue| && s.queue[j].fiber == None
    requires s.queue[j].thread == None || s.queue[j].thread == Some(worker)
    ensures Busy(Apply(s, Take(worker, running)), worker)
  {
    hide Scan;
    var i := Scan(s.queue, worker, running);
    assert i <= j by {
      assert Eligible(s.queue[j], worker, running);
    }
    if !Busy(s, worker) {
      var t := TakeTask(s, worker, running);
      assert t.inFlight[|s.inFlight|] == Job(worker, s.queue[i]);
    }
  }

  /** n tasks, one after the other. */
  function Rounds(worker: nat, n: nat): seq<Step> {
    if n == 0 then [] else Rounds(worker, n - 1) + [Take(worker, {}), Finish(worker)]
  }

  lemma ExecTwo(s: State, steps: seq<Step>, a: Step, b: Step)
    ensures Exec(s, steps + [a, b]) == Apply(Apply(Exec(s, steps), a), b)
  {
    hide Apply;
    var all := steps + [a, b];
    assert all[..|all| - 1] == steps + [a];
    assert (steps + [a])[..|steps|] == steps;
  }

  /** One worker alone: after n rounds the first n tasks of the queue are finished, and nothing else has changed, if
      none is for another thread. */
  lemma {:induction false} RoundsFinish(s: State, worker: nat, n: nat)
    requires Balanced(s) && !Busy(s, worker) && n <= |s.queue|
    requires forall i :: 0 <= i < n ==> s.queue[i].thread == None || s.queue[i].thread == Some(worker)
    ensures var t := Exec(s, Rounds(worker, n));
            && t.queue == s.queue[n..] && t.finished == s.finished + multiset(s.queue[..n])
            && t.active == s.active && t.inFlight == s.inFlight && t.stopping == s.stopping
            && Balanced(t)
    decreases n
  {
    hide Apply, Balanced;
    if n == 0 {
      assert s.queue[..0] == [] && s.queue[0..] == s.queue;
    } else {
      RoundsFinish(s, worker, n - 1);
      var t := Exec(s, Rounds(worker, n - 1));
      ExecTwo(s, Rounds(worker, n - 1), Take(worker, {}), Finish(worker));
      assert !Busy(t, worker) && t.queue[0] == s.queue[n - 1];
      OneRound(t, worker);
      assert t.queue[1..] == s.queue[n..];
      assert s.queue[..n] == s.queue[..n - 1] + [s.queue[n - 1]];
    }
  }

  lemma OneRound(s: State, worker: nat)
    requires Balanced(s) && !Busy(s, worker) && s.queue != []
    requires s.queue[0].thread == None || s.queue[0].thread == Some(worker)
    ensures var t := Apply(Apply(s, Take(worker, {})), Finish(worker));
            && t.queue == s.queue[1..] && t.finished == s.finished + multiset{s.queue[0]}
            && t.active == s.active && t.inFlight == s.inFlight && t.stopping == s.stopping && Balanced(t)
  {
    hide Balanced, Scan, JobOf;
    var u := Apply(s, Take(worker, {}));
    ApplyBalanced(s, Take(worker, {}));
    ApplyBalanced(u, Finish(worker));
    assert Scan(s.queue, worker, {}) == 0 by {
      assert Eligible(s.queue[0], worker, {});
    }
    assert u.queue == s.queue[1..] && u.inFlight == s.inFlight + [Job(worker, s.queue[0])];
    assert u.inFlight[|s.inFlight|].worker == worker;
    var i := JobOf(u.inFlight, worker);
    assert forall k :: 0 <= k < |s.inFlight| ==> u.inFlight[k] == s.inFlight[k];
    assert i == |s.inFlight|;
    assert u.inFlight[..i] + u.inFlight[i + 1..] == s.inFlight;
  }

  // ------------------------------------------------------------------ fibers

  /** The fibers that are on a worker. */
  function OnWorkers(jobs: seq<Job>): (r: set<nat>)
    ensures forall f :: f in r <==> exists i :: 0 <= i < |jobs| && jobs[i].task.fiber == Some(f)
  {
    set i | 0 <= i < |jobs| && jobs[i].task.fiber.Some? :: jobs[i].task.fiber.value
  }

  /** Each scan sees every fiber that is on a worker in its running state. */
  predicate SeesRunning(s: State, steps: seq<Step>) {
    steps == [] || (SeesRunning(s, steps[..|steps| - 1])
                    && (steps[|steps| - 1].Take? ==>
                          OnWorkers(Exec(s, steps[..|steps| - 1]).inFlight) <= steps[|steps| - 1].running))
  }

  /** No fiber is on two workers. */
  predicate Exclusive(s: State) {
    forall i, j :: 0 <= i < j < |s.inFlight| && s.inFlight[i].task.fiber.Some? ==>
                     s.inFlight[i].task.fiber != s.inFlight[j].task.fiber
  }

  lemma ApplyExclusive(s: State, step: Step)
    requires Balanced(s) && Exclusive(s) && (step.Take? ==> OnWorkers(s.inFlight) <= step.running)
    ensures Exclusive(Apply(s, step))
  {
    hide Scan, JobOf, Conserved;
  }

  /** Over every interleaving: a fiber that is scheduled again while it runs waits in the queue, and is never
      resumed by two workers at once. */
  lemma {:induction false} RunExclusive(steps: seq<Step>)
    requires SeesRunning(START, steps)
    ensures Exclusive(Exec(START, steps))
  {
    hide Balanced, Apply, OnWorkers;
    if steps != [] {
      RunExclusive(steps[..|steps| - 1]);
      RunBalanced(steps[..|steps| - 1]);
      ApplyExclusive(Exec(START, steps[..|steps| - 1]), steps[|steps| - 1]);
    }
  }

  // ------------------------------------------------------------------ order

  /** The callbacks among the tasks that are bound to the given thread, or to none. */
  function Lane(tasks: seq<Task>, thread: Option<nat>): seq<Task> {
    if tasks == [] then []
    else
      var n := |tasks| - 1;
      Lane(tasks[..n], thread)
      + if tasks[n].fiber.None? && tasks[n].thread == thread then [tasks[n]] else []
  }

  lemma {:induction false} LaneConcat(a: seq<Task>, b: seq<Task>, thread: Option<nat>)
    ensures Lane(a + b, thread) == Lane(a, thread) + Lane(b, thread)
    decreases |b|
  {
    if b == [] {
      assert a + b == a;
    } else {
      var n := |b| - 1;
      assert (a + b)[..|a| + n] == a + b[..n];
      LaneConcat(a, b[..n], thread);
    }
  }

  lemma {:induction false} LaneNone(tasks: seq<Task>, thread: Option<nat>)
    requires forall i :: 0 <= i < |tasks| ==> !(tasks[i].fiber.None? && tasks[i].thread == thread)
    ensures Lane(tasks, thread) == []
  {
    if tasks != [] {
      LaneNone(tasks[..|tasks| - 1], thread);
    }
  }

  lemma LaneOne(t: Task, thread: Option<nat>)
    ensures Lane([t], thread) == if t.fiber.None? && t.thread == thread then [t] else []
  {
    assert [t][..0] == [];
  }

  /** In each lane, what has been taken, followed by what waits, is what was scheduled, in that order. */
  predicate InOrder(s: State, thread: Option<nat>) {
    Lane(s.scheduled, thread) == Lane(Tasks(s.taken), thread) + Lane(s.queue, thread)
  }

  lemma TakeInOrder(s: State, worker: nat, running: set<nat>, thread: Option<nat>)
    requires InOrder(s, thread)
    ensures InOrder(TakeTask(s, worker, running), thread)
  {
    hide Scan, Lane;
    var i := Scan(s.queue, worker, running);
    if i < |s.queue| {
      var t := s.queue[i];
      assert s.queue == s.queue[..i] + [t] + s.queue[i + 1..];
      LaneConcat(s.queue[..i] + [t], s.queue[i + 1..], thread);
      LaneConcat(s.queue[..i], [t], thread);
      LaneConcat(s.queue[..i], s.queue[i + 1..], thread);
      LaneOne(t, thread);
      assert Tasks(s.taken + [Job(worker, t)]) == Tasks(s.taken) + [t];
      LaneConcat(Tasks(s.taken), [t], thread);
      if t.fiber.None? && t.thread == thread {
        LaneNone(s.queue[..i], thread);
      }
    }
  }

  /** The queue is first in, first out for the callbacks of each lane, in every interleaving, although
      workers pass over tasks that are not for them. */
  lemma {:induction false} RunInOrder(steps: seq<Step>, thread: Option<nat>)
    ensures InOrder(Exec(START, steps), thread)
  {
    hide Lane, TakeTask;
    if steps == [] {
      StartInOrder(thread);
    } else {
      var n := |steps| - 1;
      var s := Exec(START, steps[..n]);
      RunInOrder(steps[..n], thread);
      match steps[n] {
        case Schedule(t) =>
          LaneConcat(s.scheduled, [t], thread);
          LaneConcat(s.queue, [t], thread);
        case Take(w, running) => TakeInOrder(s, w, running, thread);
        case _ =>
      }
    }
  }

  lemma StartInOrder(thread: Option<nat>)
    ensures InOrder(START, thread)
  {
    assert Tasks([]) == [];
  }

  // ------------------------------------------------------------------ stopping

  predicate NoSchedule(steps: seq<Step>) {
    forall i :: 0 <= i < |steps| ==> !steps[i].Schedule?
  }

  /** When stopping() holds, every task that was ever scheduled has been finished. */
  lemma StopIsSafe(s: State)
    requires Balanced(s) && CanStop(s)
    ensures s.inFlight == [] && s.finished == multiset(s.scheduled)
  {
    assert Tasks(s.inFlight) == [];
  }

  /** Without further calls of schedule it goes on holding, and nothing more is taken or finished. */
  lemma {:induction false} StopIsFinal(s: State, steps: seq<Step>)
    requires Balanced(s) && CanStop(s) && NoSchedule(steps)
    ensures Exec(s, steps) == s
  {
    if steps != [] {
      var n := |steps| - 1;
      StopIsFinal(s, steps[..n]);
      assert !steps[n].Schedule?;
    }
  }

  /** Once asked to stop, with no further calls of schedule, each taking or finishing step brings the end
      nearer: queued tasks count twice, tasks in flight once. */
  function Work(s: State): nat { 2 * |s.queue| + |s.inFlight| }

  lemma WorkShrinks(s: State, step: Step)
    requires Balanced(s) && !step.Schedule?
    ensures Apply(s, step) == s.(stopping := Apply(s, step).stopping) || Work(Apply(s, step)) < Work(s)
    ensures Work(s) == 0 && s.stopping ==> CanStop(s)
  {
  }
}
