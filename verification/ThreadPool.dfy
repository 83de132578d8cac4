/**
 ortoa-lbl/BS_thread_pool.hpp, class thread_pool: first as one thread executes it that is
 caller and worker in turn, then as the machine of workers, pushers and a thread that waits
 or resets.  Tasks are named by their place in push order.  A worker that waits for a task
 wakes when there is one; a thread that waits for the tasks wakes when it is notified.
 */
module ThreadPool {
  import opened Wrappers

  type TaskId = nat

  // size_t arithmetic of tasks_total.
  const SIZE_MODULUS: nat := 0x1_0000_0000_0000_0000

  function Wrap(x: int): nat {
    x % SIZE_MODULUS
  }

  datatype Shared = Shared(tasks: seq<TaskId>, total: nat, paused: bool, running: bool, waiting: bool)

  // The predicate wait_for_tasks waits for.
  predicate NothingToWaitFor(p: Shared) {
    p.total == if p.paused then |p.tasks| else 0
  }

  // get_tasks_running: a size_t subtraction.
  function TasksRunning(p: Shared): nat {
    Wrap(p.total - |p.tasks|)
  }

  // The effects of the critical sections; the machine below takes its steps with them.
  function Enqueued(p: Shared, task: TaskId): Shared {
    p.(tasks := p.tasks + [task])
  }

  function Counted(p: Shared): Shared {
    p.(total := Wrap(p.total + 1))
  }

  function Taken(p: Shared): Shared
    requires p.tasks != []
  {
    p.(tasks := p.tasks[1..])
  }

  function Finished(p: Shared): Shared {
    p.(total := Wrap(p.total - 1))
  }

  // determine_thread_count.
  function ThreadCount(requested: nat, hardware: nat): (n: nat)
    ensures n > 0
    ensures requested > 0 ==> n == requested
    ensures requested == 0 && hardware > 0 ==> n == hardware
  {
    if requested > 0 then requested else if hardware > 0 then hardware else 1
  }

  class Pool {
    var tasks: seq<TaskId>
    var tasksTotal: nat
    var paused: bool
    var running: bool
    var waiting: bool
    var threadCount: nat

    function View(): Shared
      reads this
    {
      Shared(tasks, tasksTotal, paused, running, waiting)
    }

    // No push is under way and no task is executing.
    predicate Balanced()
      reads this
    {
      tasksTotal == Wrap(|tasks|)
    }

    constructor (requested: nat, hardware: nat)
      ensures View() == Shared([], 0, false, true, false) && threadCount == ThreadCount(requested, hardware)
    {
      tasks, tasksTotal, paused, running, waiting := [], 0, false, true, false;
      threadCount := ThreadCount(requested, hardware);
    }

    // The task becomes the last of the queue and is counted once.
    method PushTask(task: TaskId)
      modifies this
      ensures View() == Counted(Enqueued(old(View()), task)) && threadCount == old(threadCount)
      ensures old(Balanced()) ==> Balanced()
    {
      tasks := tasks + [task];
      tasksTotal := Wrap(tasksTotal + 1);
      WrapTwice(|tasks| - 1, 1);
    }

    // Executes what is queued, oldest first, until the worker would sleep for want of a task,
    // spin because the pool is paused, or leave because it is not running.
    method Worker() returns (executed: seq<TaskId>)
      requires Balanced()
      modifies this
      ensures Balanced() && threadCount == old(threadCount)
      ensures paused == old(paused) && running == old(running) && waiting == old(waiting)
      ensures running && !paused ==> executed == old(tasks) && tasks == [] && tasksTotal == 0
      ensures !running || paused ==> executed == [] && View() == old(View())
    {
      executed := [];
      while running && !paused && tasks != []
        invariant Balanced() && executed + tasks == old(tasks)
        invariant paused == old(paused) && running == old(running) && waiting == old(waiting)
        invariant threadCount == old(threadCount)
        invariant if executed == [] then View() == old(View()) else running && !paused
        decreases |tasks|
      {
        var task := tasks[0];
        tasks := tasks[1..];
        executed := executed + [task];
        WrapTwice(|tasks| + 1, -1);
        tasksTotal := Wrap(tasksTotal - 1);
      }
    }

    // The wait is over with nothing to wait for: an unpaused pool has executed its whole
    // queue, a paused one has kept it.
    method WaitForTasks() returns (executed: seq<TaskId>)
      requires Balanced() && running && |tasks| < SIZE_MODULUS
      modifies this
      ensures NothingToWaitFor(View()) && Balanced() && running && !waiting
      ensures paused == old(paused) && threadCount == old(threadCount)
      ensures executed + tasks == old(tasks) && (if paused then executed == [] else tasks == [])
    {
      waiting := true;
      executed := Worker();
      assert executed + tasks == old(tasks);
      assert Wrap(|tasks|) == |tasks|;
      waiting := false;
    }

    // The threads are replaced; the queue is kept for the new ones, and so is the pause.
    method Reset(requested: nat, hardware: nat)
      requires Balanced() && running && |tasks| < SIZE_MODULUS
      modifies this
      ensures View() == old(View()).(waiting := false) && threadCount == ThreadCount(requested, hardware)
    {
      var wasPaused := paused;
      paused := true;
      var none := WaitForTasks();
      running := false;
      // lines 540-543: a worker of a pool that is not running takes nothing and leaves
      threadCount := ThreadCount(requested, hardware);
      paused := wasPaused;
      running := true;
    }
  }

  lemma WrapTwice(a: int, b: int)
    ensures Wrap(Wrap(a) + b) == Wrap(a + b)
  {
    assert a == (a / SIZE_MODULUS) * SIZE_MODULUS + Wrap(a);
  }

  /* ---------- the machine ---------- */

  datatype Worker =
    | Loop                                // 570: while (running)
    | Waiting                             // 573-574: lock, wait for a task or !running
    | Checking                            // 575: running?  The mutex is held from here ...
    | Checked                             // 575: !paused?
    | Busy(task: TaskId, progress: nat)   // 580: ... to here; task() is executing
    | Ran(task: TaskId)                   // 581-584: the future is set; decrement
    | Exited

  // A thread in wait_for_tasks (reset is None) or in reset, lines 443-450, which remembers
  // whether the pool was paused.
  datatype Admin =
    | Idle
    | Checks(reset: Option<bool>)             // 512: evaluates the predicate under the mutex
    | Asleep(reset: Option<bool>)             // 512: until notified
    | Stop(wasPaused: bool)                   // 538
    | Join(wasPaused: bool)                   // 540-543
    | Restore(wasPaused: bool)                // 449
    | Restart                                 // 526
    | Spawn(left: nat)                        // 527-530

  // mid counts the pushes between line 431 and line 432; the last three fields are history.
  datatype State = State(shared: Shared, workers: seq<Worker>, mid: nat, admin: Admin,
                         pushed: nat, started: seq<TaskId>, ready: set<TaskId>, trace: seq<(TaskId, nat)>)

  datatype Step =
    | Push | Count
    | Pause | Unpause
    | Work(w: nat)
    | WaitForTasks           // a call of wait_for_tasks
    | Reset(threads: nat)    // a call of reset, or the next step of either call
    | Wake                   // a spurious wake-up

  predicate HoldsMutex(w: Worker) { w.Checking? || w.Checked? }

  predicate MutexFree(s: State) {
    forall w :: 0 <= w < |s.workers| ==> !HoldsMutex(s.workers[w])
  }

  predicate WorkEnabled(s: State, w: nat)
    requires w < |s.workers|
  {
    match s.workers[w]
    case Waiting => MutexFree(s) && (s.shared.tasks != [] || !s.shared.running)
    case Ran(_) => MutexFree(s)
    case Exited => false
    case _ => true
  }

  predicate Enabled(s: State, step: Step) {
    match step
    case Push => MutexFree(s)
    case Count => s.mid > 0
    case Pause => true
    case Unpause => true
    case Work(w) => w < |s.workers| && WorkEnabled(s, w)
    case WaitForTasks => s.admin.Idle?
    case Wake => s.admin.Asleep?
    case Reset(threads) =>
      match s.admin
      case Checks(_) => MutexFree(s)
      case Asleep(_) => false
      case Join(_) => forall w :: 0 <= w < |s.workers| ==> s.workers[w].Exited?
      case Restart => threads > 0   // determine_thread_count never returns 0
      case _ => true
  }

  // notify_one on task_done_cv.
  function Notified(admin: Admin): Admin {
    if admin.Asleep? then Checks(admin.reset) else admin
  }

  function SetWorker(s: State, w: nat, worker: Worker): State
    requires w < |s.workers|
  {
    s.(workers := s.workers[w := worker])
  }

  // work(t) is the number of atomic writes task t performs.
  function WorkStep(work: TaskId -> nat, s: State, w: nat): State
    requires w < |s.workers| && WorkEnabled(s, w)
  {
    match s.workers[w]
    case Loop => SetWorker(s, w, if s.shared.running then Waiting else Exited)
    case Waiting => SetWorker(s, w, Checking)
    case Checking => SetWorker(s, w, if s.shared.running then Checked else Loop)
    case Checked =>
      // line 575 does not look at the queue; PoolRuns.SectionOK shows that it is not empty here
      if s.shared.paused || s.shared.tasks == [] then SetWorker(s, w, Loop)
      else
        var task := s.shared.tasks[0];
        SetWorker(s.(shared := Taken(s.shared), started := s.started + [task]), w, Busy(task, 0))
    case Busy(task, progress) =>
      if progress < work(task) then SetWorker(s.(trace := s.trace + [(task, progress)]), w, Busy(task, progress + 1))
      else SetWorker(s.(ready := s.ready + {task}), w, Ran(task))
    case Ran(task) =>
      var admin := if s.shared.waiting then Notified(s.admin) else s.admin;
      SetWorker(s.(shared := Finished(s.shared), admin := admin), w, Loop)
    case Exited => s
  }

  function ResetStep(s: State, threads: nat): State {
    match s.admin
    case Idle => s.(admin := Checks(Some(s.shared.paused)), shared := s.shared.(paused := true, waiting := true))
    case Checks(reset) =>
      if !NothingToWaitFor(s.shared) then s.(admin := Asleep(reset))
      else s.(admin := if reset.Some? then Stop(reset.value) else Idle, shared := s.shared.(waiting := false))
    case Asleep(_) => s
    case Stop(was) => s.(admin := Join(was), shared := s.shared.(running := false))
    case Join(was) => s.(admin := Restore(was), workers := [])
    case Restore(was) => s.(admin := Restart, shared := s.shared.(paused := was))
    case Restart => s.(admin := Spawn(threads), shared := s.shared.(running := true))
    case Spawn(left) =>
      if left == 0 then s.(admin := Idle) else s.(admin := Spawn(left - 1), workers := s.workers + [Loop])
  }

  function Apply(work: TaskId -> nat, s: State, step: Step): State
    requires Enabled(s, step)
  {
    match step
    case Push => s.(shared := Enqueued(s.shared, s.pushed), pushed := s.pushed + 1, mid := s.mid + 1)
    case Count => s.(shared := Counted(s.shared), mid := s.mid - 1)
    case Pause => s.(shared := s.shared.(paused := true))
    case Unpause => s.(shared := s.shared.(paused := false))
    case Work(w) => WorkStep(work, s, w)
    case WaitForTasks => s.(admin := Checks(None), shared := s.shared.(waiting := true))
    case Reset(threads) => ResetStep(s, threads)
    case Wake => s.(admin := Notified(s.admin))
  }

  // A constructed pool: create_threads has spawned n workers.
  ghost predicate Init(s: State) {
    && s.shared == Shared([], 0, false, true, false)
    && |s.workers| > 0 && (forall w :: 0 <= w < |s.workers| ==> s.workers[w] == Loop)
    && s.mid == 0 && s.admin == Idle && s.pushed == 0 && s.started == [] && s.ready == {} && s.trace == []
  }

  ghost predicate IsRun(work: TaskId -> nat, states: seq<State>, steps: seq<Step>) {
    && |states| == |steps| + 1
    && Init(states[0])
    && forall i :: 0 <= i < |steps| ==>
         Enabled(states[i], steps[i]) && states[i + 1] == Apply(work, states[i], steps[i])
  }
}
