/**
 What every run of the thread pool keeps: the true invariant of the task counter, push order,
 at-most-once execution, readiness of futures only after the body, and progress.
 */
module PoolRuns {
  import opened Wrappers
  import opened ThreadPool

  /* ---------- counting busy workers ---------- */

  // A popped task that is not yet subtracted from tasks_total.
  predicate Active(w: Worker) { w.Busy? || w.Ran? }

  function ActiveCount(ws: seq<Worker>): nat {
    if ws == [] then 0 else ActiveCount(ws[..|ws| - 1]) + (if Active(ws[|ws| - 1]) then 1 else 0)
  }

  lemma {:induction false} ActiveCountAfter(ws: seq<Worker>, i: nat, w: Worker)
    requires i < |ws|
    ensures ActiveCount(ws[i := w]) == ActiveCount(ws) - (if Active(ws[i]) then 1 else 0) + (if Active(w) then 1 else 0)
  {
    var ws' := ws[i := w];
    if i == |ws| - 1 {
      assert ws'[..|ws| - 1] == ws[..|ws| - 1];
    } else {
      assert ws'[..|ws| - 1] == ws[..|ws| - 1][i := w];
      ActiveCountAfter(ws[..|ws| - 1], i, w);
    }
  }

  lemma {:induction false} ActiveCountPush(ws: seq<Worker>, w: Worker)
    ensures ActiveCount(ws + [w]) == ActiveCount(ws) + (if Active(w) then 1 else 0)
  {
    assert (ws + [w])[..|ws|] == ws;
  }

  lemma {:induction false} NoneActive(ws: seq<Worker>)
    ensures ActiveCount(ws) == 0 <==> forall w :: 0 <= w < |ws| ==> !Active(ws[w])
  {
    if ws != [] {
      NoneActive(ws[..|ws| - 1]);
      assert forall w :: 0 <= w < |ws| - 1 ==> ws[..|ws| - 1][w] == ws[w];
    }
  }

  /* ---------- the invariant ---------- */

  // Modulo 2^64: the counter plus the pushes under way is what is queued or running.
  ghost predicate CounterOK(s: State) {
    && s.shared.total < SIZE_MODULUS
    && Wrap(s.shared.total + s.mid) == Wrap(|s.shared.tasks| + ActiveCount(s.workers))
  }

  // At most one worker is inside the critical section, and it has seen a reason to be there.
  ghost predicate SectionOK(s: State) {
    && (forall v, w :: 0 <= v < |s.workers| && 0 <= w < |s.workers| && v != w && HoldsMutex(s.workers[v]) ==>
        !HoldsMutex(s.workers[w]))
    && (forall w :: 0 <= w < |s.workers| && s.workers[w].Checking? ==> s.shared.tasks != [] || !s.shared.running)
    && (forall w :: 0 <= w < |s.workers| && s.workers[w].Checked? ==> s.shared.tasks != [])
  }

  // running is false only while reset has no workers to start, and an exited worker stays so.
  ghost predicate AdminOK(s: State) {
    && (s.shared.running <==> !(s.admin.Join? || s.admin.Restore? || s.admin.Restart?))
    && (s.admin.Restore? || s.admin.Restart? ==> s.workers == [])
    && (s.shared.running ==> forall w :: 0 <= w < |s.workers| ==> !s.workers[w].Exited?)
    && (s.workers == [] ==> s.admin.Restore? || s.admin.Restart? || (s.admin.Spawn? && s.admin.left > 0))
    && (s.admin.Checks? || s.admin.Asleep? ==> s.shared.waiting)
  }

  // Tasks leave the queue in the order in which they entered it.
  ghost predicate OrderOK(s: State) {
    && |s.started| + |s.shared.tasks| == s.pushed
    && (forall i :: 0 <= i < |s.started| ==> s.started[i] == i)
    && (forall i :: 0 <= i < |s.shared.tasks| ==> s.shared.tasks[i] == |s.started| + i)
  }

  predicate Executing(w: Worker, t: TaskId) { w.Busy? && w.task == t }

  // A started task executes on at most one worker and is ready only after that; StartedOK:
  // it is one or the other.
  ghost predicate TasksOK(s: State) {
    && (forall t :: t in s.ready ==> t < |s.started|)
    && (forall w :: 0 <= w < |s.workers| && s.workers[w].Busy? ==>
        s.workers[w].task < |s.started| && s.workers[w].task !in s.ready)
    && (forall w :: 0 <= w < |s.workers| && s.workers[w].Ran? ==> s.workers[w].task in s.ready)
    && (forall v, w ::
          0 <= v < |s.workers| && 0 <= w < |s.workers| && v != w && s.workers[v].Busy? && s.workers[w].Busy? ==>
          s.workers[v].task != s.workers[w].task)
  }

  ghost predicate StartedOK(s: State) {
    forall t: TaskId :: t < |s.started| ==>
      t in s.ready || exists w :: 0 <= w < |s.workers| && Executing(s.workers[w], t)
  }

  // The trace holds the first writes of each executing task, all writes of each ready one,
  // nothing else, and nothing twice.
  ghost predicate TraceOK(work: TaskId -> nat, s: State) {
    && (forall w :: 0 <= w < |s.workers| && s.workers[w].Busy? ==> s.workers[w].progress <= work(s.workers[w].task))
    && (forall t, k: nat :: t in s.ready ==> ((t, k) in s.trace <==> k < work(t)))
    && (forall w, k: nat :: 0 <= w < |s.workers| && s.workers[w].Busy? ==>
          ((s.workers[w].task, k) in s.trace <==> k < s.workers[w].progress))
    && (forall e :: e in s.trace ==> e.0 < |s.started|)
    && (forall i, j :: 0 <= i < j < |s.trace| ==> s.trace[i] != s.trace[j])
  }

  ghost predicate Inv(work: TaskId -> nat, s: State) {
    CounterOK(s) && SectionOK(s) && AdminOK(s) && OrderOK(s) && TasksOK(s) && StartedOK(s) && TraceOK(work, s)
  }

  lemma WrapAdds(a: int, b: int, d: int)
    requires Wrap(a) == Wrap(b)
    ensures Wrap(a + d) == Wrap(b + d)
  {
    assert a % SIZE_MODULUS == b % SIZE_MODULUS;
  }

  lemma CounterWork(work: TaskId -> nat, s: State, w: nat)
    requires CounterOK(s) && w < |s.workers| && WorkEnabled(s, w)
    ensures CounterOK(WorkStep(work, s, w))
  {
    var s' := WorkStep(work, s, w);
    ActiveCountAfter(s.workers, w, s'.workers[w]);
    if s.workers[w].Ran? {
      WrapTwice(s.shared.total - 1, s.mid);
      WrapAdds(s.shared.total + s.mid, |s.shared.tasks| + ActiveCount(s.workers), -1);
    }
  }

  lemma CounterReset(s: State, threads: nat)
    requires CounterOK(s) && Enabled(s, Reset(threads))
    ensures CounterOK(ResetStep(s, threads))
  {
    NoneActive(s.workers);
    ActiveCountPush(s.workers, Loop);
  }

  lemma CounterStep(work: TaskId -> nat, s: State, step: Step)
    requires CounterOK(s) && Enabled(s, step)
    ensures CounterOK(Apply(work, s, step))
  {
    var total, waiting := s.shared.total, |s.shared.tasks| + ActiveCount(s.workers);
    match step
    case Push => WrapAdds(total + s.mid, waiting, 1);
    case Count => WrapTwice(total + 1, s.mid - 1);
    case Work(w) => CounterWork(work, s, w);
    case Reset(threads) => CounterReset(s, threads);
    case _ =>
  }

  lemma SectionWork(work: TaskId -> nat, s: State, w: nat)
    requires SectionOK(s) && w < |s.workers| && WorkEnabled(s, w)
    ensures SectionOK(WorkStep(work, s, w))
  {
    var s' := WorkStep(work, s, w);
    assert forall v :: 0 <= v < |s.workers| && v != w ==> s'.workers[v] == s.workers[v];
  }

  lemma SectionStep(work: TaskId -> nat, s: State, step: Step)
    requires SectionOK(s) && AdminOK(s) && Enabled(s, step)
    ensures SectionOK(Apply(work, s, step))
  {
    if step.Work? {
      SectionWork(work, s, step.w);
    }
  }

  lemma AdminStep(work: TaskId -> nat, s: State, step: Step)
    requires AdminOK(s) && Enabled(s, step)
    ensures AdminOK(Apply(work, s, step))
  {}

  lemma OrderStep(work: TaskId -> nat, s: State, step: Step)
    requires OrderOK(s) && Enabled(s, step)
    ensures OrderOK(Apply(work, s, step))
  {}

  lemma TasksWork(work: TaskId -> nat, s: State, w: nat)
    requires OrderOK(s) && TasksOK(s) && w < |s.workers| && WorkEnabled(s, w)
    ensures TasksOK(WorkStep(work, s, w))
  {
    var s' := WorkStep(work, s, w);
    assert forall v :: 0 <= v < |s.workers| && v != w ==> s'.workers[v] == s.workers[v];
  }

  lemma TasksStep(work: TaskId -> nat, s: State, step: Step)
    requires OrderOK(s) && TasksOK(s) && Enabled(s, step)
    ensures TasksOK(Apply(work, s, step))
  {
    if step.Work? {
      TasksWork(work, s, step.w);
    }
  }

  lemma StartedStep(work: TaskId -> nat, s: State, step: Step)
    requires OrderOK(s) && StartedOK(s) && Enabled(s, step)
    ensures StartedOK(Apply(work, s, step))
  {
    var s' := Apply(work, s, step);
    forall t: TaskId | t < |s'.started| && t !in s'.ready
      ensures exists v :: 0 <= v < |s'.workers| && Executing(s'.workers[v], t)
    {
      if t < |s.started| {
        var v :| 0 <= v < |s.workers| && Executing(s.workers[v], t);
        assert Executing(s'.workers[v], t);
      } else {
        assert Executing(s'.workers[step.w], t);
      }
    }
  }

  lemma TraceWork(work: TaskId -> nat, s: State, w: nat)
    requires OrderOK(s) && TasksOK(s) && TraceOK(work, s) && w < |s.workers| && WorkEnabled(s, w)
    ensures TraceOK(work, WorkStep(work, s, w))
  {
    var s' := WorkStep(work, s, w);
    assert forall v :: 0 <= v < |s.workers| && v != w ==> s'.workers[v] == s.workers[v];
    assert forall e :: e in s'.trace <==> e in s.trace || (s'.trace != s.trace && e == s'.trace[|s.trace|]);
  }

  lemma TraceStep(work: TaskId -> nat, s: State, step: Step)
    requires OrderOK(s) && TasksOK(s) && TraceOK(work, s) && Enabled(s, step)
    ensures TraceOK(work, Apply(work, s, step))
  {
    if step.Work? {
      TraceWork(work, s, step.w);
    }
  }

  /* ---------- every run ---------- */

  lemma {:induction false} RunKeepsInv(work: TaskId -> nat, states: seq<State>, steps: seq<Step>, i: nat)
    requires IsRun(work, states, steps) && i < |states|
    ensures Inv(work, states[i])
  {
    if i == 0 {
      NoneActive(states[0].workers);
    } else {
      RunKeepsInv(work, states, steps, i - 1);
      var s, step := states[i - 1], steps[i - 1];
      CounterStep(work, s, step);
      SectionStep(work, s, step);
      AdminStep(work, s, step);
      OrderStep(work, s, step);
      TasksStep(work, s, step);
      StartedStep(work, s, step);
      TraceStep(work, s, step);
    }
  }

  // Fewer pushes and tasks than a size_t can count.
  ghost predicate Countable(s: State) {
    s.mid + |s.shared.tasks| + ActiveCount(s.workers) < SIZE_MODULUS
  }

  lemma WrapDistinct(a: nat, b: nat)
    requires a < SIZE_MODULUS && b < SIZE_MODULUS
    ensures Wrap(a) == Wrap(b) <==> a == b
  {}

  lemma Unwrap(total: nat, mid: nat, waiting: nat)
    requires total < SIZE_MODULUS && mid < SIZE_MODULUS && waiting < SIZE_MODULUS
    requires Wrap(total + mid) == Wrap(waiting)
    ensures total == if waiting >= mid then waiting - mid else SIZE_MODULUS - (mid - waiting)
  {
    if total + mid >= SIZE_MODULUS {
      WrapTwice(total + mid, 0);
      assert Wrap(total + mid) == total + mid - SIZE_MODULUS;
    }
  }

  lemma CounterValue(s: State)
    requires CounterOK(s) && Countable(s)
    ensures var waiting := |s.shared.tasks| + ActiveCount(s.workers);
            s.shared.total == if waiting >= s.mid then waiting - s.mid else SIZE_MODULUS - (s.mid - waiting)
  {
    Unwrap(s.shared.total, s.mid, |s.shared.tasks| + ActiveCount(s.workers));
  }

  // The documented get_tasks_total() == get_tasks_queued() + get_tasks_running() holds of the
  // tasks really queued and running exactly when no push is between its two lines; only then
  // does get_tasks_running count the running tasks.
  lemma DocumentedTotalIffNoPushUnderWay(work: TaskId -> nat, states: seq<State>, steps: seq<Step>, i: nat)
    requires IsRun(work, states, steps) && i < |states| && Countable(states[i])
    ensures var s := states[i];
            && (s.shared.total == |s.shared.tasks| + ActiveCount(s.workers) <==> s.mid == 0)
            && (TasksRunning(s.shared) == ActiveCount(s.workers) <==> s.mid == 0)
  {
    RunKeepsInv(work, states, steps, i);
    var s := states[i];
    CounterValue(s);
    var active := ActiveCount(s.workers);
    if s.mid <= active {
      assert TasksRunning(s.shared) == active - s.mid by {
        WrapDistinct(active - s.mid, active - s.mid);
        if |s.shared.tasks| + active < s.mid {
          assert false;
        }
      }
    } else {
      WrapTwice(active - s.mid, 0);
    }
  }

  lemma AllReady(work: TaskId -> nat, s: State)
    requires OrderOK(s) && StartedOK(s) && s.shared.tasks == [] && ActiveCount(s.workers) == 0
    ensures forall t: TaskId :: t < s.pushed ==> t in s.ready
  {
    NoneActive(s.workers);
    assert forall w, t :: 0 <= w < |s.workers| ==> !Executing(s.workers[w], t);
  }

  // When the wait of an unpaused pool is over, everything pushed has finished exactly if no
  // push is under way; when the wait of a paused pool is over, nothing is running exactly then.
  lemma WaitMeansDoneIffNoPushUnderWay(work: TaskId -> nat, states: seq<State>, steps: seq<Step>, i: nat)
    requires IsRun(work, states, steps) && i < |states| && Countable(states[i])
    requires NothingToWaitFor(states[i].shared)
    ensures var s := states[i];
            && (!s.shared.paused ==> (s.shared.tasks == [] && ActiveCount(s.workers) == 0 <==> s.mid == 0))
            && (!s.shared.paused && s.mid == 0 ==> forall t: TaskId :: t < s.pushed ==> t in s.ready)
            && (s.shared.paused ==> (ActiveCount(s.workers) == 0 <==> s.mid == 0))
  {
    RunKeepsInv(work, states, steps, i);
    var s := states[i];
    CounterValue(s);
    if s.shared.tasks == [] && ActiveCount(s.workers) == 0 {
      AllReady(work, s);
    }
  }

  // The wait really can end with a task in the queue: a push enqueued it and has not counted it.
  lemma WaitCanEndEarly(work: TaskId -> nat, s: State)
    requires Init(s)
    ensures var s' := Apply(work, s, Push);
            IsRun(work, [s, s'], [Push]) && NothingToWaitFor(s'.shared) && !s'.shared.paused && s'.shared.tasks == [0]
  {
    assert MutexFree(s);
  }

  // No worker ever takes from an empty queue; tasks start in push order, each at most once;
  // no write happens twice; a future is ready only when all writes of its task have happened.
  lemma TasksRunInOrderAndOnce(work: TaskId -> nat, states: seq<State>, steps: seq<Step>, i: nat)
    requires IsRun(work, states, steps) && i < |states|
    ensures var s := states[i];
            && (forall w :: 0 <= w < |s.workers| && s.workers[w].Checked? ==> s.shared.tasks != [])
            && (forall n :: 0 <= n < |s.started| ==> s.started[n] == n)
            && (forall a, b :: 0 <= a < b < |s.trace| ==> s.trace[a] != s.trace[b])
            && (forall t, k: nat :: t in s.ready ==> t < |s.started| && ((t, k) in s.trace <==> k < work(t)))
  {
    RunKeepsInv(work, states, steps, i);
  }

  /* ---------- progress ---------- */

  function Weight(work: TaskId -> nat, w: Worker): int {
    match w
    case Loop => 4
    case Waiting => 3
    case Checking => 2
    case Checked => 1
    case Busy(t, k) => 6 + work(t) - k
    case Ran(_) => 5
    case Exited => 0
  }

  function WorkersWeight(work: TaskId -> nat, ws: seq<Worker>): int {
    if ws == [] then 0 else WorkersWeight(work, ws[..|ws| - 1]) + Weight(work, ws[|ws| - 1])
  }

  function QueueWeight(work: TaskId -> nat, tasks: seq<TaskId>): int {
    if tasks == [] then 0 else 6 + work(tasks[0]) + QueueWeight(work, tasks[1..])
  }

  function Measure(work: TaskId -> nat, s: State): int {
    WorkersWeight(work, s.workers) + QueueWeight(work, s.shared.tasks)
  }

  lemma {:induction false} WorkersWeightAfter(work: TaskId -> nat, ws: seq<Worker>, i: nat, w: Worker)
    requires i < |ws|
    ensures WorkersWeight(work, ws[i := w]) == WorkersWeight(work, ws) - Weight(work, ws[i]) + Weight(work, w)
  {
    var ws' := ws[i := w];
    if i == |ws| - 1 {
      assert ws'[..|ws| - 1] == ws[..|ws| - 1];
    } else {
      assert ws'[..|ws| - 1] == ws[..|ws| - 1][i := w];
      WorkersWeightAfter(work, ws[..|ws| - 1], i, w);
    }
  }

  lemma {:induction false} WorkersWeightIsNatural(work: TaskId -> nat, ws: seq<Worker>)
    requires forall w :: 0 <= w < |ws| && ws[w].Busy? ==> ws[w].progress <= work(ws[w].task)
    ensures WorkersWeight(work, ws) >= 0
  {
    if ws != [] {
      assert forall w :: 0 <= w < |ws| - 1 ==> ws[..|ws| - 1][w] == ws[w];
      WorkersWeightIsNatural(work, ws[..|ws| - 1]);
    }
  }

  lemma QueueWeightIsNatural(work: TaskId -> nat, tasks: seq<TaskId>)
    ensures QueueWeight(work, tasks) >= 0
  {}

  // While the pool runs and is not paused, every worker step brings it closer to being done.
  lemma WorkerStepsTerminate(work: TaskId -> nat, states: seq<State>, steps: seq<Step>, i: nat, w: nat)
    requires IsRun(work, states, steps) && i < |states|
    requires states[i].shared.running && !states[i].shared.paused
    requires w < |states[i].workers| && WorkEnabled(states[i], w)
    ensures 0 <= Measure(work, WorkStep(work, states[i], w)) < Measure(work, states[i])
  {
    RunKeepsInv(work, states, steps, i);
    var s := states[i];
    var s' := WorkStep(work, s, w);
    WorkersWeightAfter(work, s.workers, w, s'.workers[w]);
    TraceWork(work, s, w);
    WorkersWeightIsNatural(work, s'.workers);
    QueueWeightIsNatural(work, s'.shared.tasks);
  }

  lemma IdleWorkers(s: State)
    requires SectionOK(s) && AdminOK(s) && s.shared.running && s.workers != []
    requires forall w :: 0 <= w < |s.workers| ==> !WorkEnabled(s, w)
    ensures s.shared.tasks == [] && forall w :: 0 <= w < |s.workers| ==> s.workers[w].Waiting?
  {
    forall w | 0 <= w < |s.workers|
      ensures !HoldsMutex(s.workers[w])
    {
      assert !WorkEnabled(s, w);
    }
    assert MutexFree(s);
    assert !WorkEnabled(s, 0);
    forall w | 0 <= w < |s.workers|
      ensures s.workers[w].Waiting?
    {
      assert !WorkEnabled(s, w) && !HoldsMutex(s.workers[w]);
    }
  }

  // And when no worker can step any more, everything that was pushed is ready.
  lemma QuietPoolIsDone(work: TaskId -> nat, states: seq<State>, steps: seq<Step>, i: nat)
    requires IsRun(work, states, steps) && i < |states|
    requires states[i].admin.Idle? && !states[i].shared.paused
    requires forall w :: 0 <= w < |states[i].workers| ==> !WorkEnabled(states[i], w)
    ensures states[i].shared.tasks == [] && forall t: TaskId :: t < states[i].pushed ==> t in states[i].ready
  {
    RunKeepsInv(work, states, steps, i);
    IdleWorkers(states[i]);
    NoneActive(states[i].workers);
    AllReady(work, states[i]);
  }

  /* ---------- pause and reset ---------- */

  // The step with which the last reset before i began.
  function ResetStart(states: seq<State>, steps: seq<Step>, i: nat): (r: nat)
    requires |states| == |steps| + 1 && i < |states|
    ensures r <= i
  {
    if i == 0 then 0
    else if steps[i - 1].Reset? && states[i - 1].admin.Idle? then i - 1
    else ResetStart(states, steps, i - 1)
  }

  // What was last said about the pause: by pause and unpause, by a reset that begins, or by
  // one that takes back what it said and goes by what was said before it.
  function LastWord(states: seq<State>, steps: seq<Step>, i: nat): bool
    requires |states| == |steps| + 1 && i < |states|
  {
    if i == 0 then false
    else
      match steps[i - 1]
      case Pause => true
      case Unpause => false
      case Reset(_) =>
        if states[i - 1].admin.Idle? then true
        else if states[i - 1].admin.Restore? then LastWord(states, steps, ResetStart(states, steps, i - 1))
        else LastWord(states, steps, i - 1)
      case _ => LastWord(states, steps, i - 1)
  }

  // What a reset under way has noted.
  function Noted(admin: Admin): Option<bool> {
    match admin
    case Checks(reset) => reset
    case Asleep(reset) => reset
    case Stop(was) => Some(was)
    case Join(was) => Some(was)
    case Restore(was) => Some(was)
    case _ => None
  }

  lemma PauseStep(work: TaskId -> nat, s: State, step: Step)
    requires Enabled(s, step)
    ensures var s' := Apply(work, s, step);
            && (s'.shared.paused ==
                match step
                case Pause => true
                case Unpause => false
                case Reset(_) => s.admin.Idle? || (if s.admin.Restore? then s.admin.wasPaused else s.shared.paused)
                case _ => s.shared.paused)
            && (Noted(s'.admin).Some? ==>
                  Noted(s'.admin) == if step.Reset? && s.admin.Idle? then Some(s.shared.paused) else Noted(s.admin))
  {}

  lemma {:induction false} PauseAndNote(work: TaskId -> nat, states: seq<State>, steps: seq<Step>, i: nat)
    requires IsRun(work, states, steps) && i < |states|
    ensures states[i].shared.paused == LastWord(states, steps, i)
    ensures var noted := Noted(states[i].admin);
            noted.Some? ==> noted.value == LastWord(states, steps, ResetStart(states, steps, i))
  {
    if i > 0 {
      PauseAndNote(work, states, steps, i - 1);
      PauseStep(work, states[i - 1], steps[i - 1]);
    }
  }

  // In every interleaving the pool is paused exactly if that is the last word; so a finished
  // reset leaves it as the reset found it, unless somebody pauses or unpauses it meanwhile.
  lemma PausedIsTheLastWord(work: TaskId -> nat, states: seq<State>, steps: seq<Step>, i: nat)
    requires IsRun(work, states, steps) && i < |states|
    ensures states[i].shared.paused <==> LastWord(states, steps, i)
  {
    PauseAndNote(work, states, steps, i);
  }

  // How many threads the last reset was asked for, or the constructor.
  function ThreadsAsked(states: seq<State>, steps: seq<Step>, i: nat): nat
    requires |states| == |steps| + 1 && i < |states|
  {
    if i == 0 then |states[0].workers|
    else if steps[i - 1].Reset? && states[i - 1].admin.Restart? then steps[i - 1].threads
    else ThreadsAsked(states, steps, i - 1)
  }

  // A pool that is not between the end of its old threads and the start of its new ones has
  // as many as it was asked for.
  lemma {:induction false} PoolHasTheThreadsAsked(work: TaskId -> nat, states: seq<State>, steps: seq<Step>, i: nat)
    requires IsRun(work, states, steps) && i < |states|
    ensures var s := states[i];
            if s.admin.Restore? || s.admin.Restart? then s.workers == []
            else |s.workers| + (if s.admin.Spawn? then s.admin.left else 0) == ThreadsAsked(states, steps, i)
  {
    if i > 0 {
      PoolHasTheThreadsAsked(work, states, steps, i - 1);
      assert states[i] == Apply(work, states[i - 1], steps[i - 1]);
    }
  }

  // While a pool is paused no task starts.
  lemma {:induction false} PausedPoolStartsNothing(work: TaskId -> nat, states: seq<State>, steps: seq<Step>, i: nat,
                                                   j: nat)
    requires IsRun(work, states, steps) && i <= j < |states|
    requires forall n :: i <= n < j ==> states[n].shared.paused
    ensures states[j].started == states[i].started
    decreases j
  {
    if i < j {
      PausedPoolStartsNothing(work, states, steps, i, j - 1);
      assert states[j] == Apply(work, states[j - 1], steps[j - 1]);
    }
  }

  /* ---------- lost wake-ups of a thread that waits for the tasks ---------- */

  // The predicate of wait_for_tasks, in terms of what is really going on: it holds exactly if
  // the pushes under way are as many as the tasks to wait for.
  lemma NothingToWaitForIff(work: TaskId -> nat, states: seq<State>, steps: seq<Step>, i: nat)
    requires IsRun(work, states, steps) && i < |states| && Countable(states[i])
    ensures var s := states[i];
            NothingToWaitFor(s.shared)
            <==> s.mid == ActiveCount(s.workers) + (if s.shared.paused then 0 else |s.shared.tasks|)
  {
    RunKeepsInv(work, states, steps, i);
    CounterValue(states[i]);
  }

  ghost predicate NothingRuns(s: State) {
    forall w :: 0 <= w < |s.workers| ==> !Active(s.workers[w])
  }

  // No push is under way, nothing is running, and what is queued is held back by the pause ...
  ghost predicate AllDone(s: State) {
    s.mid == 0 && (s.shared.paused || s.shared.tasks == []) && NothingRuns(s)
  }

  // ... and still the waiting thread sleeps.
  ghost predicate Forgotten(s: State) {
    s.admin.Asleep? && AllDone(s)
  }

  // With nothing running, the last push under way is counted, or the pause holds back the
  // queue; neither notifies the sleeper.
  ghost predicate LeavesBehind(s: State, step: Step) {
    && s.admin.Asleep? && NothingRuns(s)
    && match step
       case Count => s.mid == 1 && (s.shared.paused || s.shared.tasks == [])
       case Pause => s.mid == 0 && !s.shared.paused && s.shared.tasks != []
       case _ => false
  }

  // New work, the end of a pause that held work back, or a spurious wake-up.
  predicate Releases(s: State, step: Step) {
    step.Push? || step.Wake? || (step.Unpause? && s.shared.tasks != [])
  }

  // A finished pool has nothing to wait for, so nobody falls asleep in it.
  lemma AllDoneHasNothingToWaitFor(s: State)
    requires CounterOK(s) && AllDone(s) && |s.shared.tasks| < SIZE_MODULUS
    ensures NothingToWaitFor(s.shared)
  {
    NoneActive(s.workers);
    WrapDistinct(s.shared.total, |s.shared.tasks|);
  }

  lemma ForgottenWork(work: TaskId -> nat, s: State, w: nat)
    requires AdminOK(s) && SectionOK(s) && w < |s.workers| && WorkEnabled(s, w)
    ensures Forgotten(WorkStep(work, s, w)) <==> Forgotten(s)
  {
    var s' := WorkStep(work, s, w);
    if Forgotten(s') {
      forall v | 0 <= v < |s.workers|
        ensures !Active(s.workers[v])
      {
        assert !Active(s'.workers[v]);
      }
    }
    if Forgotten(s) {
      forall v | 0 <= v < |s'.workers|
        ensures !Active(s'.workers[v])
      {
        assert !Active(s.workers[v]);
      }
    }
  }

  lemma ForgottenReset(s: State, threads: nat)
    requires CounterOK(s) && |s.shared.tasks| < SIZE_MODULUS && Enabled(s, Reset(threads))
    ensures !Forgotten(ResetStep(s, threads))
  {
    if s.admin.Checks? && AllDone(s) {
      AllDoneHasNothingToWaitFor(s);
    }
  }

  lemma ForgottenStep(work: TaskId -> nat, s: State, step: Step)
    requires Inv(work, s) && |s.shared.tasks| < SIZE_MODULUS && Enabled(s, step)
    ensures Forgotten(Apply(work, s, step)) <==> LeavesBehind(s, step) || (Forgotten(s) && !Releases(s, step))
  {
    if step.Work? {
      ForgottenWork(work, s, step.w);
    } else if step.Reset? {
      ForgottenReset(s, step.threads);
    }
  }

  // Some step left the sleeper behind, and nothing has released it since.
  ghost predicate LeftBehind(states: seq<State>, steps: seq<Step>, i: nat)
    requires |states| == |steps| + 1 && i < |states|
  {
    exists j :: 0 <= j < i && LeavesBehind(states[j], steps[j])
                && forall n :: j < n < i ==> !Releases(states[n], steps[n])
  }

  lemma LeftBehindNext(states: seq<State>, steps: seq<Step>, i: nat)
    requires |states| == |steps| + 1 && i < |steps|
    ensures LeftBehind(states, steps, i + 1)
            <==> LeavesBehind(states[i], steps[i])
                 || (LeftBehind(states, steps, i) && !Releases(states[i], steps[i]))
  {}

  // Exactly when wait_for_tasks, or reset, sleeps although all is done: if and only if the
  // last thing it waited for was the increment of a push, or the pause, and neither new work
  // nor a spurious wake-up has come since.
  lemma {:induction false} ForgottenIff(work: TaskId -> nat, states: seq<State>, steps: seq<Step>, i: nat)
    requires IsRun(work, states, steps) && i < |states|
    requires forall n :: 0 <= n < i ==> |states[n].shared.tasks| < SIZE_MODULUS
    ensures Forgotten(states[i]) <==> LeftBehind(states, steps, i)
  {
    if i > 0 {
      ForgottenIff(work, states, steps, i - 1);
      RunKeepsInv(work, states, steps, i - 1);
      ForgottenStep(work, states[i - 1], steps[i - 1]);
      LeftBehindNext(states, steps, i - 1);
    }
  }

  // So such a thread sleeps until it is released.
  lemma {:induction false} ForgottenSleepsOn(work: TaskId -> nat, states: seq<State>, steps: seq<Step>, i: nat, j: nat)
    requires IsRun(work, states, steps) && i <= j < |states| && Forgotten(states[i])
    requires forall n :: i <= n < j ==> !Releases(states[n], steps[n])
    requires forall n :: 0 <= n < j ==> |states[n].shared.tasks| < SIZE_MODULUS
    ensures Forgotten(states[j])
    decreases j
  {
    if i < j {
      ForgottenSleepsOn(work, states, steps, i, j - 1);
      RunKeepsInv(work, states, steps, j - 1);
      ForgottenStep(work, states[j - 1], steps[j - 1]);
    }
  }

  predicate SleepsInVain(s: State) {
    s.admin.Asleep? && NothingToWaitFor(s.shared)
  }

  // The steps that change the predicate and notify nobody.
  predicate Silent(step: Step) {
    step.Push? || step.Count? || step.Pause? || step.Unpause?
  }

  lemma SleepsInVainStep(work: TaskId -> nat, s: State, step: Step)
    requires AdminOK(s) && SectionOK(s) && Enabled(s, step) && SleepsInVain(Apply(work, s, step))
    ensures s.admin.Asleep? && (SleepsInVain(s) || Silent(step))
  {}

  ghost predicate SleptThrough(states: seq<State>, steps: seq<Step>, i: nat)
    requires |states| == |steps| + 1 && i < |states|
  {
    exists j :: 0 <= j < i && states[j].admin.Asleep? && Silent(steps[j])
  }

  // A finishing task always wakes the waiting thread: one whose predicate holds in its sleep,
  // with pushes under way or not, has slept through a step that notifies nobody.
  lemma {:induction false} VainSleepMissedAPush(work: TaskId -> nat, states: seq<State>, steps: seq<Step>, i: nat)
    requires IsRun(work, states, steps) && i < |states| && SleepsInVain(states[i])
    ensures SleptThrough(states, steps, i)
  {
    if i > 0 {
      RunKeepsInv(work, states, steps, i - 1);
      SleepsInVainStep(work, states[i - 1], steps[i - 1]);
      if SleepsInVain(states[i - 1]) {
        VainSleepMissedAPush(work, states, steps, i - 1);
      }
    }
  }

  ghost predicate Reaches(work: TaskId -> nat, s: State) {
    exists states: seq<State>, steps: seq<Step> :: IsRun(work, states, steps) && states[|steps|] == s
  }

  lemma ReachesNext(work: TaskId -> nat, s: State, step: Step, s': State)
    requires Reaches(work, s) && Enabled(s, step) && s' == Apply(work, s, step)
    ensures Reaches(work, s')
  {
    var states, steps :| IsRun(work, states, steps) && states[|steps|] == s;
    assert IsRun(work, states + [s'], steps + [step]) && (states + [s'])[|steps + [step]|] == s';
  }

  // A pool of one worker that has been given one task; the push is not counted yet.
  function OneTask(w: Worker, queue: seq<TaskId>, total: nat, started: seq<TaskId>, ready: set<TaskId>,
                   trace: seq<(TaskId, nat)>): State {
    State(Shared(queue, total, false, true, false), [w], 1, Idle, 1, started, ready, trace)
  }

  lemma TaskIsPushed(work: TaskId -> nat)
    ensures Reaches(work, OneTask(Loop, [0], 0, [], {}, []))
  {
    var s0 := State(Shared([], 0, false, true, false), [Loop], 0, Idle, 0, [], {}, []);
    assert IsRun(work, [s0], []) && [s0][0] == s0;
    ReachesNext(work, s0, Push, OneTask(Loop, [0], 0, [], {}, []));
  }

  lemma WorkerSteps(work: TaskId -> nat, w: Worker, w': Worker)
    requires Reaches(work, OneTask(w, [0], 0, [], {}, []))
    requires (w == Loop && w' == Waiting) || (w == Waiting && w' == Checking) || (w == Checking && w' == Checked)
    ensures Reaches(work, OneTask(w', [0], 0, [], {}, []))
  {
    var s := OneTask(w, [0], 0, [], {}, []);
    assert w == Waiting ==> MutexFree(s);
    ReachesNext(work, s, Work(0), OneTask(w', [0], 0, [], {}, []));
  }

  lemma WorkerTakes(work: TaskId -> nat)
    ensures Reaches(work, OneTask(Busy(0, 0), [], 0, [0], {}, []))
  {
    TaskIsPushed(work);
    WorkerSteps(work, Loop, Waiting);
    WorkerSteps(work, Waiting, Checking);
    WorkerSteps(work, Checking, Checked);
    ReachesNext(work, OneTask(Checked, [0], 0, [], {}, []), Work(0), OneTask(Busy(0, 0), [], 0, [0], {}, []));
  }

  lemma {:induction false} WorkerWrites(work: TaskId -> nat, k: nat) returns (trace: seq<(TaskId, nat)>)
    requires k <= work(0)
    ensures Reaches(work, OneTask(Busy(0, k), [], 0, [0], {}, trace))
  {
    if k == 0 {
      WorkerTakes(work);
      trace := [];
    } else {
      var before := WorkerWrites(work, k - 1);
      trace := before + [(0, k - 1)];
      var s := OneTask(Busy(0, k - 1), [], 0, [0], {}, before);
      ReachesNext(work, s, Work(0), OneTask(Busy(0, k), [], 0, [0], {}, trace));
    }
  }

  lemma WorkerFinishes(work: TaskId -> nat) returns (trace: seq<(TaskId, nat)>)
    ensures Reaches(work, OneTask(Loop, [], Wrap(-1), [0], {0}, trace))
  {
    trace := WorkerWrites(work, work(0));
    var ran := OneTask(Ran(0), [], 0, [0], {0}, trace);
    ReachesNext(work, OneTask(Busy(0, work(0)), [], 0, [0], {}, trace), Work(0), ran);
    ReachesNext(work, ran, Work(0), OneTask(Loop, [], Wrap(-1), [0], {0}, trace));
  }

  // It does happen, whatever the task does: a worker finishes it before the push has counted
  // it, wait_for_tasks sees the wrapped counter and falls asleep, and the late increment
  // notifies nobody.
  lemma WaitForTasksCanSleepForever(work: TaskId -> nat) returns (s: State)
    ensures Reaches(work, s) && Forgotten(s) && SleepsInVain(s) && s.admin == Asleep(None)
  {
    var trace := WorkerFinishes(work);
    var s1 := OneTask(Loop, [], Wrap(-1), [0], {0}, trace);
    var s2 := s1.(admin := Checks(None), shared := s1.shared.(waiting := true));
    ReachesNext(work, s1, WaitForTasks, s2);
    var s3 := s2.(admin := Asleep(None));
    ReachesNext(work, s2, Reset(1), s3);
    s := s3.(mid := 0, shared := s3.shared.(total := 0));
    ReachesNext(work, s3, Count, s);
  }

  // And to reset: the new task waits in the paused queue, counted too late.
  lemma ResetCanSleepForever(work: TaskId -> nat) returns (s: State)
    ensures Reaches(work, s) && Forgotten(s) && SleepsInVain(s) && s.admin == Asleep(Some(false))
    ensures s.shared.tasks == [0]
  {
    TaskIsPushed(work);
    var s1 := OneTask(Loop, [0], 0, [], {}, []);
    var s2 := s1.(admin := Checks(Some(false)), shared := s1.shared.(paused := true, waiting := true));
    ReachesNext(work, s1, Reset(1), s2);
    var s3 := s2.(admin := Asleep(Some(false)));
    ReachesNext(work, s2, Reset(1), s3);
    s := s3.(mid := 0, shared := s3.shared.(total := 1));
    ReachesNext(work, s3, Count, s);
  }
}
