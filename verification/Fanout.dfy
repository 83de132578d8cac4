/**
 The fan-out of one operation over the thread pool: a call submits one task per part, each
 task writes the slots of its portion one after the other, and the call waits for all the
 futures.  Whatever the pool interleaves (the parts of other calls included), the buffer is
 that of one left-to-right pass over the covered slots.
 */
module Fanout {
  import opened Wrappers
  import opened Partition
  import opened Labels
  import opened Entries
  import opened ThreadPool
  import opened PoolRuns

  type Write = (TaskId, nat)

  // partOf tells which tasks of the pool belong to this call, and which part each one does.
  datatype Fan = Fan(valueSize: nat, threads: nat, stride: nat, partOf: TaskId -> Option<nat>)
  {
    ghost predicate Valid(work: TaskId -> nat) {
      && Parameters(valueSize, threads, stride)
      && forall t :: partOf(t).Some? ==>
           partOf(t).value < threads && work(t) == PortionLength(valueSize, threads, partOf(t).value)
    }

    // The slot a write goes to, if it is a write of this call.
    function SlotOf(e: Write): Option<nat>
      requires threads > 0
    {
      if partOf(e.0).Some? then Some(PortionBase(valueSize, threads, stride, partOf(e.0).value) + e.1) else None
    }

    // The loop of get() calls is over: every part has a task whose future is ready.
    ghost predicate Gathered(ready: set<TaskId>) {
      forall p: nat :: p < threads ==> HasReady(ready, p)
    }

    ghost predicate HasReady(ready: set<TaskId>, p: nat) {
      exists t :: t in ready && partOf(t) == Some(p)
    }
  }

  // The buffer after the writes of a trace; what is written to a slot depends on the slot alone.
  function Replay<T>(fan: Fan, value: nat -> T, trace: seq<Write>, buffer: seq<T>): (r: seq<T>)
    requires fan.threads > 0
    ensures |r| == |buffer|
  {
    if trace == [] then buffer
    else
      var before := Replay(fan, value, trace[..|trace| - 1], buffer);
      var slot := fan.SlotOf(trace[|trace| - 1]);
      if slot.Some? && slot.value < |before| then before[slot.value := value(slot.value)] else before
  }

  predicate Touches(fan: Fan, e: Write, n: nat)
    requires fan.threads > 0
  {
    fan.SlotOf(e) == Some(n)
  }

  ghost predicate Written(fan: Fan, trace: seq<Write>, n: nat)
    requires fan.threads > 0
  {
    exists e :: e in trace && Touches(fan, e, n)
  }

  lemma WrittenLast(fan: Fan, trace: seq<Write>, n: nat)
    requires fan.threads > 0 && trace != []
    ensures var last := |trace| - 1;
            Written(fan, trace, n) <==> Written(fan, trace[..last], n) || Touches(fan, trace[last], n)
  {
    var last := |trace| - 1;
    assert trace == trace[..last] + [trace[last]];
  }

  lemma {:induction false} ReplayAt<T>(fan: Fan, value: nat -> T, trace: seq<Write>, buffer: seq<T>, n: nat)
    requires fan.threads > 0 && n < |buffer|
    ensures Replay(fan, value, trace, buffer)[n] == if Written(fan, trace, n) then value(n) else buffer[n]
  {
    if trace != [] {
      ReplayAt(fan, value, trace[..|trace| - 1], buffer, n);
      WrittenLast(fan, trace, n);
    }
  }

  // Confluence: two interleavings that write the same slots, in any order, once or more
  // often, leave the same buffer.
  lemma FanoutIsConfluent<T>(fan: Fan, value: nat -> T, trace: seq<Write>, other: seq<Write>, buffer: seq<T>)
    requires fan.threads > 0
    requires forall n: nat :: Written(fan, trace, n) <==> Written(fan, other, n)
    ensures Replay(fan, value, trace, buffer) == Replay(fan, value, other, buffer)
  {
    forall n: nat | n < |buffer|
      ensures Replay(fan, value, trace, buffer)[n] == Replay(fan, value, other, buffer)[n]
    {
      ReplayAt(fan, value, trace, buffer, n);
      ReplayAt(fan, value, other, buffer, n);
    }
  }

  lemma WritesAreCounted(work: TaskId -> nat, s: State, t: TaskId, k: nat)
    requires StartedOK(s) && TraceOK(work, s) && (t, k) in s.trace
    ensures k < work(t)
  {
    assert (t, k).0 < |s.started|;
    if t !in s.ready {
      var w :| 0 <= w < |s.workers| && Executing(s.workers[w], t);
      assert (s.workers[w].task, k) in s.trace;
    }
  }

  lemma WrittenIsCovered(work: TaskId -> nat, s: State, fan: Fan, n: nat)
    requires Inv(work, s) && fan.Valid(work) && Written(fan, s.trace, n)
    ensures InSomePortion(fan.valueSize, fan.threads, fan.stride, n)
  {
    var e :| e in s.trace && Touches(fan, e, n);
    WritesAreCounted(work, s, e.0, e.1);
    assert InPortion(fan.valueSize, fan.threads, fan.stride, fan.partOf(e.0).value, n);
  }

  lemma PartIsWritten(work: TaskId -> nat, s: State, fan: Fan, n: nat, p: nat, t: TaskId)
    requires TraceOK(work, s) && fan.Valid(work) && t in s.ready && fan.partOf(t) == Some(p)
    requires InPortion(fan.valueSize, fan.threads, fan.stride, p, n)
    ensures Written(fan, s.trace, n)
  {
    var k: nat := n - PortionBase(fan.valueSize, fan.threads, fan.stride, p);
    assert k < work(t);
    assert (t, k) in s.trace && Touches(fan, (t, k), n);
  }

  lemma CoveredIsWritten(work: TaskId -> nat, s: State, fan: Fan, n: nat)
    requires TraceOK(work, s) && fan.Valid(work) && fan.Gathered(s.ready)
    requires InSomePortion(fan.valueSize, fan.threads, fan.stride, n)
    ensures Written(fan, s.trace, n)
  {
    var p: nat :| p < fan.threads && InPortion(fan.valueSize, fan.threads, fan.stride, p, n);
    assert fan.HasReady(s.ready, p);
    var t :| t in s.ready && fan.partOf(t) == Some(p);
    PartIsWritten(work, s, fan, n, p, t);
  }

  // Once every part's future is ready, a slot has been written exactly if some portion holds it.
  lemma GatheredPartsWroteTheirPortions(work: TaskId -> nat, states: seq<State>, steps: seq<Step>, i: nat, fan: Fan,
                                        n: nat)
    requires IsRun(work, states, steps) && i < |states|
    requires fan.Valid(work) && fan.Gathered(states[i].ready)
    ensures Written(fan, states[i].trace, n) <==> n < Coverage(fan.valueSize, fan.threads, fan.stride)
  {
    RunKeepsInv(work, states, steps, i);
    CoverageIsExact(fan.valueSize, fan.threads, fan.stride);
    if Written(fan, states[i].trace, n) {
      WrittenIsCovered(work, states[i], fan, n);
    }
    if InSomePortion(fan.valueSize, fan.threads, fan.stride, n) {
      CoveredIsWritten(work, states[i], fan, n);
    }
  }

  // In every run of the pool the gathered buffer is that of one pass over the covered slots,
  // for either stride, overlapping portions included.
  lemma GatheredBufferIsOnePass<T>(work: TaskId -> nat, states: seq<State>, steps: seq<Step>, i: nat, fan: Fan,
                                   value: nat -> T, buffer: seq<T>, n: nat)
    requires IsRun(work, states, steps) && i < |states|
    requires fan.Valid(work) && fan.Gathered(states[i].ready)
    requires n < |buffer|
    ensures Replay(fan, value, states[i].trace, buffer)[n]
            == if n < Coverage(fan.valueSize, fan.threads, fan.stride) then value(n) else buffer[n]
  {
    GatheredPartsWroteTheirPortions(work, states, steps, i, fan, n);
    ReplayAt(fan, value, states[i].trace, buffer, n);
  }

  /* ---------- the server's access ---------- */

  // Some part met a box that does not open, and ended the process.
  ghost predicate Failed(fan: Fan, trace: seq<Write>, entry: Entry, block: seq<Slot>)
    requires fan.threads > 0
  {
    exists n: nat :: Written(fan, trace, n) && OpenAt(entry, block, n).None?
  }

  function Blank(slots: nat): seq<Slot> {
    seq(slots, _ => BLANK)
  }

  // What the parallel access computes is what the sequential one does: it fails exactly if
  // that fails, and otherwise its buffer is that one's answer.
  lemma ParallelAccessIsSequentialAccess(work: TaskId -> nat, states: seq<State>, steps: seq<Step>, i: nat, fan: Fan,
                                         entry: Entry, block: seq<Slot>)
    requires IsRun(work, states, steps) && i < |states|
    requires fan.Valid(work) && fan.Gathered(states[i].ready)
    ensures var v := fan.valueSize; var upto := Coverage(v, fan.threads, fan.stride);
            var buffer := Replay(fan, n => NewSlot(entry, block, upto, n), states[i].trace, Blank(4 * v));
            AccessResult(entry, block, v, upto)
            == if Failed(fan, states[i].trace, entry, block) then None else Some(buffer)
  {
    var v, trace := fan.valueSize, states[i].trace;
    var upto := Coverage(v, fan.threads, fan.stride);
    forall n: nat
      ensures Written(fan, trace, n) <==> n < upto
    {
      GatheredPartsWroteTheirPortions(work, states, steps, i, fan, n);
    }
    assert AllOpen(entry, block, upto) <==> !Failed(fan, trace, entry, block);
    if AllOpen(entry, block, upto) {
      var value := n => NewSlot(entry, block, upto, n);
      var buffer := Replay(fan, value, trace, Blank(4 * v));
      forall n: nat | n < 4 * v
        ensures buffer[n] == NewSlot(entry, block, upto, n)
      {
        GatheredBufferIsOnePass(work, states, steps, i, fan, value, Blank(4 * v), n);
      }
      assert buffer == AccessResult(entry, block, v, upto).value;
    }
  }

  // At no point of any run, gathered or not, does a part meet a closed box if the sequential
  // access meets none.
  lemma NoPartFailsIfTheAccessSucceeds(work: TaskId -> nat, states: seq<State>, steps: seq<Step>, i: nat, fan: Fan,
                                       entry: Entry, block: seq<Slot>)
    requires IsRun(work, states, steps) && i < |states| && fan.Valid(work)
    requires AccessResult(entry, block, fan.valueSize, Coverage(fan.valueSize, fan.threads, fan.stride)).Some?
    ensures !Failed(fan, states[i].trace, entry, block)
  {
    RunKeepsInv(work, states, steps, i);
    CoverageIsExact(fan.valueSize, fan.threads, fan.stride);
    forall n: nat | Written(fan, states[i].trace, n)
      ensures OpenAt(entry, block, n).Some?
    {
      WrittenIsCovered(work, states[i], fan, n);
    }
  }

  /* ---------- the proxy's entries ---------- */

  // The proxy's layout (stride 4) leaves nothing of the uninitialised buffer, so the parts
  // build the whole of whatever table their writes come from.
  lemma ProxyFanoutBuildsWholeTable<T>(work: TaskId -> nat, states: seq<State>, steps: seq<Step>, i: nat, fan: Fan,
                                       value: nat -> T, table: seq<T>, junk: seq<T>)
    requires IsRun(work, states, steps) && i < |states|
    requires fan.Valid(work) && fan.Gathered(states[i].ready) && fan.stride == 4
    requires |junk| == |table| == 4 * fan.valueSize
    requires forall n: nat :: n < |table| ==> value(n) == table[n]
    ensures Replay(fan, value, states[i].trace, junk) == table
  {
    forall n: nat | n < |junk|
      ensures Replay(fan, value, states[i].trace, junk)[n] == table[n]
    {
      GatheredBufferIsOnePass(work, states, steps, i, fan, value, junk, n);
      assert value(n) == table[n];
    }
  }
}
