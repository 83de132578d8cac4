/**
 The control skeleton of handleOp: which calls hold which keys, how they are counted, and
 the order in which they took their locks.  ProtocolAccounting.dfy shows that every step of
 the protocol is a move of this table.
 */
module LockTable {
  import opened Labels
  import opened Protocol

  datatype Phase = Before | ToAbort | Working | ToCount | ToUnlock | Completed | GaveUp | Failed

  // The phases in which the call's key is locked.
  predicate Holds(p: Phase) {
    p.Working? || p.ToCount? || p.ToUnlock? || p.Failed?
  }

  // The phases after the lock was taken.
  predicate Ordered(p: Phase) {
    Holds(p) || p.Completed?
  }

  datatype Thread = Thread(op: Operation, phase: Phase, pos: nat)

  datatype Table = Table(threads: map<CallId, Thread>, free: set<Key>, accesses: nat, aborted: nat, log: seq<LogEntry>)

  function SetPhase(t: Table, id: CallId, phase: Phase): Table
    requires id in t.threads
  {
    t.(threads := t.threads[id := t.threads[id].(phase := phase)])
  }

  function Arrived(t: Table, id: CallId, op: Operation): Table {
    t.(threads := t.threads[id := Thread(op, Before, 0)])
  }

  function Locked(t: Table, id: CallId): Table
    requires id in t.threads
  {
    var op := t.threads[id].op;
    t.(threads := t.threads[id := Thread(op, Working, |t.log|)], free := t.free - {op.key},
       log := t.log + [LogEntry(id, op)])
  }

  ghost predicate Move(t: Table, t': Table, id: CallId) {
    || t' == t
    || (id !in t.threads && exists op :: t' == Arrived(t, id, op))
    || (id in t.threads &&
        match t.threads[id].phase
        case Before => t' == SetPhase(t, id, ToAbort) || (t.threads[id].op.key in t.free && t' == Locked(t, id))
        case ToAbort => t' == SetPhase(t.(aborted := t.aborted + 1), id, GaveUp)
        case Working => t' == SetPhase(t, id, ToCount) || t' == SetPhase(t, id, Failed)
        case ToCount => t' == SetPhase(t.(accesses := t.accesses + 1), id, ToUnlock)
        case ToUnlock => t' == SetPhase(t.(free := t.free + {t.threads[id].op.key}), id, Completed)
        case _ => false)
  }

  /* ---------- at most one holder per key ---------- */

  ghost predicate Mutex(t: Table) {
    && (forall id, j ::
          id in t.threads && j in t.threads && id != j && Holds(t.threads[id].phase) && Holds(t.threads[j].phase) ==>
          t.threads[id].op.key != t.threads[j].op.key)
    && (forall id :: id in t.threads && Holds(t.threads[id].phase) ==> t.threads[id].op.key !in t.free)
  }

  lemma MutexStep(t: Table, t': Table, id: CallId)
    requires Mutex(t) && Move(t, t', id)
    ensures Mutex(t')
  {}

  /* ---------- a lock is held by somebody ---------- */

  ghost predicate Held(t: Table, k: Key) {
    exists id :: id in t.threads && Holds(t.threads[id].phase) && t.threads[id].op.key == k
  }

  // The locks that were free at first are free or held.
  ghost predicate FreeOrHeld(t: Table, registered: set<Key>) {
    forall k :: k in registered ==> k in t.free || Held(t, k)
  }

  lemma StillHeld(t: Table, t': Table, id: CallId, k: Key)
    requires Move(t, t', id) && Held(t, k)
    ensures Held(t', k) || k in t'.free
  {
    var j :| j in t.threads && Holds(t.threads[j].phase) && t.threads[j].op.key == k;
    assert j in t'.threads && t'.threads[j].op == t.threads[j].op;
    assert j != id ==> t'.threads[j] == t.threads[j];
  }

  lemma FreeOrHeldStep(t: Table, t': Table, id: CallId, registered: set<Key>)
    requires FreeOrHeld(t, registered) && Move(t, t', id)
    ensures FreeOrHeld(t', registered)
  {
    forall k | k in registered
      ensures k in t'.free || Held(t', k)
    {
      if k in t.free {
        assert k !in t'.free ==> id in t'.threads && Holds(t'.threads[id].phase) && t'.threads[id].op.key == k;
      } else {
        StillHeld(t, t', id, k);
      }
    }
  }

  /* ---------- every call is in flight, failed, counted once, or aborted once ---------- */

  predicate IsCounted(p: Phase) { p.ToUnlock? || p.Completed? }

  // A call that still has steps to take and none of its counters behind it.
  predicate IsInFlight(p: Phase) { p.Before? || p.ToAbort? || p.Working? || p.ToCount? }

  function Counted(t: Table): set<CallId> {
    set id | id in t.threads && IsCounted(t.threads[id].phase)
  }

  function AbortedCalls(t: Table): set<CallId> {
    set id | id in t.threads && t.threads[id].phase.GaveUp?
  }

  function FailedCalls(t: Table): set<CallId> {
    set id | id in t.threads && t.threads[id].phase.Failed?
  }

  function InFlight(t: Table): set<CallId> {
    set id | id in t.threads && IsInFlight(t.threads[id].phase)
  }

  ghost predicate Tally(t: Table) {
    t.accesses == |Counted(t)| && t.aborted == |AbortedCalls(t)|
  }

  lemma CountedAfter(t: Table, t': Table, id: CallId, thread: Thread)
    requires t'.threads == t.threads[id := thread]
    ensures Counted(t') == if IsCounted(thread.phase) then Counted(t) + {id} else Counted(t) - {id}
    ensures AbortedCalls(t') == if thread.phase.GaveUp? then AbortedCalls(t) + {id} else AbortedCalls(t) - {id}
  {}

  // A move of another thread or to another phase changes each count by what it changes.
  lemma TallyAfter(t: Table, t': Table, id: CallId, thread: Thread)
    requires Tally(t) && t'.threads == t.threads[id := thread]
    requires id in t.threads ==>
               !t.threads[id].phase.GaveUp? && (IsCounted(t.threads[id].phase) ==> IsCounted(thread.phase))
    requires var isNew := IsCounted(thread.phase) && (id in t.threads ==> !IsCounted(t.threads[id].phase));
             t'.accesses == t.accesses + (if isNew then 1 else 0)
    requires t'.aborted == t.aborted + (if thread.phase.GaveUp? then 1 else 0)
    ensures Tally(t')
  {
    CountedAfter(t, t', id, thread);
    assert id in Counted(t) <==> id in t.threads && IsCounted(t.threads[id].phase);
    assert id !in AbortedCalls(t);
  }

  lemma TallyStep(t: Table, t': Table, id: CallId)
    requires Tally(t) && Move(t, t', id)
    ensures Tally(t')
  {
    if t' != t {
      TallyAfter(t, t', id, t'.threads[id]);
    }
  }

  lemma DisjointParts(all: set<CallId>, a: set<CallId>, b: set<CallId>, c: set<CallId>, d: set<CallId>)
    requires all == a + b + c + d
    requires a !! b !! c !! d
    ensures |all| == |a| + |b| + |c| + |d|
  {
    assert |a + b + c| == |a + b| + |c|;
  }

  lemma PhasesPartition(t: Table)
    ensures t.threads.Keys == InFlight(t) + FailedCalls(t) + Counted(t) + AbortedCalls(t)
    ensures InFlight(t) !! FailedCalls(t) !! Counted(t) !! AbortedCalls(t)
  {
    forall id | id in t.threads
      ensures id in InFlight(t) || id in FailedCalls(t) || id in Counted(t) || id in AbortedCalls(t)
    {
      assert IsInFlight(t.threads[id].phase) || t.threads[id].phase.Failed? || IsCounted(t.threads[id].phase)
          || t.threads[id].phase.GaveUp?;
    }
  }

  lemma TallyPartitions(t: Table)
    requires Tally(t)
    ensures |t.threads| == |InFlight(t)| + |FailedCalls(t)| + t.accesses + t.aborted
  {
    PhasesPartition(t);
    DisjointParts(t.threads.Keys, InFlight(t), FailedCalls(t), Counted(t), AbortedCalls(t));
    assert |t.threads| == |t.threads.Keys|;
  }

  /* ---------- the log is the lock order ---------- */

  // Every call past its lock stands in the log exactly once, at its position; no other does.
  ghost predicate LogIsExact(t: Table) {
    && (forall id :: id in t.threads && Ordered(t.threads[id].phase) ==>
          t.threads[id].pos < |t.log| && t.log[t.threads[id].pos] == LogEntry(id, t.threads[id].op))
    && (forall p :: 0 <= p < |t.log| ==>
          t.log[p].id in t.threads && Ordered(t.threads[t.log[p].id].phase) && t.threads[t.log[p].id].pos == p)
  }

  // A move seen from the log: it appends exactly when the call becomes ordered.
  ghost predicate Extends(t: Table, t': Table, id: CallId, thread: Thread) {
    && t'.threads == t.threads[id := thread]
    && (id in t.threads ==>
          thread.op == t.threads[id].op
          && !t.threads[id].phase.Completed? && !t.threads[id].phase.GaveUp? && !t.threads[id].phase.Failed?)
    && var before := id in t.threads && Ordered(t.threads[id].phase);
    if t'.log == t.log then Ordered(thread.phase) == before && (before ==> thread.pos == t.threads[id].pos)
    else t'.log == t.log + [LogEntry(id, thread.op)] && !before && Ordered(thread.phase) && thread.pos == |t.log|
  }

  lemma MoveExtends(t: Table, t': Table, id: CallId)
    requires Move(t, t', id) && t' != t
    ensures id in t'.threads && Extends(t, t', id, t'.threads[id])
  {}

  lemma LogStaysExact(t: Table, t': Table, id: CallId, thread: Thread)
    requires LogIsExact(t) && Extends(t, t', id, thread)
    ensures LogIsExact(t')
  {}

  lemma LogIsExactStep(t: Table, t': Table, id: CallId)
    requires LogIsExact(t) && Move(t, t', id)
    ensures LogIsExact(t')
  {
    if t' != t {
      MoveExtends(t, t', id);
      LogStaysExact(t, t', id, t'.threads[id]);
    }
  }

  // t2 is no earlier than t1.
  ghost predicate Later(t1: Table, t2: Table) {
    && t1.log <= t2.log
    && (forall id :: id in t1.threads ==> id in t2.threads && t2.threads[id].op == t1.threads[id].op)
    && (forall id :: id in t1.threads && Ordered(t1.threads[id].phase) ==>
          Ordered(t2.threads[id].phase) && t2.threads[id].pos == t1.threads[id].pos)
    && (forall id :: id in t1.threads && (t1.threads[id].phase.Completed? || t1.threads[id].phase.GaveUp? ||
                                          t1.threads[id].phase.Failed?) ==>
          t2.threads[id] == t1.threads[id])
    && (forall id ::
          id in t2.threads && Ordered(t2.threads[id].phase) && !(id in t1.threads && Ordered(t1.threads[id].phase)) ==>
          t2.threads[id].pos >= |t1.log|)
  }

  lemma ExtendsIsLater(t: Table, t': Table, id: CallId, thread: Thread)
    requires Extends(t, t', id, thread)
    ensures Later(t, t')
  {}

  lemma MoveIsLater(t: Table, t': Table, id: CallId)
    requires Move(t, t', id)
    ensures Later(t, t')
  {
    if t' != t {
      MoveExtends(t, t', id);
      ExtendsIsLater(t, t', id, t'.threads[id]);
    }
  }

  lemma LaterIsTransitive(t1: Table, t2: Table, t3: Table)
    requires Later(t1, t2) && Later(t2, t3)
    ensures Later(t1, t3)
  {}

  /* ---------- failed calls ---------- */

  // The call failed while holding k, and the log has no operation on k since it had length len.
  ghost predicate Stuck(t: Table, id: CallId, k: Key, len: nat) {
    && id in t.threads && t.threads[id].phase.Failed? && t.threads[id].op.key == k
    && len <= |t.log| && forall p :: len <= p < |t.log| ==> t.log[p].op.key != k
  }

  lemma StuckStep(t: Table, t': Table, step: CallId, id: CallId, k: Key, len: nat)
    requires Mutex(t) && Stuck(t, id, k, len) && Move(t, t', step)
    ensures Stuck(t', id, k, len)
  {}

  /* ---------- runs of the table ---------- */

  ghost predicate TableRun(tables: seq<Table>, ids: seq<CallId>) {
    && |tables| == |ids| + 1
    && tables[0].threads == map[] && tables[0].accesses == 0 && tables[0].aborted == 0 && tables[0].log == []
    && forall i :: 0 <= i < |ids| ==> Move(tables[i], tables[i + 1], ids[i])
  }

  ghost predicate TableInv(t: Table) {
    Mutex(t) && Tally(t) && LogIsExact(t)
  }

  lemma {:induction false} TableRunKeepsInv(tables: seq<Table>, ids: seq<CallId>, i: nat)
    requires TableRun(tables, ids) && i < |tables|
    ensures TableInv(tables[i])
  {
    if i == 0 {
      assert Counted(tables[0]) == {} && AbortedCalls(tables[0]) == {};
    } else {
      TableRunKeepsInv(tables, ids, i - 1);
      MutexStep(tables[i - 1], tables[i], ids[i - 1]);
      TallyStep(tables[i - 1], tables[i], ids[i - 1]);
      LogIsExactStep(tables[i - 1], tables[i], ids[i - 1]);
    }
  }

  lemma {:induction false} TableRunFreesOrHolds(tables: seq<Table>, ids: seq<CallId>, i: nat)
    requires TableRun(tables, ids) && i < |tables|
    ensures FreeOrHeld(tables[i], tables[0].free)
  {
    if i > 0 {
      TableRunFreesOrHolds(tables, ids, i - 1);
      FreeOrHeldStep(tables[i - 1], tables[i], ids[i - 1], tables[0].free);
    }
  }

  lemma {:induction false} TableRunMovesForward(tables: seq<Table>, ids: seq<CallId>, i: nat, j: nat)
    requires TableRun(tables, ids) && i <= j < |tables|
    ensures Later(tables[i], tables[j])
    decreases j
  {
    if i < j {
      TableRunMovesForward(tables, ids, i, j - 1);
      MoveIsLater(tables[j - 1], tables[j], ids[j - 1]);
      LaterIsTransitive(tables[i], tables[j - 1], tables[j]);
    }
  }

  lemma TableRunKeepsMutex(tables: seq<Table>, ids: seq<CallId>, i: nat)
    requires TableRun(tables, ids) && i < |tables|
    ensures Mutex(tables[i])
  {
    TableRunKeepsInv(tables, ids, i);
  }

  lemma StuckStepInRun(tables: seq<Table>, ids: seq<CallId>, j: nat, id: CallId, k: Key, len: nat)
    requires TableRun(tables, ids) && j < |ids| && Stuck(tables[j], id, k, len)
    ensures Stuck(tables[j + 1], id, k, len)
  {
    TableRunKeepsMutex(tables, ids, j);
    StuckStep(tables[j], tables[j + 1], ids[j], id, k, len);
  }

  lemma {:induction false} TableRunStaysStuck(tables: seq<Table>, ids: seq<CallId>, i: nat, j: nat, id: CallId, k: Key)
    requires TableRun(tables, ids) && i <= j < |tables|
    requires Stuck(tables[i], id, k, |tables[i].log|)
    ensures Stuck(tables[j], id, k, |tables[i].log|)
    decreases j
  {
    if i < j {
      TableRunStaysStuck(tables, ids, i, j - 1, id, k);
      StuckStepInRun(tables, ids, j - 1, id, k, |tables[i].log|);
    }
  }

  lemma StuckKeyIsLocked(t: Table, id: CallId, k: Key, len: nat)
    requires Mutex(t) && Stuck(t, id, k, len)
    ensures k !in t.free
  {}

  lemma TableRunKeepsRealTime(tables: seq<Table>, ids: seq<CallId>, i: nat, j: nat, a: CallId, b: CallId)
    requires TableRun(tables, ids) && i <= j < |tables|
    requires a in tables[i].threads && tables[i].threads[a].phase.Completed? && b !in tables[i].threads
    requires b in tables[j].threads && Ordered(tables[j].threads[b].phase)
    ensures a in tables[j].threads && tables[j].threads[a].pos < tables[j].threads[b].pos
  {
    TableRunMovesForward(tables, ids, i, j);
    TableRunKeepsInv(tables, ids, i);
  }
}
