/**
 Locks, counters, the order of operations and the fate of stuck or unregistered keys, in
 every run of the protocol, late creates included.
 */
module ProtocolAccounting {
  import opened Wrappers
  import opened Labels
  import opened Entries
  import opened KvServer
  import opened Protocol
  import opened Linearizability
  import opened LockTable

  /* ---------- every step is a move of the lock table ---------- */

  function PhaseOf(pc: Pc): Phase {
    match pc
    case Begin => Before
    case LockForCreate => Before
    case LockForAccess => Before
    case AbortNext => ToAbort
    case CountAccess => ToCount
    case Unlock => ToUnlock
    case Done => Completed
    case Aborted => GaveUp
    case Thrown => Failed
    case _ => Working
  }

  function ThreadOf(c: Call): Thread {
    Thread(c.op, PhaseOf(c.pc), c.pos)
  }

  function TableOf(s: State): Table {
    Table((map id | id in s.calls :: ThreadOf(s.calls[id])), (set k | k in s.locks && s.locks[k]), s.accesses,
          s.aborted, s.log)
  }

  // A step that leaves locks, counters and log alone moves at most the call's phase.
  ghost predicate Quiet(s: State, s': State, id: CallId, c': Call) {
    && id in s.calls && s'.calls == s.calls[id := c'] && c'.op == s.calls[id].op && c'.pos == s.calls[id].pos
    && s'.locks == s.locks && s'.accesses == s.accesses && s'.aborted == s.aborted && s'.log == s.log
  }

  lemma QuietTable(s: State, s': State, id: CallId, c': Call)
    requires Quiet(s, s', id, c')
    ensures id in TableOf(s).threads && TableOf(s').threads == TableOf(s).threads[id := ThreadOf(c')]
    ensures TableOf(s') == SetPhase(TableOf(s), id, PhaseOf(c'.pc))
    ensures PhaseOf(c'.pc) == PhaseOf(s.calls[id].pc) ==> TableOf(s') == TableOf(s)
  {}

  lemma MadeQuietly(s: State, s': State, id: CallId, c': Call, newMaster: MasterKey)
    requires id in s.calls && c'.op == s.calls[id].op && c'.pos == s.calls[id].pos
    requires s' == Rekeyed(s, s.calls[id], newMaster).(calls := s.calls[id := c'])
    ensures Quiet(s, s', id, c')
  {}

  lemma ThrownMoves(s: State, id: CallId)
    requires id in s.calls && PhaseOf(s.calls[id].pc).Working?
    ensures Move(TableOf(s), TableOf(Goto(s, id, s.calls[id], Thrown)), id)
  {
    QuietTable(s, Goto(s, id, s.calls[id], Thrown), id, s.calls[id].(pc := Thrown));
  }

  lemma CreateReadyMoves(s: State, id: CallId, newMaster: MasterKey, entry: Entry)
    requires id in s.calls && s.calls[id].pc.MakeCreate?
    ensures TableOf(CreateReady(s, id, s.calls[id], newMaster, entry)) == TableOf(s)
  {
    var s' := CreateReady(s, id, s.calls[id], newMaster, entry);
    MadeQuietly(s, s', id, s'.calls[id], newMaster);
    QuietTable(s, s', id, s'.calls[id]);
  }

  lemma AccessReadyMoves(s: State, id: CallId, newMaster: MasterKey, entry: Entry)
    requires id in s.calls && s.calls[id].pc.MakeAccess?
    ensures TableOf(AccessReady(s, id, s.calls[id], newMaster, entry)) == TableOf(s)
  {
    var s' := AccessReady(s, id, s.calls[id], newMaster, entry);
    MadeQuietly(s, s', id, s'.calls[id], newMaster);
    QuietTable(s, s', id, s'.calls[id]);
  }

  lemma MakeCreateMoves(cfg: Config, s: State, id: CallId, newMaster: MasterKey)
    requires id in s.calls && s.calls[id].pc.MakeCreate?
    ensures Move(TableOf(s), TableOf(MakeCreateStep(cfg, s, id, s.calls[id], newMaster)), id)
  {
    var c := s.calls[id];
    if |c.op.value| > cfg.valueSize {
      ThrownMoves(s, id);
    } else {
      CreateReadyMoves(s, id, newMaster, CreateFor(cfg, c.op.key, newMaster, c.op.value));
    }
  }

  lemma MakeAccessMoves(cfg: Config, s: State, id: CallId, newMaster: MasterKey, nonces: Nonces)
    requires id in s.calls && s.calls[id].pc.MakeAccess?
    ensures Move(TableOf(s), TableOf(MakeAccessStep(cfg, s, id, s.calls[id], newMaster, nonces)), id)
  {
    var c := s.calls[id];
    if !c.op.IsGet() && |c.op.value| > cfg.valueSize {
      ThrownMoves(s, id);
    } else {
      AccessReadyMoves(s, id, newMaster, AccessFor(cfg, MasterOf(s, c.op.key), newMaster, c.op, nonces));
    }
  }

  lemma RecordMoves(cfg: Config, s: State, id: CallId, newMaster: MasterKey, nonces: Nonces)
    requires Enabled(s, Advance(id, newMaster, nonces))
    requires var pc := s.calls[id].pc; pc.RecordCreate? || pc.InsertKey? || pc.RecordPut?
    ensures Move(TableOf(s), TableOf(AdvanceStep(cfg, s, id, newMaster, nonces)), id)
  {
    var s' := AdvanceStep(cfg, s, id, newMaster, nonces);
    QuietTable(s, s', id, s'.calls[id]);
  }

  lemma SendMoves(cfg: Config, s: State, id: CallId, newMaster: MasterKey, nonces: Nonces)
    requires Enabled(s, Advance(id, newMaster, nonces))
    requires var pc := s.calls[id].pc; pc.SendCreate? || pc.SendAccess? || pc.AwaitReply? || pc.Decode?
    ensures Move(TableOf(s), TableOf(AdvanceStep(cfg, s, id, newMaster, nonces)), id)
  {
    var s' := AdvanceStep(cfg, s, id, newMaster, nonces);
    QuietTable(s, s', id, s'.calls[id]);
  }

  lemma ThreadsAfter(s: State, s': State, id: CallId, c': Call)
    requires s'.calls == s.calls[id := c']
    ensures TableOf(s').threads == TableOf(s).threads[id := ThreadOf(c')]
  {}

  lemma FreeAfter(s: State, s': State, k: Key, b: bool)
    requires s'.locks == s.locks[k := b]
    ensures TableOf(s').free == if b then TableOf(s).free + {k} else TableOf(s).free - {k}
  {}

  lemma LockTakenMoves(s: State, s': State, id: CallId, c': Call)
    requires id in s.calls && Free(s, s.calls[id].op.key) && PhaseOf(s.calls[id].pc).Before?
    requires c'.op == s.calls[id].op && PhaseOf(c'.pc).Working? && c'.pos == |s.log|
    requires s' == s.(locks := s.locks[c'.op.key := false], log := s.log + [LogEntry(id, c'.op)],
                      calls := s.calls[id := c'])
    ensures Move(TableOf(s), TableOf(s'), id)
  {
    ThreadsAfter(s, s', id, c');
    FreeAfter(s, s', c'.op.key, false);
    assert TableOf(s') == Locked(TableOf(s), id);
  }

  lemma LockBusyMoves(s: State, s': State, id: CallId, c': Call)
    requires id in s.calls && !Free(s, s.calls[id].op.key) && PhaseOf(s.calls[id].pc).Before?
    requires c' == s.calls[id].(pc := AbortNext)
    requires s' == s.(locks := s.locks[c'.op.key := false], calls := s.calls[id := c'])
    ensures Move(TableOf(s), TableOf(s'), id)
  {
    ThreadsAfter(s, s', id, c');
    FreeAfter(s, s', c'.op.key, false);
    assert TableOf(s') == SetPhase(TableOf(s), id, ToAbort);
  }

  lemma LockMoves(s: State, id: CallId, next: Pc)
    requires id in s.calls
    requires (s.calls[id].pc.LockForCreate? && next == MakeCreate) ||
             (s.calls[id].pc.LockForAccess? && next == MakeAccess)
    ensures Move(TableOf(s), TableOf(TakeLock(s, id, s.calls[id], next)), id)
  {
    var s' := TakeLock(s, id, s.calls[id], next);
    if Free(s, s.calls[id].op.key) {
      LockTakenMoves(s, s', id, s'.calls[id]);
    } else {
      LockBusyMoves(s, s', id, s'.calls[id]);
    }
  }

  lemma AbortMoves(s: State, id: CallId)
    requires id in s.calls && s.calls[id].pc.AbortNext?
    ensures Move(TableOf(s), TableOf(Goto(s.(aborted := s.aborted + 1), id, s.calls[id], Aborted)), id)
  {
    ThreadsAfter(s, Goto(s.(aborted := s.aborted + 1), id, s.calls[id], Aborted), id, s.calls[id].(pc := Aborted));
  }

  lemma CountMoves(s: State, id: CallId)
    requires id in s.calls && s.calls[id].pc.CountAccess?
    ensures Move(TableOf(s), TableOf(Goto(s.(accesses := s.accesses + 1), id, s.calls[id], Unlock)), id)
  {
    ThreadsAfter(s, Goto(s.(accesses := s.accesses + 1), id, s.calls[id], Unlock), id, s.calls[id].(pc := Unlock));
  }

  lemma UnlockMoves(s: State, id: CallId)
    requires id in s.calls && s.calls[id].pc.Unlock?
    ensures Move(TableOf(s), TableOf(Goto(s.(locks := s.locks[s.calls[id].op.key := true]), id, s.calls[id], Done)), id)
  {
    var k := s.calls[id].op.key;
    var s' := Goto(s.(locks := s.locks[k := true]), id, s.calls[id], Done);
    ThreadsAfter(s, s', id, s.calls[id].(pc := Done));
    FreeAfter(s, s', k, true);
  }

  lemma BeginMoves(cfg: Config, s: State, id: CallId, newMaster: MasterKey, nonces: Nonces)
    requires Enabled(s, Advance(id, newMaster, nonces)) && s.calls[id].pc.Begin?
    ensures Move(TableOf(s), TableOf(AdvanceStep(cfg, s, id, newMaster, nonces)), id)
  {
    var s' := AdvanceStep(cfg, s, id, newMaster, nonces);
    QuietTable(s, s', id, s'.calls[id]);
  }

  lemma WorkMoves(cfg: Config, s: State, id: CallId, newMaster: MasterKey, nonces: Nonces)
    requires Enabled(s, Advance(id, newMaster, nonces)) && PhaseOf(s.calls[id].pc).Working?
    ensures Move(TableOf(s), TableOf(AdvanceStep(cfg, s, id, newMaster, nonces)), id)
  {
    var pc := s.calls[id].pc;
    if pc.MakeCreate? {
      MakeCreateMoves(cfg, s, id, newMaster);
    } else if pc.MakeAccess? {
      MakeAccessMoves(cfg, s, id, newMaster, nonces);
    } else if pc.RecordCreate? || pc.InsertKey? || pc.RecordPut? {
      RecordMoves(cfg, s, id, newMaster, nonces);
    } else {
      SendMoves(cfg, s, id, newMaster, nonces);
    }
  }

  lemma FinishMoves(cfg: Config, s: State, id: CallId, newMaster: MasterKey, nonces: Nonces)
    requires Enabled(s, Advance(id, newMaster, nonces))
    requires s.calls[id].pc.CountAccess? || s.calls[id].pc.Unlock? || s.calls[id].pc.AbortNext?
    ensures Move(TableOf(s), TableOf(AdvanceStep(cfg, s, id, newMaster, nonces)), id)
  {
    if s.calls[id].pc.CountAccess? {
      CountMoves(s, id);
    } else if s.calls[id].pc.Unlock? {
      UnlockMoves(s, id);
    } else {
      AbortMoves(s, id);
    }
  }

  lemma StartMoves(cfg: Config, s: State, id: CallId, newMaster: MasterKey, nonces: Nonces)
    requires Enabled(s, Advance(id, newMaster, nonces))
    requires PhaseOf(s.calls[id].pc).Before?
    ensures Move(TableOf(s), TableOf(AdvanceStep(cfg, s, id, newMaster, nonces)), id)
  {
    if s.calls[id].pc.Begin? {
      BeginMoves(cfg, s, id, newMaster, nonces);
    } else {
      LockMoves(s, id, if s.calls[id].pc.LockForCreate? then MakeCreate else MakeAccess);
    }
  }

  lemma AdvanceMoves(cfg: Config, s: State, id: CallId, newMaster: MasterKey, nonces: Nonces)
    requires Enabled(s, Advance(id, newMaster, nonces))
    ensures Move(TableOf(s), TableOf(AdvanceStep(cfg, s, id, newMaster, nonces)), id)
  {
    var phase := PhaseOf(s.calls[id].pc);
    if phase.Working? {
      WorkMoves(cfg, s, id, newMaster, nonces);
    } else if phase.Before? {
      StartMoves(cfg, s, id, newMaster, nonces);
    } else {
      FinishMoves(cfg, s, id, newMaster, nonces);
    }
  }

  lemma ThrowMoves(s: State, id: CallId, sent: bool)
    requires Enabled(s, Throw(id, sent))
    ensures Move(TableOf(s), TableOf(ThrowStep(s, id, sent)), id)
  {
    QuietTable(s, ThrowStep(s, id, sent), id, s.calls[id].(pc := Thrown));
  }

  lemma ArriveMoves(cfg: Config, s: State, id: CallId, op: Operation)
    requires Enabled(s, Arrive(id, op))
    ensures Move(TableOf(s), TableOf(Apply(cfg, s, Arrive(id, op))), id)
  {
    var s' := Apply(cfg, s, Arrive(id, op));
    ThreadsAfter(s, s', id, s'.calls[id]);
    assert TableOf(s') == Arrived(TableOf(s), id, op);
  }

  lemma ServerMovesNothing(cfg: Config, s: State, step: Step)
    requires Enabled(s, step) && (step.ServerCreate? || step.ServerRead? || step.ServerWrite?)
    ensures TableOf(ServerStep(cfg, s, step)) == TableOf(s)
  {
    var s' := ServerStep(cfg, s, step);
    assert s'.calls == s.calls && s'.locks == s.locks && s'.log == s.log;
    assert s'.accesses == s.accesses && s'.aborted == s.aborted;
  }

  // Every step of the protocol is a move of the lock table; the server's steps are none.
  lemma StepMoves(cfg: Config, s: State, step: Step)
    requires Enabled(s, step)
    ensures Move(TableOf(s), TableOf(Apply(cfg, s, step)), step.id)
  {
    if step.Advance? {
      AdvanceMoves(cfg, s, step.id, step.newMaster, step.nonces);
    } else if step.Throw? {
      ThrowMoves(s, step.id, step.sent);
    } else if step.Arrive? {
      ArriveMoves(cfg, s, step.id, step.op);
    } else {
      ServerMovesNothing(cfg, s, step);
    }
  }

  /* ---------- runs ---------- */

  ghost function TablesOf(states: seq<State>): (tables: seq<Table>)
    ensures |tables| == |states| && forall i :: 0 <= i < |states| ==> tables[i] == TableOf(states[i])
  {
    seq(|states|, i requires 0 <= i < |states| => TableOf(states[i]))
  }

  ghost function IdsOf(steps: seq<Step>): (ids: seq<CallId>)
    ensures |ids| == |steps| && forall i :: 0 <= i < |steps| ==> ids[i] == steps[i].id
  {
    seq(|steps|, i requires 0 <= i < |steps| => steps[i].id)
  }

  lemma RunMoves(cfg: Config, states: seq<State>, steps: seq<Step>, i: nat)
    requires IsRun(cfg, states, steps) && i < |steps|
    ensures Move(TableOf(states[i]), TableOf(states[i + 1]), steps[i].id)
  {
    StepMoves(cfg, states[i], steps[i]);
  }

  // Every run of the protocol is a run of the lock table.
  lemma RunIsTableRun(cfg: Config, states: seq<State>, steps: seq<Step>)
    requires IsRun(cfg, states, steps)
    ensures TableRun(TablesOf(states), IdsOf(steps))
  {
    forall i | 0 <= i < |steps|
      ensures Move(TableOf(states[i]), TableOf(states[i + 1]), steps[i].id)
    {
      RunMoves(cfg, states, steps, i);
    }
    assert TableOf(states[0]).threads == map[];
  }

  // Lock and counter conservation: accesses and aborted count, once each, the calls that
  // finished their work and the calls that gave up; every other call is in flight or has
  // failed; one call at most holds a key; the log lists exactly the calls that took their
  // lock, once each.
  lemma CallsAreAccountedFor(cfg: Config, states: seq<State>, steps: seq<Step>, i: nat)
    requires IsRun(cfg, states, steps) && i < |states|
    ensures var s := states[i]; var t := TableOf(s);
            && s.accesses == |Counted(t)| && s.aborted == |AbortedCalls(t)|
            && |s.calls| == |InFlight(t)| + |FailedCalls(t)| + s.accesses + s.aborted
    ensures Mutex(TableOf(states[i])) && LogIsExact(TableOf(states[i]))
  {
    RunIsTableRun(cfg, states, steps);
    TableRunKeepsInv(TablesOf(states), IdsOf(steps), i);
    TallyPartitions(TableOf(states[i]));
    assert TableOf(states[i]).threads.Keys == states[i].calls.Keys;
  }

  // A registered key is locked exactly as long as some call holds it.
  lemma RegisteredKeyIsFreeIffUnheld(cfg: Config, states: seq<State>, steps: seq<Step>, i: nat, k: Key)
    requires IsRun(cfg, states, steps) && i < |states| && k in states[0].locks
    ensures Free(states[i], k)
            <==> forall id :: id in states[i].calls && states[i].calls[id].op.key == k ==>
                   !Holding(states[i].calls[id].pc)
  {
    RunIsTableRun(cfg, states, steps);
    TableRunFreesOrHolds(TablesOf(states), IdsOf(steps), i);
    CallsAreAccountedFor(cfg, states, steps, i);
    var s, t := states[i], TableOf(states[i]);
    assert k in TableOf(states[0]).free;
    forall id | id in s.calls
      ensures id in t.threads && t.threads[id].op.key == s.calls[id].op.key
      ensures Holds(t.threads[id].phase) <==> Holding(s.calls[id].pc)
    {}
    if k !in t.free {
      var id :| id in t.threads && Holds(t.threads[id].phase) && t.threads[id].op.key == k;
      assert id in s.calls;
    }
  }

  // A call that completed before another one began comes before it in the lock order: the
  // order in which RunsAreLinearizable serialises the calls respects real time.
  lemma LockOrderRespectsRealTime(cfg: Config, states: seq<State>, steps: seq<Step>, i: nat, j: nat, a: CallId,
                                  b: CallId)
    requires IsRun(cfg, states, steps) && i <= j < |states|
    requires a in states[i].calls && states[i].calls[a].pc.Done? && b !in states[i].calls
    requires b in states[j].calls && Ordered(PhaseOf(states[j].calls[b].pc))
    ensures a in states[j].calls && states[j].calls[a].pos < states[j].calls[b].pos
  {
    RunIsTableRun(cfg, states, steps);
    TableRunKeepsRealTime(TablesOf(states), IdsOf(steps), i, j, a, b);
  }

  lemma ThrownIsStuck(s: State, id: CallId)
    requires id in s.calls && s.calls[id].pc.Thrown?
    ensures Stuck(TableOf(s), id, s.calls[id].op.key, |s.log|)
  {}

  // A call that an exception takes out of handleOp leaves its key locked for good: the lock
  // never becomes free again and no later operation on the key enters the log.
  lemma ThrownCallLocksItsKeyForever(cfg: Config, states: seq<State>, steps: seq<Step>, i: nat, j: nat, id: CallId)
    requires IsRun(cfg, states, steps) && i <= j < |states|
    requires id in states[i].calls && states[i].calls[id].pc.Thrown?
    ensures Stuck(TableOf(states[j]), id, states[i].calls[id].op.key, |states[i].log|)
    ensures !Free(states[j], states[i].calls[id].op.key)
  {
    RunIsTableRun(cfg, states, steps);
    ThrownIsStuck(states[i], id);
    TableRunStaysStuck(TablesOf(states), IdsOf(steps), i, j, id, states[i].calls[id].op.key);
    TableRunKeepsMutex(TablesOf(states), IdsOf(steps), j);
    StuckKeyIsLocked(TableOf(states[j]), id, states[i].calls[id].op.key, |states[i].log|);
  }

  /* ---------- keys without a registered lock ---------- */

  function EntryOf(pc: Pc): Option<Entry> {
    match pc
    case RecordCreate(entry) => Some(entry)
    case InsertKey(entry) => Some(entry)
    case SendCreate(entry) => Some(entry)
    case RecordPut(entry) => Some(entry)
    case SendAccess(entry) => Some(entry)
    case _ => None
  }

  // The call sends entries for its own key only, and does not hold k.
  ghost predicate KeepsOff(c: Call, k: Key) {
    && (EntryOf(c.pc).Some? ==> EntryOf(c.pc).value.keyName == c.op.key)
    && (c.op.key == k ==> c.pc.Begin? || c.pc.AbortNext? || c.pc.LockForCreate? || c.pc.LockForAccess? || c.pc.Aborted?)
  }

  ghost predicate Elsewhere(msg: Message, k: Key) {
    !msg.ReplyMsg? ==> msg.entry.keyName != k
  }

  ghost predicate Untouched(s: State, k: Key, view: KeyView, store: StoreView) {
    && View(s, k) == view && ViewStore(s, k) == store && !Free(s, k)
    && (forall id :: id in s.calls ==> KeepsOff(s.calls[id], k))
    && (forall id :: id in s.wire ==> Elsewhere(s.wire[id], k))
  }

  // A step that changes one call and at most its message, and nothing of key k.
  ghost predicate Aside(s: State, s': State, id: CallId, k: Key) {
    && id in s'.calls && View(s', k) == View(s, k) && ViewStore(s', k) == ViewStore(s, k)
    && s'.calls == s.calls[id := s'.calls[id]] && KeepsOff(s'.calls[id], k)
    && (forall j :: j in s'.wire ==> (j in s.wire && s'.wire[j] == s.wire[j]) || Elsewhere(s'.wire[j], k))
  }

  lemma AsideKeepsUntouched(s: State, s': State, id: CallId, k: Key, view: KeyView, store: StoreView)
    requires Untouched(s, k, view, store) && Aside(s, s', id, k)
    ensures Untouched(s', k, view, store)
  {
    assert !View(s', k).free;
  }

  lemma CreateReadyAside(s: State, id: CallId, newMaster: MasterKey, entry: Entry, k: Key)
    requires id in s.calls && s.calls[id].op.key != k && entry.keyName == s.calls[id].op.key
    ensures Aside(s, CreateReady(s, id, s.calls[id], newMaster, entry), id, k)
  {}

  lemma AccessReadyAside(s: State, id: CallId, newMaster: MasterKey, entry: Entry, k: Key)
    requires id in s.calls && s.calls[id].op.key != k && entry.keyName == s.calls[id].op.key
    ensures Aside(s, AccessReady(s, id, s.calls[id], newMaster, entry), id, k)
  {}

  lemma MakeCreateIsAside(cfg: Config, s: State, id: CallId, newMaster: MasterKey, k: Key)
    requires id in s.calls && KeepsOff(s.calls[id], k) && s.calls[id].pc.MakeCreate?
    ensures Aside(s, MakeCreateStep(cfg, s, id, s.calls[id], newMaster), id, k)
  {
    var c := s.calls[id];
    if |c.op.value| <= cfg.valueSize {
      CreateReadyAside(s, id, newMaster, CreateFor(cfg, c.op.key, newMaster, c.op.value), k);
    }
  }

  lemma MakeAccessIsAside(cfg: Config, s: State, id: CallId, newMaster: MasterKey, nonces: Nonces, k: Key)
    requires id in s.calls && KeepsOff(s.calls[id], k) && s.calls[id].pc.MakeAccess?
    ensures Aside(s, MakeAccessStep(cfg, s, id, s.calls[id], newMaster, nonces), id, k)
  {
    var c := s.calls[id];
    if c.op.IsGet() || |c.op.value| <= cfg.valueSize {
      AccessReadyAside(s, id, newMaster, AccessFor(cfg, MasterOf(s, c.op.key), newMaster, c.op, nonces), k);
    }
  }

  lemma LockTakenAside(s: State, id: CallId, next: Pc, k: Key)
    requires id in s.calls && s.calls[id].op.key != k && EntryOf(next).None? && Free(s, s.calls[id].op.key)
    ensures Aside(s, TakeLock(s, id, s.calls[id], next), id, k)
  {}

  lemma LockBusyAside(s: State, id: CallId, next: Pc, k: Key)
    requires id in s.calls && !Free(s, k) && !Free(s, s.calls[id].op.key)
    ensures Aside(s, TakeLock(s, id, s.calls[id], next), id, k)
  {}

  lemma LockingIsAside(s: State, id: CallId, next: Pc, k: Key)
    requires id in s.calls && !Free(s, k) && EntryOf(next).None?
    ensures Aside(s, TakeLock(s, id, s.calls[id], next), id, k)
  {
    if Free(s, s.calls[id].op.key) {
      LockTakenAside(s, id, next, k);
    } else {
      LockBusyAside(s, id, next, k);
    }
  }

  lemma StartIsAside(cfg: Config, s: State, id: CallId, newMaster: MasterKey, nonces: Nonces, k: Key)
    requires Enabled(s, Advance(id, newMaster, nonces)) && KeepsOff(s.calls[id], k) && !Free(s, k)
    requires PhaseOf(s.calls[id].pc).Before? || s.calls[id].pc.AbortNext?
    ensures Aside(s, AdvanceStep(cfg, s, id, newMaster, nonces), id, k)
  {
    if s.calls[id].pc.LockForCreate? {
      LockingIsAside(s, id, MakeCreate, k);
    } else if s.calls[id].pc.LockForAccess? {
      LockingIsAside(s, id, MakeAccess, k);
    }
  }

  lemma RecordIsAside(cfg: Config, s: State, id: CallId, newMaster: MasterKey, nonces: Nonces, k: Key)
    requires Enabled(s, Advance(id, newMaster, nonces)) && KeepsOff(s.calls[id], k)
    requires var pc := s.calls[id].pc;
             pc.RecordCreate? || pc.InsertKey? || pc.RecordPut? || pc.CountAccess? || pc.Unlock?
    ensures Aside(s, AdvanceStep(cfg, s, id, newMaster, nonces), id, k)
  {}

  lemma SendIsAside(cfg: Config, s: State, id: CallId, newMaster: MasterKey, nonces: Nonces, k: Key)
    requires Enabled(s, Advance(id, newMaster, nonces)) && KeepsOff(s.calls[id], k)
    requires var pc := s.calls[id].pc; pc.SendCreate? || pc.SendAccess? || pc.AwaitReply? || pc.Decode?
    ensures Aside(s, AdvanceStep(cfg, s, id, newMaster, nonces), id, k)
  {}

  lemma AdvancingIsAside(cfg: Config, s: State, id: CallId, newMaster: MasterKey, nonces: Nonces, k: Key)
    requires Enabled(s, Advance(id, newMaster, nonces)) && KeepsOff(s.calls[id], k) && !Free(s, k)
    ensures Aside(s, AdvanceStep(cfg, s, id, newMaster, nonces), id, k)
  {
    var pc := s.calls[id].pc;
    if pc.MakeCreate? {
      MakeCreateIsAside(cfg, s, id, newMaster, k);
    } else if pc.MakeAccess? {
      MakeAccessIsAside(cfg, s, id, newMaster, nonces, k);
    } else if PhaseOf(pc).Before? || pc.AbortNext? {
      StartIsAside(cfg, s, id, newMaster, nonces, k);
    } else if pc.SendCreate? || pc.SendAccess? || pc.AwaitReply? || pc.Decode? {
      SendIsAside(cfg, s, id, newMaster, nonces, k);
    } else {
      RecordIsAside(cfg, s, id, newMaster, nonces, k);
    }
  }

  lemma ThrowIsAside(s: State, id: CallId, sent: bool, k: Key)
    requires Enabled(s, Throw(id, sent)) && KeepsOff(s.calls[id], k)
    ensures Aside(s, ThrowStep(s, id, sent), id, k)
  {}

  // What the server stores under the key of an entry it was sent is not stored under k.
  lemma DeliveryKeepsUntouched(s: State, id: CallId, block: seq<Slot>, k: Key, view: KeyView, store: StoreView)
    requires Untouched(s, k, view, store) && id in s.wire && !s.wire[id].ReplyMsg?
    ensures Untouched(StoreBlock(s, id, s.wire[id].entry.keyName, block, s.wire - {id}), k, view, store)
  {
    assert Elsewhere(s.wire[id], k);
  }

  lemma WriteKeepsUntouched(s: State, id: CallId, answer: Option<seq<Slot>>, k: Key, view: KeyView, store: StoreView)
    requires Untouched(s, k, view, store) && id in s.wire && !s.wire[id].ReplyMsg?
    ensures Untouched(WriteBack(s, id, s.wire[id].entry.keyName, answer), k, view, store)
  {
    assert Elsewhere(s.wire[id], k);
  }

  lemma ReadKeepsUntouched(s: State, id: CallId, block: seq<Slot>, timely: bool, k: Key, view: KeyView,
                           store: StoreView)
    requires Untouched(s, k, view, store) && id in s.wire && s.wire[id].AccessMsg?
    ensures Untouched(s.(wire := s.wire[id := AccessBusy(s.wire[id].entry, block, timely)]), k, view, store)
  {
    assert Elsewhere(s.wire[id], k);
  }

  lemma ServerKeepsUntouched(cfg: Config, s: State, step: Step, k: Key, view: KeyView, store: StoreView)
    requires Untouched(s, k, view, store) && Enabled(s, step)
    requires step.ServerCreate? || step.ServerRead? || step.ServerWrite?
    ensures Untouched(ServerStep(cfg, s, step), k, view, store)
  {
    var id := step.id;
    var entry := s.wire[id].entry;
    if step.ServerRead? {
      var timely := id in s.calls && Fresh(s, s.calls[id]);
      ReadKeepsUntouched(s, id, Stored(s.store, entry.keyName), timely, k, view, store);
    } else if step.ServerCreate? {
      DeliveryKeepsUntouched(s, id, if entry.CreateEntry? then entry.labels else [], k, view, store);
    } else {
      var answer := AccessResult(entry, s.wire[id].block, cfg.valueSize, cfg.upto);
      WriteKeepsUntouched(s, id, answer, k, view, store);
    }
  }

  lemma StepKeepsUntouched(cfg: Config, s: State, step: Step, k: Key, view: KeyView, store: StoreView)
    requires Untouched(s, k, view, store) && Enabled(s, step)
    ensures Untouched(Apply(cfg, s, step), k, view, store)
  {
    if step.Advance? {
      AdvancingIsAside(cfg, s, step.id, step.newMaster, step.nonces, k);
      AsideKeepsUntouched(s, Apply(cfg, s, step), step.id, k, view, store);
    } else if step.Throw? {
      ThrowIsAside(s, step.id, step.sent, k);
      AsideKeepsUntouched(s, Apply(cfg, s, step), step.id, k, view, store);
    } else if step.Arrive? {
      AsideKeepsUntouched(s, Apply(cfg, s, step), step.id, k, view, store);
    } else {
      ServerKeepsUntouched(cfg, s, step, k, view, store);
    }
  }

  // Only keys whose lock was registered at start-up can ever change, late creates or not:
  // every write to another key aborts.
  lemma {:induction false} UnregisteredKeyNeverChanges(cfg: Config, states: seq<State>, steps: seq<Step>, i: nat,
                                                       k: Key)
    requires IsRun(cfg, states, steps) && i < |states|
    requires k !in states[0].locks
    ensures Untouched(states[i], k, View(states[0], k), ViewStore(states[0], k))
  {
    if i > 0 {
      UnregisteredKeyNeverChanges(cfg, states, steps, i - 1, k);
      StepKeepsUntouched(cfg, states[i - 1], steps[i - 1], k, View(states[0], k), ViewStore(states[0], k));
    }
  }
}
