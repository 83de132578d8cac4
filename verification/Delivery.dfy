/**
 Two conditions on the delivery of creates that make a run timely.  An orderly server takes
 the creates of a key in lock order, and an access only when no create of its key is still
 in flight; a prompt proxy does not unlock a key before its create has arrived, which is
 what ortoa-lbl/proxy.cpp relies on and the oneway RPC does not promise.
 */
module Delivery {
  import opened Wrappers
  import opened Labels
  import opened Entries
  import opened KvServer
  import opened Protocol
  import opened Linearizability
  import opened ProtocolRuns
  import opened LockTable
  import opened ProtocolAccounting

  // The create of call j is on its way to key k.
  predicate CreateOn(s: State, j: CallId, k: Key) {
    j in s.wire && s.wire[j].CreateMsg? && j in s.calls && s.calls[j].op.key == k
  }

  ghost predicate Orderly(s: State, step: Step) {
    step.id in s.calls ==>
      var c := s.calls[step.id];
      && (step.ServerRead? ==> forall j :: !CreateOn(s, j, c.op.key))
      && (step.ServerCreate? ==> forall j :: CreateOn(s, j, c.op.key) && j != step.id ==> c.pos < s.calls[j].pos)
  }

  predicate Prompt(s: State, step: Step) {
    step.Advance? && step.id in s.calls && s.calls[step.id].pc.Unlock? ==> step.id !in s.wire
  }

  ghost predicate OrderlyRun(states: seq<State>, steps: seq<Step>)
    requires |states| == |steps| + 1
  {
    forall i :: 0 <= i < |steps| ==> Orderly(states[i], steps[i])
  }

  ghost predicate PromptRun(states: seq<State>, steps: seq<Step>)
    requires |states| == |steps| + 1
  {
    forall i :: 0 <= i < |steps| ==> Prompt(states[i], steps[i])
  }

  /* ---------- which operations have reached the store ---------- */

  predicate Unserved(c: Call, msg: Option<Message>) {
    || c.pc.MakeCreate? || c.pc.RecordCreate? || c.pc.InsertKey? || c.pc.SendCreate?
    || c.pc.MakeAccess? || c.pc.RecordPut? || c.pc.SendAccess?
    || (msg.Some? && !msg.value.ReplyMsg?)
  }

  predicate Served(c: Call, msg: Option<Message>) {
    || (msg.None? && (c.pc.Decode? || c.pc.CountAccess? || c.pc.Unlock? || c.pc.Done?))
    || (msg.Some? && msg.value.ReplyMsg?)
  }

  function Writer(s: State, k: Key): Option<nat> {
    if k in s.written then Some(s.written[k]) else None
  }

  // The store was last written for an operation at or after the served ones of its key and
  // before the others.
  ghost predicate CallInOrder(c: Call, msg: Option<Message>, writer: Option<nat>) {
    && (Unserved(c, msg) && writer.Some? ==> writer.value < c.pos)
    && (Served(c, msg) ==> writer.Some? && c.pos <= writer.value)
    && (msg.Some? && msg.value.AccessBusy? ==> msg.value.timely)
  }

  ghost predicate CallsInOrder(s: State) {
    forall id :: id in s.calls ==> CallInOrder(s.calls[id], MessageOf(s, id), Writer(s, s.calls[id].op.key))
  }

  ghost predicate WritersLogged(s: State) {
    forall k: Key :: k in s.written ==> s.written[k] < |s.log| && s.log[s.written[k]].op.key == k
  }

  // No create of a key is in flight while the server is between read and write of it.
  ghost predicate BusyAlone(s: State) {
    forall id, j :: id in s.calls && id in s.wire && s.wire[id].AccessBusy? ==> !CreateOn(s, j, s.calls[id].op.key)
  }

  ghost predicate InOrder(s: State) {
    CallsInOrder(s) && WritersLogged(s) && BusyAlone(s)
  }

  /* ---------- a read in an orderly run is fresh ---------- */

  lemma {:induction false} LastPosIsLast(log: seq<LogEntry>, k: Key)
    ensures var last := LastPos(log, k);
            last.Some? ==> last.value < |log| && log[last.value].op.key == k
                           && forall i :: last.value < i < |log| ==> log[i].op.key != k
    ensures LastPos(log, k).None? ==> forall i :: 0 <= i < |log| ==> log[i].op.key != k
  {
    if log != [] && log[|log| - 1].op.key != k {
      LastPosIsLast(log[..|log| - 1], k);
      assert forall i :: 0 <= i < |log| - 1 ==> log[..|log| - 1][i] == log[i];
    }
  }

  // A message that is being served belongs to a call that holds its key.
  lemma BusyHolds(x: Relations, cfg: Config, s: State, id: CallId)
    requires Inv(x, cfg, s) && id in s.wire && id in s.calls && (s.wire[id].AccessMsg? || s.wire[id].AccessBusy?)
    ensures Holding(s.calls[id].pc)
  {
    assert CallOK(x, cfg, View(s, s.calls[id].op.key), s.made, s.calls[id], MessageOf(s, id));
  }

  lemma AccessHasPrior(x: Relations, cfg: Config, s: State, id: CallId)
    requires Inv(x, cfg, s) && id in s.wire && id in s.calls && s.wire[id].AccessMsg?
    ensures HasPrior(s.made, s.calls[id]) && LogOK(s.log, id, s.calls[id])
  {
    assert CallOK(x, cfg, View(s, s.calls[id].op.key), s.made, s.calls[id], MessageOf(s, id));
  }

  // The operation before an access that is about to be read has been served.
  lemma PredecessorIsServed(x: Relations, cfg: Config, s: State, id: CallId, p: nat)
    requires Inv(x, cfg, s) && InOrder(s) && LogIsExact(TableOf(s))
    requires id in s.calls && Holding(s.calls[id].pc)
    requires forall j :: !CreateOn(s, j, s.calls[id].op.key)
    requires p < s.calls[id].pos <= |s.log| && s.log[p].op.key == s.calls[id].op.key
    ensures var w := Writer(s, s.calls[id].op.key); w.Some? && p <= w.value
  {
    var k := s.calls[id].op.key;
    var t := TableOf(s);
    var j := s.log[p].id;
    assert j in t.threads && t.threads[j].pos == p && Ordered(t.threads[j].phase);
    var d := s.calls[j];
    assert LogOK(s.log, j, d) && LogOK(s.log, id, s.calls[id]);
    assert d.op.key == k && j != id;
    assert !Holding(d.pc);
    assert d.pc.Done?;
    assert CallOK(x, cfg, View(s, k), s.made, d, MessageOf(s, j));
    assert !CreateOn(s, j, k);
    assert CallInOrder(d, MessageOf(s, j), Writer(s, k));
  }

  // The predecessor of a logged call is the last operation on its key before it.
  lemma PrevIsLast(log: seq<LogEntry>, id: CallId, c: Call)
    requires LogOK(log, id, c) && Logged(c.pc) && c.prev.Some?
    ensures c.prev.value < c.pos && log[c.prev.value].op.key == c.op.key
    ensures forall i :: c.prev.value < i < c.pos ==> log[i].op.key != c.op.key
  {
    LastPosIsLast(log[..c.pos], c.op.key);
    assert forall i :: 0 <= i < c.pos ==> log[..c.pos][i] == log[i];
  }

  lemma OrderlyReadIsFresh(x: Relations, cfg: Config, s: State, id: CallId)
    requires Inv(x, cfg, s) && InOrder(s) && LogIsExact(TableOf(s))
    requires Enabled(s, ServerRead(id)) && Orderly(s, ServerRead(id)) && id in s.calls
    ensures Fresh(s, s.calls[id])
  {
    var c := s.calls[id];
    BusyHolds(x, cfg, s, id);
    AccessHasPrior(x, cfg, s, id);
    assert CallInOrder(c, MessageOf(s, id), Writer(s, c.op.key));
    PrevIsLast(s.log, id, c);
    PredecessorIsServed(x, cfg, s, id, c.prev.value);
  }

  /* ---------- the order is kept ---------- */

  // What a step that stores nothing may do to its own call and message.
  ghost predicate Progresses(s: State, s': State, id: CallId) {
    && id in s.calls && id in s'.calls
    && var c, c' := s.calls[id], s'.calls[id];
    && var m, m' := MessageOf(s, id), MessageOf(s', id);
    && s'.written == s.written
    && (Unserved(c', m') ==> (Unserved(c, m) && c'.pos == c.pos) || c'.pos == |s.log|)
    && (Served(c', m') ==> Served(c, m) && c'.pos == c.pos)
    && (m'.Some? && m'.value.AccessBusy? ==> m' == m)
    && (m'.Some? && m'.value.CreateMsg? ==> m' == m || (Holding(c.pc) && Holding(c'.pc)))
    && (Holding(c.pc) && !Holding(c'.pc) ==> c.pc.Unlock? && m' == m)
  }

  lemma ProgressKeepsCalls(s: State, s': State, id: CallId)
    requires CallsInOrder(s) && WritersLogged(s) && Local(s, s', id) && Progresses(s, s', id)
    ensures CallsInOrder(s')
  {
    forall j | j in s'.calls
      ensures CallInOrder(s'.calls[j], MessageOf(s', j), Writer(s', s'.calls[j].op.key))
    {
      assert CallInOrder(s.calls[j], MessageOf(s, j), Writer(s, s.calls[j].op.key));
    }
  }

  lemma NoNewCreate(x: Relations, cfg: Config, s: State, s': State, id: CallId, b: CallId, j: CallId)
    requires Inv(x, cfg, s) && Local(s, s', id) && Progresses(s, s', id)
    requires b in s.calls && Holding(s.calls[b].pc) && (b == id ==> id in s.wire && s.wire[id].AccessBusy?)
    requires !CreateOn(s, j, s.calls[b].op.key)
    requires b == id ==> MessageOf(s', id) == MessageOf(s, id)
    ensures !CreateOn(s', j, s.calls[b].op.key)
  {
    assert MessageOf(s', j) == MessageOf(s, j) || j == id;
  }

  lemma ProgressKeepsBusyAlone(x: Relations, cfg: Config, s: State, s': State, id: CallId)
    requires Inv(x, cfg, s) && BusyAlone(s) && Local(s, s', id) && Progresses(s, s', id)
    ensures BusyAlone(s')
  {
    forall b, j | b in s'.calls && b in s'.wire && s'.wire[b].AccessBusy?
      ensures !CreateOn(s', j, s'.calls[b].op.key)
    {
      assert MessageOf(s', b) == MessageOf(s, b);
      BusyHolds(x, cfg, s, b);
      NoNewCreate(x, cfg, s, s', id, b, j);
    }
  }

  lemma ProgressKeepsOrder(x: Relations, cfg: Config, s: State, s': State, id: CallId)
    requires Inv(x, cfg, s) && InOrder(s) && Local(s, s', id) && Progresses(s, s', id)
    ensures InOrder(s')
  {
    ProgressKeepsCalls(s, s', id);
    ProgressKeepsBusyAlone(x, cfg, s, s', id);
  }
  /* ---------- step by step ---------- */

  // Which calls can have a message.
  predicate MessageRoom(pc: Pc, msg: Option<Message>) {
    && (msg.Some? ==> pc.AwaitReply? || pc.CountAccess? || pc.Unlock? || pc.Done? || pc.Thrown?)
    && (pc.CountAccess? || pc.Unlock? || pc.Done? ==> msg.Some? ==> msg.value.CreateMsg?)
  }

  lemma StartProgresses(cfg: Config, s: State, id: CallId, newMaster: MasterKey, nonces: Nonces)
    requires Enabled(s, Advance(id, newMaster, nonces))
    requires var pc := s.calls[id].pc; pc.Begin? || pc.AbortNext? || pc.LockForCreate? || pc.LockForAccess?
    requires MessageRoom(s.calls[id].pc, MessageOf(s, id))
    ensures Progresses(s, AdvanceStep(cfg, s, id, newMaster, nonces), id)
  {}

  lemma CreateReadyProgresses(s: State, id: CallId, newMaster: MasterKey, entry: Entry)
    requires id in s.calls && s.calls[id].pc.MakeCreate? && id !in s.wire
    ensures Progresses(s, CreateReady(s, id, s.calls[id], newMaster, entry), id)
  {}

  lemma AccessReadyProgresses(s: State, id: CallId, newMaster: MasterKey, entry: Entry)
    requires id in s.calls && s.calls[id].pc.MakeAccess? && id !in s.wire
    ensures Progresses(s, AccessReady(s, id, s.calls[id], newMaster, entry), id)
  {}

  lemma MakeCreateProgresses(cfg: Config, s: State, id: CallId, newMaster: MasterKey)
    requires id in s.calls && s.calls[id].pc.MakeCreate? && id !in s.wire
    ensures Progresses(s, MakeCreateStep(cfg, s, id, s.calls[id], newMaster), id)
  {
    var c := s.calls[id];
    if |c.op.value| <= cfg.valueSize {
      CreateReadyProgresses(s, id, newMaster, CreateFor(cfg, c.op.key, newMaster, c.op.value));
    }
  }

  lemma MakeAccessProgresses(cfg: Config, s: State, id: CallId, newMaster: MasterKey, nonces: Nonces)
    requires id in s.calls && s.calls[id].pc.MakeAccess? && id !in s.wire
    ensures Progresses(s, MakeAccessStep(cfg, s, id, s.calls[id], newMaster, nonces), id)
  {
    var c := s.calls[id];
    if c.op.IsGet() || |c.op.value| <= cfg.valueSize {
      AccessReadyProgresses(s, id, newMaster, AccessFor(cfg, MasterOf(s, c.op.key), newMaster, c.op, nonces));
    }
  }

  lemma RecordProgresses(cfg: Config, s: State, id: CallId, newMaster: MasterKey, nonces: Nonces)
    requires Enabled(s, Advance(id, newMaster, nonces))
    requires var pc := s.calls[id].pc; pc.RecordCreate? || pc.InsertKey? || pc.RecordPut?
    requires MessageRoom(s.calls[id].pc, MessageOf(s, id))
    ensures Progresses(s, AdvanceStep(cfg, s, id, newMaster, nonces), id)
  {}

  lemma SendProgresses(cfg: Config, s: State, id: CallId, newMaster: MasterKey, nonces: Nonces)
    requires Enabled(s, Advance(id, newMaster, nonces))
    requires var pc := s.calls[id].pc; pc.SendCreate? || pc.SendAccess?
    requires MessageRoom(s.calls[id].pc, MessageOf(s, id))
    ensures Progresses(s, AdvanceStep(cfg, s, id, newMaster, nonces), id)
  {}

  lemma ReplyProgresses(cfg: Config, s: State, id: CallId, newMaster: MasterKey, nonces: Nonces)
    requires Enabled(s, Advance(id, newMaster, nonces)) && s.calls[id].pc.AwaitReply?
    ensures Progresses(s, AdvanceStep(cfg, s, id, newMaster, nonces), id)
  {}

  lemma DecodeProgresses(cfg: Config, s: State, id: CallId, newMaster: MasterKey, nonces: Nonces)
    requires Enabled(s, Advance(id, newMaster, nonces)) && s.calls[id].pc.Decode?
    requires MessageRoom(s.calls[id].pc, MessageOf(s, id))
    ensures Progresses(s, AdvanceStep(cfg, s, id, newMaster, nonces), id)
  {}

  lemma CountProgresses(s: State, id: CallId)
    requires id in s.calls && s.calls[id].pc.CountAccess? && MessageRoom(s.calls[id].pc, MessageOf(s, id))
    ensures Progresses(s, Goto(s.(accesses := s.accesses + 1), id, s.calls[id], Unlock), id)
  {}

  lemma UnlockProgresses(s: State, id: CallId)
    requires id in s.calls && s.calls[id].pc.Unlock? && MessageRoom(s.calls[id].pc, MessageOf(s, id))
    ensures Progresses(s, Goto(s.(locks := s.locks[s.calls[id].op.key := true]), id, s.calls[id], Done), id)
  {}

  lemma FinishProgresses(cfg: Config, s: State, id: CallId, newMaster: MasterKey, nonces: Nonces)
    requires Enabled(s, Advance(id, newMaster, nonces))
    requires s.calls[id].pc.CountAccess? || s.calls[id].pc.Unlock?
    requires MessageRoom(s.calls[id].pc, MessageOf(s, id))
    ensures Progresses(s, AdvanceStep(cfg, s, id, newMaster, nonces), id)
  {
    if s.calls[id].pc.CountAccess? {
      CountProgresses(s, id);
    } else {
      UnlockProgresses(s, id);
    }
  }

  lemma AdvanceProgresses(cfg: Config, s: State, id: CallId, newMaster: MasterKey, nonces: Nonces)
    requires Enabled(s, Advance(id, newMaster, nonces)) && MessageRoom(s.calls[id].pc, MessageOf(s, id))
    ensures Progresses(s, AdvanceStep(cfg, s, id, newMaster, nonces), id)
  {
    var pc := s.calls[id].pc;
    if pc.Begin? || pc.AbortNext? || pc.LockForCreate? || pc.LockForAccess? {
      StartProgresses(cfg, s, id, newMaster, nonces);
    } else if pc.MakeCreate? {
      MakeCreateProgresses(cfg, s, id, newMaster);
    } else if pc.MakeAccess? {
      MakeAccessProgresses(cfg, s, id, newMaster, nonces);
    } else if pc.RecordCreate? || pc.InsertKey? || pc.RecordPut? {
      RecordProgresses(cfg, s, id, newMaster, nonces);
    } else if pc.SendCreate? || pc.SendAccess? {
      SendProgresses(cfg, s, id, newMaster, nonces);
    } else if pc.AwaitReply? {
      ReplyProgresses(cfg, s, id, newMaster, nonces);
    } else if pc.Decode? {
      DecodeProgresses(cfg, s, id, newMaster, nonces);
    } else {
      FinishProgresses(cfg, s, id, newMaster, nonces);
    }
  }

  lemma ThrowProgresses(s: State, id: CallId, sent: bool)
    requires Enabled(s, Throw(id, sent)) && MessageRoom(s.calls[id].pc, MessageOf(s, id))
    ensures Progresses(s, ThrowStep(s, id, sent), id)
  {}

  /* ---------- the server's steps ---------- */

  // The step stores a block for a call, whose message is gone or answered then.
  ghost predicate Stores(s: State, s': State, id: CallId) {
    && id in s.calls && id in s.wire && !s.wire[id].ReplyMsg?
    && s'.calls == s.calls && s'.log == s.log
    && s'.written == s.written[s.calls[id].op.key := s.calls[id].pos]
    && (s'.wire == s.wire - {id} || (id in s'.wire && s'.wire[id].ReplyMsg? && s'.wire == s.wire[id := s'.wire[id]]))
  }

  lemma BlockIsStored(s: State, id: CallId, block: seq<Slot>, wire: map<CallId, Message>)
    requires id in s.calls && id in s.wire && !s.wire[id].ReplyMsg?
    requires wire == s.wire - {id} || (id in wire && wire[id].ReplyMsg? && wire == s.wire[id := wire[id]])
    ensures Stores(s, StoreBlock(s, id, s.calls[id].op.key, block, wire), id)
  {}

  // Every other operation on the key that has not reached the store comes later.
  ghost predicate ComesFirst(s: State, id: CallId)
    requires id in s.calls
  {
    forall j ::
      j in s.calls && j != id && s.calls[j].op.key == s.calls[id].op.key && Unserved(s.calls[j], MessageOf(s, j)) ==>
      s.calls[id].pos < s.calls[j].pos
  }

  lemma UnservedHolds(x: Relations, cfg: Config, s: State, j: CallId)
    requires Inv(x, cfg, s) && j in s.calls && Unserved(s.calls[j], MessageOf(s, j))
    ensures Holding(s.calls[j].pc) || (j in s.wire && s.wire[j].CreateMsg?)
    ensures LogOK(s.log, j, s.calls[j])
  {
    assert CallOK(x, cfg, View(s, s.calls[j].op.key), s.made, s.calls[j], MessageOf(s, j));
  }

  lemma MessageIsLogged(x: Relations, cfg: Config, s: State, id: CallId)
    requires Inv(x, cfg, s) && id in s.calls && id in s.wire
    ensures LogOK(s.log, id, s.calls[id]) && Logged(s.calls[id].pc)
    ensures MessageRoom(s.calls[id].pc, MessageOf(s, id))
  {
    assert CallOK(x, cfg, View(s, s.calls[id].op.key), s.made, s.calls[id], MessageOf(s, id));
  }

  lemma CreateComesFirst(x: Relations, cfg: Config, s: State, id: CallId)
    requires Inv(x, cfg, s) && Enabled(s, ServerCreate(id)) && Orderly(s, ServerCreate(id)) && id in s.calls
    ensures ComesFirst(s, id)
  {
    MessageIsLogged(x, cfg, s, id);
    var c := s.calls[id];
    forall j | j in s.calls && j != id && s.calls[j].op.key == c.op.key && Unserved(s.calls[j], MessageOf(s, j))
      ensures c.pos < s.calls[j].pos
    {
      UnservedHolds(x, cfg, s, j);
      assert j in s.wire && s.wire[j].CreateMsg? ==> CreateOn(s, j, c.op.key);
    }
  }

  lemma WriteComesFirst(x: Relations, cfg: Config, s: State, id: CallId)
    requires Inv(x, cfg, s) && BusyAlone(s) && id in s.calls && id in s.wire && s.wire[id].AccessBusy?
    ensures ComesFirst(s, id)
  {
    BusyHolds(x, cfg, s, id);
    forall j | j in s.calls && j != id && s.calls[j].op.key == s.calls[id].op.key
      ensures !Unserved(s.calls[j], MessageOf(s, j))
    {
      assert !CreateOn(s, j, s.calls[id].op.key);
      if Unserved(s.calls[j], MessageOf(s, j)) {
        UnservedHolds(x, cfg, s, j);
      }
    }
  }

  // The store's new writer is after every served call and before every unserved one.
  lemma WriterMovesOn(c: Call, msg: Option<Message>, pos: nat, writer: Option<nat>)
    requires CallInOrder(c, msg, writer)
    requires writer.Some? ==> writer.value < pos
    requires Unserved(c, msg) ==> pos < c.pos
    ensures CallInOrder(c, msg, Some(pos))
  {}

  lemma StoringKeepsCall(s: State, s': State, id: CallId, j: CallId)
    requires Stores(s, s', id) && j in s.calls && j != id
    requires CallInOrder(s.calls[j], MessageOf(s, j), Writer(s, s.calls[j].op.key))
    requires s.calls[j].op.key == s.calls[id].op.key ==>
               CallInOrder(s.calls[j], MessageOf(s, j), Some(s.calls[id].pos))
    ensures CallInOrder(s'.calls[j], MessageOf(s', j), Writer(s', s'.calls[j].op.key))
  {}

  lemma StoringServes(x: Relations, cfg: Config, s: State, s': State, id: CallId)
    requires Inv(x, cfg, s) && Stores(s, s', id)
    ensures CallInOrder(s'.calls[id], MessageOf(s', id), Writer(s', s'.calls[id].op.key))
  {
    MessageIsLogged(x, cfg, s, id);
  }

  lemma StoringKeepsCalls(x: Relations, cfg: Config, s: State, s': State, id: CallId)
    requires Inv(x, cfg, s) && CallsInOrder(s) && Stores(s, s', id) && ComesFirst(s, id)
    ensures CallsInOrder(s')
  {
    var c := s.calls[id];
    StoringServes(x, cfg, s, s', id);
    assert CallInOrder(c, MessageOf(s, id), Writer(s, c.op.key));
    forall j | j in s.calls && j != id
      ensures CallInOrder(s'.calls[j], MessageOf(s', j), Writer(s', s'.calls[j].op.key))
    {
      assert CallInOrder(s.calls[j], MessageOf(s, j), Writer(s, s.calls[j].op.key));
      if s.calls[j].op.key == c.op.key {
        WriterMovesOn(s.calls[j], MessageOf(s, j), c.pos, Writer(s, c.op.key));
      }
      StoringKeepsCall(s, s', id, j);
    }
  }

  lemma StoringKeepsOrder(x: Relations, cfg: Config, s: State, s': State, id: CallId)
    requires Inv(x, cfg, s) && InOrder(s) && Stores(s, s', id) && ComesFirst(s, id)
    ensures InOrder(s')
  {
    StoringKeepsCalls(x, cfg, s, s', id);
    MessageIsLogged(x, cfg, s, id);
    forall b, j | b in s'.calls && b in s'.wire && s'.wire[b].AccessBusy?
      ensures !CreateOn(s', j, s'.calls[b].op.key)
    {
      assert !CreateOn(s, j, s.calls[b].op.key);
    }
  }

  lemma ReadingKeepsCalls(s: State, id: CallId, block: seq<Slot>)
    requires CallsInOrder(s) && id in s.wire && s.wire[id].AccessMsg?
    ensures CallsInOrder(s.(wire := s.wire[id := AccessBusy(s.wire[id].entry, block, true)]))
  {
    var s' := s.(wire := s.wire[id := AccessBusy(s.wire[id].entry, block, true)]);
    forall j | j in s'.calls
      ensures CallInOrder(s'.calls[j], MessageOf(s', j), Writer(s', s'.calls[j].op.key))
    {
      assert CallInOrder(s.calls[j], MessageOf(s, j), Writer(s, s.calls[j].op.key));
    }
  }

  lemma ReadingKeepsOrder(s: State, id: CallId, block: seq<Slot>)
    requires InOrder(s) && id in s.calls && Enabled(s, ServerRead(id)) && Orderly(s, ServerRead(id))
    ensures InOrder(s.(wire := s.wire[id := AccessBusy(s.wire[id].entry, block, true)]))
  {
    var s' := s.(wire := s.wire[id := AccessBusy(s.wire[id].entry, block, true)]);
    ReadingKeepsCalls(s, id, block);
    forall b, j | b in s'.calls && b in s'.wire && s'.wire[b].AccessBusy?
      ensures !CreateOn(s', j, s'.calls[b].op.key)
    {
      assert !CreateOn(s, j, s.calls[b].op.key);
    }
  }

  lemma CreateStores(x: Relations, cfg: Config, s: State, id: CallId)
    requires Lawful(x, cfg) && Here(x, cfg, s, id) && Enabled(s, ServerCreate(id))
    ensures Stores(s, ServerStep(cfg, s, ServerCreate(id)), id)
  {
    var c, entry := s.calls[id], s.wire[id].entry;
    assert x.creates(entry, c.op.key, s.made[c.pos].master, c.op.value);
    BlockIsStored(s, id, entry.labels, s.wire - {id});
  }

  lemma WriteStores(x: Relations, cfg: Config, s: State, id: CallId)
    requires Lawful(x, cfg) && Here(x, cfg, s, id) && Enabled(s, ServerWrite(id))
    requires s.wire[id].timely || Refuses(x, cfg)
    ensures var s' := ServerStep(cfg, s, ServerWrite(id));
            if s.wire[id].timely then Stores(s, s', id) else s' == s.(serverDown := true)
  {
    ExitsIffNotTimely(x, cfg, s, id);
    var answer := AccessResult(s.wire[id].entry, s.wire[id].block, cfg.valueSize, cfg.upto);
    if answer.Some? {
      BlockIsStored(s, id, answer.value, s.wire[id := ReplyMsg(answer.value)]);
    }
  }

  lemma ServerKeepsOrder(cfg: Config, s: State, step: Step)
    requires cfg.Valid() && Inv(Lbl(cfg, AnyBlock()), cfg, s) && InOrder(s) && LogIsExact(TableOf(s))
    requires Enabled(s, step) && Orderly(s, step)
    requires step.ServerCreate? || step.ServerRead? || step.ServerWrite?
    ensures InOrder(ServerStep(cfg, s, step)) && Timely(s, step)
  {
    var x, id, s' := Lbl(cfg, AnyBlock()), step.id, ServerStep(cfg, s, step);
    LblIsLawful(cfg, AnyBlock());
    InvHere(x, cfg, s, id);
    if step.ServerCreate? {
      CreateComesFirst(x, cfg, s, id);
      CreateStores(x, cfg, s, id);
      StoringKeepsOrder(x, cfg, s, s', id);
    } else if step.ServerRead? {
      OrderlyReadIsFresh(x, cfg, s, id);
      ReadingKeepsOrder(s, id, Stored(s.store, s.wire[id].entry.keyName));
    } else {
      assert CallInOrder(s.calls[id], MessageOf(s, id), Writer(s, s.calls[id].op.key));
      WriteComesFirst(x, cfg, s, id);
      WriteStores(x, cfg, s, id);
      StoringKeepsOrder(x, cfg, s, s', id);
    }
  }

  lemma ClientKeepsOrder(cfg: Config, s: State, step: Step)
    requires cfg.Valid() && Inv(Lbl(cfg, AnyBlock()), cfg, s) && InOrder(s) && Enabled(s, step)
    requires step.Advance? || step.Throw?
    ensures InOrder(Apply(cfg, s, step))
  {
    var x, s' := Lbl(cfg, AnyBlock()), Apply(cfg, s, step);
    LblIsLawful(cfg, AnyBlock());
    InvHere(x, cfg, s, step.id);
    StepIsLocal(x, cfg, s, step);
    RoomFor(x, cfg, s, step.id);
    if step.Advance? {
      AdvanceProgresses(cfg, s, step.id, step.newMaster, step.nonces);
    } else {
      ThrowProgresses(s, step.id, step.sent);
    }
    ProgressKeepsOrder(x, cfg, s, s', step.id);
  }

  lemma RoomFor(x: Relations, cfg: Config, s: State, id: CallId)
    requires Inv(x, cfg, s) && id in s.calls
    ensures MessageRoom(s.calls[id].pc, MessageOf(s, id))
  {
    assert CallOK(x, cfg, View(s, s.calls[id].op.key), s.made, s.calls[id], MessageOf(s, id));
  }

  lemma ArrivalKeepsOrder(cfg: Config, s: State, id: CallId, op: Operation)
    requires InOrder(s) && s.wire.Keys <= s.calls.Keys && Enabled(s, Arrive(id, op))
    ensures InOrder(Apply(cfg, s, Arrive(id, op)))
  {
    var s' := Apply(cfg, s, Arrive(id, op));
    forall j | j in s'.calls
      ensures CallInOrder(s'.calls[j], MessageOf(s', j), Writer(s', s'.calls[j].op.key))
    {
      if j != id {
        assert CallInOrder(s.calls[j], MessageOf(s, j), Writer(s, s.calls[j].op.key));
      }
    }
    forall b, j | b in s'.calls && b in s'.wire && s'.wire[b].AccessBusy?
      ensures !CreateOn(s', j, s'.calls[b].op.key)
    {
      assert !CreateOn(s, j, s.calls[b].op.key);
    }
  }

  lemma StepKeepsOrder(cfg: Config, s: State, step: Step)
    requires cfg.Valid() && Inv(Lbl(cfg, AnyBlock()), cfg, s) && InOrder(s) && LogIsExact(TableOf(s))
    requires Enabled(s, step) && Orderly(s, step)
    ensures InOrder(Apply(cfg, s, step)) && Timely(s, step)
  {
    if step.Arrive? {
      ArrivalKeepsOrder(cfg, s, step.id, step.op);
    } else if step.Advance? || step.Throw? {
      ClientKeepsOrder(cfg, s, step);
    } else {
      ServerKeepsOrder(cfg, s, step);
    }
  }

  /* ---------- runs ---------- */

  lemma OrderlyStep(cfg: Config, s: State, step: Step)
    requires cfg.Valid() && Inv(Lbl(cfg, AnyBlock()), cfg, s) && InOrder(s) && LogIsExact(TableOf(s))
    requires Enabled(s, step) && Orderly(s, step)
    ensures Inv(Lbl(cfg, AnyBlock()), cfg, Apply(cfg, s, step)) && InOrder(Apply(cfg, s, step)) && Timely(s, step)
  {
    StepKeepsOrder(cfg, s, step);
    LblIsLawful(cfg, AnyBlock());
    StepKeepsInv(Lbl(cfg, AnyBlock()), cfg, s, step);
  }

  lemma OrderlyStepOfRun(cfg: Config, states: seq<State>, steps: seq<Step>, i: nat)
    requires cfg.Valid() && IsRun(cfg, states, steps) && i < |steps| && OrderlyRun(states, steps)
    requires Inv(Lbl(cfg, AnyBlock()), cfg, states[i]) && InOrder(states[i])
    ensures Inv(Lbl(cfg, AnyBlock()), cfg, states[i + 1]) && InOrder(states[i + 1]) && Timely(states[i], steps[i])
  {
    CallsAreAccountedFor(cfg, states, steps, i);
    assert Orderly(states[i], steps[i]);
    OrderlyStep(cfg, states[i], steps[i]);
  }

  lemma {:induction false} OrderlyRunKeepsOrder(cfg: Config, states: seq<State>, steps: seq<Step>, i: nat)
    requires cfg.Valid() && IsRun(cfg, states, steps) && i < |states| && OrderlyRun(states, steps)
    ensures Inv(Lbl(cfg, AnyBlock()), cfg, states[i]) && InOrder(states[i])
  {
    if i == 0 {
      InitInv(Lbl(cfg, AnyBlock()), cfg, states[0]);
    } else {
      OrderlyRunKeepsOrder(cfg, states, steps, i - 1);
      OrderlyStepOfRun(cfg, states, steps, i - 1);
    }
  }

  // An orderly run is timely, so it is linearizable and its server never exits.
  lemma OrderlyRunsAreTimely(cfg: Config, states: seq<State>, steps: seq<Step>)
    requires cfg.Valid() && IsRun(cfg, states, steps) && OrderlyRun(states, steps)
    ensures TimelyRun(states, steps)
  {
    forall i | 0 <= i < |steps|
      ensures Timely(states[i], steps[i])
    {
      OrderlyRunKeepsOrder(cfg, states, steps, i);
      OrderlyStepOfRun(cfg, states, steps, i);
    }
  }

  /* ---------- prompt runs ---------- */

  // Every create in flight belongs to a call that still holds its key.
  ghost predicate CreatesHeld(s: State) {
    forall id :: id in s.calls && id in s.wire && s.wire[id].CreateMsg? ==> Holding(s.calls[id].pc)
  }

  lemma CreatesHeldIsOrderly(x: Relations, cfg: Config, s: State, step: Step)
    requires Inv(x, cfg, s) && CreatesHeld(s) && Enabled(s, step)
    ensures Orderly(s, step)
  {
    if step.ServerRead? && step.id in s.calls {
      BusyHolds(x, cfg, s, step.id);
    }
  }

  lemma ProgressKeepsCreatesHeld(s: State, s': State, id: CallId)
    requires CreatesHeld(s) && Local(s, s', id) && Progresses(s, s', id)
    requires s.calls[id].pc.Unlock? ==> id !in s.wire
    ensures CreatesHeld(s')
  {
    forall j | j in s'.calls && j in s'.wire && s'.wire[j].CreateMsg?
      ensures Holding(s'.calls[j].pc)
    {
      if j != id {
        assert MessageOf(s', j) == MessageOf(s, j);
      }
    }
  }

  lemma ClientKeepsCreatesHeld(cfg: Config, s: State, step: Step)
    requires cfg.Valid() && Inv(Lbl(cfg, AnyBlock()), cfg, s) && CreatesHeld(s) && Enabled(s, step) && Prompt(s, step)
    requires step.Advance? || step.Throw?
    ensures CreatesHeld(Apply(cfg, s, step))
  {
    var x, s' := Lbl(cfg, AnyBlock()), Apply(cfg, s, step);
    LblIsLawful(cfg, AnyBlock());
    InvHere(x, cfg, s, step.id);
    StepIsLocal(x, cfg, s, step);
    RoomFor(x, cfg, s, step.id);
    if step.Advance? {
      AdvanceProgresses(cfg, s, step.id, step.newMaster, step.nonces);
    } else {
      ThrowProgresses(s, step.id, step.sent);
    }
    ProgressKeepsCreatesHeld(s, s', step.id);
  }

  lemma WriteMessages(s: State, id: CallId, key: Key, answer: Option<seq<Slot>>, j: CallId)
    requires id in s.wire && s.wire[id].AccessBusy?
    ensures var s' := WriteBack(s, id, key, answer);
            && s'.calls == s.calls
            && (j in s'.wire && s'.wire[j].CreateMsg? ==> j in s.wire && s.wire[j].CreateMsg?)
  {}

  lemma ServerMessages(cfg: Config, s: State, step: Step, j: CallId)
    requires Enabled(s, step) && (step.ServerCreate? || step.ServerRead? || step.ServerWrite?)
    ensures ServerStep(cfg, s, step).calls == s.calls
    ensures j in ServerStep(cfg, s, step).wire && ServerStep(cfg, s, step).wire[j].CreateMsg? ==>
              j in s.wire && s.wire[j].CreateMsg?
  {
    if step.ServerWrite? {
      var busy := s.wire[step.id];
      var answer := AccessResult(busy.entry, busy.block, cfg.valueSize, cfg.upto);
      WriteMessages(s, step.id, busy.entry.keyName, answer, j);
    }
  }

  lemma ServerKeepsCreatesHeld(cfg: Config, s: State, step: Step)
    requires CreatesHeld(s) && Enabled(s, step)
    requires step.ServerCreate? || step.ServerRead? || step.ServerWrite?
    ensures CreatesHeld(ServerStep(cfg, s, step))
  {
    var s' := ServerStep(cfg, s, step);
    forall j | j in s'.calls && j in s'.wire && s'.wire[j].CreateMsg?
      ensures Holding(s'.calls[j].pc)
    {
      ServerMessages(cfg, s, step, j);
    }
  }

  lemma PromptStep(cfg: Config, s: State, step: Step)
    requires cfg.Valid() && Inv(Lbl(cfg, AnyBlock()), cfg, s) && CreatesHeld(s) && Enabled(s, step) && Prompt(s, step)
    ensures CreatesHeld(Apply(cfg, s, step)) && Orderly(s, step)
  {
    CreatesHeldIsOrderly(Lbl(cfg, AnyBlock()), cfg, s, step);
    if step.Advance? || step.Throw? {
      ClientKeepsCreatesHeld(cfg, s, step);
    } else if !step.Arrive? {
      ServerKeepsCreatesHeld(cfg, s, step);
    }
  }

  lemma PromptStepOfRun(cfg: Config, states: seq<State>, steps: seq<Step>, i: nat)
    requires cfg.Valid() && IsRun(cfg, states, steps) && i < |steps| && PromptRun(states, steps)
    requires Inv(Lbl(cfg, AnyBlock()), cfg, states[i]) && InOrder(states[i]) && CreatesHeld(states[i])
    ensures Inv(Lbl(cfg, AnyBlock()), cfg, states[i + 1]) && InOrder(states[i + 1]) && CreatesHeld(states[i + 1])
    ensures Orderly(states[i], steps[i])
  {
    assert Prompt(states[i], steps[i]);
    PromptStep(cfg, states[i], steps[i]);
    CallsAreAccountedFor(cfg, states, steps, i);
    OrderlyStep(cfg, states[i], steps[i]);
  }

  lemma {:induction false} PromptRunHoldsCreates(cfg: Config, states: seq<State>, steps: seq<Step>, i: nat)
    requires cfg.Valid() && IsRun(cfg, states, steps) && i < |states| && PromptRun(states, steps)
    ensures Inv(Lbl(cfg, AnyBlock()), cfg, states[i]) && InOrder(states[i]) && CreatesHeld(states[i])
  {
    if i == 0 {
      InitInv(Lbl(cfg, AnyBlock()), cfg, states[0]);
    } else {
      PromptRunHoldsCreates(cfg, states, steps, i - 1);
      PromptStepOfRun(cfg, states, steps, i - 1);
    }
  }

  // A prompt run is orderly.
  lemma PromptRunsAreOrderly(cfg: Config, states: seq<State>, steps: seq<Step>)
    requires cfg.Valid() && IsRun(cfg, states, steps) && PromptRun(states, steps)
    ensures OrderlyRun(states, steps)
  {
    forall i | 0 <= i < |steps|
      ensures Orderly(states[i], steps[i])
    {
      PromptRunHoldsCreates(cfg, states, steps, i);
      PromptStepOfRun(cfg, states, steps, i);
    }
  }
}
