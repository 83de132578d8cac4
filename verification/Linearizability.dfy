/**
 The invariant of the protocol and, step by step, its proof: every operation builds on the
 version of its key before it in lock order, every message stands for the version of its
 call, and the store holds the version of the operation it was last written for.
 */
module Linearizability {
  import opened Wrappers
  import opened Bits
  import opened Labels
  import opened Entries
  import opened KvServer
  import opened Protocol

  /* ---------- what is known of one key, one call, one message ---------- */

  // The proxy's side of a key.
  datatype KeyView = KeyView(known: bool, size: Option<nat>, master: Option<MasterKey>, free: bool)

  function View(s: State, k: Key): KeyView {
    KeyView(k in s.keySet,
            if k in s.valueSizes then Some(s.valueSizes[k]) else None,
            if k in s.masterKeys then Some(s.masterKeys[k]) else None,
            Free(s, k))
  }

  // The server's side of a key.
  datatype StoreView = StoreView(block: Option<seq<Slot>>, writer: Option<nat>)

  function ViewStore(s: State, k: Key): StoreView {
    StoreView(if k in s.store then Some(s.store[k]) else None,
              if k in s.written then Some(s.written[k]) else None)
  }

  function MessageOf(s: State, id: CallId): Option<Message> {
    if id in s.wire then Some(s.wire[id]) else None
  }

  predicate Holding(pc: Pc) {
    !(pc.Begin? || pc.AbortNext? || pc.LockForCreate? || pc.LockForAccess? || pc.Done? || pc.Aborted?)
  }

  // The proof of the protocol needs these relations between master keys, values and wire
  // data, and only the laws of Lawful below; it is carried out for any such relations.
  datatype Relations = Relations(
    holds: (MasterKey, seq<Byte>, seq<Slot>) -> bool,             // the block encodes the value
    leads: (Entry, MasterKey, MasterKey, Operation) -> bool,      // the entry re-encodes for the operation
    answers: (MasterKey, seq<Byte>, seq<Slot>) -> bool,           // the block is a server's answer for the value
    creates: (Entry, Key, MasterKey, seq<Byte>) -> bool,          // the entry creates the key with the value
    stale: (MasterKey, seq<Slot>) -> bool)                        // what a read that is not fresh may find

  ghost predicate LeadsLbl(cfg: Config, entry: Entry, oldMaster: MasterKey, newMaster: MasterKey, op: Operation) {
    && (op.IsGet() || |op.value| <= cfg.valueSize)
    && exists nonces: Nonces :: entry == AccessFor(cfg, oldMaster, newMaster, op, nonces)
  }

  ghost predicate HoldsLbl(cfg: Config, master: MasterKey, v: seq<Byte>, block: seq<Slot>) {
    |v| <= cfg.valueSize && Encoded(cfg.kdf, master, PadToLen(v, cfg.valueSize).value, block, cfg.upto)
  }

  // The relations of ORTOA-LBL.
  ghost function Lbl(cfg: Config, stale: (MasterKey, seq<Slot>) -> bool): Relations {
    Relations(
      (master: MasterKey, v: seq<Byte>, block: seq<Slot>) => HoldsLbl(cfg, master, v, block),
      (entry: Entry, oldMaster: MasterKey, newMaster: MasterKey, op: Operation) =>
        LeadsLbl(cfg, entry, oldMaster, newMaster, op),
      (master: MasterKey, v: seq<Byte>, labels: seq<Slot>) =>
        HoldsLbl(cfg, master, v, labels) && ZeroFrom(labels, cfg.upto),
      (entry: Entry, key: Key, master: MasterKey, v: seq<Byte>) =>
        |v| <= cfg.valueSize && entry == CreateFor(cfg, key, master, v),
      stale)
  }

  ghost predicate Lawful(x: Relations, cfg: Config) {
    // constructCreateEntry makes creating entries, and the created block holds the value
    && (forall key, master, v :: |v| <= cfg.valueSize ==> x.creates(CreateFor(cfg, key, master, v), key, master, v))
    && (forall entry, key, master, v :: x.creates(entry, key, master, v) ==>
          entry.CreateEntry? && entry.keyName == key && x.holds(master, v, entry.labels))
    // constructGetEntry and constructPutEntry make entries that lead from the old key to the new
    && (forall oldMaster, newMaster, op: Operation, nonces
            {:trigger AccessFor(cfg, oldMaster, newMaster, op, nonces)} ::
          op.IsGet() || |op.value| <= cfg.valueSize ==>
          x.leads(AccessFor(cfg, oldMaster, newMaster, op, nonces), oldMaster, newMaster, op))
    && (forall entry, oldMaster, newMaster, op: Operation :: x.leads(entry, oldMaster, newMaster, op) ==>
          entry.AccessEntry? && entry.keyName == op.key)
    // the server turns a held value into an answer for the value after the operation
    && (forall entry, oldMaster, newMaster, op, v, block ::
          x.leads(entry, oldMaster, newMaster, op) && x.holds(oldMaster, v, block) ==>
          Serves(x, cfg, entry, newMaster, op, v, block))
    // an answer still holds the value, and decodes to what of it the server reaches
    && (forall master, v, labels :: x.answers(master, v, labels) ==>
          && x.holds(master, v, labels)
          && |labels| == 4 * cfg.valueSize && |v| <= cfg.valueSize
          && ReadValue(master, labels, cfg.valueSize, |v|) == Visible(v, cfg.upto))
  }

  ghost predicate Serves(x: Relations, cfg: Config, entry: Entry, newMaster: MasterKey, op: Operation,
                         v: seq<Byte>, block: seq<Slot>) {
    var answer := AccessResult(entry, block, cfg.valueSize, cfg.upto);
    answer.Some? && x.answers(newMaster, if op.IsGet() then v else op.value, answer.value)
  }

  // The server exits on every stale block.
  ghost predicate Refuses(x: Relations, cfg: Config) {
    forall entry, oldMaster, newMaster, op, block ::
      x.leads(entry, oldMaster, newMaster, op) && x.stale(oldMaster, block) ==>
      AccessResult(entry, block, cfg.valueSize, cfg.upto).None?
  }

  // The call has built its entry, ...
  ghost predicate HasVersion(made: map<nat, Version>, c: Call) {
    c.pos in made && After(c).Some? && made[c.pos].value == After(c)
  }

  // ... on top of the version before it.
  ghost predicate HasPrior(made: map<nat, Version>, c: Call) {
    c.prev.Some? && c.prev.value in made && c.seen.Some? && made[c.prev.value].value == c.seen
  }

  ghost predicate IsCreate(x: Relations, made: map<nat, Version>, c: Call, entry: Entry) {
    !c.op.IsGet() && HasVersion(made, c) && x.creates(entry, c.op.key, made[c.pos].master, c.op.value)
  }

  ghost predicate IsAccess(x: Relations, made: map<nat, Version>, c: Call, entry: Entry) {
    && HasVersion(made, c) && HasPrior(made, c)
    && x.leads(entry, made[c.prev.value].master, made[c.pos].master, c.op)
  }

  ghost predicate IsAnswer(x: Relations, made: map<nat, Version>, c: Call, labels: seq<Slot>) {
    HasVersion(made, c) && x.answers(made[c.pos].master, After(c).value, labels)
  }

  // A fresh read found the version before the call.
  ghost predicate IsRead(x: Relations, made: map<nat, Version>, c: Call, block: seq<Slot>, timely: bool) {
    && HasPrior(made, c)
    && var master := made[c.prev.value].master;
       if timely then x.holds(master, c.seen.value, block) else x.stale(master, block)
  }

  ghost predicate MessageOK(x: Relations, made: map<nat, Version>, c: Call, msg: Message) {
    match msg
    case CreateMsg(entry) => IsCreate(x, made, c, entry)
    case AccessMsg(entry) => IsAccess(x, made, c, entry)
    case AccessBusy(entry, block, timely) => IsAccess(x, made, c, entry) && IsRead(x, made, c, block, timely)
    case ReplyMsg(labels) => IsAnswer(x, made, c, labels)
  }

  // The proxy's master key is the one of this call.
  ghost predicate IsCurrent(view: KeyView, made: map<nat, Version>, c: Call) {
    HasVersion(made, c) && view.master == Some(made[c.pos].master)
  }

  ghost predicate IsReady(view: KeyView, made: map<nat, Version>, c: Call) {
    && view.known && HasPrior(made, c)
    && view.size == Some(|c.seen.value|) && view.master == Some(made[c.prev.value].master)
  }

  ghost predicate Recorded(view: KeyView, c: Call) {
    After(c).Some? && view.known && view.size == Some(|After(c).value|)
  }

  ghost predicate RightAnswer(cfg: Config, c: Call) {
    c.op.IsGet() ==> c.seen.Some? && |c.seen.value| <= cfg.valueSize && c.ret == Visible(c.seen.value, cfg.upto)
  }

  ghost predicate CallOK(x: Relations, cfg: Config, view: KeyView, made: map<nat, Version>, c: Call,
                         msg: Option<Message>) {
    && (Holding(c.pc) ==> !view.free)
    && (msg.Some? ==> MessageOK(x, made, c, msg.value))
    && (msg.Some? ==> c.pc.AwaitReply? || c.pc.CountAccess? || c.pc.Unlock? || c.pc.Done? || c.pc.Thrown?)
    && match c.pc
       case Begin => c.ret == []
       case AbortNext => c.ret == []
       case LockForCreate => c.ret == [] && !c.op.IsGet()
       case LockForAccess => c.ret == [] && view.known
       case MakeCreate => !c.op.IsGet() && c.pos !in made
       case RecordCreate(entry) => IsCreate(x, made, c, entry) && IsCurrent(view, made, c)
       case InsertKey(entry) =>
         IsCreate(x, made, c, entry) && IsCurrent(view, made, c) && view.size == Some(|c.op.value|)
       case SendCreate(entry) => IsCreate(x, made, c, entry) && IsCurrent(view, made, c) && Recorded(view, c)
       case MakeAccess => c.pos !in made && IsReady(view, made, c)
       case RecordPut(entry) =>
         IsAccess(x, made, c, entry) && IsCurrent(view, made, c) && view.known && !c.op.IsGet()
       case SendAccess(entry) => IsAccess(x, made, c, entry) && IsCurrent(view, made, c) && Recorded(view, c)
       case AwaitReply => IsCurrent(view, made, c) && Recorded(view, c) && msg.Some? && !msg.value.CreateMsg?
       case Decode(labels) =>
         IsCurrent(view, made, c) && Recorded(view, c) && IsAnswer(x, made, c, labels) && c.op.IsGet()
       case CountAccess => IsFinished(cfg, view, made, c, msg)
       case Unlock => IsFinished(cfg, view, made, c, msg)
       case Done => RightAnswer(cfg, c) && (msg.Some? ==> msg.value.CreateMsg?)
       case Aborted => c.ret == []
       case Thrown => true
  }

  // The work under the lock is done, except that a create may still be in flight.
  ghost predicate IsFinished(cfg: Config, view: KeyView, made: map<nat, Version>, c: Call, msg: Option<Message>) {
    IsCurrent(view, made, c) && Recorded(view, c) && RightAnswer(cfg, c) && (msg.Some? ==> msg.value.CreateMsg?)
  }

  // An unlocked key: the proxy's tables are those of the last operation.
  ghost predicate Settled(view: KeyView, made: map<nat, Version>, log: seq<LogEntry>, k: Key) {
    var latest, last := Latest(log, k), LastPos(log, k);
    if view.known then
      && latest.Some? && view.size == Some(|latest.value|) && view.master.Some?
      && last.Some? && last.value in made && made[last.value] == Version(view.master.value, latest)
    else latest.None?
  }

  // The store: a block of the version it was last written for.
  ghost predicate StoreOK(x: Relations, made: map<nat, Version>, store: StoreView) {
    store.writer.Some? ==>
      && store.writer.value in made && made[store.writer.value].value.Some? && store.block.Some?
      && x.holds(made[store.writer.value].master, made[store.writer.value].value.value, store.block.value)
  }

  /* ---------- the log ---------- */

  predicate Logged(pc: Pc) {
    Holding(pc) || pc.Done?
  }

  ghost predicate LogOK(log: seq<LogEntry>, id: CallId, c: Call) {
    && (Logged(c.pc) ==>
          && c.pos < |log| && log[c.pos] == LogEntry(id, c.op)
          && c.seen == Latest(log[..c.pos], c.op.key) && c.prev == LastPos(log[..c.pos], c.op.key))
    && (Holding(c.pc) ==> forall i :: c.pos < i < |log| ==> log[i].op.key != c.op.key)
  }

  lemma LatestSkips(log: seq<LogEntry>, pos: nat, k: Key)
    requires pos <= |log|
    requires forall i :: pos <= i < |log| ==> log[i].op.key != k
    ensures Latest(log, k) == Latest(log[..pos], k) && LastPos(log, k) == LastPos(log[..pos], k)
    decreases |log|
  {
    if pos == |log| {
      assert log[..pos] == log;
    } else {
      LatestSkips(log[..|log| - 1], pos, k);
      assert log[..|log| - 1][..pos] == log[..pos];
    }
  }

  // While a call holds its key, the log's value for that key is the one it leaves behind.
  lemma LatestIsAfter(log: seq<LogEntry>, id: CallId, c: Call)
    requires Holding(c.pc) && LogOK(log, id, c)
    ensures Latest(log, c.op.key) == After(c) && LastPos(log, c.op.key) == Some(c.pos)
  {
    LatestSkips(log, c.pos + 1, c.op.key);
    assert log[..c.pos + 1][..c.pos] == log[..c.pos];
  }

  /* ---------- the invariant ---------- */

  ghost predicate Inv(x: Relations, cfg: Config, s: State) {
    && s.wire.Keys <= s.calls.Keys && CallsOK(x, cfg, s) && LogsOK(s) && Exclusive(s)
    && FreeKeysSettled(s) && StoresOK(x, s) && MadeOK(s)
  }

  ghost predicate CallsOK(x: Relations, cfg: Config, s: State) {
    forall id :: id in s.calls ==> CallOK(x, cfg, View(s, s.calls[id].op.key), s.made, s.calls[id], MessageOf(s, id))
  }

  ghost predicate LogsOK(s: State) {
    forall id :: id in s.calls ==> LogOK(s.log, id, s.calls[id])
  }

  // At most one call holds a key.
  ghost predicate Exclusive(s: State) {
    forall id, j :: id in s.calls && j in s.calls && id != j && Holding(s.calls[id].pc) && Holding(s.calls[j].pc)
      ==> s.calls[id].op.key != s.calls[j].op.key
  }

  ghost predicate FreeKeysSettled(s: State) {
    forall k: Key :: Free(s, k) ==> Settled(View(s, k), s.made, s.log, k)
  }

  ghost predicate StoresOK(x: Relations, s: State) {
    forall k: Key :: StoreOK(x, s.made, ViewStore(s, k))
  }

  ghost predicate MadeOK(s: State) {
    forall p :: p in s.made ==> p < |s.log|
  }

  // Versions are never taken back, and only the place of call c gets a new one.
  ghost predicate Grows(made: map<nat, Version>, made': map<nat, Version>, c: Call) {
    && (forall p :: p in made ==> p in made' && made'[p] == made[p])
    && (forall p :: p in made' && p !in made ==> Holding(c.pc) && p == c.pos)
  }

  // A step of one call touches its own key, call and message, and the proxy's side only
  // while it holds the key.
  ghost predicate Local(s: State, s': State, id: CallId) {
    && id in s.calls && id in s'.calls
    && var c, c' := s.calls[id], s'.calls[id];
    && s'.calls == s.calls[id := c'] && c'.op == c.op
    && (forall j :: j != id ==> MessageOf(s', j) == MessageOf(s, j))
    && s'.wire.Keys <= s.wire.Keys + {id}
    && (forall k: Key :: k != c.op.key ==> View(s', k) == View(s, k) && ViewStore(s', k) == ViewStore(s, k))
    && Grows(s.made, s'.made, c)
    && (View(s, c.op.key).known ==> View(s', c.op.key).known)
    && (View(s', c.op.key) != View(s, c.op.key) ==> Holding(c.pc) || Holding(c'.pc))
    && (!Holding(c.pc) && Holding(c'.pc) ==> Free(s, c.op.key))
    && if s'.log == s.log
       then
         && (Holding(c'.pc) ==> Holding(c.pc))
         && (Logged(c'.pc) ==> Logged(c.pc) && c'.pos == c.pos && c'.seen == c.seen && c'.prev == c.prev)
       else
         && s'.log == s.log + [LogEntry(id, c.op)] && !Holding(c.pc) && Holding(c'.pc)
         && c'.pos == |s.log| && c'.seen == Latest(s.log, c.op.key) && c'.prev == LastPos(s.log, c.op.key)
  }

  lemma FrameMade(x: Relations, cfg: Config, s: State, s': State, id: CallId, j: CallId)
    requires Inv(x, cfg, s) && Local(s, s', id) && j in s.calls && j != id
    ensures Logged(s.calls[j].pc) && s.calls[j].pos !in s.made ==> s.calls[j].pos !in s'.made
  {
    assert LogOK(s.log, j, s.calls[j]) && LogOK(s.log, id, s.calls[id]);
  }

  lemma FrameView(s: State, s': State, id: CallId, j: CallId)
    requires Exclusive(s) && Local(s, s', id) && j in s.calls && j != id
    requires Holding(s.calls[j].pc) ==> !View(s, s.calls[j].op.key).free
    ensures var k := s.calls[j].op.key;
            && (Holding(s.calls[j].pc) ==> View(s', k) == View(s, k))
            && (View(s, k).known ==> View(s', k).known)
  {}

  // What is known of a call survives a longer history and, while it holds nothing, other
  // calls' work on its key.
  lemma CallStaysOK(x: Relations, cfg: Config, view: KeyView, view': KeyView,
                    made: map<nat, Version>, made': map<nat, Version>, c: Call, msg: Option<Message>)
    requires CallOK(x, cfg, view, made, c, msg)
    requires forall p :: p in made ==> p in made' && made'[p] == made[p]
    requires Logged(c.pc) && c.pos !in made ==> c.pos !in made'
    requires Holding(c.pc) ==> view' == view
    requires view.known ==> view'.known
    ensures CallOK(x, cfg, view', made', c, msg)
  {}

  lemma FrameOther(x: Relations, cfg: Config, s: State, s': State, id: CallId, j: CallId)
    requires Inv(x, cfg, s) && Local(s, s', id) && j in s.calls && j != id
    ensures CallOK(x, cfg, View(s', s'.calls[j].op.key), s'.made, s'.calls[j], MessageOf(s', j))
  {
    var c := s.calls[j];
    assert s'.calls[j] == c;
    assert CallOK(x, cfg, View(s, c.op.key), s.made, c, MessageOf(s, j));
    FrameMade(x, cfg, s, s', id, j);
    FrameView(s, s', id, j);
    CallStaysOK(x, cfg, View(s, c.op.key), View(s', c.op.key), s.made, s'.made, c, MessageOf(s, j));
  }

  lemma FrameOtherLog(x: Relations, cfg: Config, s: State, s': State, id: CallId, j: CallId)
    requires Inv(x, cfg, s) && Local(s, s', id) && j in s.calls && j != id
    ensures LogOK(s'.log, j, s'.calls[j])
    ensures Holding(s.calls[j].pc) && Holding(s'.calls[id].pc) ==> s.calls[j].op.key != s.calls[id].op.key
  {
    assert s'.calls[j] == s.calls[j];
    assert CallOK(x, cfg, View(s, s.calls[j].op.key), s.made, s.calls[j], MessageOf(s, j));
    if s'.log != s.log {
      assert Logged(s.calls[j].pc) ==> s'.log[..s.calls[j].pos] == s.log[..s.calls[j].pos];
    }
  }

  lemma FrameCalls(x: Relations, cfg: Config, s: State, s': State, id: CallId)
    requires Inv(x, cfg, s) && Stepped(x, cfg, s, s', id)
    ensures CallsOK(x, cfg, s')
  {
    forall j | j in s.calls && j != id
      ensures CallOK(x, cfg, View(s', s'.calls[j].op.key), s'.made, s'.calls[j], MessageOf(s', j))
    {
      FrameOther(x, cfg, s, s', id, j);
    }
  }

  lemma FrameLogs(x: Relations, cfg: Config, s: State, s': State, id: CallId)
    requires Inv(x, cfg, s) && Local(s, s', id)
    ensures LogsOK(s')
  {
    assert s'.log[..|s.log|] == s.log;
    forall j | j in s'.calls
      ensures LogOK(s'.log, j, s'.calls[j])
    {
      if j != id {
        FrameOtherLog(x, cfg, s, s', id, j);
      } else {
        assert LogOK(s.log, id, s.calls[id]);
      }
    }
  }

  lemma FrameExclusive(x: Relations, cfg: Config, s: State, s': State, id: CallId)
    requires Inv(x, cfg, s) && Local(s, s', id)
    ensures Exclusive(s')
  {
    forall j | j in s.calls && j != id
      ensures Holding(s.calls[j].pc) && Holding(s'.calls[id].pc) ==> s.calls[j].op.key != s.calls[id].op.key
    {
      FrameOtherLog(x, cfg, s, s', id, j);
    }
  }

  lemma FrameFree(x: Relations, cfg: Config, s: State, s': State, id: CallId)
    requires Inv(x, cfg, s) && Stepped(x, cfg, s, s', id)
    ensures FreeKeysSettled(s')
  {
    forall k: Key | k != s.calls[id].op.key && Free(s', k)
      ensures Settled(View(s', k), s'.made, s'.log, k)
    {
      assert View(s', k) == View(s, k);
      if s'.log != s.log {
        LatestSkips(s'.log, |s.log|, k);
        assert s'.log[..|s.log|] == s.log;
      }
    }
  }

  lemma FrameStores(x: Relations, cfg: Config, s: State, s': State, id: CallId)
    requires Inv(x, cfg, s) && Stepped(x, cfg, s, s', id)
    ensures StoresOK(x, s')
  {
    forall k: Key | k != s.calls[id].op.key
      ensures StoreOK(x, s'.made, ViewStore(s', k))
    {
      assert StoreOK(x, s.made, ViewStore(s, k));
    }
  }

  lemma Frame(x: Relations, cfg: Config, s: State, s': State, id: CallId)
    requires Inv(x, cfg, s) && Stepped(x, cfg, s, s', id)
    ensures Inv(x, cfg, s')
  {
    FrameCalls(x, cfg, s, s', id);
    FrameLogs(x, cfg, s, s', id);
    FrameExclusive(x, cfg, s, s', id);
    FrameFree(x, cfg, s, s', id);
    FrameStores(x, cfg, s, s', id);
    assert LogOK(s.log, id, s.calls[id]);
  }

  /* ---------- what is local ---------- */

  // A step that changes one call, at most its message, and no table.
  ghost predicate Moves(s: State, s': State, id: CallId, c': Call) {
    && id in s.calls && s'.calls == s.calls[id := c']
    && c'.op == s.calls[id].op && c'.pos == s.calls[id].pos
    && c'.seen == s.calls[id].seen && c'.prev == s.calls[id].prev
    && (Holding(c'.pc) ==> Holding(s.calls[id].pc)) && (Logged(c'.pc) ==> Logged(s.calls[id].pc))
    && (s'.wire == s.wire || s'.wire == s.wire - {id} || (id in s'.wire && s'.wire == s.wire[id := s'.wire[id]]))
    && s'.log == s.log
  }

  ghost predicate SameTables(s: State, s': State) {
    s'.keySet == s.keySet && s'.valueSizes == s.valueSizes && s'.masterKeys == s.masterKeys && s'.locks == s.locks
  }

  lemma MoveIsLocal(s: State, s': State, id: CallId, c': Call)
    requires Moves(s, s', id, c') && SameTables(s, s')
    requires s'.store == s.store && s'.written == s.written && s'.made == s.made
    ensures Local(s, s', id)
    ensures forall k: Key :: View(s', k) == View(s, k) && ViewStore(s', k) == ViewStore(s, k)
  {}

  // A step that stores a block of the call's key.
  lemma StoringIsLocal(s: State, s': State, id: CallId, block: seq<Slot>)
    requires id in s.calls && Moves(s, s', id, s.calls[id]) && SameTables(s, s') && s'.made == s.made
    requires s'.store == s.store[s.calls[id].op.key := block]
    requires s'.written == s.written[s.calls[id].op.key := s.calls[id].pos]
    ensures Local(s, s', id) && s'.calls[id] == s.calls[id]
    ensures forall k: Key :: View(s', k) == View(s, k)
    ensures ViewStore(s', s.calls[id].op.key) == StoreView(Some(block), Some(s.calls[id].pos))
  {}

  // A step of the lock's holder that fills in the proxy's tables for its key.
  lemma FillingIsLocal(s: State, s': State, id: CallId, c': Call)
    requires Moves(s, s', id, c') && Holding(s.calls[id].pc)
    requires var k := s.calls[id].op.key;
             && s'.store == s.store && s'.written == s.written && s'.locks == s.locks
             && (s'.keySet == s.keySet || s'.keySet == s.keySet + {k})
             && (s'.valueSizes == s.valueSizes || s'.valueSizes == s.valueSizes[k := |s.calls[id].op.value|])
             && (s'.masterKeys == s.masterKeys
                 || (k in s'.masterKeys && s'.masterKeys == s.masterKeys[k := s'.masterKeys[k]]))
    requires Grows(s.made, s'.made, s.calls[id])
    ensures Local(s, s', id)
    ensures ViewStore(s', s.calls[id].op.key) == ViewStore(s, s.calls[id].op.key)
  {}

  /* ---------- one lemma per kind of step ---------- */

  // What a step by or for this call may rely on ...
  ghost predicate Here(x: Relations, cfg: Config, s: State, id: CallId) {
    && id in s.calls
    && var c := s.calls[id];
    && CallOK(x, cfg, View(s, c.op.key), s.made, c, MessageOf(s, id))
    && LogOK(s.log, id, c)
    && (Free(s, c.op.key) ==> Settled(View(s, c.op.key), s.made, s.log, c.op.key))
    && StoreOK(x, s.made, ViewStore(s, c.op.key)) && MadeOK(s)
  }

  // ... and what it must establish.
  ghost predicate Stepped(x: Relations, cfg: Config, s: State, s': State, id: CallId) {
    && Local(s, s', id)
    && var c' := s'.calls[id];
    && CallOK(x, cfg, View(s', c'.op.key), s'.made, c', MessageOf(s', id))
    && (Free(s', c'.op.key) ==> Settled(View(s', c'.op.key), s'.made, s'.log, c'.op.key))
    && StoreOK(x, s'.made, ViewStore(s', c'.op.key))
  }

  lemma BeginOrAbort(x: Relations, cfg: Config, s: State, id: CallId, newMaster: MasterKey, nonces: Nonces)
    requires Here(x, cfg, s, id) && Enabled(s, Advance(id, newMaster, nonces))
    requires s.calls[id].pc.Begin? || s.calls[id].pc.AbortNext?
    ensures Stepped(x, cfg, s, AdvanceStep(cfg, s, id, newMaster, nonces), id)
  {
    var s' := AdvanceStep(cfg, s, id, newMaster, nonces);
    MoveIsLocal(s, s', id, s'.calls[id]);
  }

  lemma LockBusyIsLocal(s: State, s': State, id: CallId)
    requires id in s.calls && !Holding(s.calls[id].pc) && !Free(s, s.calls[id].op.key)
    requires s' == Goto(s.(locks := s.locks[s.calls[id].op.key := false]), id, s.calls[id], AbortNext)
    ensures Local(s, s', id)
    ensures forall k: Key :: View(s', k) == View(s, k) && ViewStore(s', k) == ViewStore(s, k)
  {}

  lemma LockBusy(x: Relations, cfg: Config, s: State, s': State, id: CallId)
    requires Here(x, cfg, s, id)
    requires s.calls[id].pc.LockForCreate? || s.calls[id].pc.LockForAccess?
    requires !Free(s, s.calls[id].op.key)
    requires s' == Goto(s.(locks := s.locks[s.calls[id].op.key := false]), id, s.calls[id], AbortNext)
    ensures Stepped(x, cfg, s, s', id)
  {
    LockBusyIsLocal(s, s', id);
  }

  lemma LockTakenIsLocal(s: State, s': State, id: CallId, next: Pc)
    requires id in s.calls && !Logged(s.calls[id].pc) && Free(s, s.calls[id].op.key) && Holding(next)
    requires s' == TakeLock(s, id, s.calls[id], next)
    ensures Local(s, s', id)
    ensures View(s', s.calls[id].op.key) == View(s, s.calls[id].op.key).(free := false)
    ensures ViewStore(s', s.calls[id].op.key) == ViewStore(s, s.calls[id].op.key)
  {
    assert s'.log == s.log + [LogEntry(id, s.calls[id].op)];
  }

  lemma LockTaken(x: Relations, cfg: Config, s: State, s': State, id: CallId, next: Pc)
    requires Here(x, cfg, s, id)
    requires (s.calls[id].pc.LockForCreate? && next == MakeCreate) ||
             (s.calls[id].pc.LockForAccess? && next == MakeAccess)
    requires Free(s, s.calls[id].op.key)
    requires s' == TakeLock(s, id, s.calls[id], next)
    ensures Stepped(x, cfg, s, s', id)
  {
    LockTakenIsLocal(s, s', id, next);
    assert s'.log[..|s.log|] == s.log;
  }

  lemma Locking(x: Relations, cfg: Config, s: State, id: CallId, newMaster: MasterKey, nonces: Nonces)
    requires Here(x, cfg, s, id) && Enabled(s, Advance(id, newMaster, nonces))
    requires s.calls[id].pc.LockForCreate? || s.calls[id].pc.LockForAccess?
    ensures Stepped(x, cfg, s, AdvanceStep(cfg, s, id, newMaster, nonces), id)
  {
    var s' := AdvanceStep(cfg, s, id, newMaster, nonces);
    if Free(s, s.calls[id].op.key) {
      LockTaken(x, cfg, s, s', id, if s.calls[id].pc.LockForCreate? then MakeCreate else MakeAccess);
    } else {
      LockBusy(x, cfg, s, s', id);
    }
  }

  // An exception while the key is held changes nothing but the call itself.
  lemma ThrownHolding(x: Relations, cfg: Config, s: State, s': State, id: CallId)
    requires Here(x, cfg, s, id) && Holding(s.calls[id].pc)
    requires s' == Goto(s, id, s.calls[id], Thrown)
    ensures Stepped(x, cfg, s, s', id)
  {
    MoveIsLocal(s, s', id, s'.calls[id]);
  }

  lemma CreateMade(x: Relations, cfg: Config, s: State, s': State, id: CallId, newMaster: MasterKey, entry: Entry)
    requires Here(x, cfg, s, id) && s.calls[id].pc.MakeCreate?
    requires s' == CreateReady(s, id, s.calls[id], newMaster, entry)
    requires x.creates(entry, s.calls[id].op.key, newMaster, s.calls[id].op.value)
    ensures Stepped(x, cfg, s, s', id)
  {
    FillingIsLocal(s, s', id, s'.calls[id]);
  }

  lemma MakingCreate(x: Relations, cfg: Config, s: State, id: CallId, newMaster: MasterKey, nonces: Nonces)
    requires Lawful(x, cfg) && Here(x, cfg, s, id) && Enabled(s, Advance(id, newMaster, nonces))
    requires s.calls[id].pc.MakeCreate?
    ensures Stepped(x, cfg, s, AdvanceStep(cfg, s, id, newMaster, nonces), id)
  {
    var s' := AdvanceStep(cfg, s, id, newMaster, nonces);
    var op := s.calls[id].op;
    if |op.value| > cfg.valueSize {
      ThrownHolding(x, cfg, s, s', id);
    } else {
      CreateMade(x, cfg, s, s', id, newMaster, CreateFor(cfg, op.key, newMaster, op.value));
    }
  }

  lemma CreateRecorded(x: Relations, cfg: Config, s: State, s': State, id: CallId)
    requires Here(x, cfg, s, id) && s.calls[id].pc.RecordCreate?
    requires var c := s.calls[id];
             s' == Goto(s.(valueSizes := s.valueSizes[c.op.key := |c.op.value|]), id, c, InsertKey(c.pc.entry))
    ensures Stepped(x, cfg, s, s', id)
  {
    FillingIsLocal(s, s', id, s'.calls[id]);
  }

  lemma KeyInserted(x: Relations, cfg: Config, s: State, s': State, id: CallId)
    requires Here(x, cfg, s, id) && s.calls[id].pc.InsertKey?
    requires var c := s.calls[id]; s' == Goto(s.(keySet := s.keySet + {c.op.key}), id, c, SendCreate(c.pc.entry))
    ensures Stepped(x, cfg, s, s', id)
  {
    FillingIsLocal(s, s', id, s'.calls[id]);
  }

  lemma CreateSent(x: Relations, cfg: Config, s: State, s': State, id: CallId)
    requires Here(x, cfg, s, id) && s.calls[id].pc.SendCreate?
    requires s' == Goto(s.(wire := s.wire[id := CreateMsg(s.calls[id].pc.entry)]), id, s.calls[id], CountAccess)
    ensures Stepped(x, cfg, s, s', id)
  {
    MoveIsLocal(s, s', id, s'.calls[id]);
  }

  lemma Creating(x: Relations, cfg: Config, s: State, id: CallId, newMaster: MasterKey, nonces: Nonces)
    requires Here(x, cfg, s, id) && Enabled(s, Advance(id, newMaster, nonces))
    requires s.calls[id].pc.RecordCreate? || s.calls[id].pc.InsertKey? || s.calls[id].pc.SendCreate?
    ensures Stepped(x, cfg, s, AdvanceStep(cfg, s, id, newMaster, nonces), id)
  {
    var s' := AdvanceStep(cfg, s, id, newMaster, nonces);
    if s.calls[id].pc.RecordCreate? {
      CreateRecorded(x, cfg, s, s', id);
    } else if s.calls[id].pc.InsertKey? {
      KeyInserted(x, cfg, s, s', id);
    } else {
      CreateSent(x, cfg, s, s', id);
    }
  }

  lemma AccessMade(x: Relations, cfg: Config, s: State, s': State, id: CallId, newMaster: MasterKey, entry: Entry)
    requires Here(x, cfg, s, id) && s.calls[id].pc.MakeAccess?
    requires s' == AccessReady(s, id, s.calls[id], newMaster, entry)
    requires x.leads(entry, MasterOf(s, s.calls[id].op.key), newMaster, s.calls[id].op)
    ensures Stepped(x, cfg, s, s', id)
  {
    FillingIsLocal(s, s', id, s'.calls[id]);
  }

  lemma MakingAccess(x: Relations, cfg: Config, s: State, id: CallId, newMaster: MasterKey, nonces: Nonces)
    requires Lawful(x, cfg) && Here(x, cfg, s, id) && Enabled(s, Advance(id, newMaster, nonces))
    requires s.calls[id].pc.MakeAccess?
    ensures Stepped(x, cfg, s, AdvanceStep(cfg, s, id, newMaster, nonces), id)
  {
    var s' := AdvanceStep(cfg, s, id, newMaster, nonces);
    var op := s.calls[id].op;
    if !op.IsGet() && |op.value| > cfg.valueSize {
      ThrownHolding(x, cfg, s, s', id);
    } else {
      AccessMade(x, cfg, s, s', id, newMaster, AccessFor(cfg, MasterOf(s, op.key), newMaster, op, nonces));
    }
  }

  lemma PutRecorded(x: Relations, cfg: Config, s: State, s': State, id: CallId)
    requires Here(x, cfg, s, id) && s.calls[id].pc.RecordPut?
    requires var c := s.calls[id];
             s' == Goto(s.(valueSizes := s.valueSizes[c.op.key := |c.op.value|]), id, c, SendAccess(c.pc.entry))
    ensures Stepped(x, cfg, s, s', id)
  {
    FillingIsLocal(s, s', id, s'.calls[id]);
  }

  lemma AccessSent(x: Relations, cfg: Config, s: State, s': State, id: CallId)
    requires Here(x, cfg, s, id) && s.calls[id].pc.SendAccess?
    requires s' == Goto(s.(wire := s.wire[id := AccessMsg(s.calls[id].pc.entry)]), id, s.calls[id], AwaitReply)
    ensures Stepped(x, cfg, s, s', id)
  {
    MoveIsLocal(s, s', id, s'.calls[id]);
  }

  lemma SendingAccess(x: Relations, cfg: Config, s: State, id: CallId, newMaster: MasterKey, nonces: Nonces)
    requires Lawful(x, cfg) && Here(x, cfg, s, id) && Enabled(s, Advance(id, newMaster, nonces))
    requires s.calls[id].pc.RecordPut? || s.calls[id].pc.SendAccess?
    ensures Stepped(x, cfg, s, AdvanceStep(cfg, s, id, newMaster, nonces), id)
  {
    var s' := AdvanceStep(cfg, s, id, newMaster, nonces);
    if s.calls[id].pc.RecordPut? {
      PutRecorded(x, cfg, s, s', id);
    } else {
      AccessSent(x, cfg, s, s', id);
    }
  }

  lemma TakingReply(x: Relations, cfg: Config, s: State, id: CallId, newMaster: MasterKey, nonces: Nonces)
    requires Here(x, cfg, s, id) && Enabled(s, Advance(id, newMaster, nonces))
    requires s.calls[id].pc.AwaitReply?
    ensures Stepped(x, cfg, s, AdvanceStep(cfg, s, id, newMaster, nonces), id)
  {
    var s' := AdvanceStep(cfg, s, id, newMaster, nonces);
    MoveIsLocal(s, s', id, s'.calls[id]);
  }

  lemma Decoding(x: Relations, cfg: Config, s: State, id: CallId, newMaster: MasterKey, nonces: Nonces)
    requires Lawful(x, cfg) && Here(x, cfg, s, id) && Enabled(s, Advance(id, newMaster, nonces))
    requires s.calls[id].pc.Decode?
    ensures Stepped(x, cfg, s, AdvanceStep(cfg, s, id, newMaster, nonces), id)
  {
    var s' := AdvanceStep(cfg, s, id, newMaster, nonces);
    MoveIsLocal(s, s', id, s'.calls[id]);
    var c, k := s.calls[id], s.calls[id].op.key;
    assert x.answers(MasterOf(s, k), c.seen.value, c.pc.labels);
  }

  lemma Counting(x: Relations, cfg: Config, s: State, s': State, id: CallId)
    requires Here(x, cfg, s, id) && s.calls[id].pc.CountAccess?
    requires s' == Goto(s.(accesses := s.accesses + 1), id, s.calls[id], Unlock)
    ensures Stepped(x, cfg, s, s', id)
  {
    MoveIsLocal(s, s', id, s'.calls[id]);
  }

  lemma UnlockingIsLocal(s: State, s': State, id: CallId)
    requires id in s.calls && s.calls[id].pc.Unlock?
    requires s' == Goto(s.(locks := s.locks[s.calls[id].op.key := true]), id, s.calls[id], Done)
    ensures Local(s, s', id)
    ensures View(s', s.calls[id].op.key) == View(s, s.calls[id].op.key).(free := true)
    ensures ViewStore(s', s.calls[id].op.key) == ViewStore(s, s.calls[id].op.key)
  {}

  lemma FinishedIsSettled(cfg: Config, view: KeyView, made: map<nat, Version>, c: Call, msg: Option<Message>,
                          log: seq<LogEntry>, id: CallId)
    requires IsFinished(cfg, view, made, c, msg) && Holding(c.pc) && LogOK(log, id, c)
    ensures Settled(view.(free := true), made, log, c.op.key)
  {
    LatestIsAfter(log, id, c);
  }

  lemma DoneOK(x: Relations, cfg: Config, view: KeyView, made: map<nat, Version>, c: Call, msg: Option<Message>)
    requires CallOK(x, cfg, view, made, c, msg) && c.pc.Unlock?
    ensures CallOK(x, cfg, view.(free := true), made, c.(pc := Done), msg)
  {}

  // The unlock publishes the call's version, delivered or not.
  lemma Unlocking(x: Relations, cfg: Config, s: State, s': State, id: CallId)
    requires Here(x, cfg, s, id) && s.calls[id].pc.Unlock?
    requires s' == Goto(s.(locks := s.locks[s.calls[id].op.key := true]), id, s.calls[id], Done)
    ensures Stepped(x, cfg, s, s', id)
  {
    UnlockingIsLocal(s, s', id);
    DoneOK(x, cfg, View(s, s.calls[id].op.key), s.made, s.calls[id], MessageOf(s, id));
    FinishedIsSettled(cfg, View(s, s.calls[id].op.key), s.made, s.calls[id], MessageOf(s, id), s.log, id);
  }

  lemma Finishing(x: Relations, cfg: Config, s: State, id: CallId, newMaster: MasterKey, nonces: Nonces)
    requires Here(x, cfg, s, id) && Enabled(s, Advance(id, newMaster, nonces))
    requires s.calls[id].pc.CountAccess? || s.calls[id].pc.Unlock?
    ensures Stepped(x, cfg, s, AdvanceStep(cfg, s, id, newMaster, nonces), id)
  {
    var s' := AdvanceStep(cfg, s, id, newMaster, nonces);
    if s.calls[id].pc.CountAccess? {
      Counting(x, cfg, s, s', id);
    } else {
      Unlocking(x, cfg, s, s', id);
    }
  }

  lemma ThrownMessageOK(x: Relations, cfg: Config, view: KeyView, made: map<nat, Version>, c: Call,
                        msg: Option<Message>, msg': Option<Message>)
    requires CallOK(x, cfg, view, made, c, msg)
    requires c.pc.SendCreate? || c.pc.SendAccess? || c.pc.AwaitReply?
    requires msg' == msg || (c.pc.SendCreate? && msg' == Some(CreateMsg(c.pc.entry)))
          || (c.pc.SendAccess? && msg' == Some(AccessMsg(c.pc.entry)))
    ensures CallOK(x, cfg, view, made, c.(pc := Thrown), msg')
  {}

  lemma Throwing(x: Relations, cfg: Config, s: State, id: CallId, sent: bool)
    requires Lawful(x, cfg) && Here(x, cfg, s, id) && Enabled(s, Throw(id, sent))
    ensures Stepped(x, cfg, s, ThrowStep(s, id, sent), id)
  {
    var s' := ThrowStep(s, id, sent);
    var c := s.calls[id];
    MoveIsLocal(s, s', id, s'.calls[id]);
    ThrownMessageOK(x, cfg, View(s, c.op.key), s.made, c, MessageOf(s, id), MessageOf(s', id));
  }

  // A create stores its version whenever it arrives, under the lock or long after it.
  lemma Delivering(x: Relations, cfg: Config, s: State, s': State, id: CallId)
    requires Lawful(x, cfg) && Here(x, cfg, s, id) && id in s.wire && s.wire[id].CreateMsg?
    requires s' == StoreBlock(s, id, s.wire[id].entry.keyName, s.wire[id].entry.labels, s.wire - {id})
    requires s.wire[id].entry.CreateEntry?
    ensures Stepped(x, cfg, s, s', id)
  {
    StoringIsLocal(s, s', id, s.wire[id].entry.labels);
  }

  // A read that is not fresh finds a stale block.
  ghost predicate ReadsStale(x: Relations, s: State, id: CallId) {
    id in s.calls && HasPrior(s.made, s.calls[id]) && !Fresh(s, s.calls[id]) ==>
      x.stale(s.made[s.calls[id].prev.value].master, Stored(s.store, s.calls[id].op.key))
  }

  lemma ReadFinds(x: Relations, cfg: Config, s: State, id: CallId)
    requires Here(x, cfg, s, id) && HasPrior(s.made, s.calls[id]) && ReadsStale(x, s, id)
    ensures var c := s.calls[id]; IsRead(x, s.made, c, Stored(s.store, c.op.key), Fresh(s, c))
  {}

  // A read finds the version before it, if it is fresh.
  lemma ReadMessageOK(x: Relations, cfg: Config, view: KeyView, made: map<nat, Version>, c: Call, entry: Entry,
                      block: seq<Slot>, timely: bool)
    requires CallOK(x, cfg, view, made, c, Some(AccessMsg(entry))) && IsRead(x, made, c, block, timely)
    ensures CallOK(x, cfg, view, made, c, Some(AccessBusy(entry, block, timely)))
  {}

  lemma Reading(x: Relations, cfg: Config, s: State, s': State, id: CallId)
    requires Here(x, cfg, s, id) && id in s.wire && s.wire[id].AccessMsg?
    requires var c := s.calls[id];
             s' == s.(wire := s.wire[id := AccessBusy(s.wire[id].entry, Stored(s.store, c.op.key), Fresh(s, c))])
    requires ReadsStale(x, s, id)
    ensures Stepped(x, cfg, s, s', id)
  {
    var c := s.calls[id];
    MoveIsLocal(s, s', id, c);
    ReadFinds(x, cfg, s, id);
    ReadMessageOK(x, cfg, View(s, c.op.key), s.made, c, s.wire[id].entry, Stored(s.store, c.op.key), Fresh(s, c));
  }

  // After a fresh read every covered slot opens, and the new version is stored; otherwise
  // the server exits.
  lemma Writing(x: Relations, cfg: Config, s: State, id: CallId, answer: Option<seq<Slot>>)
    requires Lawful(x, cfg) && Here(x, cfg, s, id) && id in s.wire && s.wire[id].AccessBusy?
    requires answer.Some? ==> IsAnswer(x, s.made, s.calls[id], answer.value)
    ensures Stepped(x, cfg, s, WriteBack(s, id, s.calls[id].op.key, answer), id)
  {
    var s' := WriteBack(s, id, s.calls[id].op.key, answer);
    if answer.Some? {
      StoringIsLocal(s, s', id, answer.value);
    } else {
      MoveIsLocal(s, s', id, s.calls[id]);
    }
  }

  // The failed-open exit is taken exactly after a read that was not fresh.
  lemma ExitsIffNotTimely(x: Relations, cfg: Config, s: State, id: CallId)
    requires Lawful(x, cfg) && Here(x, cfg, s, id) && Enabled(s, ServerWrite(id))
    requires s.wire[id].timely || Refuses(x, cfg)
    ensures var answer := AccessResult(s.wire[id].entry, s.wire[id].block, cfg.valueSize, cfg.upto);
            && (answer.Some? <==> s.wire[id].timely)
            && (answer.Some? ==> IsAnswer(x, s.made, s.calls[id], answer.value))
            && s.wire[id].entry.keyName == s.calls[id].op.key
  {
    var c := s.calls[id];
    var made := s.made;
    assert x.leads(s.wire[id].entry, made[c.prev.value].master, made[c.pos].master, c.op);
    if s.wire[id].timely {
      assert Serves(x, cfg, s.wire[id].entry, made[c.pos].master, c.op, c.seen.value, s.wire[id].block);
    }
  }

  lemma Serving(x: Relations, cfg: Config, s: State, step: Step)
    requires Lawful(x, cfg) && Here(x, cfg, s, step.id) && Enabled(s, step)
    requires step.ServerCreate? || step.ServerRead? || step.ServerWrite?
    requires step.ServerRead? ==> ReadsStale(x, s, step.id)
    requires step.ServerWrite? ==> s.wire[step.id].timely || Refuses(x, cfg)
    ensures Stepped(x, cfg, s, ServerStep(cfg, s, step), step.id)
  {
    var s' := ServerStep(cfg, s, step);
    var c := s.calls[step.id];
    if step.ServerCreate? {
      assert x.creates(s.wire[step.id].entry, c.op.key, s.made[c.pos].master, c.op.value);
      Delivering(x, cfg, s, s', step.id);
    } else if step.ServerRead? {
      assert x.leads(s.wire[step.id].entry, s.made[c.prev.value].master, s.made[c.pos].master, c.op);
      Reading(x, cfg, s, s', step.id);
    } else {
      ExitsIffNotTimely(x, cfg, s, step.id);
      Writing(x, cfg, s, step.id, AccessResult(s.wire[step.id].entry, s.wire[step.id].block, cfg.valueSize, cfg.upto));
    }
  }

  lemma ArrivalChangesNothing(cfg: Config, s: State, id: CallId, op: Operation)
    requires Enabled(s, Arrive(id, op))
    ensures var s' := Apply(cfg, s, Arrive(id, op));
            && (forall k: Key :: View(s', k) == View(s, k) && ViewStore(s', k) == ViewStore(s, k))
            && (forall j :: MessageOf(s', j) == MessageOf(s, j))
            && (forall j :: j in s'.calls && j != id ==> j in s.calls && s'.calls[j] == s.calls[j])
  {}

  lemma ArrivalKeepsCalls(x: Relations, cfg: Config, s: State, id: CallId, op: Operation)
    requires CallsOK(x, cfg, s) && LogsOK(s) && s.wire.Keys <= s.calls.Keys && Enabled(s, Arrive(id, op))
    ensures CallsOK(x, cfg, Apply(cfg, s, Arrive(id, op))) && LogsOK(Apply(cfg, s, Arrive(id, op)))
  {
    var s' := Apply(cfg, s, Arrive(id, op));
    ArrivalChangesNothing(cfg, s, id, op);
    forall j | j in s'.calls && j != id
      ensures CallOK(x, cfg, View(s', s'.calls[j].op.key), s'.made, s'.calls[j], MessageOf(s', j))
      ensures LogOK(s'.log, j, s'.calls[j])
    {}
  }

  lemma Arriving(x: Relations, cfg: Config, s: State, id: CallId, op: Operation)
    requires Inv(x, cfg, s) && Enabled(s, Arrive(id, op))
    ensures Inv(x, cfg, Apply(cfg, s, Arrive(id, op)))
  {
    ArrivalChangesNothing(cfg, s, id, op);
    ArrivalKeepsCalls(x, cfg, s, id, op);
  }

  // The assumption on a step: reads that are not fresh find stale blocks, and are not
  // written unless the server exits on stale blocks.
  ghost predicate Allowed(x: Relations, cfg: Config, s: State, step: Step)
    requires Enabled(s, step)
  {
    && (step.ServerRead? ==> ReadsStale(x, s, step.id))
    && (step.ServerWrite? ==> s.wire[step.id].timely || Refuses(x, cfg))
  }

  lemma AdvanceIsLocal(x: Relations, cfg: Config, s: State, id: CallId, newMaster: MasterKey, nonces: Nonces)
    requires Lawful(x, cfg) && Here(x, cfg, s, id) && Enabled(s, Advance(id, newMaster, nonces))
    ensures Stepped(x, cfg, s, AdvanceStep(cfg, s, id, newMaster, nonces), id)
  {
    var pc := s.calls[id].pc;
    if pc.Begin? || pc.AbortNext? {
      BeginOrAbort(x, cfg, s, id, newMaster, nonces);
    } else if pc.LockForCreate? || pc.LockForAccess? {
      Locking(x, cfg, s, id, newMaster, nonces);
    } else if pc.MakeCreate? {
      MakingCreate(x, cfg, s, id, newMaster, nonces);
    } else if pc.RecordCreate? || pc.InsertKey? || pc.SendCreate? {
      Creating(x, cfg, s, id, newMaster, nonces);
    } else if pc.MakeAccess? {
      MakingAccess(x, cfg, s, id, newMaster, nonces);
    } else if pc.RecordPut? || pc.SendAccess? {
      SendingAccess(x, cfg, s, id, newMaster, nonces);
    } else if pc.AwaitReply? {
      TakingReply(x, cfg, s, id, newMaster, nonces);
    } else if pc.Decode? {
      Decoding(x, cfg, s, id, newMaster, nonces);
    } else {
      Finishing(x, cfg, s, id, newMaster, nonces);
    }
  }

  lemma StepIsLocal(x: Relations, cfg: Config, s: State, step: Step)
    requires Lawful(x, cfg) && Here(x, cfg, s, step.id) && !step.Arrive? && Enabled(s, step) && Allowed(x, cfg, s, step)
    ensures Stepped(x, cfg, s, Apply(cfg, s, step), step.id)
  {
    match step
    case Advance(id, newMaster, nonces) => AdvanceIsLocal(x, cfg, s, id, newMaster, nonces);
    case Throw(id, sent) => Throwing(x, cfg, s, id, sent);
    case _ => Serving(x, cfg, s, step);
  }

  lemma InvHere(x: Relations, cfg: Config, s: State, id: CallId)
    requires Inv(x, cfg, s) && (id in s.calls || id in s.wire)
    ensures Here(x, cfg, s, id)
  {
    assert id in s.calls;
    assert StoreOK(x, s.made, ViewStore(s, s.calls[id].op.key));
  }

  lemma StepKeepsInv(x: Relations, cfg: Config, s: State, step: Step)
    requires Lawful(x, cfg) && Inv(x, cfg, s) && Enabled(s, step) && Allowed(x, cfg, s, step)
    ensures Inv(x, cfg, Apply(cfg, s, step))
  {
    if step.Arrive? {
      Arriving(x, cfg, s, step.id, step.op);
    } else {
      InvHere(x, cfg, s, step.id);
      StepIsLocal(x, cfg, s, step);
      Frame(x, cfg, s, Apply(cfg, s, step), step.id);
    }
  }
}
