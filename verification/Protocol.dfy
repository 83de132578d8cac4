/**
 ortoa-lbl/proxy.cpp's handleOp, run by any number of threads against one server, as a state
 machine.  One step is one access to shared state: a proxy global, the per-key try-lock, or
 a message.  A call's program counter names the next line it executes.  RPCs are messages;
 the server reads the store and writes it back in separate steps.  Some fields are history,
 which no step depends on.
 */
module Protocol {
  import opened Wrappers
  import opened Bits
  import opened Labels
  import opened Entries
  import opened KvServer

  type CallId = nat

  // The op field is a string: "GET" is a read, anything else is a write.
  datatype Operation = Operation(op: string, key: Key, value: seq<Byte>) {
    predicate IsGet() { op == "GET" }
  }

  // `upto` is the number of slots the server's portions cover; they always cover slot 0.
  datatype Config = Config(kdf: Kdf, valueSize: nat, upto: nat) {
    predicate Valid() { 0 < upto <= 4 * valueSize }
  }

  datatype Pc =
    | Begin                        // 39: keySet.count
    | AbortNext                    // 44, 61, 93: aborted++
    | LockForCreate                // 46: exchange(false)
    | LockForAccess                // 65: exchange(false)
    | MakeCreate                   // 48: constructCreateEntry
    | RecordCreate(entry: Entry)   // 50: valueSizes
    | InsertKey(entry: Entry)      // 51: keySet.insert
    | SendCreate(entry: Entry)     // 53: client.create, oneway
    | MakeAccess                   // 68, 80: constructGetEntry, constructPutEntry
    | RecordPut(entry: Entry)      // 82: valueSizes
    | SendAccess(entry: Entry)     // 70, 84: client.access, the request
    | AwaitReply                   // 70, 84: client.access, the reply
    | Decode(labels: seq<Slot>)    // 75: readValueFromLabels
    | CountAccess                  // 55, 89: accesses++
    | Unlock                       // 56, 90: exchange(true)
    | Done
    | Aborted
    | Thrown                       // an exception left handleOp between locking and unlocking

  // History in the last three fields: the call's place in the lock order, the place of the
  // operation on its key before it, and the value the key had then.
  datatype Call = Call(op: Operation, pc: Pc, ret: seq<Byte>, pos: nat, prev: Option<nat>, seen: Option<seq<Byte>>)

  datatype Message =
    | CreateMsg(entry: Entry)
    | AccessMsg(entry: Entry)
    | AccessBusy(entry: Entry, block: seq<Slot>, timely: bool)   // the server has read the store
    | ReplyMsg(labels: seq<Slot>)

  datatype LogEntry = LogEntry(id: CallId, op: Operation)

  // What an operation makes of its key: the master key and the value.
  datatype Version = Version(master: MasterKey, value: Option<seq<Byte>>)

  datatype State = State(
    keySet: set<Key>, valueSizes: map<Key, nat>, masterKeys: map<Key, MasterKey>, locks: map<Key, bool>,
    accesses: nat, aborted: nat, calls: map<CallId, Call>,
    wire: map<CallId, Message>, store: Database, serverDown: bool,
    log: seq<LogEntry>,        // the operations in the order in which they took their lock
    made: map<nat, Version>,   // by place in the log, once the entry is built
    written: map<Key, nat>)    // the place of the operation whose message the server stored last

  // Registered keys are free; the store may hold anything.
  ghost predicate Init(s: State) {
    && s.keySet == {} && s.valueSizes == map[] && s.masterKeys == map[]
    && (forall k :: k in s.locks ==> s.locks[k])
    && s.accesses == 0 && s.aborted == 0 && s.calls == map[]
    && s.wire == map[] && !s.serverDown && s.log == [] && s.made == map[] && s.written == map[]
  }

  datatype Step =
    | Arrive(id: CallId, op: Operation)
    | Advance(id: CallId, newMaster: MasterKey, nonces: Nonces)
    | Throw(id: CallId, sent: bool)   // the RPC fails, before or after the message left
    | ServerCreate(id: CallId)
    | ServerRead(id: CallId)
    | ServerWrite(id: CallId)

  predicate Enabled(s: State, step: Step) {
    match step
    case Arrive(id, _) => id !in s.calls
    case Advance(id, _, _) =>
      && id in s.calls
      && var pc := s.calls[id].pc;
      && !pc.Done? && !pc.Aborted? && !pc.Thrown?
      && (pc.AwaitReply? ==> id in s.wire && s.wire[id].ReplyMsg?)
    case Throw(id, _) =>
      id in s.calls && (s.calls[id].pc.SendCreate? || s.calls[id].pc.SendAccess? || s.calls[id].pc.AwaitReply?)
    case ServerCreate(id) => !s.serverDown && id in s.wire && s.wire[id].CreateMsg?
    case ServerRead(id) => !s.serverDown && id in s.wire && s.wire[id].AccessMsg?
    case ServerWrite(id) => !s.serverDown && id in s.wire && s.wire[id].AccessBusy?
  }

  predicate Free(s: State, k: Key) {
    k in s.locks && s.locks[k]
  }

  function TargetOf(cfg: Config, op: Operation): Target {
    if op.IsGet() then None else PadToLen(op.value, cfg.valueSize)
  }

  function MasterOf(s: State, k: Key): MasterKey {
    if k in s.masterKeys then s.masterKeys[k] else 0
  }

  function SizeOf(s: State, k: Key): nat {
    if k in s.valueSizes then s.valueSizes[k] else 0
  }

  // The latest written value of a key: the abstract map the log stands for.
  function Latest(log: seq<LogEntry>, k: Key): Option<seq<Byte>> {
    if log == [] then None
    else
      var last := log[|log| - 1].op;
      if last.key == k && !last.IsGet() then Some(last.value) else Latest(log[..|log| - 1], k)
  }

  // The place of the last operation on a key.
  function LastPos(log: seq<LogEntry>, k: Key): Option<nat> {
    if log == [] then None
    else if log[|log| - 1].op.key == k then Some(|log| - 1)
    else LastPos(log[..|log| - 1], k)
  }

  // The value a key has once this call has taken effect.
  function After(c: Call): Option<seq<Byte>> {
    if c.op.IsGet() then c.seen else Some(c.op.value)
  }

  // The store holds what the operation before this one left there.
  predicate Fresh(s: State, c: Call) {
    c.prev.Some? && c.op.key in s.written && s.written[c.op.key] == c.prev.value
  }

  // constructCreateEntry, for a value that fits.
  function CreateFor(cfg: Config, key: Key, master: MasterKey, v: seq<Byte>): Entry
    requires |v| <= cfg.valueSize
  {
    CreateEntry(key, CreateLabels(cfg.kdf, master, PadToLen(v, cfg.valueSize).value))
  }

  // constructGetEntry or constructPutEntry, for a value that fits.
  function AccessFor(cfg: Config, oldMaster: MasterKey, newMaster: MasterKey, op: Operation, nonces: Nonces): Entry
    requires op.IsGet() || |op.value| <= cfg.valueSize
  {
    BuildAccess(cfg.kdf, op.key, oldMaster, newMaster, TargetOf(cfg, op), nonces, cfg.valueSize)
  }

  function Goto(s: State, id: CallId, c: Call, pc: Pc): State {
    s.(calls := s.calls[id := c.(pc := pc)])
  }

  // locks[op.key].exchange(false): operator[] inserts a missing key as a held lock.
  function TakeLock(s: State, id: CallId, c: Call, next: Pc): (s': State)
    ensures s'.serverDown == s.serverDown
  {
    var k := c.op.key;
    if Free(s, k) then
      s.(locks := s.locks[k := false],
         log := s.log + [LogEntry(id, c.op)],
         calls := s.calls[id := c.(pc := next, pos := |s.log|, prev := LastPos(s.log, k), seen := Latest(s.log, k))])
    else
      Goto(s.(locks := s.locks[k := false]), id, c, AbortNext)
  }

  // The proxy now holds newMaster for the key.
  function Rekeyed(s: State, c: Call, newMaster: MasterKey): State {
    s.(masterKeys := s.masterKeys[c.op.key := newMaster], made := s.made[c.pos := Version(newMaster, After(c))])
  }

  function CreateReady(s: State, id: CallId, c: Call, newMaster: MasterKey, entry: Entry): State {
    Goto(Rekeyed(s, c, newMaster), id, c, RecordCreate(entry))
  }

  // A value that does not fit makes padToLen throw before anything changes.
  function MakeCreateStep(cfg: Config, s: State, id: CallId, c: Call, newMaster: MasterKey): (s': State)
    ensures s'.serverDown == s.serverDown
  {
    if |c.op.value| > cfg.valueSize then Goto(s, id, c, Thrown)
    else CreateReady(s, id, c, newMaster, CreateFor(cfg, c.op.key, newMaster, c.op.value))
  }

  function AccessReady(s: State, id: CallId, c: Call, newMaster: MasterKey, entry: Entry): State {
    Goto(Rekeyed(s, c, newMaster), id, c, if c.op.IsGet() then SendAccess(entry) else RecordPut(entry))
  }

  function MakeAccessStep(cfg: Config, s: State, id: CallId, c: Call, newMaster: MasterKey, nonces: Nonces): (s': State)
    ensures s'.serverDown == s.serverDown
  {
    if !c.op.IsGet() && |c.op.value| > cfg.valueSize then Goto(s, id, c, Thrown)
    else AccessReady(s, id, c, newMaster, AccessFor(cfg, MasterOf(s, c.op.key), newMaster, c.op, nonces))
  }

  function AdvanceStep(cfg: Config, s: State, id: CallId, newMaster: MasterKey, nonces: Nonces): State
    requires Enabled(s, Advance(id, newMaster, nonces))
  {
    var c := s.calls[id];
    var k := c.op.key;
    match c.pc
    case Begin =>
      Goto(s, id, c, if k in s.keySet then LockForAccess else if c.op.IsGet() then AbortNext else LockForCreate)
    case AbortNext => Goto(s.(aborted := s.aborted + 1), id, c, Aborted)
    case LockForCreate => TakeLock(s, id, c, MakeCreate)
    case LockForAccess => TakeLock(s, id, c, MakeAccess)
    case MakeCreate => MakeCreateStep(cfg, s, id, c, newMaster)
    case RecordCreate(entry) => Goto(s.(valueSizes := s.valueSizes[k := |c.op.value|]), id, c, InsertKey(entry))
    case InsertKey(entry) => Goto(s.(keySet := s.keySet + {k}), id, c, SendCreate(entry))
    case SendCreate(entry) => Goto(s.(wire := s.wire[id := CreateMsg(entry)]), id, c, CountAccess)
    case MakeAccess => MakeAccessStep(cfg, s, id, c, newMaster, nonces)
    case RecordPut(entry) => Goto(s.(valueSizes := s.valueSizes[k := |c.op.value|]), id, c, SendAccess(entry))
    case SendAccess(entry) => Goto(s.(wire := s.wire[id := AccessMsg(entry)]), id, c, AwaitReply)
    case AwaitReply =>
      Goto(s.(wire := s.wire - {id}), id, c, if c.op.IsGet() then Decode(s.wire[id].labels) else CountAccess)
    case Decode(labels) =>
      var value :=
        if |labels| == 4 * cfg.valueSize then ReadValue(MasterOf(s, k), labels, cfg.valueSize, SizeOf(s, k)) else [];
      Goto(s, id, c.(ret := value), CountAccess)
    case CountAccess => Goto(s.(accesses := s.accesses + 1), id, c, Unlock)
    case Unlock => Goto(s.(locks := s.locks[k := true]), id, c, Done)
    case Done => s
    case Aborted => s
    case Thrown => s
  }

  // The messages after an RPC that failed before or after its message left.
  function ThrowWire(s: State, id: CallId, sent: bool): map<CallId, Message>
    requires Enabled(s, Throw(id, sent))
  {
    var pc := s.calls[id].pc;
    if sent && pc.SendCreate? then s.wire[id := CreateMsg(pc.entry)]
    else if sent && pc.SendAccess? then s.wire[id := AccessMsg(pc.entry)]
    else s.wire
  }

  function ThrowStep(s: State, id: CallId, sent: bool): State
    requires Enabled(s, Throw(id, sent))
  {
    s.(wire := ThrowWire(s, id, sent), calls := s.calls[id := s.calls[id].(pc := Thrown)])
  }

  // The server stores a block that call id sent or asked for.
  function StoreBlock(s: State, id: CallId, key: Key, block: seq<Slot>, wire: map<CallId, Message>): State {
    s.(store := s.store[key := block],
       written := if id in s.calls then s.written[key := s.calls[id].pos] else s.written,
       wire := wire)
  }

  // The server stores its answer, or exits for want of one.
  function WriteBack(s: State, id: CallId, key: Key, answer: Option<seq<Slot>>): State {
    if answer.None? then s.(serverDown := true)
    else StoreBlock(s, id, key, answer.value, s.wire[id := ReplyMsg(answer.value)])
  }

  ghost function ServerStep(cfg: Config, s: State, step: Step): State
    requires Enabled(s, step) && (step.ServerCreate? || step.ServerRead? || step.ServerWrite?)
  {
    var id := step.id;
    var entry := s.wire[id].entry;
    match step
    case ServerCreate(_) =>
      StoreBlock(s, id, entry.keyName, if entry.CreateEntry? then entry.labels else [], s.wire - {id})
    case ServerRead(_) =>
      var timely := id in s.calls && Fresh(s, s.calls[id]);
      s.(wire := s.wire[id := AccessBusy(entry, Stored(s.store, entry.keyName), timely)])
    case ServerWrite(_) =>
      WriteBack(s, id, entry.keyName, AccessResult(entry, s.wire[id].block, cfg.valueSize, cfg.upto))
  }

  ghost function Apply(cfg: Config, s: State, step: Step): State
    requires Enabled(s, step)
  {
    match step
    case Arrive(id, op) => s.(calls := s.calls[id := Call(op, Begin, [], 0, None, None)])
    case Advance(id, newMaster, nonces) => AdvanceStep(cfg, s, id, newMaster, nonces)
    case Throw(id, sent) => ThrowStep(s, id, sent)
    case _ => ServerStep(cfg, s, step)
  }

  ghost predicate IsRun(cfg: Config, states: seq<State>, steps: seq<Step>) {
    && |states| == |steps| + 1
    && Init(states[0])
    && forall i :: 0 <= i < |steps| ==> Enabled(states[i], steps[i]) && states[i + 1] == Apply(cfg, states[i], steps[i])
  }
}
