/**
 Runs of the protocol that do happen, for every configuration: any sequence of operations one
 after the other, a failed call whose message still arrives or never does, and a GET that
 overtakes the create of its key.  They decide what the server as written returns of long
 values.
 */
module Scenarios {
  import opened Wrappers
  import opened Bits
  import opened Partition
  import opened Labels
  import opened Entries
  import opened KvServer
  import opened Protocol
  import opened Linearizability
  import opened MasterKeys
  import opened ProtocolRuns
  import opened LockTable
  import opened ProtocolAccounting
  import opened Delivery

  /* ---------- building runs ---------- */

  ghost predicate KeyIsMade(s: State, m: MasterKey) {
    exists p :: p in s.made && s.made[p].master == m
  }

  // A run from an empty store that never draws a master key twice, and is orderly if asked.
  ghost predicate EndsIn(cfg: Config, orderly: bool, states: seq<State>, steps: seq<Step>, s: State) {
    && IsRun(cfg, states, steps) && states[|steps|] == s && states[0].store == map[]
    && (orderly ==> OrderlyRun(states, steps)) && NewKeysRun(cfg, states, steps)
    && DrawnKeysAreMade(cfg, states, steps, s)
  }

  ghost predicate Reaches(cfg: Config, orderly: bool, s: State) {
    exists states: seq<State>, steps: seq<Step> :: EndsIn(cfg, orderly, states, steps, s)
  }

  ghost predicate DrawsANewKey(cfg: Config, s: State, step: Step) {
    Draws(cfg, s, step) ==> s.calls[step.id].pos !in s.made && !KeyIsMade(s, step.newMaster)
  }

  lemma MadeKeysStay(cfg: Config, s: State, step: Step, m: MasterKey)
    requires Enabled(s, step) && DrawsANewKey(cfg, s, step) && KeyIsMade(s, m)
    ensures KeyIsMade(Apply(cfg, s, step), m)
  {
    var p :| p in s.made && s.made[p].master == m;
    OnlyDrawsChangeKeys(cfg, s, step);
    assert p in Apply(cfg, s, step).made;
  }

  lemma DrawnKeyIsMade(cfg: Config, s: State, step: Step)
    requires Enabled(s, step) && Draws(cfg, s, step)
    ensures KeyIsMade(Apply(cfg, s, step), step.newMaster)
  {
    OnlyDrawsChangeKeys(cfg, s, step);
    assert s.calls[step.id].pos in Apply(cfg, s, step).made;
  }

  lemma RunGoesOn(cfg: Config, states: seq<State>, steps: seq<Step>, step: Step, s': State)
    requires IsRun(cfg, states, steps) && Enabled(states[|steps|], step) && s' == Apply(cfg, states[|steps|], step)
    ensures IsRun(cfg, states + [s'], steps + [step])
  {}

  lemma KeysStayNew(cfg: Config, states: seq<State>, steps: seq<Step>, step: Step, s': State)
    requires |states| == |steps| + 1 && states[0].store == map[] && NewKeysRun(cfg, states, steps)
    requires DrawsANewKey(cfg, states[|steps|], step)
    requires forall i :: 0 <= i < |steps| && Draws(cfg, states[i], steps[i]) ==>
               KeyIsMade(states[|steps|], steps[i].newMaster)
    ensures NewKeysRun(cfg, states + [s'], steps + [step])
  {
    var states', steps' := states + [s'], steps + [step];
    forall i, j | 0 <= i < j < |steps'| && Draws(cfg, states'[i], steps'[i]) && Draws(cfg, states'[j], steps'[j])
      ensures steps'[i].newMaster != steps'[j].newMaster
    {
      assert states'[i] == states[i] && steps'[i] == steps[i];
    }
    forall i, k: Key | 0 <= i < |steps'| && Draws(cfg, states'[i], steps'[i])
      ensures IsForeign(cfg, steps'[i].newMaster, Stored(states'[0].store, k))
    {}
  }

  ghost predicate DrawnKeysAreMade(cfg: Config, states: seq<State>, steps: seq<Step>, s: State)
    requires |states| == |steps| + 1
  {
    forall i :: 0 <= i < |steps| && Draws(cfg, states[i], steps[i]) ==> KeyIsMade(s, steps[i].newMaster)
  }

  lemma DrawnKeysStayMade(cfg: Config, states: seq<State>, steps: seq<Step>, step: Step, s': State)
    requires |states| == |steps| + 1 && Enabled(states[|steps|], step) && s' == Apply(cfg, states[|steps|], step)
    requires DrawsANewKey(cfg, states[|steps|], step) && DrawnKeysAreMade(cfg, states, steps, states[|steps|])
    ensures DrawnKeysAreMade(cfg, states + [s'], steps + [step], s')
  {
    var states', steps' := states + [s'], steps + [step];
    forall i | 0 <= i < |steps'| && Draws(cfg, states'[i], steps'[i])
      ensures KeyIsMade(s', steps'[i].newMaster)
    {
      if i < |steps| {
        MadeKeysStay(cfg, states[|steps|], step, steps[i].newMaster);
      } else {
        DrawnKeyIsMade(cfg, states[|steps|], step);
      }
    }
  }

  lemma ReachesNext(cfg: Config, orderly: bool, s: State, step: Step, s': State)
    requires Reaches(cfg, orderly, s) && Enabled(s, step) && s' == Apply(cfg, s, step)
    requires DrawsANewKey(cfg, s, step) && (orderly ==> Orderly(s, step))
    ensures Reaches(cfg, orderly, s')
  {
    var states, steps :| EndsIn(cfg, orderly, states, steps, s);
    RunGoesOn(cfg, states, steps, step, s');
    KeysStayNew(cfg, states, steps, step, s');
    DrawnKeysStayMade(cfg, states, steps, step, s');
    assert EndsIn(cfg, orderly, states + [s'], steps + [step], s');
  }

  lemma ReachedIsInOrder(cfg: Config, s: State)
    requires cfg.Valid() && Reaches(cfg, true, s)
    ensures Inv(Lbl(cfg, AnyBlock()), cfg, s) && InOrder(s) && LogIsExact(TableOf(s))
  {
    var states, steps :| EndsIn(cfg, true, states, steps, s);
    OrderlyRunKeepsOrder(cfg, states, steps, |steps|);
    CallsAreAccountedFor(cfg, states, steps, |steps|);
  }

  const NONCES: Nonces := (t, n) => 0

  lemma Advances(cfg: Config, orderly: bool, s: State, id: CallId, newMaster: MasterKey) returns (s': State)
    requires Reaches(cfg, orderly, s) && Enabled(s, Advance(id, newMaster, NONCES))
    requires DrawsANewKey(cfg, s, Advance(id, newMaster, NONCES))
    ensures s' == AdvanceStep(cfg, s, id, newMaster, NONCES) && Reaches(cfg, orderly, s')
  {
    s' := Apply(cfg, s, Advance(id, newMaster, NONCES));
    ReachesNext(cfg, orderly, s, Advance(id, newMaster, NONCES), s');
  }

  lemma DoneCallIsRight(x: Relations, cfg: Config, s: State, id: CallId)
    requires Inv(x, cfg, s) && id in s.calls && s.calls[id].pc.Done?
    ensures RightAnswer(cfg, s.calls[id]) && LogOK(s.log, id, s.calls[id])
  {
    assert CallOK(x, cfg, View(s, s.calls[id].op.key), s.made, s.calls[id], MessageOf(s, id));
  }

  lemma ReachedCallIsRight(cfg: Config, s: State, id: CallId)
    requires cfg.Valid() && Reaches(cfg, true, s) && id in s.calls && s.calls[id].pc.Done?
    ensures RightAnswer(cfg, s.calls[id]) && LogOK(s.log, id, s.calls[id])
  {
    ReachedIsInOrder(cfg, s);
    DoneCallIsRight(Lbl(cfg, AnyBlock()), cfg, s, id);
  }

  lemma ReachedReadIsFresh(cfg: Config, s: State, id: CallId)
    requires cfg.Valid() && Reaches(cfg, true, s) && id in s.calls
    requires Enabled(s, ServerRead(id)) && Orderly(s, ServerRead(id))
    ensures Fresh(s, s.calls[id])
  {
    ReachedIsInOrder(cfg, s);
    OrderlyReadIsFresh(Lbl(cfg, AnyBlock()), cfg, s, id);
  }

  const KEY: Key := "k"
  const GET := Operation("GET", KEY, [])

  function Put(v: seq<Byte>): Operation {
    Operation("PUT", KEY, v)
  }

  // The master key of an operation is its place in the log.
  ghost predicate KeysArePlaces(s: State) {
    forall p :: p in s.made ==> p < |s.log| && s.made[p].master == p
  }

  // Calls 0 to n-1 are over, the key is free and has the value v.
  ghost predicate Resting(s: State, n: nat, v: seq<Byte>) {
    && (forall id: CallId :: id in s.calls <==> id < n) && (forall id :: id in s.calls ==> s.calls[id].pc.Done?)
    && KEY in s.keySet && Free(s, KEY) && !s.serverDown && KeysArePlaces(s)
    && |s.log| == n && Latest(s.log, KEY) == Some(v)
  }

  // A step of call id that keeps its lock, draws no key and stores nothing.
  ghost predicate Moved(s: State, s': State, id: CallId) {
    && id in s.calls && id in s'.calls && s'.calls == s.calls[id := s'.calls[id]]
    && s'.calls[id].op == s.calls[id].op && s'.calls[id].pos == s.calls[id].pos && s'.calls[id].seen == s.calls[id].seen
    && s'.log == s.log && s.keySet <= s'.keySet && s'.serverDown == s.serverDown && s'.made == s.made
    && s'.store == s.store
  }

  lemma Arrives(cfg: Config, orderly: bool, s: State, id: CallId, op: Operation) returns (s': State)
    requires Reaches(cfg, orderly, s) && id !in s.calls
    ensures Reaches(cfg, orderly, s') && s' == s.(calls := s.calls[id := Call(op, Begin, [], 0, None, None)])
  {
    s' := Apply(cfg, s, Arrive(id, op));
    ReachesNext(cfg, orderly, s, Arrive(id, op), s');
  }

  lemma Begins(cfg: Config, orderly: bool, s: State, id: CallId) returns (s': State)
    requires Reaches(cfg, orderly, s) && id in s.calls && s.calls[id].pc.Begin? && s.calls[id].op.key in s.keySet
    ensures Reaches(cfg, orderly, s') && Moved(s, s', id) && s'.calls[id].pc.LockForAccess?
    ensures s'.wire == s.wire && Free(s', s.calls[id].op.key) == Free(s, s.calls[id].op.key)
  {
    s' := Advances(cfg, orderly, s, id, 0);
  }

  lemma RecordMoves(cfg: Config, s: State, id: CallId)
    requires id in s.calls && s.calls[id].pc.RecordPut?
    ensures var s' := AdvanceStep(cfg, s, id, 0, NONCES);
            Moved(s, s', id) && s'.calls[id].pc.SendAccess? && s'.wire == s.wire
  {}

  lemma Records(cfg: Config, orderly: bool, s: State, id: CallId) returns (s': State)
    requires Reaches(cfg, orderly, s) && id in s.calls && s.calls[id].pc.RecordPut?
    ensures Reaches(cfg, orderly, s') && Moved(s, s', id) && s'.calls[id].pc.SendAccess? && s'.wire == s.wire
  {
    RecordMoves(cfg, s, id);
    s' := Advances(cfg, orderly, s, id, 0);
  }

  lemma SendMoves(cfg: Config, s: State, id: CallId)
    requires id in s.calls && s.calls[id].pc.SendAccess?
    ensures var s' := AdvanceStep(cfg, s, id, 0, NONCES);
            && Moved(s, s', id) && s'.calls[id].pc.AwaitReply?
            && s'.wire == s.wire[id := AccessMsg(s.calls[id].pc.entry)]
  {}

  lemma Sends(cfg: Config, orderly: bool, s: State, id: CallId) returns (s': State)
    requires Reaches(cfg, orderly, s) && id in s.calls && s.calls[id].pc.SendAccess?
    ensures Reaches(cfg, orderly, s') && Moved(s, s', id) && s'.calls[id].pc.AwaitReply?
    ensures s'.wire == s.wire[id := AccessMsg(s.calls[id].pc.entry)]
  {
    SendMoves(cfg, s, id);
    s' := Advances(cfg, orderly, s, id, 0);
  }

  lemma ReplyMoves(cfg: Config, s: State, id: CallId)
    requires id in s.calls && s.calls[id].pc.AwaitReply? && id in s.wire && s.wire[id].ReplyMsg?
    ensures var s' := AdvanceStep(cfg, s, id, 0, NONCES);
            && Moved(s, s', id) && s'.wire == s.wire - {id}
            && if s.calls[id].op.IsGet() then s'.calls[id].pc.Decode? else s'.calls[id].pc.CountAccess?
  {}

  lemma Replies(cfg: Config, orderly: bool, s: State, id: CallId) returns (s': State)
    requires Reaches(cfg, orderly, s) && id in s.calls && s.calls[id].pc.AwaitReply?
    requires id in s.wire && s.wire[id].ReplyMsg?
    ensures Reaches(cfg, orderly, s') && Moved(s, s', id) && s'.wire == s.wire - {id}
    ensures if s.calls[id].op.IsGet() then s'.calls[id].pc.Decode? else s'.calls[id].pc.CountAccess?
  {
    ReplyMoves(cfg, s, id);
    s' := Advances(cfg, orderly, s, id, 0);
  }

  lemma DecodeMoves(cfg: Config, s: State, id: CallId)
    requires id in s.calls && s.calls[id].pc.Decode?
    ensures var s' := AdvanceStep(cfg, s, id, 0, NONCES);
            Moved(s, s', id) && s'.calls[id].pc.CountAccess? && s'.wire == s.wire
  {}

  lemma Decodes(cfg: Config, orderly: bool, s: State, id: CallId) returns (s': State)
    requires Reaches(cfg, orderly, s) && id in s.calls && s.calls[id].pc.Decode?
    ensures Reaches(cfg, orderly, s') && Moved(s, s', id) && s'.calls[id].pc.CountAccess? && s'.wire == s.wire
  {
    DecodeMoves(cfg, s, id);
    s' := Advances(cfg, orderly, s, id, 0);
  }

  lemma CountMoves(cfg: Config, s: State, id: CallId)
    requires id in s.calls && s.calls[id].pc.CountAccess?
    ensures var s' := AdvanceStep(cfg, s, id, 0, NONCES);
            Moved(s, s', id) && s'.calls[id].pc.Unlock? && s'.wire == s.wire
  {}

  lemma Counts(cfg: Config, orderly: bool, s: State, id: CallId) returns (s': State)
    requires Reaches(cfg, orderly, s) && id in s.calls && s.calls[id].pc.CountAccess?
    ensures Reaches(cfg, orderly, s') && Moved(s, s', id) && s'.calls[id].pc.Unlock? && s'.wire == s.wire
  {
    CountMoves(cfg, s, id);
    s' := Advances(cfg, orderly, s, id, 0);
  }

  lemma UnlockMoves(cfg: Config, s: State, id: CallId)
    requires id in s.calls && s.calls[id].pc.Unlock?
    ensures var s' := AdvanceStep(cfg, s, id, 0, NONCES);
            && Moved(s, s', id) && s'.calls[id].pc.Done? && s'.wire == s.wire && Free(s', s.calls[id].op.key)
  {}

  lemma Unlocks(cfg: Config, orderly: bool, s: State, id: CallId) returns (s': State)
    requires Reaches(cfg, orderly, s) && id in s.calls && s.calls[id].pc.Unlock?
    ensures Reaches(cfg, orderly, s') && Moved(s, s', id) && s'.calls[id].pc.Done? && s'.wire == s.wire
    ensures Free(s', s.calls[id].op.key)
  {
    UnlockMoves(cfg, s, id);
    s' := Advances(cfg, orderly, s, id, 0);
  }

  lemma Throws(cfg: Config, s: State, id: CallId, sent: bool) returns (s': State)
    requires Reaches(cfg, true, s) && Enabled(s, Throw(id, sent))
    ensures Reaches(cfg, true, s') && Moved(s, s', id) && s'.calls[id].pc.Thrown?
    ensures var pc := s.calls[id].pc;
            s'.wire == if pc.AwaitReply? || !sent then s.wire
                       else s.wire[id := if pc.SendCreate? then CreateMsg(pc.entry) else AccessMsg(pc.entry)]
  {
    s' := Apply(cfg, s, Throw(id, sent));
    ReachesNext(cfg, true, s, Throw(id, sent), s');
  }

  // What locking and building do to the rest of the state.
  lemma Locks(cfg: Config, orderly: bool, s: State, id: CallId) returns (s': State)
    requires Reaches(cfg, orderly, s) && id in s.calls && s.calls[id].pc.LockForAccess? && Free(s, s.calls[id].op.key)
    ensures Reaches(cfg, orderly, s') && id in s'.calls && s'.calls == s.calls[id := s'.calls[id]]
    ensures var c, c' := s.calls[id], s'.calls[id];
            && c'.op == c.op && c'.pc.MakeAccess? && c'.pos == |s.log| && c'.seen == Latest(s.log, c.op.key)
            && s'.log == s.log + [LogEntry(id, c.op)]
    ensures s'.keySet == s.keySet && s'.serverDown == s.serverDown && s'.made == s.made
    ensures s'.store == s.store && s'.wire == s.wire
  {
    s' := Advances(cfg, orderly, s, id, 0);
  }

  // The entry is built under a new master key, and nothing else changes.
  ghost predicate Built(s: State, s': State, id: CallId) {
    && id in s.calls && id in s'.calls && s'.calls == s.calls[id := s'.calls[id]]
    && var c, c' := s.calls[id], s'.calls[id];
    && c'.op == c.op && c'.pos == c.pos && c'.seen == c.seen
    && (if c.op.IsGet() then c'.pc.SendAccess? else c'.pc.RecordPut?)
    && s'.made == s.made[c.pos := Version(c.pos, After(c))]
    && s'.keySet == s.keySet && s'.serverDown == s.serverDown && s'.log == s.log
    && s'.store == s.store && s'.wire == s.wire
  }

  lemma ReadyIsBuilt(s: State, id: CallId, entry: Entry)
    requires id in s.calls
    ensures Built(s, AccessReady(s, id, s.calls[id], s.calls[id].pos, entry), id)
  {}

  lemma MakeIsBuilt(cfg: Config, s: State, id: CallId)
    requires id in s.calls && s.calls[id].pc.MakeAccess? && Fits(cfg, s.calls[id].op)
    ensures Built(s, AdvanceStep(cfg, s, id, s.calls[id].pos, NONCES), id)
  {
    var c := s.calls[id];
    ReadyIsBuilt(s, id, AccessFor(cfg, MasterOf(s, c.op.key), c.pos, c.op, NONCES));
  }

  lemma Builds(cfg: Config, orderly: bool, s: State, id: CallId) returns (s': State)
    requires Reaches(cfg, orderly, s) && id in s.calls && s.calls[id].pc.MakeAccess? && Fits(cfg, s.calls[id].op)
    requires s.calls[id].pos !in s.made && !KeyIsMade(s, s.calls[id].pos)
    ensures Reaches(cfg, orderly, s') && Built(s, s', id)
  {
    MakeIsBuilt(cfg, s, id);
    s' := Advances(cfg, orderly, s, id, s.calls[id].pos);
  }

  lemma MovedStaysAccessing(s: State, s': State, s0: State, n: nat, op: Operation, v: seq<Byte>)
    requires Accessing(s, s0, n, op, v) && Moved(s, s', n)
    ensures Accessing(s', s0, n, op, v)
  {}

  lemma ServedStaysAccessing(s: State, s': State, s0: State, n: nat, op: Operation, v: seq<Byte>)
    requires Accessing(s, s0, n, op, v) && s'.calls == s.calls && s'.log == s.log && s'.keySet == s.keySet
    requires s'.serverDown == s.serverDown && s'.made == s.made
    ensures Accessing(s', s0, n, op, v)
  {}

  /* ---------- call 0: a PUT that creates the key ---------- */

  // Call 0 is at pc and the only one.
  ghost predicate Putting(s: State, v: seq<Byte>, pc: Pc) {
    && s.calls.Keys == {0} && s.calls[0].op == Put(v) && s.calls[0].pc == pc
    && s.store == map[] && !s.serverDown && KeysArePlaces(s)
    && (if pc.CountAccess? then s.wire.Keys == {0} else s.wire == map[])
    && (pc.Begin? || pc.LockForCreate? || (s.log == [LogEntry(0, Put(v))] && s.calls[0].pos == 0))
  }

  lemma PutArrives(cfg: Config, orderly: bool, v: seq<Byte>) returns (s: State)
    ensures Reaches(cfg, orderly, s) && Putting(s, v, Begin) && s.keySet == {} && Free(s, KEY) && s.log == []
    ensures s.made == map[]
  {
    var s0 := State({}, map[], map[], map[KEY := true], 0, 0, map[], map[], map[], false, [], map[], map[]);
    assert EndsIn(cfg, orderly, [s0], [], s0);
    s := Apply(cfg, s0, Arrive(0, Put(v)));
    ReachesNext(cfg, orderly, s0, Arrive(0, Put(v)), s);
  }

  lemma PutIsTested(cfg: Config, orderly: bool, v: seq<Byte>) returns (s: State)
    ensures Reaches(cfg, orderly, s) && Putting(s, v, LockForCreate) && Free(s, KEY) && s.log == [] && s.made == map[]
  {
    var s1 := PutArrives(cfg, orderly, v);
    s := Advances(cfg, orderly, s1, 0, 0);
  }

  lemma PutTakesLock(cfg: Config, orderly: bool, v: seq<Byte>) returns (s: State)
    ensures Reaches(cfg, orderly, s) && Putting(s, v, MakeCreate) && s.made == map[]
  {
    var s2 := PutIsTested(cfg, orderly, v);
    s := Advances(cfg, orderly, s2, 0, 0);
  }

  lemma PutMakes(cfg: Config, orderly: bool, v: seq<Byte>) returns (s: State)
    requires |v| <= cfg.valueSize
    ensures Reaches(cfg, orderly, s) && s.calls.Keys == {0}
    ensures Putting(s, v, RecordCreate(CreateFor(cfg, KEY, 0, v)))
  {
    var s3 := PutTakesLock(cfg, orderly, v);
    s := Advances(cfg, orderly, s3, 0, 0);
  }

  lemma PutRecords(cfg: Config, orderly: bool, v: seq<Byte>) returns (s: State)
    requires |v| <= cfg.valueSize
    ensures Reaches(cfg, orderly, s) && Putting(s, v, SendCreate(CreateFor(cfg, KEY, 0, v))) && KEY in s.keySet
  {
    var s4 := PutMakes(cfg, orderly, v);
    var entry := s4.calls[0].pc.entry;
    var s5 := Advances(cfg, orderly, s4, 0, 0);
    assert Putting(s5, v, InsertKey(entry));
    s := Advances(cfg, orderly, s5, 0, 0);
  }

  lemma PutSends(cfg: Config, orderly: bool, v: seq<Byte>) returns (s: State)
    requires |v| <= cfg.valueSize
    ensures Reaches(cfg, orderly, s) && Putting(s, v, CountAccess) && KEY in s.keySet
    ensures 0 in s.wire && s.wire[0] == CreateMsg(CreateFor(cfg, KEY, 0, v))
  {
    var s6 := PutRecords(cfg, orderly, v);
    s := Advances(cfg, orderly, s6, 0, 0);
  }

  lemma PutRests(s: State, v: seq<Byte>)
    requires s.calls.Keys == {0} && s.calls[0].pc.Done? && s.log == [LogEntry(0, Put(v))]
    requires KEY in s.keySet && Free(s, KEY) && !s.serverDown && KeysArePlaces(s)
    ensures Resting(s, 1, v)
  {
    assert forall id: CallId :: id in s.calls <==> id in s.calls.Keys;
    assert !s.log[0].op.IsGet();
  }

  lemma PutFinishes(cfg: Config, orderly: bool, s: State, v: seq<Byte>) returns (s': State)
    requires Reaches(cfg, orderly, s) && s.calls.Keys == {0} && s.calls[0].pc.CountAccess? && s.calls[0].op == Put(v)
    requires s.log == [LogEntry(0, Put(v))] && KEY in s.keySet && !s.serverDown && KeysArePlaces(s)
    ensures Reaches(cfg, orderly, s') && Resting(s', 1, v) && s'.log == s.log
    ensures s'.store == s.store && s'.wire == s.wire
  {
    var s1 := Counts(cfg, orderly, s, 0);
    s' := Unlocks(cfg, orderly, s1, 0);
    PutRests(s', v);
  }

  // The store holds a create once it has arrived.
  lemma Arrived(cfg: Config, s: State, v: seq<Byte>) returns (s': State)
    requires Reaches(cfg, true, s) && !s.serverDown && s.wire.Keys == {0} && |v| <= cfg.valueSize
    requires s.wire[0] == CreateMsg(CreateFor(cfg, KEY, 0, v))
    ensures Reaches(cfg, true, s') && s'.calls == s.calls && s'.log == s.log && s'.keySet == s.keySet
    ensures !s'.serverDown && s'.made == s.made && s'.wire == map[]
    ensures KEY in s'.store && HoldsLbl(cfg, 0, v, s'.store[KEY])
  {
    s' := Apply(cfg, s, ServerCreate(0));
    ReachesNext(cfg, true, s, ServerCreate(0), s');
    assert s'.wire == map[];
    LblCreates(cfg, CreateFor(cfg, KEY, 0, v), KEY, 0, v);
  }

  lemma CreateArrives(cfg: Config, v: seq<Byte>) returns (s: State)
    requires |v| <= cfg.valueSize
    ensures Reaches(cfg, true, s) && Resting(s, 1, v) && s.log == [LogEntry(0, Put(v))] && s.wire == map[]
    ensures KEY in s.store && HoldsLbl(cfg, 0, v, s.store[KEY])
  {
    var s1 := PutSends(cfg, true, v);
    var s2 := Arrived(cfg, s1, v);
    s := PutFinishes(cfg, true, s2, v);
  }

  /* ---------- call n: an access of the key ---------- */

  predicate Fits(cfg: Config, op: Operation) {
    op.key == KEY && (op.IsGet() || |op.value| <= cfg.valueSize)
  }

  // The value after an operation on a key that has the value v.
  function ValueAfter(op: Operation, v: seq<Byte>): seq<Byte> {
    if op.IsGet() then v else op.value
  }

  // Call n has taken its lock in the resting state s0.
  ghost predicate Accessing(s: State, s0: State, n: nat, op: Operation, v: seq<Byte>) {
    && Resting(s0, n, v) && op.key == KEY
    && n in s.calls && s.calls == s0.calls[n := s.calls[n]] && s.calls[n].op == op
    && s.calls[n].pos == n && s.calls[n].seen == Some(v) && s.log == s0.log + [LogEntry(n, op)]
    && KEY in s.keySet && !s.serverDown && KeysArePlaces(s)
  }

  lemma LockedIsAccessing(s: State, s0: State, n: nat, op: Operation, v: seq<Byte>)
    requires Resting(s0, n, v) && op.key == KEY && n in s.calls && s.calls == s0.calls[n := s.calls[n]]
    requires s.calls[n].op == op && s.calls[n].pos == n && s.calls[n].seen == Some(v)
    requires s.log == s0.log + [LogEntry(n, op)] && s.keySet >= s0.keySet && !s.serverDown && s.made == s0.made
    ensures Accessing(s, s0, n, op, v) && n !in s.made
  {}

  // Call n has found its key known.
  lemma AccessIsTested(cfg: Config, orderly: bool, s: State, n: nat, op: Operation, v: seq<Byte>) returns (s': State)
    requires Reaches(cfg, orderly, s) && Resting(s, n, v) && op.key == KEY
    ensures Reaches(cfg, orderly, s') && n in s'.calls && s'.calls == s.calls[n := s'.calls[n]]
    ensures s'.calls[n].op == op && s'.calls[n].pc.LockForAccess? && Free(s', KEY)
    ensures s'.log == s.log && s'.keySet >= s.keySet && !s'.serverDown && s'.made == s.made
    ensures s'.store == s.store && s'.wire == s.wire
  {
    var s1 := Arrives(cfg, orderly, s, n, op);
    s' := Begins(cfg, orderly, s1, n);
  }

  lemma AccessTakesLock(cfg: Config, orderly: bool, s: State, n: nat, op: Operation, v: seq<Byte>) returns (s': State)
    requires Reaches(cfg, orderly, s) && Resting(s, n, v) && op.key == KEY
    ensures Reaches(cfg, orderly, s') && Accessing(s', s, n, op, v) && s'.calls[n].pc.MakeAccess?
    ensures s'.store == s.store && s'.wire == s.wire && n !in s'.made
  {
    var s1 := AccessIsTested(cfg, orderly, s, n, op, v);
    s' := Locks(cfg, orderly, s1, n);
    LockedIsAccessing(s', s, n, op, v);
  }

  lemma AccessBuilds(cfg: Config, orderly: bool, s: State, s0: State, n: nat, op: Operation, v: seq<Byte>)
    returns (s': State)
    requires Reaches(cfg, orderly, s) && Accessing(s, s0, n, op, v) && s.calls[n].pc.MakeAccess? && Fits(cfg, op)
    requires n !in s.made
    ensures Reaches(cfg, orderly, s') && Accessing(s', s0, n, op, v)
    ensures if op.IsGet() then s'.calls[n].pc.SendAccess? else s'.calls[n].pc.RecordPut?
    ensures s'.store == s.store && s'.wire == s.wire
  {
    s' := Builds(cfg, orderly, s, n);
  }

  lemma AccessRecords(cfg: Config, orderly: bool, s: State, s0: State, n: nat, op: Operation, v: seq<Byte>)
    returns (s': State)
    requires Reaches(cfg, orderly, s) && Accessing(s, s0, n, op, v)
    requires if op.IsGet() then s.calls[n].pc.SendAccess? else s.calls[n].pc.RecordPut?
    ensures Reaches(cfg, orderly, s') && Accessing(s', s0, n, op, v) && s'.calls[n].pc.SendAccess?
    ensures s'.store == s.store && s'.wire == s.wire
  {
    s' := s;
    if !op.IsGet() {
      s' := Records(cfg, orderly, s, n);
      MovedStaysAccessing(s, s', s0, n, op, v);
    }
  }

  lemma AccessSends(cfg: Config, orderly: bool, s: State, s0: State, n: nat, op: Operation, v: seq<Byte>)
    returns (s': State)
    requires Reaches(cfg, orderly, s) && Accessing(s, s0, n, op, v) && s.calls[n].pc.SendAccess?
    ensures Reaches(cfg, orderly, s') && Accessing(s', s0, n, op, v) && s'.calls[n].pc.AwaitReply?
    ensures n in s'.wire && s'.wire[n].AccessMsg? && s'.wire.Keys == s.wire.Keys + {n} && s'.store == s.store
  {
    s' := Sends(cfg, orderly, s, n);
    MovedStaysAccessing(s, s', s0, n, op, v);
  }

  lemma AccessRequests(cfg: Config, orderly: bool, s: State, n: nat, op: Operation, v: seq<Byte>) returns (s': State)
    requires Reaches(cfg, orderly, s) && Resting(s, n, v) && Fits(cfg, op)
    ensures Reaches(cfg, orderly, s') && Accessing(s', s, n, op, v) && s'.calls[n].pc.AwaitReply?
    ensures n in s'.wire && s'.wire[n].AccessMsg? && s'.wire.Keys == s.wire.Keys + {n} && s'.store == s.store
  {
    var s1 := AccessTakesLock(cfg, orderly, s, n, op, v);
    var s2 := AccessBuilds(cfg, orderly, s1, s, n, op, v);
    var s3 := AccessRecords(cfg, orderly, s2, s, n, op, v);
    s' := AccessSends(cfg, orderly, s3, s, n, op, v);
  }

  // The server's two steps, for a call that waits or one that has failed meanwhile.
  lemma ServerReads(cfg: Config, s: State, s0: State, n: nat, op: Operation, v: seq<Byte>) returns (s': State)
    requires cfg.Valid() && Reaches(cfg, true, s) && Accessing(s, s0, n, op, v)
    requires s.wire.Keys == {n} && s.wire[n].AccessMsg?
    ensures Reaches(cfg, true, s') && Accessing(s', s0, n, op, v) && s'.calls == s.calls
    ensures s'.wire.Keys == {n} && s'.wire[n].AccessBusy? && s'.wire[n].timely
  {
    ReachedReadIsFresh(cfg, s, n);
    s' := Apply(cfg, s, ServerRead(n));
    ReachesNext(cfg, true, s, ServerRead(n), s');
    ServedStaysAccessing(s, s', s0, n, op, v);
  }

  // The server's answer, as far as the run goes on from it.
  ghost predicate AnswerIsStored(s: State, s': State, n: CallId) {
    && s'.calls == s.calls && s'.log == s.log && s'.keySet == s.keySet
    && s'.serverDown == s.serverDown && s'.made == s.made
    && n in s.calls && n in s'.wire && s'.wire == s.wire[n := s'.wire[n]] && s'.wire[n].ReplyMsg?
    && s'.written == s.written[s.calls[n].op.key := s.calls[n].pos]
  }

  lemma TimelyWriteStores(cfg: Config, s: State, n: nat)
    requires cfg.Valid() && Inv(Lbl(cfg, AnyBlock()), cfg, s) && Enabled(s, ServerWrite(n)) && s.wire[n].timely
    ensures AnswerIsStored(s, ServerStep(cfg, s, ServerWrite(n)), n)
  {
    InvHere(Lbl(cfg, AnyBlock()), cfg, s, n);
    LblIsLawful(cfg, AnyBlock());
    WriteStores(Lbl(cfg, AnyBlock()), cfg, s, n);
    ExitsIffNotTimely(Lbl(cfg, AnyBlock()), cfg, s, n);
  }

  lemma TimelyWriteAnswers(cfg: Config, s: State, n: nat) returns (s': State)
    requires cfg.Valid() && Reaches(cfg, true, s) && Enabled(s, ServerWrite(n)) && s.wire[n].timely
    ensures Reaches(cfg, true, s') && AnswerIsStored(s, s', n)
  {
    ReachedIsInOrder(cfg, s);
    TimelyWriteStores(cfg, s, n);
    s' := ServerStep(cfg, s, ServerWrite(n));
    ReachesNext(cfg, true, s, ServerWrite(n), s');
  }

  lemma ServerWrites(cfg: Config, s: State, s0: State, n: nat, op: Operation, v: seq<Byte>) returns (s': State)
    requires cfg.Valid() && Reaches(cfg, true, s) && Accessing(s, s0, n, op, v)
    requires s.wire.Keys == {n} && s.wire[n].AccessBusy? && s.wire[n].timely
    ensures Reaches(cfg, true, s') && Accessing(s', s0, n, op, v) && s'.calls == s.calls
    ensures s'.wire.Keys == {n} && s'.wire[n].ReplyMsg? && KEY in s'.written && s'.written[KEY] == n
  {
    s' := TimelyWriteAnswers(cfg, s, n);
    ServedStaysAccessing(s, s', s0, n, op, v);
  }

  lemma ServerAnswers(cfg: Config, s: State, s0: State, n: nat, op: Operation, v: seq<Byte>) returns (s': State)
    requires cfg.Valid() && Reaches(cfg, true, s) && Accessing(s, s0, n, op, v)
    requires s.wire.Keys == {n} && s.wire[n].AccessMsg?
    ensures Reaches(cfg, true, s') && Accessing(s', s0, n, op, v) && s'.calls == s.calls
    ensures s'.wire.Keys == {n} && s'.wire[n].ReplyMsg? && KEY in s'.written && s'.written[KEY] == n
  {
    var s1 := ServerReads(cfg, s, s0, n, op, v);
    s' := ServerWrites(cfg, s1, s0, n, op, v);
  }

  lemma AccessReturns(cfg: Config, s: State, s0: State, n: nat, op: Operation, v: seq<Byte>) returns (s': State)
    requires Reaches(cfg, true, s) && Accessing(s, s0, n, op, v) && s.calls[n].pc.AwaitReply?
    requires s.wire.Keys == {n} && s.wire[n].ReplyMsg?
    ensures Reaches(cfg, true, s') && Accessing(s', s0, n, op, v) && s'.calls[n].pc.CountAccess? && s'.wire == map[]
  {
    s' := Replies(cfg, true, s, n);
    MovedStaysAccessing(s, s', s0, n, op, v);
    if op.IsGet() {
      var s1 := s';
      s' := Decodes(cfg, true, s1, n);
      MovedStaysAccessing(s1, s', s0, n, op, v);
    }
  }

  lemma UnlockedRests(s: State, s0: State, n: nat, op: Operation, v: seq<Byte>)
    requires Accessing(s, s0, n, op, v) && s.calls[n].pc.Done? && Free(s, KEY)
    ensures Resting(s, n + 1, ValueAfter(op, v))
  {
    assert s.log[..n] == s0.log;
  }

  lemma AccessFinishes(cfg: Config, s: State, s0: State, n: nat, op: Operation, v: seq<Byte>) returns (s': State)
    requires Reaches(cfg, true, s) && Accessing(s, s0, n, op, v) && s.calls[n].pc.CountAccess? && s.wire == map[]
    ensures Reaches(cfg, true, s') && Resting(s', n + 1, ValueAfter(op, v)) && s'.wire == map[]
    ensures s'.log == s0.log + [LogEntry(n, op)]
  {
    var s1 := Counts(cfg, true, s, n);
    MovedStaysAccessing(s, s1, s0, n, op, v);
    s' := Unlocks(cfg, true, s1, n);
    MovedStaysAccessing(s1, s', s0, n, op, v);
    UnlockedRests(s', s0, n, op, v);
  }

  // Any operation can follow on a key at rest, and the key is at rest again after it.
  lemma AccessRuns(cfg: Config, s: State, n: nat, op: Operation, v: seq<Byte>) returns (s': State)
    requires cfg.Valid() && Reaches(cfg, true, s) && Resting(s, n, v) && s.wire == map[] && Fits(cfg, op)
    ensures Reaches(cfg, true, s') && Resting(s', n + 1, ValueAfter(op, v)) && s'.wire == map[]
    ensures s'.log == s.log + [LogEntry(n, op)]
  {
    var s1 := AccessRequests(cfg, true, s, n, op, v);
    var s2 := ServerAnswers(cfg, s1, s, n, op, v);
    var s3 := AccessReturns(cfg, s2, s, n, op, v);
    s' := AccessFinishes(cfg, s3, s, n, op, v);
  }

  /* ---------- operations one after the other ---------- */

  // The operations, as calls 0, 1, 2, ...
  function LogFor(ops: seq<Operation>): (log: seq<LogEntry>)
    ensures |log| == |ops| && forall n :: 0 <= n < |ops| ==> log[n] == LogEntry(n, ops[n])
  {
    seq(|ops|, n requires 0 <= n < |ops| => LogEntry(n, ops[n]))
  }

  // A first PUT, and then anything, all of it fitting.
  predicate Sequence(cfg: Config, ops: seq<Operation>) {
    && ops != [] && ops[0].op == "PUT"
    && forall n :: 0 <= n < |ops| ==> Fits(cfg, ops[n])
  }

  lemma {:induction false} SequenceRuns(cfg: Config, ops: seq<Operation>) returns (s: State, v: seq<Byte>)
    requires cfg.Valid() && Sequence(cfg, ops)
    ensures Reaches(cfg, true, s) && Resting(s, |ops|, v) && s.wire == map[] && s.log == LogFor(ops)
  {
    if |ops| == 1 {
      v := ops[0].value;
      s := CreateArrives(cfg, v);
      assert ops[0] == Put(v);
    } else {
      var n := |ops| - 1;
      var before, held := SequenceRuns(cfg, ops[..n]);
      s := AccessRuns(cfg, before, n, ops[n], held);
      v := ValueAfter(ops[n], held);
    }
  }

  // The call is over; if it is a GET it returned what is visible of the latest PUT before it.
  ghost predicate Answered(cfg: Config, s: State, n: nat, ops: seq<Operation>)
    requires n < |ops|
  {
    && n in s.calls && s.calls[n].pc.Done? && s.calls[n].op == ops[n]
    && var latest := Latest(LogFor(ops[..n]), KEY);
    ops[n].IsGet() ==> latest.Some? && s.calls[n].ret == Visible(latest.value, cfg.upto)
  }

  lemma RestingCallIsLogged(cfg: Config, s: State, n: nat, ops: seq<Operation>)
    requires cfg.Valid() && Reaches(cfg, true, s) && s.log == LogFor(ops) && n < |ops|
    ensures n in s.calls && s.calls[n].op == ops[n] && s.calls[n].pos == n
  {
    ReachedIsInOrder(cfg, s);
    var t := TableOf(s);
    assert t.log[n].id == n;
    assert n in t.threads && t.threads[n].pos == n && t.log[n] == LogEntry(n, t.threads[n].op);
  }

  lemma RestingCallIsAnswered(cfg: Config, s: State, n: nat, ops: seq<Operation>, v: seq<Byte>)
    requires cfg.Valid() && Reaches(cfg, true, s) && Resting(s, |ops|, v) && s.log == LogFor(ops)
    requires n < |ops| && ops[n].key == KEY
    ensures Answered(cfg, s, n, ops)
  {
    RestingCallIsLogged(cfg, s, n, ops);
    ReachedCallIsRight(cfg, s, n);
    assert s.log[..n] == LogFor(ops[..n]);
  }

  // No operation can be refused without cause: every sequence of operations that fit and
  // begins with a PUT has a run, orderly and with new master keys, in which each of them
  // completes and every GET returns the latest PUT before it.
  lemma EverySequenceCompletes(cfg: Config, ops: seq<Operation>) returns (states: seq<State>, steps: seq<Step>)
    requires cfg.Valid() && Sequence(cfg, ops)
    ensures IsRun(cfg, states, steps) && OrderlyRun(states, steps) && NewKeysRun(cfg, states, steps)
    ensures states[|steps|].log == LogFor(ops)
    ensures forall n :: 0 <= n < |ops| ==> Answered(cfg, states[|steps|], n, ops)
  {
    var s, v := SequenceRuns(cfg, ops);
    forall n | 0 <= n < |ops|
      ensures Answered(cfg, s, n, ops)
    {
      RestingCallIsAnswered(cfg, s, n, ops, v);
    }
    states, steps :| EndsIn(cfg, true, states, steps, s);
  }

  // In particular a PUT of a known key is carried out: the GET after it returns its value.
  lemma PutPutGet(cfg: Config, v: seq<Byte>, w: seq<Byte>) returns (states: seq<State>, steps: seq<Step>)
    requires cfg.Valid() && |v| <= cfg.valueSize && |w| <= cfg.valueSize
    ensures IsRun(cfg, states, steps) && OrderlyRun(states, steps) && NewKeysRun(cfg, states, steps)
    ensures states[|steps|].log == [LogEntry(0, Put(v)), LogEntry(1, Put(w)), LogEntry(2, GET)]
    ensures 2 in states[|steps|].calls && states[|steps|].calls[2].pc.Done?
    ensures states[|steps|].calls[2].ret == Visible(w, cfg.upto)
  {
    var ops := [Put(v), Put(w), GET];
    states, steps := EverySequenceCompletes(cfg, ops);
    assert Answered(cfg, states[|steps|], 2, ops);
    assert LogFor(ops[..2])[1] == LogEntry(1, Put(w));
  }

  /* ---------- RPCs that fail ---------- */

  // A call whose RPC fails may or may not have taken effect: in one run nothing of the PUT
  // ever arrives, in another the server stores its value although the call threw.
  lemma FailedCreateMayStillTakeEffect(cfg: Config, v: seq<Byte>) returns (lost: State, stored: State)
    requires cfg.Valid() && |v| <= cfg.valueSize
    ensures Reaches(cfg, true, lost) && 0 in lost.calls && lost.calls[0].op == Put(v) && lost.calls[0].pc.Thrown?
    ensures lost.store == map[] && lost.wire == map[]
    ensures Reaches(cfg, true, stored) && 0 in stored.calls && stored.calls[0].op == Put(v)
    ensures stored.calls[0].pc.Thrown?
    ensures KEY in stored.store && HoldsLbl(cfg, 0, v, stored.store[KEY]) && stored.wire == map[]
  {
    var s := PutRecords(cfg, true, v);
    lost := Throws(cfg, s, 0, false);
    var s1 := Throws(cfg, s, 0, true);
    stored := Arrived(cfg, s1, v);
  }

  // Call 1, a PUT of w to a key with the value v, is about to send its request.
  lemma PutIsReady(cfg: Config, v: seq<Byte>, w: seq<Byte>) returns (s: State, s0: State)
    requires cfg.Valid() && |v| <= cfg.valueSize && |w| <= cfg.valueSize
    ensures Reaches(cfg, true, s) && Accessing(s, s0, 1, Put(w), v) && s.calls[1].pc.SendAccess?
    ensures s.wire == map[] && KEY in s.store && HoldsLbl(cfg, 0, v, s.store[KEY])
  {
    s0 := CreateArrives(cfg, v);
    var s1 := AccessTakesLock(cfg, true, s0, 1, Put(w), v);
    var s2 := AccessBuilds(cfg, true, s1, s0, 1, Put(w), v);
    s := AccessRecords(cfg, true, s2, s0, 1, Put(w), v);
  }

  lemma PutIsLost(cfg: Config, v: seq<Byte>, w: seq<Byte>) returns (s: State)
    requires cfg.Valid() && |v| <= cfg.valueSize && |w| <= cfg.valueSize
    ensures Reaches(cfg, true, s) && 1 in s.calls && s.calls[1].op == Put(w) && s.calls[1].pc.Thrown?
    ensures s.wire == map[] && KEY in s.store && HoldsLbl(cfg, 0, v, s.store[KEY])
  {
    var s1, s0 := PutIsReady(cfg, v, w);
    s := Throws(cfg, s1, 1, false);
  }

  // The RPC fails while it sends, or, if it `waits`, once the request has left.
  lemma PutIsStored(cfg: Config, v: seq<Byte>, w: seq<Byte>, waits: bool) returns (s: State)
    requires cfg.Valid() && |v| <= cfg.valueSize && |w| <= cfg.valueSize
    ensures Reaches(cfg, true, s) && 1 in s.calls && s.calls[1].op == Put(w) && s.calls[1].pc.Thrown?
    ensures KEY in s.store && HoldsLbl(cfg, 1, w, s.store[KEY])
  {
    var s1, s0 := PutIsReady(cfg, v, w);
    if waits {
      s1 := AccessSends(cfg, true, s1, s0, 1, Put(w), v);
    }
    var s2 := Throws(cfg, s1, 1, !waits);
    MovedStaysAccessing(s1, s2, s0, 1, Put(w), v);
    s := ServerAnswers(cfg, s2, s0, 1, Put(w), v);
    StoredForCall(cfg, s, s0, 1, Put(w), v);
  }

  // The same of a PUT to a key that has a value: it throws, and the old value stays or the
  // new one is stored all the same, whether it threw before or while it waited for the reply.
  lemma FailedPutMayStillTakeEffect(cfg: Config, v: seq<Byte>, w: seq<Byte>, waits: bool)
    returns (lost: State, stored: State)
    requires cfg.Valid() && |v| <= cfg.valueSize && |w| <= cfg.valueSize
    ensures Reaches(cfg, true, lost) && 1 in lost.calls && lost.calls[1].op == Put(w) && lost.calls[1].pc.Thrown?
    ensures lost.wire == map[] && KEY in lost.store && HoldsLbl(cfg, 0, v, lost.store[KEY])
    ensures Reaches(cfg, true, stored) && 1 in stored.calls && stored.calls[1].op == Put(w)
    ensures stored.calls[1].pc.Thrown? && KEY in stored.store && HoldsLbl(cfg, 1, w, stored.store[KEY])
  {
    lost := PutIsLost(cfg, v, w);
    stored := PutIsStored(cfg, v, w, waits);
  }

  lemma StoredForCall(cfg: Config, s: State, s0: State, n: nat, op: Operation, v: seq<Byte>)
    requires cfg.Valid() && Reaches(cfg, true, s) && Accessing(s, s0, n, op, v) && !op.IsGet()
    requires n in s.wire && s.wire[n].ReplyMsg? && KEY in s.written && s.written[KEY] == n
    ensures KEY in s.store && HoldsLbl(cfg, n, op.value, s.store[KEY])
  {
    ReachedIsInOrder(cfg, s);
    var x := Lbl(cfg, AnyBlock());
    assert CallOK(x, cfg, View(s, KEY), s.made, s.calls[n], MessageOf(s, n));
    assert StoreOK(x, s.made, ViewStore(s, KEY));
  }

  /* ---------- a GET overtakes the create ---------- */

  // Nothing was stored yet, so no box opens.
  lemma EmptyReadExits(cfg: Config, s: State, id: CallId) returns (s': State)
    requires cfg.Valid() && Reaches(cfg, false, s) && Enabled(s, ServerRead(id)) && s.store == map[]
    ensures Reaches(cfg, false, s') && s'.serverDown
  {
    var s1 := Apply(cfg, s, ServerRead(id));
    ReachesNext(cfg, false, s, ServerRead(id), s1);
    assert OpenAt(s1.wire[id].entry, s1.wire[id].block, 0).None?;
    s' := Apply(cfg, s1, ServerWrite(id));
    ReachesNext(cfg, false, s1, ServerWrite(id), s');
  }

  // The server can be made to exit: the create is still in flight when the GET arrives.
  lemma LateCreateStopsTheServer(cfg: Config) returns (s: State)
    requires cfg.Valid()
    ensures Reaches(cfg, false, s) && s.serverDown
  {
    var s1 := PutSends(cfg, false, []);
    var s2 := PutFinishes(cfg, false, s1, []);
    var s3 := AccessRequests(cfg, false, s2, 1, GET, []);
    s := EmptyReadExits(cfg, s3, 1);
  }

  /* ---------- what the server as written returns ---------- */

  // A completed GET returns the latest PUT before it.
  ghost predicate Intact(s: State, id: CallId) {
    id in s.calls && s.calls[id].pc.Done? && s.calls[id].op.IsGet() ==>
      var c := s.calls[id];
      c.pos <= |s.log| && Latest(s.log[..c.pos], c.op.key) == Some(c.ret)
  }

  ghost predicate IntactRun(states: seq<State>) {
    forall i, id :: 0 <= i < |states| ==> Intact(states[i], id)
  }

  ghost predicate AlwaysIntact(cfg: Config) {
    forall states: seq<State>, steps: seq<Step> ::
      IsRun(cfg, states, steps) && TimelyRun(states, steps) ==> IntactRun(states)
  }

  // The run returns another value than the one PUT before.
  ghost predicate Damages(s: State, v: seq<Byte>) {
    && 1 in s.calls && s.calls[1].pc.Done? && s.calls[1].op == GET
    && s.calls[1].pos <= |s.log| && Latest(s.log[..s.calls[1].pos], KEY) == Some(v) && s.calls[1].ret != v
  }

  lemma TimelyCallIsLogged(cfg: Config, states: seq<State>, steps: seq<Step>, n: nat)
    requires cfg.Valid() && IsRun(cfg, states, steps) && OrderlyRun(states, steps)
    requires n in states[|steps|].calls && states[|steps|].calls[n].pc.Done?
    requires n < |states[|steps|].log| && states[|steps|].log[n].id == n
    ensures states[|steps|].calls[n].pos == n
  {
    CallsAreAccountedFor(cfg, states, steps, |steps|);
    var t := TableOf(states[|steps|]);
    assert t.log[n].id in t.threads && t.threads[n].pos == n;
  }

  // A server that does not reach all of some value damages it in some orderly run.
  lemma DamagedValue(cfg: Config, v: seq<Byte>) returns (states: seq<State>, steps: seq<Step>)
    requires cfg.Valid() && |v| <= cfg.valueSize && Visible(v, cfg.upto) != v
    ensures IsRun(cfg, states, steps) && OrderlyRun(states, steps) && Damages(states[|steps|], v)
  {
    var ops := [Put(v), GET];
    states, steps := EverySequenceCompletes(cfg, ops);
    var s := states[|steps|];
    assert Answered(cfg, s, 1, ops) && ops[..1] == [Put(v)];
    assert LogFor([Put(v)]) == [LogEntry(0, Put(v))];
    TimelyCallIsLogged(cfg, states, steps, 1);
    assert s.log[..1] == LogFor([Put(v)]);
  }

  lemma WholeRunsAreIntact(cfg: Config, states: seq<State>, steps: seq<Step>)
    requires cfg.Valid() && cfg.upto == 4 * cfg.valueSize && IsRun(cfg, states, steps) && TimelyRun(states, steps)
    ensures IntactRun(states)
  {
    forall i, id | 0 <= i < |states| && id in states[i].calls && states[i].calls[id].pc.Done? &&
        states[i].calls[id].op.IsGet()
      ensures Intact(states[i], id)
    {
      RunsAreLinearizable(cfg, states, steps, i);
      assert Linearized(cfg, states[i], id);
      GetReturnsLatestPut(cfg, states, steps, i, id);
    }
  }

  // The two servers: the intended stride reaches every slot, the stride as written does so
  // only when a single part holds the whole value.
  function ConfigOf(kdf: Kdf, valueSize: nat, serverThreads: nat, stride: nat): Config
    requires Parameters(valueSize, serverThreads, stride)
  {
    Config(kdf, valueSize, Coverage(valueSize, serverThreads, stride))
  }

  lemma ConfigIsValid(kdf: Kdf, valueSize: nat, serverThreads: nat, stride: nat)
    requires Parameters(valueSize, serverThreads, stride)
    ensures ConfigOf(kdf, valueSize, serverThreads, stride).Valid()
  {
    CoverageIsExact(valueSize, serverThreads, stride);
    PartSizeIsCeiling(valueSize, serverThreads);
  }

  // In all runs all GETs return the latest PUT exactly if the stride is right or one part
  // holds the value.
  lemma EveryValueReturnsIntactIff(kdf: Kdf, valueSize: nat, serverThreads: nat, stride: nat)
    requires Parameters(valueSize, serverThreads, stride)
    ensures AlwaysIntact(ConfigOf(kdf, valueSize, serverThreads, stride))
            <==> stride == 4 || PartSize(valueSize, serverThreads) >= valueSize
  {
    var cfg := ConfigOf(kdf, valueSize, serverThreads, stride);
    ConfigIsValid(kdf, valueSize, serverThreads, stride);
    CoverageIsExact(valueSize, serverThreads, stride);
    if cfg.upto == 4 * valueSize {
      forall states: seq<State>, steps: seq<Step> | IsRun(cfg, states, steps) && TimelyRun(states, steps)
        ensures IntactRun(states)
      {
        WholeRunsAreIntact(cfg, states, steps);
      }
    } else {
      EveryValueWhole(valueSize, cfg.upto);
      var v: seq<Byte> :| |v| == valueSize && Visible(v, cfg.upto) != v;
      var states, steps := DamagedValue(cfg, v);
      OrderlyRunsAreTimely(cfg, states, steps);
      assert !Intact(states[|steps|], 1);
      assert !IntactRun(states);
    }
  }

  // With the shipped constants a value of 43 zero bytes is PUT and comes back different.
  lemma ShippedServerDamagesAValue(kdf: Kdf) returns (states: seq<State>, steps: seq<Step>)
    ensures Parameters(160, 64, 1)
    ensures IsRun(ConfigOf(kdf, 160, 64, 1), states, steps) && OrderlyRun(states, steps)
    ensures Damages(states[|steps|], seq(43, i => 0))
  {
    var v: seq<Byte> := seq(43, i => 0);
    ShippedCoverage();
    ConfigIsValid(kdf, 160, 64, 1);
    VisibleIsWhole(v, 168);
    assert CrumbAt(v, 168) == 0 && !Survives(v, 168, 168);
    states, steps := DamagedValue(ConfigOf(kdf, 160, 64, 1), v);
  }
}
