/**
 Where the proxy's master keys come from: the steps that draw one, and what no other step
 changes.
 */
module MasterKeys {
  import opened Labels
  import opened Entries
  import opened KvServer
  import opened Protocol

  // crypto_kdf_keygen: an entry is built under a new master key.
  predicate Draws(cfg: Config, s: State, step: Step) {
    && step.Advance? && step.id in s.calls
    && var c := s.calls[step.id];
    (c.pc.MakeAccess? && c.op.IsGet()) ||
    ((c.pc.MakeAccess? || c.pc.MakeCreate?) && |c.op.value| <= cfg.valueSize)
  }

  /* ---------- step by step ---------- */

  // What a step of the proxy leaves alone when it draws no key.
  ghost predicate KeepsKeys(s: State, s': State) {
    s'.made == s.made && s'.masterKeys == s.masterKeys
  }

  // The key drawn replaces the one the proxy had, whatever the operation.
  ghost predicate TakesKey(s: State, s': State, c: Call, newMaster: MasterKey) {
    && s'.made == s.made[c.pos := Version(newMaster, After(c))]
    && s'.masterKeys == s.masterKeys[c.op.key := newMaster]
  }

  lemma LockKeepsKeys(s: State, id: CallId, next: Pc)
    requires id in s.calls
    ensures KeepsKeys(s, TakeLock(s, id, s.calls[id], next))
  {}

  lemma StartKeepsKeys(cfg: Config, s: State, id: CallId, newMaster: MasterKey, nonces: Nonces)
    requires Enabled(s, Advance(id, newMaster, nonces))
    requires var pc := s.calls[id].pc; pc.Begin? || pc.AbortNext? || pc.LockForCreate? || pc.LockForAccess?
    ensures KeepsKeys(s, AdvanceStep(cfg, s, id, newMaster, nonces))
  {
    if s.calls[id].pc.LockForCreate? {
      LockKeepsKeys(s, id, MakeCreate);
    } else if s.calls[id].pc.LockForAccess? {
      LockKeepsKeys(s, id, MakeAccess);
    }
  }

  lemma SendKeepsKeys(cfg: Config, s: State, id: CallId, newMaster: MasterKey, nonces: Nonces)
    requires Enabled(s, Advance(id, newMaster, nonces))
    requires var pc := s.calls[id].pc;
             pc.RecordCreate? || pc.InsertKey? || pc.SendCreate? || pc.RecordPut? || pc.SendAccess?
    ensures KeepsKeys(s, AdvanceStep(cfg, s, id, newMaster, nonces))
  {}

  lemma FinishKeepsKeys(cfg: Config, s: State, id: CallId, newMaster: MasterKey, nonces: Nonces)
    requires Enabled(s, Advance(id, newMaster, nonces))
    requires var pc := s.calls[id].pc; pc.AwaitReply? || pc.Decode? || pc.CountAccess? || pc.Unlock?
    ensures KeepsKeys(s, AdvanceStep(cfg, s, id, newMaster, nonces))
  {}

  lemma ReadyTakesKey(s: State, id: CallId, newMaster: MasterKey, entry: Entry)
    requires id in s.calls
    ensures TakesKey(s, CreateReady(s, id, s.calls[id], newMaster, entry), s.calls[id], newMaster)
    ensures TakesKey(s, AccessReady(s, id, s.calls[id], newMaster, entry), s.calls[id], newMaster)
  {}

  lemma MakeTakesKey(cfg: Config, s: State, id: CallId, newMaster: MasterKey, nonces: Nonces)
    requires Enabled(s, Advance(id, newMaster, nonces)) && (s.calls[id].pc.MakeCreate? || s.calls[id].pc.MakeAccess?)
    ensures var s' := AdvanceStep(cfg, s, id, newMaster, nonces);
            if Draws(cfg, s, Advance(id, newMaster, nonces)) then TakesKey(s, s', s.calls[id], newMaster)
            else KeepsKeys(s, s')
  {
    var c := s.calls[id];
    if c.pc.MakeCreate? {
      if |c.op.value| <= cfg.valueSize {
        ReadyTakesKey(s, id, newMaster, CreateFor(cfg, c.op.key, newMaster, c.op.value));
      }
    } else if c.op.IsGet() || |c.op.value| <= cfg.valueSize {
      ReadyTakesKey(s, id, newMaster, AccessFor(cfg, MasterOf(s, c.op.key), newMaster, c.op, nonces));
    }
  }

  lemma AdvanceTakesKey(cfg: Config, s: State, id: CallId, newMaster: MasterKey, nonces: Nonces)
    requires Enabled(s, Advance(id, newMaster, nonces))
    ensures var s' := AdvanceStep(cfg, s, id, newMaster, nonces);
            if Draws(cfg, s, Advance(id, newMaster, nonces)) then TakesKey(s, s', s.calls[id], newMaster)
            else KeepsKeys(s, s')
  {
    var pc := s.calls[id].pc;
    if pc.Begin? || pc.AbortNext? || pc.LockForCreate? || pc.LockForAccess? {
      StartKeepsKeys(cfg, s, id, newMaster, nonces);
    } else if pc.MakeCreate? || pc.MakeAccess? {
      MakeTakesKey(cfg, s, id, newMaster, nonces);
    } else if pc.AwaitReply? || pc.Decode? || pc.CountAccess? || pc.Unlock? {
      FinishKeepsKeys(cfg, s, id, newMaster, nonces);
    } else {
      SendKeepsKeys(cfg, s, id, newMaster, nonces);
    }
  }

  lemma ServerKeepsKeys(cfg: Config, s: State, step: Step)
    requires Enabled(s, step) && (step.ServerCreate? || step.ServerRead? || step.ServerWrite?)
    ensures KeepsKeys(s, ServerStep(cfg, s, step))
  {}

  // A key's master key changes exactly when an operation on it draws a new one, GET or PUT,
  // and then it is the one drawn.
  lemma OnlyDrawsChangeKeys(cfg: Config, s: State, step: Step)
    requires Enabled(s, step)
    ensures var s' := Apply(cfg, s, step);
            if Draws(cfg, s, step) then TakesKey(s, s', s.calls[step.id], step.newMaster) else KeepsKeys(s, s')
  {
    if step.Advance? {
      AdvanceTakesKey(cfg, s, step.id, step.newMaster, step.nonces);
    } else if step.ServerCreate? || step.ServerRead? || step.ServerWrite? {
      ServerKeepsKeys(cfg, s, step);
    }
  }

  // A step of the proxy stores nothing, and touches one call and its message, no reply.
  ghost predicate KeepsStore(s: State, s': State, id: CallId) {
    && s'.store == s.store && s'.written == s.written
    && id in s'.calls && s'.calls == s.calls[id := s'.calls[id]] && s'.wire - {id} == s.wire - {id}
    && (id in s'.wire && s'.wire[id].ReplyMsg? ==> id in s.wire && s'.wire[id] == s.wire[id])
  }

  lemma LockKeepsStore(s: State, id: CallId, next: Pc)
    requires id in s.calls
    ensures KeepsStore(s, TakeLock(s, id, s.calls[id], next), id)
  {}

  lemma StartKeepsStore(cfg: Config, s: State, id: CallId, newMaster: MasterKey, nonces: Nonces)
    requires Enabled(s, Advance(id, newMaster, nonces))
    requires var pc := s.calls[id].pc; pc.Begin? || pc.AbortNext? || pc.LockForCreate? || pc.LockForAccess?
    ensures KeepsStore(s, AdvanceStep(cfg, s, id, newMaster, nonces), id)
  {
    if s.calls[id].pc.LockForCreate? {
      LockKeepsStore(s, id, MakeCreate);
    } else if s.calls[id].pc.LockForAccess? {
      LockKeepsStore(s, id, MakeAccess);
    }
  }

  lemma ReadyKeepsStore(s: State, id: CallId, newMaster: MasterKey, entry: Entry)
    requires id in s.calls
    ensures KeepsStore(s, CreateReady(s, id, s.calls[id], newMaster, entry), id)
    ensures KeepsStore(s, AccessReady(s, id, s.calls[id], newMaster, entry), id)
  {}

  lemma MakeKeepsStore(cfg: Config, s: State, id: CallId, newMaster: MasterKey, nonces: Nonces)
    requires Enabled(s, Advance(id, newMaster, nonces)) && (s.calls[id].pc.MakeCreate? || s.calls[id].pc.MakeAccess?)
    ensures KeepsStore(s, AdvanceStep(cfg, s, id, newMaster, nonces), id)
  {
    var c := s.calls[id];
    if c.pc.MakeCreate? {
      if |c.op.value| <= cfg.valueSize {
        ReadyKeepsStore(s, id, newMaster, CreateFor(cfg, c.op.key, newMaster, c.op.value));
      }
    } else if c.op.IsGet() || |c.op.value| <= cfg.valueSize {
      ReadyKeepsStore(s, id, newMaster, AccessFor(cfg, MasterOf(s, c.op.key), newMaster, c.op, nonces));
    }
  }

  lemma SendKeepsStore(cfg: Config, s: State, id: CallId, newMaster: MasterKey, nonces: Nonces)
    requires Enabled(s, Advance(id, newMaster, nonces))
    requires var pc := s.calls[id].pc;
             pc.RecordCreate? || pc.InsertKey? || pc.SendCreate? || pc.RecordPut? || pc.SendAccess?
    ensures KeepsStore(s, AdvanceStep(cfg, s, id, newMaster, nonces), id)
  {}

  lemma FinishKeepsStore(cfg: Config, s: State, id: CallId, newMaster: MasterKey, nonces: Nonces)
    requires Enabled(s, Advance(id, newMaster, nonces))
    requires var pc := s.calls[id].pc; pc.AwaitReply? || pc.Decode? || pc.CountAccess? || pc.Unlock?
    ensures KeepsStore(s, AdvanceStep(cfg, s, id, newMaster, nonces), id)
  {}

  lemma ProxyKeepsStore(cfg: Config, s: State, step: Step)
    requires Enabled(s, step) && (step.Arrive? || step.Advance? || step.Throw?)
    ensures KeepsStore(s, Apply(cfg, s, step), step.id)
  {
    if step.Advance? {
      var pc := s.calls[step.id].pc;
      if pc.Begin? || pc.AbortNext? || pc.LockForCreate? || pc.LockForAccess? {
        StartKeepsStore(cfg, s, step.id, step.newMaster, step.nonces);
      } else if pc.MakeCreate? || pc.MakeAccess? {
        MakeKeepsStore(cfg, s, step.id, step.newMaster, step.nonces);
      } else if pc.AwaitReply? || pc.Decode? || pc.CountAccess? || pc.Unlock? {
        FinishKeepsStore(cfg, s, step.id, step.newMaster, step.nonces);
      } else {
        SendKeepsStore(cfg, s, step.id, step.newMaster, step.nonces);
      }
    }
  }

  // Every message belongs to a call, and a key the server has stored nothing for has the
  // block it started with.
  ghost predicate StoreIsOurs(s: State, initial: Database) {
    && s.wire.Keys <= s.calls.Keys
    && forall k: Key :: k !in s.written ==> Stored(s.store, k) == Stored(initial, k)
  }

  lemma BlockKeepsStoreOurs(s: State, id: CallId, key: Key, block: seq<Slot>, wire: map<CallId, Message>,
                            initial: Database)
    requires StoreIsOurs(s, initial) && id in s.calls && wire.Keys <= s.wire.Keys
    ensures StoreIsOurs(StoreBlock(s, id, key, block, wire), initial)
  {}

  lemma ServerKeepsStoreOurs(cfg: Config, s: State, step: Step, initial: Database)
    requires Enabled(s, step) && (step.ServerCreate? || step.ServerRead? || step.ServerWrite?)
    requires StoreIsOurs(s, initial)
    ensures StoreIsOurs(ServerStep(cfg, s, step), initial)
  {
    var id, entry := step.id, s.wire[step.id].entry;
    assert id in s.wire.Keys;
    if step.ServerCreate? {
      var block := if entry.CreateEntry? then entry.labels else [];
      BlockKeepsStoreOurs(s, id, entry.keyName, block, s.wire - {id}, initial);
    } else if step.ServerWrite? {
      var answer := AccessResult(entry, s.wire[id].block, cfg.valueSize, cfg.upto);
      if answer.Some? {
        BlockKeepsStoreOurs(s, id, entry.keyName, answer.value, s.wire[id := ReplyMsg(answer.value)], initial);
      }
    }
  }

  lemma ProxyKeepsStoreOurs(s: State, s': State, id: CallId, initial: Database)
    requires StoreIsOurs(s, initial) && KeepsStore(s, s', id)
    ensures StoreIsOurs(s', initial)
  {
    forall j | j in s'.wire
      ensures j in s'.calls
    {
      assert j != id ==> j in s'.wire - {id};
    }
  }

  lemma StepKeepsStoreOurs(cfg: Config, s: State, step: Step, initial: Database)
    requires Enabled(s, step) && StoreIsOurs(s, initial)
    ensures StoreIsOurs(Apply(cfg, s, step), initial)
  {
    if step.ServerCreate? || step.ServerRead? || step.ServerWrite? {
      ServerKeepsStoreOurs(cfg, s, step, initial);
    } else {
      ProxyKeepsStore(cfg, s, step);
      ProxyKeepsStoreOurs(s, Apply(cfg, s, step), step.id, initial);
    }
  }

  /* ---------- runs ---------- */

  lemma {:induction false} RunKeepsStoreOurs(cfg: Config, states: seq<State>, steps: seq<Step>, i: nat)
    requires IsRun(cfg, states, steps) && i < |states|
    ensures StoreIsOurs(states[i], states[0].store)
  {
    if i > 0 {
      RunKeepsStoreOurs(cfg, states, steps, i - 1);
      StepKeepsStoreOurs(cfg, states[i - 1], steps[i - 1], states[0].store);
    }
  }

  // Step j drew the master key m for the operation at place p.
  ghost predicate DrewFor(cfg: Config, states: seq<State>, steps: seq<Step>, j: nat, p: nat, m: MasterKey)
    requires |states| == |steps| + 1 && j < |steps|
  {
    Draws(cfg, states[j], steps[j]) && states[j].calls[steps[j].id].pos == p && steps[j].newMaster == m
  }

  ghost predicate WasDrawn(cfg: Config, states: seq<State>, steps: seq<Step>, i: nat, p: nat, m: MasterKey)
    requires |states| == |steps| + 1 && i < |states|
  {
    exists j :: 0 <= j < i && DrewFor(cfg, states, steps, j, p, m)
  }

  // After step i the operation at place p has the key it had, or the one drawn for it.
  ghost predicate KeptOrDrawn(cfg: Config, states: seq<State>, steps: seq<Step>, i: nat, p: nat)
    requires |states| == |steps| + 1 && i < |steps|
  {
    p in states[i + 1].made ==>
      var m := states[i + 1].made[p].master;
      DrewFor(cfg, states, steps, i, p, m) || (p in states[i].made && states[i].made[p].master == m)
  }

  lemma KeyIsKeptOrDrawn(cfg: Config, states: seq<State>, steps: seq<Step>, i: nat, p: nat)
    requires IsRun(cfg, states, steps) && i < |steps|
    ensures KeptOrDrawn(cfg, states, steps, i, p)
  {
    OnlyDrawsChangeKeys(cfg, states[i], steps[i]);
  }

  lemma {:induction false} KeptKeysWereDrawn(cfg: Config, states: seq<State>, steps: seq<Step>, i: nat, p: nat)
    requires |states| == |steps| + 1 && i < |states| && p in states[i].made && p !in states[0].made
    requires forall n: nat :: n < i ==> KeptOrDrawn(cfg, states, steps, n, p)
    ensures WasDrawn(cfg, states, steps, i, p, states[i].made[p].master)
  {
    assert KeptOrDrawn(cfg, states, steps, i - 1, p);
    if !DrewFor(cfg, states, steps, i - 1, p, states[i].made[p].master) {
      KeptKeysWereDrawn(cfg, states, steps, i - 1, p);
    }
  }

  // The master key of every operation was drawn for it.
  lemma EveryKeyWasDrawn(cfg: Config, states: seq<State>, steps: seq<Step>, i: nat, p: nat)
    requires IsRun(cfg, states, steps) && i < |states| && p in states[i].made
    ensures WasDrawn(cfg, states, steps, i, p, states[i].made[p].master)
  {
    forall n: nat | n < i
      ensures KeptOrDrawn(cfg, states, steps, n, p)
    {
      KeyIsKeptOrDrawn(cfg, states, steps, n, p);
    }
    KeptKeysWereDrawn(cfg, states, steps, i, p);
  }
}
