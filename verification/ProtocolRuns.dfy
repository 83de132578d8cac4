/**
 What holds of every run of the protocol: completed GETs are linearized, the server exits
 exactly on a late delivery, and an access shows the server nothing but what is stored.
 */
module ProtocolRuns {
  import opened Wrappers
  import opened Bits
  import opened Labels
  import opened Entries
  import opened KvServer
  import opened Protocol
  import opened Linearizability
  import opened MasterKeys

  /* ---------- the encoding satisfies the laws ---------- */

  lemma LblServes(cfg: Config, stale: (MasterKey, seq<Slot>) -> bool, entry: Entry, oldMaster: MasterKey,
                  newMaster: MasterKey, op: Operation, v: seq<Byte>, block: seq<Slot>)
    requires cfg.Valid() && LeadsLbl(cfg, entry, oldMaster, newMaster, op) && HoldsLbl(cfg, oldMaster, v, block)
    ensures Serves(Lbl(cfg, stale), cfg, entry, newMaster, op, v, block)
  {
    var nonces: Nonces :| entry == AccessFor(cfg, oldMaster, newMaster, op, nonces);
    BuildAccessRewrites(cfg.kdf, op.key, oldMaster, newMaster, TargetOf(cfg, op), nonces, cfg.valueSize);
    AccessMovesEncoding(cfg.kdf, entry, oldMaster, newMaster, TargetOf(cfg, op),
                        PadToLen(v, cfg.valueSize).value, block, cfg.valueSize, cfg.upto);
  }

  lemma LblCreates(cfg: Config, entry: Entry, key: Key, master: MasterKey, v: seq<Byte>)
    requires |v| <= cfg.valueSize && entry == CreateFor(cfg, key, master, v)
    ensures entry.CreateEntry? && entry.keyName == key && HoldsLbl(cfg, master, v, entry.labels)
  {
    CreateLabelsEncode(cfg.kdf, master, PadToLen(v, cfg.valueSize).value);
  }

  // The encoding of ORTOA-LBL satisfies the laws the protocol needs.
  lemma LblIsLawful(cfg: Config, stale: (MasterKey, seq<Slot>) -> bool)
    requires cfg.Valid()
    ensures Lawful(Lbl(cfg, stale), cfg)
  {
    var x := Lbl(cfg, stale);
    forall entry, key, master, v | x.creates(entry, key, master, v)
      ensures entry.CreateEntry? && entry.keyName == key && x.holds(master, v, entry.labels)
    {
      LblCreates(cfg, entry, key, master, v);
    }
    forall entry, oldMaster, newMaster, op, v, block | x.leads(entry, oldMaster, newMaster, op) &&
        x.holds(oldMaster, v, block)
      ensures Serves(x, cfg, entry, newMaster, op, v, block)
    {
      LblServes(cfg, stale, entry, oldMaster, newMaster, op, v, block);
    }
    forall master, v, labels | x.answers(master, v, labels)
      ensures x.holds(master, v, labels) && |labels| == 4 * cfg.valueSize && |v| <= cfg.valueSize
      ensures ReadValue(master, labels, cfg.valueSize, |v|) == Visible(v, cfg.upto)
    {
      ReadBack(cfg.kdf, master, v, labels, cfg.valueSize, cfg.upto);
    }
  }

  // No covered slot of the block carries a label of this master key.
  ghost predicate IsForeign(cfg: Config, master: MasterKey, block: seq<Slot>) {
    forall n: nat :: n < cfg.upto && n < |block| ==> block[n].lbl.Derived? ==> block[n].lbl.master != master
  }

  ghost function Foreign(cfg: Config): (MasterKey, seq<Slot>) -> bool {
    (master: MasterKey, block: seq<Slot>) => IsForeign(cfg, master, block)
  }

  // Every block of another master key is foreign ...
  lemma OtherMasterIsForeign(cfg: Config, master: MasterKey, v: seq<Byte>, block: seq<Slot>, other: MasterKey)
    requires cfg.Valid() && HoldsLbl(cfg, master, v, block) && other != master
    ensures IsForeign(cfg, other, block)
  {
    var w := PadToLen(v, cfg.valueSize).value;
    forall n: nat | n < cfg.upto
      ensures block[n].lbl.master == master
    {
      assert block[n] == SlotFor(cfg.kdf, master, n, CrumbAt(w, n));
    }
  }

  lemma OwnBlockIsNotForeign(cfg: Config, master: MasterKey, v: seq<Byte>, block: seq<Slot>)
    requires cfg.Valid() && HoldsLbl(cfg, master, v, block)
    ensures !IsForeign(cfg, master, block)
  {
    var w := PadToLen(v, cfg.valueSize).value;
    assert block[0] == SlotFor(cfg.kdf, master, 0, CrumbAt(w, 0));
  }

  // ... and makes the server exit, without a box of the entry having opened.
  lemma ForeignRefuses(cfg: Config)
    requires cfg.Valid()
    ensures Refuses(Lbl(cfg, Foreign(cfg)), cfg)
  {
    forall entry: Entry, oldMaster, newMaster, op, block: seq<Slot> |
      LeadsLbl(cfg, entry, oldMaster, newMaster, op) && IsForeign(cfg, oldMaster, block)
      ensures AccessResult(entry, block, cfg.valueSize, cfg.upto).None?
    {
      ForeignShowsNothing(cfg, entry, oldMaster, newMaster, op, block);
      assert OpenAt(entry, block, 0).Some? ==> Opens(entry, block[0].pad, 0, block[0].lbl);
    }
  }

  lemma ForeignShowsNothing(cfg: Config, entry: Entry, oldMaster: MasterKey, newMaster: MasterKey, op: Operation,
                            block: seq<Slot>)
    requires LeadsLbl(cfg, entry, oldMaster, newMaster, op) && IsForeign(cfg, oldMaster, block)
    ensures ShowsNothing(entry, block, cfg.valueSize, cfg.upto)
  {
    var nonces: Nonces :| entry == AccessFor(cfg, oldMaster, newMaster, op, nonces);
    var target := TargetOf(cfg, op);
    assert entry == BuildAccess(cfg.kdf, op.key, oldMaster, newMaster, target, nonces, cfg.valueSize);
    forall n: nat, t: Crumb, m: nat | n < cfg.upto && n < |block|
      ensures !Opens(entry, t, m, block[n].lbl)
    {
      OtherLabelOpensNothing(cfg.kdf, op.key, oldMaster, newMaster, target, nonces, cfg.valueSize, block[n].lbl, t, m);
    }
    BuildAccessRewrites(cfg.kdf, op.key, oldMaster, newMaster, target, nonces, cfg.valueSize);
  }

  /* ---------- the assumptions on runs ---------- */

  // No access writes back a block that some other operation than the one before it in lock
  // order had left: a create that is delivered too late, or after a later write, makes one.
  predicate Timely(s: State, step: Step) {
    step.ServerWrite? && step.id in s.wire && s.wire[step.id].AccessBusy? ==> s.wire[step.id].timely
  }

  ghost predicate TimelyRun(states: seq<State>, steps: seq<Step>)
    requires |states| == |steps| + 1
  {
    forall i :: 0 <= i < |steps| ==> Timely(states[i], steps[i])
  }

  // crypto_kdf_keygen never repeats itself: no two steps draw the same master key, and the
  // blocks the server started with carry no label of a key drawn, where the server looks.
  ghost predicate NewKeysRun(cfg: Config, states: seq<State>, steps: seq<Step>)
    requires |states| == |steps| + 1
  {
    && (forall i, j ::
          0 <= i < j < |steps| && Draws(cfg, states[i], steps[i]) && Draws(cfg, states[j], steps[j]) ==>
          steps[i].newMaster != steps[j].newMaster)
    && (forall i, k: Key :: 0 <= i < |steps| && Draws(cfg, states[i], steps[i]) ==>
          IsForeign(cfg, steps[i].newMaster, Stored(states[0].store, k)))
  }

  // What that makes of the states: different operations have different master keys, and
  // blocks that were not stored by this run are foreign to all of them.
  ghost predicate NewKeys(cfg: Config, s: State) {
    && (forall p, q :: p in s.made && q in s.made && p != q ==> s.made[p].master != s.made[q].master)
    && (forall k: Key, p :: p in s.made && k !in s.written ==> IsForeign(cfg, s.made[p].master, Stored(s.store, k)))
  }

  // Every operation draws a key of its own, so fresh draws suffice.
  lemma FreshDrawsMakeNewKeys(cfg: Config, states: seq<State>, steps: seq<Step>, i: nat)
    requires IsRun(cfg, states, steps) && i < |states| && NewKeysRun(cfg, states, steps)
    ensures NewKeys(cfg, states[i])
  {
    var s := states[i];
    RunKeepsStoreOurs(cfg, states, steps, i);
    forall p, q | p in s.made && q in s.made && p != q
      ensures s.made[p].master != s.made[q].master
    {
      EveryKeyWasDrawn(cfg, states, steps, i, p);
      EveryKeyWasDrawn(cfg, states, steps, i, q);
      var a :| 0 <= a < i && DrewFor(cfg, states, steps, a, p, s.made[p].master);
      var b :| 0 <= b < i && DrewFor(cfg, states, steps, b, q, s.made[q].master);
    }
    forall k: Key, p | p in s.made && k !in s.written
      ensures IsForeign(cfg, s.made[p].master, Stored(s.store, k))
    {
      EveryKeyWasDrawn(cfg, states, steps, i, p);
      var a :| 0 <= a < i && DrewFor(cfg, states, steps, a, p, s.made[p].master);
    }
  }

  /* ---------- the invariant in runs ---------- */

  ghost function AnyBlock(): (MasterKey, seq<Slot>) -> bool {
    (_, _) => true
  }

  lemma NewKeysAreStale(cfg: Config, s: State, id: CallId)
    requires cfg.Valid() && NewKeys(cfg, s) && Inv(Lbl(cfg, Foreign(cfg)), cfg, s)
    ensures ReadsStale(Lbl(cfg, Foreign(cfg)), s, id)
  {
    if id in s.calls && HasPrior(s.made, s.calls[id]) && !Fresh(s, s.calls[id]) {
      var c := s.calls[id];
      if c.op.key in s.written {
        assert StoreOK(Lbl(cfg, Foreign(cfg)), s.made, ViewStore(s, c.op.key));
        var v := s.made[s.written[c.op.key]];
        OtherMasterIsForeign(cfg, v.master, v.value.value, s.store[c.op.key], s.made[c.prev.value].master);
      }
    }
  }

  lemma InitInv(x: Relations, cfg: Config, s: State)
    requires Init(s)
    ensures Inv(x, cfg, s)
  {}

  lemma {:induction false} TimelyRunKeepsInv(cfg: Config, states: seq<State>, steps: seq<Step>, i: nat)
    requires cfg.Valid() && IsRun(cfg, states, steps) && i < |states| && TimelyRun(states, steps)
    ensures Inv(Lbl(cfg, AnyBlock()), cfg, states[i])
  {
    if i == 0 {
      InitInv(Lbl(cfg, AnyBlock()), cfg, states[0]);
    } else {
      TimelyRunKeepsInv(cfg, states, steps, i - 1);
      LblIsLawful(cfg, AnyBlock());
      assert Timely(states[i - 1], steps[i - 1]);
      StepKeepsInv(Lbl(cfg, AnyBlock()), cfg, states[i - 1], steps[i - 1]);
    }
  }

  lemma {:induction false} NewKeysRunKeepsInv(cfg: Config, states: seq<State>, steps: seq<Step>, i: nat)
    requires cfg.Valid() && IsRun(cfg, states, steps) && i < |states| && NewKeysRun(cfg, states, steps)
    ensures Inv(Lbl(cfg, Foreign(cfg)), cfg, states[i])
  {
    if i == 0 {
      InitInv(Lbl(cfg, Foreign(cfg)), cfg, states[0]);
    } else {
      NewKeysRunKeepsInv(cfg, states, steps, i - 1);
      FreshDrawsMakeNewKeys(cfg, states, steps, i - 1);
      LblIsLawful(cfg, Foreign(cfg));
      ForeignRefuses(cfg);
      NewKeysAreStale(cfg, states[i - 1], steps[i - 1].id);
      StepKeepsInv(Lbl(cfg, Foreign(cfg)), cfg, states[i - 1], steps[i - 1]);
    }
  }

  /* ---------- linearizability ---------- */

  // A completed GET stands in the log, and returns what is visible of the latest PUT of its
  // key before it.
  ghost predicate Linearized(cfg: Config, s: State, id: CallId)
    requires id in s.calls
  {
    var c := s.calls[id];
    c.pc.Done? && c.op.IsGet() ==>
      && c.pos < |s.log| && s.log[c.pos] == LogEntry(id, c.op)
      && var latest := Latest(s.log[..c.pos], c.op.key);
      && latest.Some? && |latest.value| <= cfg.valueSize && c.ret == Visible(latest.value, cfg.upto)
  }

  // The slot invariant: the store encodes the latest value under the proxy's master key.
  ghost predicate StoresLatest(cfg: Config, s: State, k: Key) {
    var latest := Latest(s.log, k);
    && k in s.keySet && k in s.masterKeys && k in s.store && latest.Some?
    && k in s.valueSizes && s.valueSizes[k] == |latest.value|
    && HoldsLbl(cfg, s.masterKeys[k], latest.value, s.store[k])
  }

  // The last operation on k has reached the store, and no older one after it.
  predicate CaughtUp(s: State, k: Key) {
    k in s.written && LastPos(s.log, k) == Some(s.written[k])
  }

  lemma InvLinearizes(cfg: Config, stale: (MasterKey, seq<Slot>) -> bool, s: State)
    requires Inv(Lbl(cfg, stale), cfg, s)
    ensures forall id :: id in s.calls ==> Linearized(cfg, s, id)
  {
    forall id | id in s.calls
      ensures Linearized(cfg, s, id)
    {
      InvHere(Lbl(cfg, stale), cfg, s, id);
    }
  }

  lemma InvStoresLatest(cfg: Config, stale: (MasterKey, seq<Slot>) -> bool, s: State, k: Key)
    requires Inv(Lbl(cfg, stale), cfg, s) && Free(s, k) && k in s.keySet && CaughtUp(s, k)
    ensures StoresLatest(cfg, s, k)
  {
    assert Settled(View(s, k), s.made, s.log, k);
    assert StoreOK(Lbl(cfg, stale), s.made, ViewStore(s, k));
  }

  lemma NotCaughtUpStoresAnother(cfg: Config, s: State, k: Key)
    requires cfg.Valid() && NewKeys(cfg, s) && Inv(Lbl(cfg, Foreign(cfg)), cfg, s)
    requires Free(s, k) && k in s.keySet && !CaughtUp(s, k)
    ensures k in s.masterKeys && IsForeign(cfg, s.masterKeys[k], Stored(s.store, k))
  {
    assert Settled(View(s, k), s.made, s.log, k);
    var last := LastPos(s.log, k).value;
    if k in s.written {
      assert StoreOK(Lbl(cfg, Foreign(cfg)), s.made, ViewStore(s, k));
      var v := s.made[s.written[k]];
      OtherMasterIsForeign(cfg, v.master, v.value.value, s.store[k], s.made[last].master);
    }
  }

  // With new master keys the slot invariant holds of an unlocked key exactly if its store has
  // caught up; until then the block carries no label of the proxy's master key.
  lemma SlotInvariantIffCaughtUp(cfg: Config, states: seq<State>, steps: seq<Step>, i: nat, k: Key)
    requires cfg.Valid() && IsRun(cfg, states, steps) && i < |states| && NewKeysRun(cfg, states, steps)
    requires Free(states[i], k) && k in states[i].keySet
    ensures StoresLatest(cfg, states[i], k) <==> CaughtUp(states[i], k)
  {
    NewKeysRunKeepsInv(cfg, states, steps, i);
    FreshDrawsMakeNewKeys(cfg, states, steps, i);
    var s := states[i];
    if CaughtUp(s, k) {
      InvStoresLatest(cfg, Foreign(cfg), s, k);
    } else {
      NotCaughtUpStoresAnother(cfg, s, k);
      if StoresLatest(cfg, s, k) {
        OwnBlockIsNotForeign(cfg, s.masterKeys[k], Latest(s.log, k).value, s.store[k]);
      }
    }
  }

  // Main theorem: in every interleaving of any number of calls, failures and late creates
  // included, every completed GET is linearized and every unlocked key whose store has
  // caught up satisfies the slot invariant; all that is assumed is that master keys are new
  // or that no late block is written back.  In the first case no other unlocked key satisfies
  // it, in the second the server never exits.
  lemma RunsAreLinearizable(cfg: Config, states: seq<State>, steps: seq<Step>, i: nat)
    requires cfg.Valid() && IsRun(cfg, states, steps) && i < |states|
    requires TimelyRun(states, steps) || NewKeysRun(cfg, states, steps)
    ensures forall id :: id in states[i].calls ==> Linearized(cfg, states[i], id)
    ensures forall k: Key :: Free(states[i], k) && k in states[i].keySet && CaughtUp(states[i], k) ==>
              StoresLatest(cfg, states[i], k)
    ensures NewKeysRun(cfg, states, steps) ==> forall k: Key :: Free(states[i], k) && k in states[i].keySet ==>
              (StoresLatest(cfg, states[i], k) <==> CaughtUp(states[i], k))
    ensures TimelyRun(states, steps) ==> !states[i].serverDown
  {
    var s := states[i];
    if NewKeysRun(cfg, states, steps) {
      forall k: Key | Free(s, k) && k in s.keySet
        ensures StoresLatest(cfg, s, k) <==> CaughtUp(s, k)
      {
        SlotInvariantIffCaughtUp(cfg, states, steps, i, k);
      }
    }
    if TimelyRun(states, steps) {
      TimelyRunKeepsInv(cfg, states, steps, i);
      InvLinearizes(cfg, AnyBlock(), s);
      forall k: Key | Free(s, k) && k in s.keySet && CaughtUp(s, k)
        ensures StoresLatest(cfg, s, k)
      {
        InvStoresLatest(cfg, AnyBlock(), s, k);
      }
      TimelyServerStays(cfg, states, steps, i);
    } else {
      NewKeysRunKeepsInv(cfg, states, steps, i);
      InvLinearizes(cfg, Foreign(cfg), s);
      forall k: Key | Free(s, k) && k in s.keySet && CaughtUp(s, k)
        ensures StoresLatest(cfg, s, k)
      {
        InvStoresLatest(cfg, Foreign(cfg), s, k);
      }
    }
  }

  /* ---------- when the server exits ---------- */

  lemma StartDoesNotExit(cfg: Config, s: State, id: CallId, newMaster: MasterKey, nonces: Nonces)
    requires Enabled(s, Advance(id, newMaster, nonces))
    requires var pc := s.calls[id].pc; pc.Begin? || pc.AbortNext? || pc.LockForCreate? || pc.LockForAccess?
    ensures AdvanceStep(cfg, s, id, newMaster, nonces).serverDown == s.serverDown
  {}

  lemma MakeDoesNotExit(cfg: Config, s: State, id: CallId, newMaster: MasterKey, nonces: Nonces)
    requires Enabled(s, Advance(id, newMaster, nonces))
    requires var pc := s.calls[id].pc; pc.MakeCreate? || pc.MakeAccess?
    ensures AdvanceStep(cfg, s, id, newMaster, nonces).serverDown == s.serverDown
  {}

  lemma SendDoesNotExit(cfg: Config, s: State, id: CallId, newMaster: MasterKey, nonces: Nonces)
    requires Enabled(s, Advance(id, newMaster, nonces))
    requires var pc := s.calls[id].pc;
             pc.RecordCreate? || pc.InsertKey? || pc.SendCreate? || pc.RecordPut? || pc.SendAccess?
    ensures AdvanceStep(cfg, s, id, newMaster, nonces).serverDown == s.serverDown
  {}

  lemma FinishDoesNotExit(cfg: Config, s: State, id: CallId, newMaster: MasterKey, nonces: Nonces)
    requires Enabled(s, Advance(id, newMaster, nonces))
    requires var pc := s.calls[id].pc; pc.AwaitReply? || pc.Decode? || pc.CountAccess? || pc.Unlock?
    ensures AdvanceStep(cfg, s, id, newMaster, nonces).serverDown == s.serverDown
  {}

  lemma AdvanceDoesNotExit(cfg: Config, s: State, id: CallId, newMaster: MasterKey, nonces: Nonces)
    requires Enabled(s, Advance(id, newMaster, nonces))
    ensures AdvanceStep(cfg, s, id, newMaster, nonces).serverDown == s.serverDown
  {
    var pc := s.calls[id].pc;
    if pc.Begin? || pc.AbortNext? || pc.LockForCreate? || pc.LockForAccess? {
      StartDoesNotExit(cfg, s, id, newMaster, nonces);
    } else if pc.MakeCreate? || pc.MakeAccess? {
      MakeDoesNotExit(cfg, s, id, newMaster, nonces);
    } else if pc.AwaitReply? || pc.Decode? || pc.CountAccess? || pc.Unlock? {
      FinishDoesNotExit(cfg, s, id, newMaster, nonces);
    } else {
      SendDoesNotExit(cfg, s, id, newMaster, nonces);
    }
  }

  lemma ServerDoesNotExit(cfg: Config, s: State, step: Step)
    requires Enabled(s, step) && (step.ServerCreate? || step.ServerRead?)
    ensures ServerStep(cfg, s, step).serverDown == s.serverDown
  {}

  lemma OnlyWritesExit(cfg: Config, s: State, step: Step)
    requires Enabled(s, step) && !step.ServerWrite?
    ensures Apply(cfg, s, step).serverDown == s.serverDown
  {
    if step.Advance? {
      AdvanceDoesNotExit(cfg, s, step.id, step.newMaster, step.nonces);
    } else if step.ServerCreate? || step.ServerRead? {
      ServerDoesNotExit(cfg, s, step);
    }
  }

  lemma WriteExits(x: Relations, cfg: Config, s: State, id: CallId)
    requires Lawful(x, cfg) && Here(x, cfg, s, id) && Enabled(s, ServerWrite(id))
    requires s.wire[id].timely || Refuses(x, cfg)
    ensures ServerStep(cfg, s, ServerWrite(id)).serverDown <==> !s.wire[id].timely
  {
    ExitsIffNotTimely(x, cfg, s, id);
  }

  lemma ExitStep(x: Relations, cfg: Config, s: State, step: Step)
    requires Lawful(x, cfg) && Inv(x, cfg, s) && Enabled(s, step) && Allowed(x, cfg, s, step)
    ensures Apply(cfg, s, step).serverDown <==> s.serverDown || !Timely(s, step)
  {
    if step.ServerWrite? {
      InvHere(x, cfg, s, step.id);
      WriteExits(x, cfg, s, step.id);
    } else {
      OnlyWritesExit(cfg, s, step);
    }
  }

  lemma TimelyExitStep(cfg: Config, states: seq<State>, steps: seq<Step>, i: nat)
    requires cfg.Valid() && IsRun(cfg, states, steps) && i < |steps| && TimelyRun(states, steps)
    ensures states[i + 1].serverDown == states[i].serverDown
  {
    TimelyRunKeepsInv(cfg, states, steps, i);
    LblIsLawful(cfg, AnyBlock());
    assert Timely(states[i], steps[i]);
    ExitStep(Lbl(cfg, AnyBlock()), cfg, states[i], steps[i]);
  }

  lemma {:induction false} TimelyServerStays(cfg: Config, states: seq<State>, steps: seq<Step>, i: nat)
    requires cfg.Valid() && IsRun(cfg, states, steps) && i < |states| && TimelyRun(states, steps)
    ensures !states[i].serverDown
  {
    if i > 0 {
      TimelyServerStays(cfg, states, steps, i - 1);
      TimelyExitStep(cfg, states, steps, i - 1);
    }
  }

  lemma NewKeysExitStep(cfg: Config, states: seq<State>, steps: seq<Step>, i: nat)
    requires cfg.Valid() && IsRun(cfg, states, steps) && i < |steps| && NewKeysRun(cfg, states, steps)
    ensures states[i + 1].serverDown <==> states[i].serverDown || !Timely(states[i], steps[i])
  {
    NewKeysRunKeepsInv(cfg, states, steps, i);
    FreshDrawsMakeNewKeys(cfg, states, steps, i);
    LblIsLawful(cfg, Foreign(cfg));
    ForeignRefuses(cfg);
    NewKeysAreStale(cfg, states[i], steps[i].id);
    ExitStep(Lbl(cfg, Foreign(cfg)), cfg, states[i], steps[i]);
  }

  ghost predicate LateWrite(states: seq<State>, steps: seq<Step>, i: nat)
    requires |states| == |steps| + 1 && i < |states|
  {
    exists j :: 0 <= j < i && !Timely(states[j], steps[j])
  }

  lemma LateWriteNext(states: seq<State>, steps: seq<Step>, i: nat)
    requires |states| == |steps| + 1 && i < |steps|
    ensures LateWrite(states, steps, i + 1) <==> LateWrite(states, steps, i) || !Timely(states[i], steps[i])
  {}

  // With new master keys timeliness is exact: the server has exited exactly if some access
  // wrote back a block that its predecessor had not left.
  lemma {:induction false} ServerExitsIffNotTimely(cfg: Config, states: seq<State>, steps: seq<Step>, i: nat)
    requires cfg.Valid() && IsRun(cfg, states, steps) && i < |states| && NewKeysRun(cfg, states, steps)
    ensures states[i].serverDown <==> LateWrite(states, steps, i)
  {
    if i > 0 {
      ServerExitsIffNotTimely(cfg, states, steps, i - 1);
      NewKeysExitStep(cfg, states, steps, i - 1);
      LateWriteNext(states, steps, i - 1);
    }
  }

  /* ---------- what a GET returns ---------- */

  // A server whose portions cover every slot returns the latest PUT itself, whatever its
  // length; a server that covers less still does for values short enough, and exactly for
  // the values all of whose uncovered crumbs are 3.
  lemma GetReturnsLatestPut(cfg: Config, states: seq<State>, steps: seq<Step>, i: nat, id: CallId)
    requires cfg.Valid() && IsRun(cfg, states, steps) && i < |states|
    requires TimelyRun(states, steps) || NewKeysRun(cfg, states, steps)
    requires id in states[i].calls && states[i].calls[id].pc.Done? && states[i].calls[id].op.IsGet()
    ensures var c := states[i].calls[id];
            && c.pos < |states[i].log|
            && var latest := Latest(states[i].log[..c.pos], c.op.key);
            && latest.Some?
            && (4 * |latest.value| <= cfg.upto ==> c.ret == latest.value)
            && (c.ret == latest.value <==> forall n: nat :: Survives(latest.value, cfg.upto, n))
  {
    RunsAreLinearizable(cfg, states, steps, i);
    var c := states[i].calls[id];
    assert Linearized(cfg, states[i], id);
    VisibleIsWhole(Latest(states[i].log[..c.pos], c.op.key).value, cfg.upto);
  }

  /* ---------- what the server sees ---------- */

  lemma AccessForShowsOnly(cfg: Config, entry: Entry, oldMaster: MasterKey, newMaster: MasterKey, op: Operation,
                           v: seq<Byte>, block: seq<Slot>)
    requires cfg.Valid() && LeadsLbl(cfg, entry, oldMaster, newMaster, op) && HoldsLbl(cfg, oldMaster, v, block)
    ensures ShowsOnly(entry, block, cfg.valueSize, cfg.upto)
  {
    var nonces: Nonces :| entry == AccessFor(cfg, oldMaster, newMaster, op, nonces);
    AccessShowsOnly(cfg.kdf, op.key, oldMaster, newMaster, TargetOf(cfg, op), nonces,
                    cfg.valueSize, PadToLen(v, cfg.valueSize).value, block, cfg.upto);
  }

  // The server's view of an access it works on: the stored block, if that is the one the
  // access builds on, and otherwise nothing.
  ghost predicate ShowsBlockAtMost(cfg: Config, msg: Message)
    requires msg.AccessBusy?
  {
    if msg.timely then ShowsOnly(msg.entry, msg.block, cfg.valueSize, cfg.upto)
    else ShowsNothing(msg.entry, msg.block, cfg.valueSize, cfg.upto)
  }

  lemma MessageShowsBlockAtMost(cfg: Config, stale: (MasterKey, seq<Slot>) -> bool, s: State, id: CallId)
    requires cfg.Valid() && Inv(Lbl(cfg, stale), cfg, s) && id in s.wire && s.wire[id].AccessBusy?
    requires s.wire[id].timely || stale == Foreign(cfg)
    ensures ShowsBlockAtMost(cfg, s.wire[id])
  {
    InvHere(Lbl(cfg, stale), cfg, s, id);
    var c, msg := s.calls[id], s.wire[id];
    var oldMaster, newMaster := s.made[c.prev.value].master, s.made[c.pos].master;
    if msg.timely {
      AccessForShowsOnly(cfg, msg.entry, oldMaster, newMaster, c.op, c.seen.value, msg.block);
    } else {
      ForeignShowsNothing(cfg, msg.entry, oldMaster, newMaster, c.op, msg.block);
    }
  }

  // What is assumed of an access the server works on: new master keys, or a timely read.
  ghost predicate Observed(cfg: Config, states: seq<State>, steps: seq<Step>, i: nat, id: CallId) {
    && IsRun(cfg, states, steps) && i < |states|
    && id in states[i].wire && states[i].wire[id].AccessBusy?
    && (NewKeysRun(cfg, states, steps) || (TimelyRun(states, steps) && states[i].wire[id].timely))
  }

  // In every run with new master keys, late creates included, at every access the server
  // works on, GET or PUT: a box opens only if the stored block says so already.
  lemma EveryAccessShowsOnlyTheBlock(cfg: Config, states: seq<State>, steps: seq<Step>, i: nat, id: CallId)
    requires cfg.Valid() && Observed(cfg, states, steps, i, id)
    ensures ShowsBlockAtMost(cfg, states[i].wire[id])
  {
    if NewKeysRun(cfg, states, steps) {
      NewKeysRunKeepsInv(cfg, states, steps, i);
      MessageShowsBlockAtMost(cfg, Foreign(cfg), states[i], id);
    } else {
      TimelyRunKeepsInv(cfg, states, steps, i);
      MessageShowsBlockAtMost(cfg, AnyBlock(), states[i], id);
    }
  }

  // So of two accesses that read equal blocks, in whatever runs, both in time or both late,
  // the server cannot tell which is the GET and which the PUT.
  lemma GetsAndPutsLookAlikeInRuns(cfg: Config, states: seq<State>, steps: seq<Step>, i: nat, id: CallId,
                                   states': seq<State>, steps': seq<Step>, i': nat, id': CallId)
    requires cfg.Valid() && Observed(cfg, states, steps, i, id) && Observed(cfg, states', steps', i', id')
    requires states[i].wire[id].block == states'[i'].wire[id'].block
    requires states[i].wire[id].timely == states'[i'].wire[id'].timely
    ensures Indistinguishable(states[i].wire[id].entry, states'[i'].wire[id'].entry, states[i].wire[id].block, cfg.upto)
  {
    EveryAccessShowsOnlyTheBlock(cfg, states, steps, i, id);
    EveryAccessShowsOnlyTheBlock(cfg, states', steps', i', id');
  }
}
