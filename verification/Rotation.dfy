/**
 What the new master keys are for: every block the server stores, for a GET as for a PUT, is
 labelled anew.  No label of it is in any block the store had, or in the one the access read.
 */
module Rotation {
  import opened Bits
  import opened Labels
  import opened KvServer
  import opened Protocol
  import opened Linearizability
  import opened MasterKeys
  import opened ProtocolRuns
  import opened Delivery
  import opened Overtaking

  // Every slot the server reaches carries a label of this master key.
  ghost predicate Labelled(cfg: Config, master: MasterKey, block: seq<Slot>) {
    |block| == 4 * cfg.valueSize
    && forall n: nat :: n < cfg.upto && n < |block| ==> block[n].lbl.Derived? && block[n].lbl.master == master
  }

  // The blocks have no label in common, where the server looks.
  ghost predicate ShareNoLabel(cfg: Config, a: seq<Slot>, b: seq<Slot>) {
    forall n: nat, m: nat :: n < cfg.upto && n < |a| && m < cfg.upto && m < |b| ==> a[n].lbl != b[m].lbl
  }

  lemma HeldIsLabelled(cfg: Config, master: MasterKey, v: seq<Byte>, block: seq<Slot>)
    requires cfg.Valid() && HoldsLbl(cfg, master, v, block)
    ensures Labelled(cfg, master, block)
  {
    var w := PadToLen(v, cfg.valueSize).value;
    forall n: nat | n < cfg.upto && n < |block|
      ensures block[n].lbl.Derived? && block[n].lbl.master == master
    {
      assert block[n] == SlotFor(cfg.kdf, master, n, CrumbAt(w, n));
    }
  }

  lemma ForeignSharesNoLabel(cfg: Config, master: MasterKey, block: seq<Slot>, other: seq<Slot>)
    requires Labelled(cfg, master, block) && IsForeign(cfg, master, other)
    ensures ShareNoLabel(cfg, block, other)
  {}

  // The operation a message stands for has its version, and nothing is stored for it yet.
  lemma MessageIsNew(cfg: Config, s: State, id: CallId)
    requires cfg.Valid() && Inv(Lbl(cfg, Foreign(cfg)), cfg, s) && WritersKnown(s)
    requires id in s.wire && !s.wire[id].ReplyMsg?
    ensures id in s.calls && s.calls[id].pos in s.made
    ensures forall k: Key :: k in s.written ==> s.written[k] != s.calls[id].pos
  {
    InvHere(Lbl(cfg, Foreign(cfg)), cfg, s, id);
    MessageIsLogged(Lbl(cfg, Foreign(cfg)), cfg, s, id);
    assert NotWritten(s, id);
    forall k: Key | k in s.written
      ensures s.written[k] != s.calls[id].pos
    {
      assert k != s.calls[id].op.key ==> s.log[s.written[k]].op.key == k;
    }
  }

  // So its master key is on no label in the store.
  lemma StoreIsForeign(cfg: Config, s: State, p: nat, k: Key)
    requires cfg.Valid() && Inv(Lbl(cfg, Foreign(cfg)), cfg, s) && NewKeys(cfg, s) && p in s.made
    requires k in s.written ==> s.written[k] != p
    ensures IsForeign(cfg, s.made[p].master, Stored(s.store, k))
  {
    if k in s.written {
      assert StoreOK(Lbl(cfg, Foreign(cfg)), s.made, ViewStore(s, k));
      var v := s.made[s.written[k]];
      OtherMasterIsForeign(cfg, v.master, v.value.value, s.store[k], s.made[p].master);
    }
  }

  // Nor on the block that a timely access has read.
  lemma ReadIsForeign(cfg: Config, s: State, id: CallId)
    requires cfg.Valid() && Inv(Lbl(cfg, Foreign(cfg)), cfg, s) && NewKeys(cfg, s)
    requires id in s.wire && s.wire[id].AccessBusy? && s.wire[id].timely
    ensures id in s.calls && s.calls[id].pos in s.made
    ensures IsForeign(cfg, s.made[s.calls[id].pos].master, s.wire[id].block)
  {
    var x := Lbl(cfg, Foreign(cfg));
    InvHere(x, cfg, s, id);
    MessageIsLogged(x, cfg, s, id);
    var c := s.calls[id];
    PrevIsLast(s.log, id, c);
    OtherMasterIsForeign(cfg, s.made[c.prev.value].master, c.seen.value, s.wire[id].block, s.made[c.pos].master);
  }

  lemma StoringStores(cfg: Config, s: State, step: Step)
    requires cfg.Valid() && Inv(Lbl(cfg, Foreign(cfg)), cfg, s) && Enabled(s, step)
    requires step.ServerCreate? || step.ServerWrite?
    requires !ServerStep(cfg, s, step).serverDown
    ensures step.id in s.calls && Stores(s, ServerStep(cfg, s, step), step.id)
    ensures ServerStep(cfg, s, step).made == s.made
    ensures step.ServerWrite? ==> s.wire[step.id].timely
  {
    var x := Lbl(cfg, Foreign(cfg));
    LblIsLawful(cfg, Foreign(cfg));
    ForeignRefuses(cfg);
    InvHere(x, cfg, s, step.id);
    ServerKeepsKeys(cfg, s, step);
    if step.ServerCreate? {
      CreateStores(x, cfg, s, step.id);
    } else {
      WriteStores(x, cfg, s, step.id);
    }
  }

  lemma StoredIsLabelled(cfg: Config, s: State, k: Key)
    requires cfg.Valid() && Inv(Lbl(cfg, Foreign(cfg)), cfg, s) && k in s.written
    ensures s.written[k] in s.made && k in s.store && Labelled(cfg, s.made[s.written[k]].master, s.store[k])
  {
    assert StoreOK(Lbl(cfg, Foreign(cfg)), s.made, ViewStore(s, k));
    var v := s.made[s.written[k]];
    HeldIsLabelled(cfg, v.master, v.value.value, s.store[k]);
  }

  // The block that a step of the server stores for call id carries, in every slot it reaches,
  // labels of the key drawn for that call, and shares none with what was there before.
  ghost predicate StoresAnew(cfg: Config, states: seq<State>, steps: seq<Step>, i: nat)
    requires IsRun(cfg, states, steps) && i < |steps|
  {
    var s, s', id := states[i], states[i + 1], steps[i].id;
    && id in s.calls && s.calls[id].op.key in s'.store && s.calls[id].pos in s.made
    && var block, master := s'.store[s.calls[id].op.key], s.made[s.calls[id].pos].master;
    && WasDrawn(cfg, states, steps, i, s.calls[id].pos, master)
    && Labelled(cfg, master, block)
    && (forall k: Key :: ShareNoLabel(cfg, block, Stored(s.store, k)))
    && (steps[i].ServerWrite? ==> ShareNoLabel(cfg, block, s.wire[id].block))
  }

  // In every run with new master keys every create, GET and PUT that the server carries out
  // leaves a block with new labels only.
  lemma EveryBlockIsStoredAnew(cfg: Config, states: seq<State>, steps: seq<Step>, i: nat)
    requires cfg.Valid() && IsRun(cfg, states, steps) && i < |steps| && NewKeysRun(cfg, states, steps)
    requires (steps[i].ServerCreate? || steps[i].ServerWrite?) && !states[i + 1].serverDown
    ensures StoresAnew(cfg, states, steps, i)
  {
    var s, s', id := states[i], states[i + 1], steps[i].id;
    NewKeysRunKeepsInv(cfg, states, steps, i);
    NewKeysRunKeepsInv(cfg, states, steps, i + 1);
    NewKeysRunKnowsWriters(cfg, states, steps, i);
    FreshDrawsMakeNewKeys(cfg, states, steps, i);
    StoringStores(cfg, s, steps[i]);
    MessageIsNew(cfg, s, id);
    var c := s.calls[id];
    EveryKeyWasDrawn(cfg, states, steps, i, c.pos);
    StoredIsLabelled(cfg, s', c.op.key);
    var block, master := s'.store[c.op.key], s.made[c.pos].master;
    forall k: Key
      ensures ShareNoLabel(cfg, block, Stored(s.store, k))
    {
      StoreIsForeign(cfg, s, c.pos, k);
      ForeignSharesNoLabel(cfg, master, block, Stored(s.store, k));
    }
    if steps[i].ServerWrite? {
      ReadIsForeign(cfg, s, id);
      ForeignSharesNoLabel(cfg, master, block, s.wire[id].block);
    }
  }
}
