/**
 The other direction: with new master keys, an access that is read while the create it
 builds on is still in flight makes the server exit.
 */
module Overtaking {
  import opened Wrappers
  import opened Entries
  import opened Protocol
  import opened Linearizability
  import opened ProtocolRuns
  import opened Delivery

  // What has not reached the store is not its last writer.
  ghost predicate NotWritten(s: State, id: CallId)
    requires id in s.calls
  {
    Unserved(s.calls[id], MessageOf(s, id)) ==> Writer(s, s.calls[id].op.key) != Some(s.calls[id].pos)
  }

  ghost predicate WritersKnown(s: State) {
    WritersLogged(s) && forall id :: id in s.calls ==> NotWritten(s, id)
  }

  lemma ProgressKeepsWriters(s: State, s': State, id: CallId)
    requires WritersKnown(s) && Local(s, s', id) && Progresses(s, s', id)
    ensures WritersKnown(s')
  {
    forall j | j in s'.calls
      ensures NotWritten(s', j)
    {
      assert NotWritten(s, j);
    }
  }

  lemma StoringKeepsWriter(x: Relations, cfg: Config, s: State, s': State, id: CallId, j: CallId)
    requires Inv(x, cfg, s) && Stores(s, s', id) && j in s.calls && j != id && NotWritten(s, j)
    ensures NotWritten(s', j)
  {
    MessageIsLogged(x, cfg, s, id);
    if Unserved(s.calls[j], MessageOf(s, j)) {
      UnservedIsLogged(x, cfg, s, j);
    }
  }

  lemma StoringKeepsWriters(x: Relations, cfg: Config, s: State, s': State, id: CallId)
    requires Inv(x, cfg, s) && WritersKnown(s) && Stores(s, s', id)
    ensures WritersKnown(s')
  {
    MessageIsLogged(x, cfg, s, id);
    forall j | j in s.calls && j != id
      ensures NotWritten(s', j)
    {
      assert NotWritten(s, j);
      StoringKeepsWriter(x, cfg, s, s', id, j);
    }
  }

  lemma UnservedIsLogged(x: Relations, cfg: Config, s: State, j: CallId)
    requires Inv(x, cfg, s) && j in s.calls && Unserved(s.calls[j], MessageOf(s, j))
    ensures s.calls[j].pos < |s.log| && s.log[s.calls[j].pos].id == j
  {
    assert CallOK(x, cfg, View(s, s.calls[j].op.key), s.made, s.calls[j], MessageOf(s, j));
    assert LogOK(s.log, j, s.calls[j]);
  }

  lemma RelabelKeepsWriters(s: State, id: CallId, msg: Message)
    requires WritersKnown(s) && id in s.wire && !s.wire[id].ReplyMsg? && !msg.ReplyMsg?
    ensures WritersKnown(s.(wire := s.wire[id := msg]))
  {
    var s' := s.(wire := s.wire[id := msg]);
    forall j | j in s'.calls
      ensures NotWritten(s', j)
    {
      assert NotWritten(s, j);
    }
  }

  lemma ExitKeepsWriters(s: State)
    requires WritersKnown(s)
    ensures WritersKnown(s.(serverDown := true))
  {
    forall j | j in s.calls
      ensures NotWritten(s.(serverDown := true), j)
    {
      assert NotWritten(s, j);
    }
  }

  lemma ServerKeepsWriters(x: Relations, cfg: Config, s: State, step: Step)
    requires Lawful(x, cfg) && Inv(x, cfg, s) && WritersKnown(s) && Enabled(s, step) && Allowed(x, cfg, s, step)
    requires step.ServerCreate? || step.ServerRead? || step.ServerWrite?
    ensures WritersKnown(ServerStep(cfg, s, step))
  {
    var id, s' := step.id, ServerStep(cfg, s, step);
    InvHere(x, cfg, s, id);
    if step.ServerCreate? {
      CreateStores(x, cfg, s, id);
      StoringKeepsWriters(x, cfg, s, s', id);
    } else if step.ServerRead? {
      RelabelKeepsWriters(s, id, s'.wire[id]);
    } else {
      WriteStores(x, cfg, s, id);
      if s.wire[id].timely {
        StoringKeepsWriters(x, cfg, s, s', id);
      } else {
        ExitKeepsWriters(s);
      }
    }
  }

  lemma ClientKeepsWriters(x: Relations, cfg: Config, s: State, step: Step)
    requires Lawful(x, cfg) && Inv(x, cfg, s) && WritersKnown(s) && Enabled(s, step)
    requires step.Advance? || step.Throw?
    ensures WritersKnown(Apply(cfg, s, step))
  {
    InvHere(x, cfg, s, step.id);
    StepIsLocal(x, cfg, s, step);
    RoomFor(x, cfg, s, step.id);
    if step.Advance? {
      AdvanceProgresses(cfg, s, step.id, step.newMaster, step.nonces);
    } else {
      ThrowProgresses(s, step.id, step.sent);
    }
    ProgressKeepsWriters(s, Apply(cfg, s, step), step.id);
  }

  lemma ArrivalKeepsWriters(cfg: Config, s: State, id: CallId, op: Operation)
    requires WritersKnown(s) && s.wire.Keys <= s.calls.Keys && Enabled(s, Arrive(id, op))
    ensures WritersKnown(Apply(cfg, s, Arrive(id, op)))
  {
    var s' := Apply(cfg, s, Arrive(id, op));
    forall j | j in s'.calls
      ensures NotWritten(s', j)
    {
      if j != id {
        assert NotWritten(s, j);
      }
    }
  }

  lemma StepKeepsWriters(x: Relations, cfg: Config, s: State, step: Step)
    requires Lawful(x, cfg) && Inv(x, cfg, s) && WritersKnown(s) && Enabled(s, step) && Allowed(x, cfg, s, step)
    ensures WritersKnown(Apply(cfg, s, step))
  {
    if step.Arrive? {
      ArrivalKeepsWriters(cfg, s, step.id, step.op);
    } else if step.Advance? || step.Throw? {
      ClientKeepsWriters(x, cfg, s, step);
    } else {
      ServerKeepsWriters(x, cfg, s, step);
    }
  }

  lemma {:induction false} NewKeysRunKnowsWriters(cfg: Config, states: seq<State>, steps: seq<Step>, i: nat)
    requires cfg.Valid() && IsRun(cfg, states, steps) && i < |states| && NewKeysRun(cfg, states, steps)
    ensures WritersKnown(states[i])
  {
    if i > 0 {
      NewKeysRunKnowsWriters(cfg, states, steps, i - 1);
      NewKeysRunKeepsInv(cfg, states, steps, i - 1);
      FreshDrawsMakeNewKeys(cfg, states, steps, i - 1);
      LblIsLawful(cfg, Foreign(cfg));
      ForeignRefuses(cfg);
      NewKeysAreStale(cfg, states[i - 1], steps[i - 1].id);
      StepKeepsWriters(Lbl(cfg, Foreign(cfg)), cfg, states[i - 1], steps[i - 1]);
    }
  }

  // The access that the server is working on will make it exit.
  ghost predicate Doomed(cfg: Config, s: State, id: CallId) {
    && id in s.wire && s.wire[id].AccessBusy? && !s.wire[id].timely
    && AccessResult(s.wire[id].entry, s.wire[id].block, cfg.valueSize, cfg.upto).None?
  }

  lemma StaleReadIsDoomed(cfg: Config, states: seq<State>, steps: seq<Step>, i: nat, id: CallId)
    requires cfg.Valid() && IsRun(cfg, states, steps) && i < |states| && NewKeysRun(cfg, states, steps)
    requires id in states[i].wire && states[i].wire[id].AccessBusy? && !states[i].wire[id].timely
    ensures Doomed(cfg, states[i], id)
  {
    NewKeysRunKeepsInv(cfg, states, steps, i);
    ForeignRefuses(cfg);
    var s := states[i];
    InvHere(Lbl(cfg, Foreign(cfg)), cfg, s, id);
    var c := s.calls[id];
    assert Lbl(cfg, Foreign(cfg)).leads(s.wire[id].entry, s.made[c.prev.value].master, s.made[c.pos].master, c.op);
  }

  // An access that is read while the create before it in lock order is still in flight, by
  // call j, ends the server when it is written back.
  lemma OvertakingReadIsDoomed(cfg: Config, states: seq<State>, steps: seq<Step>, i: nat, id: CallId, j: CallId)
    requires cfg.Valid() && IsRun(cfg, states, steps) && i < |steps| && NewKeysRun(cfg, states, steps)
    requires steps[i] == ServerRead(id) && id in states[i].calls
    requires CreateOn(states[i], j, states[i].calls[id].op.key)
    requires states[i].calls[id].prev == Some(states[i].calls[j].pos)
    ensures Doomed(cfg, states[i + 1], id)
  {
    NewKeysRunKnowsWriters(cfg, states, steps, i);
    assert NotWritten(states[i], j);
    assert !Fresh(states[i], states[i].calls[id]);
    StaleReadIsDoomed(cfg, states, steps, i + 1, id);
  }
}
