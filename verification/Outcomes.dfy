/**
 What becomes of a call of handleOp, in every run and whatever the delivery: when it gives up,
 when an exception ends it, which of its two paths it takes, and what is left of an exited
 server.
 */
module Outcomes {
  import opened Wrappers
  import opened Labels
  import opened Entries
  import opened Protocol
  import opened Linearizability
  import opened MasterKeys
  import opened ProtocolRuns

  /* ---------- what a call finds ---------- */

  // A GET finds its key unknown, or the exchange finds the lock not free.
  predicate Refused(s: State, step: Step) {
    && step.Advance? && step.id in s.calls
    && var c := s.calls[step.id];
    || (c.pc.Begin? && c.op.IsGet() && c.op.key !in s.keySet)
    || ((c.pc.LockForCreate? || c.pc.LockForAccess?) && !Free(s, c.op.key))
  }

  // The RPC throws, or padToLen does.
  predicate Breaks(cfg: Config, s: State, step: Step) {
    || step.Throw?
    || (step.Advance? && step.id in s.calls &&
        var c := s.calls[step.id];
        (c.pc.MakeCreate? || (c.pc.MakeAccess? && !c.op.IsGet())) && |c.op.value| > cfg.valueSize)
  }

  // The keySet test of line 39, with this result.
  predicate Finds(s: State, step: Step, known: bool) {
    && step.Advance? && step.id in s.calls && s.calls[step.id].pc.Begin?
    && (s.calls[step.id].op.key in s.keySet) == known
  }

  // Line 44, 61 or 93 is next, or behind.
  predicate GivesUp(c: Call) {
    c.pc.AbortNext? || c.pc.Aborted?
  }

  // On the path of lines 46-58.
  predicate Creates(c: Call, msg: Option<Message>) {
    || c.pc.LockForCreate? || c.pc.MakeCreate? || c.pc.RecordCreate? || c.pc.InsertKey? || c.pc.SendCreate?
    || (msg.Some? && msg.value.CreateMsg?)
  }

  // On the path of lines 65-92.
  predicate Accesses(c: Call, msg: Option<Message>) {
    || c.pc.LockForAccess? || c.pc.MakeAccess? || c.pc.RecordPut? || c.pc.SendAccess? || c.pc.AwaitReply?
    || c.pc.Decode?
    || (msg.Some? && !msg.value.CreateMsg?)
  }

  // Only a GET that has decoded its reply has something to return.
  predicate Returns(c: Call) {
    && (c.pc.Decode? ==> c.op.IsGet())
    && (c.ret != [] ==> c.op.IsGet() && (c.pc.CountAccess? || c.pc.Unlock? || c.pc.Done?))
  }

  /* ---------- step by step ---------- */

  // What one step makes of call id.
  ghost predicate Develops(cfg: Config, s: State, step: Step, s': State, id: CallId) {
    && id in s.calls && id in s'.calls
    && var c, c' := s.calls[id], s'.calls[id];
    && var m, m' := MessageOf(s, id), MessageOf(s', id);
    && c'.op == c.op
    && (GivesUp(c') <==> GivesUp(c) || (step.id == id && Refused(s, step)))
    && (c'.pc.Thrown? <==> c.pc.Thrown? || (step.id == id && Breaks(cfg, s, step)))
    && (Creates(c', m') ==> Creates(c, m) || (step.id == id && Finds(s, step, false) && !c.op.IsGet()))
    && (Accesses(c', m') ==> Accesses(c, m) || (step.id == id && Finds(s, step, true)))
    && (Returns(c) ==> Returns(c'))
  }

  // A step that leaves the call and its message alone, or only moves the message on.
  lemma OthersDevelop(cfg: Config, s: State, step: Step, s': State, id: CallId)
    requires id in s.calls && id in s'.calls && s'.calls[id] == s.calls[id]
    requires step.id == id ==> !step.Advance? && !step.Throw?
    requires MessageOf(s', id).Some? ==>
               MessageOf(s, id).Some? && MessageOf(s', id).value.CreateMsg? == MessageOf(s, id).value.CreateMsg?
    ensures Develops(cfg, s, step, s', id)
  {}

  lemma TestDevelops(cfg: Config, s: State, id: CallId, newMaster: MasterKey, nonces: Nonces)
    requires Enabled(s, Advance(id, newMaster, nonces)) && (s.calls[id].pc.Begin? || s.calls[id].pc.AbortNext?)
    ensures Develops(cfg, s, Advance(id, newMaster, nonces), AdvanceStep(cfg, s, id, newMaster, nonces), id)
  {}

  // The exchange, with what it makes of the call.
  lemma ExchangeDevelops(cfg: Config, s: State, id: CallId, newMaster: MasterKey, nonces: Nonces, s': State)
    requires id in s.calls && (s.calls[id].pc.LockForCreate? || s.calls[id].pc.LockForAccess?)
    requires id in s'.calls && s'.calls[id].op == s.calls[id].op && s'.calls[id].ret == s.calls[id].ret
    requires s'.wire == s.wire
    requires s'.calls[id].pc == if !Free(s, s.calls[id].op.key) then AbortNext
                                else if s.calls[id].pc.LockForCreate? then MakeCreate else MakeAccess
    ensures Develops(cfg, s, Advance(id, newMaster, nonces), s', id)
  {}

  lemma ExchangeTakes(s: State, id: CallId, next: Pc)
    requires id in s.calls && Free(s, s.calls[id].op.key)
    ensures var s' := TakeLock(s, id, s.calls[id], next);
            && id in s'.calls && s'.calls[id].op == s.calls[id].op && s'.calls[id].ret == s.calls[id].ret
            && s'.wire == s.wire && s'.calls[id].pc == next
  {}

  lemma ExchangeFails(s: State, id: CallId, next: Pc)
    requires id in s.calls && !Free(s, s.calls[id].op.key)
    ensures var s' := TakeLock(s, id, s.calls[id], next);
            && id in s'.calls && s'.calls[id] == s.calls[id].(pc := AbortNext) && s'.wire == s.wire
  {}

  lemma LockDevelops(cfg: Config, s: State, id: CallId, newMaster: MasterKey, nonces: Nonces)
    requires Enabled(s, Advance(id, newMaster, nonces))
    requires s.calls[id].pc.LockForCreate? || s.calls[id].pc.LockForAccess?
    ensures Develops(cfg, s, Advance(id, newMaster, nonces), AdvanceStep(cfg, s, id, newMaster, nonces), id)
  {
    var next := if s.calls[id].pc.LockForCreate? then MakeCreate else MakeAccess;
    if Free(s, s.calls[id].op.key) {
      ExchangeTakes(s, id, next);
    } else {
      ExchangeFails(s, id, next);
    }
    ExchangeDevelops(cfg, s, id, newMaster, nonces, AdvanceStep(cfg, s, id, newMaster, nonces));
  }

  lemma CreateReadyDevelops(cfg: Config, s: State, id: CallId, newMaster: MasterKey, nonces: Nonces, entry: Entry)
    requires id in s.calls && s.calls[id].pc.MakeCreate? && |s.calls[id].op.value| <= cfg.valueSize
    ensures Develops(cfg, s, Advance(id, newMaster, nonces), CreateReady(s, id, s.calls[id], newMaster, entry), id)
  {}

  lemma AccessReadyDevelops(cfg: Config, s: State, id: CallId, newMaster: MasterKey, nonces: Nonces, entry: Entry)
    requires id in s.calls && s.calls[id].pc.MakeAccess?
    requires s.calls[id].op.IsGet() || |s.calls[id].op.value| <= cfg.valueSize
    ensures Develops(cfg, s, Advance(id, newMaster, nonces), AccessReady(s, id, s.calls[id], newMaster, entry), id)
  {}

  lemma MakeDevelops(cfg: Config, s: State, id: CallId, newMaster: MasterKey, nonces: Nonces)
    requires Enabled(s, Advance(id, newMaster, nonces)) && (s.calls[id].pc.MakeCreate? || s.calls[id].pc.MakeAccess?)
    ensures Develops(cfg, s, Advance(id, newMaster, nonces), AdvanceStep(cfg, s, id, newMaster, nonces), id)
  {
    var c := s.calls[id];
    if c.pc.MakeCreate? {
      if |c.op.value| <= cfg.valueSize {
        CreateReadyDevelops(cfg, s, id, newMaster, nonces, CreateFor(cfg, c.op.key, newMaster, c.op.value));
      }
    } else if c.op.IsGet() || |c.op.value| <= cfg.valueSize {
      var entry := AccessFor(cfg, MasterOf(s, c.op.key), newMaster, c.op, nonces);
      AccessReadyDevelops(cfg, s, id, newMaster, nonces, entry);
    }
  }

  lemma RecordDevelops(cfg: Config, s: State, id: CallId, newMaster: MasterKey, nonces: Nonces)
    requires Enabled(s, Advance(id, newMaster, nonces))
    requires var pc := s.calls[id].pc; pc.RecordCreate? || pc.InsertKey? || pc.RecordPut?
    ensures Develops(cfg, s, Advance(id, newMaster, nonces), AdvanceStep(cfg, s, id, newMaster, nonces), id)
  {}

  lemma SendDevelops(cfg: Config, s: State, id: CallId, newMaster: MasterKey, nonces: Nonces)
    requires Enabled(s, Advance(id, newMaster, nonces)) && (s.calls[id].pc.SendCreate? || s.calls[id].pc.SendAccess?)
    ensures Develops(cfg, s, Advance(id, newMaster, nonces), AdvanceStep(cfg, s, id, newMaster, nonces), id)
  {}

  lemma ReplyDevelops(cfg: Config, s: State, id: CallId, newMaster: MasterKey, nonces: Nonces)
    requires Enabled(s, Advance(id, newMaster, nonces)) && (s.calls[id].pc.AwaitReply? || s.calls[id].pc.Decode?)
    ensures Develops(cfg, s, Advance(id, newMaster, nonces), AdvanceStep(cfg, s, id, newMaster, nonces), id)
  {}

  lemma FinishDevelops(cfg: Config, s: State, id: CallId, newMaster: MasterKey, nonces: Nonces)
    requires Enabled(s, Advance(id, newMaster, nonces)) && (s.calls[id].pc.CountAccess? || s.calls[id].pc.Unlock?)
    ensures Develops(cfg, s, Advance(id, newMaster, nonces), AdvanceStep(cfg, s, id, newMaster, nonces), id)
  {}

  lemma AdvanceDevelops(cfg: Config, s: State, id: CallId, newMaster: MasterKey, nonces: Nonces)
    requires Enabled(s, Advance(id, newMaster, nonces))
    ensures Develops(cfg, s, Advance(id, newMaster, nonces), AdvanceStep(cfg, s, id, newMaster, nonces), id)
  {
    var pc := s.calls[id].pc;
    if pc.Begin? || pc.AbortNext? {
      TestDevelops(cfg, s, id, newMaster, nonces);
    } else if pc.LockForCreate? || pc.LockForAccess? {
      LockDevelops(cfg, s, id, newMaster, nonces);
    } else if pc.MakeCreate? || pc.MakeAccess? {
      MakeDevelops(cfg, s, id, newMaster, nonces);
    } else if pc.RecordCreate? || pc.InsertKey? || pc.RecordPut? {
      RecordDevelops(cfg, s, id, newMaster, nonces);
    } else if pc.SendCreate? || pc.SendAccess? {
      SendDevelops(cfg, s, id, newMaster, nonces);
    } else if pc.AwaitReply? || pc.Decode? {
      ReplyDevelops(cfg, s, id, newMaster, nonces);
    } else {
      FinishDevelops(cfg, s, id, newMaster, nonces);
    }
  }

  lemma ThrowDevelops(cfg: Config, s: State, id: CallId, sent: bool)
    requires Enabled(s, Throw(id, sent))
    ensures Develops(cfg, s, Throw(id, sent), ThrowStep(s, id, sent), id)
  {}

  lemma ServerDevelops(cfg: Config, s: State, step: Step, id: CallId)
    requires Enabled(s, step) && (step.ServerCreate? || step.ServerRead? || step.ServerWrite?) && id in s.calls
    ensures Develops(cfg, s, step, ServerStep(cfg, s, step), id)
  {
    var s' := ServerStep(cfg, s, step);
    if step.ServerWrite? {
      var busy := s.wire[step.id];
      assert s' == WriteBack(s, step.id, busy.entry.keyName,
                             AccessResult(busy.entry, busy.block, cfg.valueSize, cfg.upto));
    }
    OthersDevelop(cfg, s, step, s', id);
  }

  lemma ProxyDevelops(cfg: Config, s: State, step: Step, id: CallId)
    requires Enabled(s, step) && (step.Advance? || step.Throw?) && id in s.calls
    ensures Develops(cfg, s, step, Apply(cfg, s, step), id)
  {
    if step.id != id {
      ProxyKeepsStore(cfg, s, step);
      var s' := Apply(cfg, s, step);
      assert id in s'.wire <==> id in s'.wire - {step.id};
      assert id in s.wire <==> id in s.wire - {step.id};
      OthersDevelop(cfg, s, step, s', id);
    } else if step.Advance? {
      AdvanceDevelops(cfg, s, id, step.newMaster, step.nonces);
    } else {
      ThrowDevelops(cfg, s, id, step.sent);
    }
  }

  lemma StepDevelops(cfg: Config, s: State, step: Step, id: CallId)
    requires Enabled(s, step) && id in s.calls
    ensures Develops(cfg, s, step, Apply(cfg, s, step), id)
  {
    if step.Advance? || step.Throw? {
      ProxyDevelops(cfg, s, step, id);
    } else if step.Arrive? {
      OthersDevelop(cfg, s, step, Apply(cfg, s, step), id);
    } else {
      ServerDevelops(cfg, s, step, id);
    }
  }

  // A call enters at the first line, with nothing done and no message.
  lemma OthersDoNotArrive(cfg: Config, s: State, step: Step, id: CallId)
    requires Enabled(s, step) && s.wire.Keys <= s.calls.Keys && id !in s.calls && id in Apply(cfg, s, step).calls
    ensures step.Arrive? && step.id == id
    ensures Apply(cfg, s, step).calls[id] == Call(step.op, Begin, [], 0, None, None)
    ensures MessageOf(Apply(cfg, s, step), id).None?
  {
    if step.Advance? || step.Throw? {
      ProxyKeepsStore(cfg, s, step);
    }
  }

  /* ---------- runs ---------- */

  ghost predicate WasRefused(states: seq<State>, steps: seq<Step>, i: nat, id: CallId)
    requires |states| == |steps| + 1 && i < |states|
  {
    exists j :: 0 <= j < i && steps[j].id == id && Refused(states[j], steps[j])
  }

  ghost predicate HasBroken(cfg: Config, states: seq<State>, steps: seq<Step>, i: nat, id: CallId)
    requires |states| == |steps| + 1 && i < |states|
  {
    exists j :: 0 <= j < i && steps[j].id == id && id in states[j].calls && Breaks(cfg, states[j], steps[j])
  }

  ghost predicate HasFound(states: seq<State>, steps: seq<Step>, i: nat, id: CallId, known: bool)
    requires |states| == |steps| + 1 && i < |states|
  {
    exists j :: 0 <= j < i && steps[j].id == id && Finds(states[j], steps[j], known)
  }

  lemma HistoryGoesOn(cfg: Config, states: seq<State>, steps: seq<Step>, i: nat, id: CallId, known: bool)
    requires |states| == |steps| + 1 && i < |steps|
    ensures WasRefused(states, steps, i + 1, id)
            <==> WasRefused(states, steps, i, id) || (steps[i].id == id && Refused(states[i], steps[i]))
    ensures HasBroken(cfg, states, steps, i + 1, id)
            <==> HasBroken(cfg, states, steps, i, id)
                 || (steps[i].id == id && id in states[i].calls && Breaks(cfg, states[i], steps[i]))
    ensures HasFound(states, steps, i + 1, id, known)
            <==> HasFound(states, steps, i, id, known) || (steps[i].id == id && Finds(states[i], steps[i], known))
  {}

  // The state of a call is the outcome of what it found.
  ghost predicate Outcome(cfg: Config, states: seq<State>, steps: seq<Step>, i: nat, id: CallId)
    requires |states| == |steps| + 1 && i < |states|
  {
    if id in states[i].calls then
      var c, msg := states[i].calls[id], MessageOf(states[i], id);
      && (GivesUp(c) <==> WasRefused(states, steps, i, id))
      && (c.pc.Thrown? <==> HasBroken(cfg, states, steps, i, id))
      && (Creates(c, msg) ==> HasFound(states, steps, i, id, false) && !c.op.IsGet())
      && (Accesses(c, msg) ==> HasFound(states, steps, i, id, true))
      && Returns(c)
    else
      !WasRefused(states, steps, i, id) && !HasBroken(cfg, states, steps, i, id)
  }

  lemma OutcomeGoesOn(cfg: Config, states: seq<State>, steps: seq<Step>, i: nat, id: CallId)
    requires IsRun(cfg, states, steps) && i < |steps| && Outcome(cfg, states, steps, i, id)
    ensures Outcome(cfg, states, steps, i + 1, id)
  {
    HistoryGoesOn(cfg, states, steps, i, id, false);
    HistoryGoesOn(cfg, states, steps, i, id, true);
    if id in states[i].calls {
      StepDevelops(cfg, states[i], steps[i], id);
    } else if id in states[i + 1].calls {
      RunKeepsStoreOurs(cfg, states, steps, i);
      OthersDoNotArrive(cfg, states[i], steps[i], id);
    }
  }

  // In every run, whatever is delivered when: a call gives up exactly if it is a GET that found
  // its key unknown or its exchange found the lock not free; an exception has ended it exactly
  // if its RPC failed or its value did not fit; it creates only what it found unknown and
  // accesses only what it found known; and only GETs that have decoded a reply return anything.
  lemma {:induction false} CallsEndAsTheyMust(cfg: Config, states: seq<State>, steps: seq<Step>, i: nat, id: CallId)
    requires IsRun(cfg, states, steps) && i < |states|
    ensures Outcome(cfg, states, steps, i, id)
  {
    if i > 0 {
      CallsEndAsTheyMust(cfg, states, steps, i - 1, id);
      OutcomeGoesOn(cfg, states, steps, i - 1, id);
    }
  }

  /* ---------- an exited server ---------- */

  // The store and the replies are what they were.
  ghost predicate Silent(s: State, s': State) {
    && s'.serverDown && s'.store == s.store
    && forall id :: id in s'.wire && s'.wire[id].ReplyMsg? ==> id in s.wire && s'.wire[id] == s.wire[id]
  }

  lemma SilenceIsKept(cfg: Config, s: State, s': State, step: Step)
    requires Silent(s, s') && Enabled(s', step)
    ensures Silent(s, Apply(cfg, s', step))
  {
    var t := Apply(cfg, s', step);
    ProxyKeepsStore(cfg, s', step);
    OnlyWritesExit(cfg, s', step);
    forall id | id in t.wire && t.wire[id].ReplyMsg?
      ensures id in s.wire && t.wire[id] == s.wire[id]
    {
      assert id != step.id ==> id in t.wire - {step.id} && id in s'.wire - {step.id};
    }
  }

  lemma SilenceGoesOn(cfg: Config, states: seq<State>, steps: seq<Step>, j: nat, s: State)
    requires IsRun(cfg, states, steps) && j < |steps| && Silent(s, states[j])
    ensures Silent(s, states[j + 1])
  {
    SilenceIsKept(cfg, s, states[j], steps[j]);
  }

  lemma {:induction false} SilenceLasts(cfg: Config, states: seq<State>, steps: seq<Step>, i: nat, j: nat, s: State)
    requires IsRun(cfg, states, steps) && i <= j < |states| && Silent(s, states[i])
    ensures Silent(s, states[j])
    decreases j
  {
    if i < j {
      SilenceLasts(cfg, states, steps, i, j - 1, s);
      SilenceGoesOn(cfg, states, steps, j - 1, s);
    }
  }

  // A server that has exited stores nothing and answers nobody any more: what waits for it
  // can only fail.
  lemma ExitedServerIsSilent(cfg: Config, states: seq<State>, steps: seq<Step>, i: nat, j: nat)
    requires IsRun(cfg, states, steps) && i <= j < |states| && states[i].serverDown
    ensures states[j].serverDown && states[j].store == states[i].store
    ensures forall id :: id in states[j].wire && states[j].wire[id].ReplyMsg? ==>
              id in states[i].wire && states[j].wire[id] == states[i].wire[id]
  {
    SilenceLasts(cfg, states, steps, i, j, states[i]);
  }
}
