/**
 RPCHandler::access of ortoa-tee/src/host/host.cpp as the thread pool server runs it: any
 number of accesses, each a read of the store, an enclave call and a write back, without a
 lock, interleaved in every order.
 */
module TeeRuns {
  import opened Wrappers
  import opened EncryptionEngine
  import opened Tee

  datatype Pc =
    | Start                    // line 64 is next
    | Read(rdValue: Cipher)    // lines 69-70 are next
    | Computed(out: Cipher)    // line 79 is next
    | Done(ret: Cipher)

  datatype Call = Call(op: int, key: Key, value: Cipher, pc: Pc)

  datatype State = State(db: map<Key, Cipher>, calls: seq<Call>)

  datatype Step =
    | Begin(op: int, key: Key, value: Cipher)
    | Get(c: nat)
    | Enclave(c: nat, salt: string)   // returns OE_OK
    | Fail(c: nat)                    // returns anything else
    | Put(c: nat)

  function Answer(call: Call, salt: string): Cipher
    requires call.pc.Read? && Decrypt(Input(call.op, call.pc.rdValue, call.value)).Some?
  {
    Transfer(Encrypt(Decrypt(Input(call.op, call.pc.rdValue, call.value)).value, salt), Length(call.pc.rdValue))
  }

  predicate Enabled(s: State, step: Step) {
    match step
    case Begin(_, _, _) => true
    case Get(c) => c < |s.calls| && s.calls[c].pc.Start?
    case Enclave(c, salt) =>
      && c < |s.calls| && s.calls[c].pc.Read? && IsSalt(salt)
      && Decrypt(Input(s.calls[c].op, s.calls[c].pc.rdValue, s.calls[c].value)).Some?
    case Fail(c) => c < |s.calls| && s.calls[c].pc.Read?
    case Put(c) => c < |s.calls| && s.calls[c].pc.Computed?
  }

  function At(s: State, c: nat, pc: Pc): State
    requires c < |s.calls|
  {
    s.(calls := s.calls[c := s.calls[c].(pc := pc)])
  }

  function Apply(s: State, step: Step): State
    requires Enabled(s, step)
  {
    match step
    case Begin(op, key, value) => s.(calls := s.calls + [Call(op, key, value, Start)])
    case Get(c) => At(s, c, Read(Stored(s.db, s.calls[c].key)))
    case Enclave(c, salt) => At(s, c, Computed(Answer(s.calls[c], salt)))
    case Fail(c) => At(s, c, Done(EMPTY))
    case Put(c) => At(s, c, Done(s.calls[c].pc.out)).(db := s.db[s.calls[c].key := s.calls[c].pc.out])
  }

  ghost predicate IsRun(states: seq<State>, steps: seq<Step>) {
    && |states| == |steps| + 1
    && states[0].calls == []
    && forall i :: 0 <= i < |steps| ==> Enabled(states[i], steps[i]) && states[i + 1] == Apply(states[i], steps[i])
  }

  /* ---------- every interleaving ---------- */

  predicate Puts(call: Call, key: Key, c: Cipher) {
    call.op != GET && call.key == key && Decrypt(call.value) == Decrypt(c)
  }

  // c decrypts to what the key held at first, or to what some call PUTs there; or, if outputs
  // may have been cut off, it is one of those.
  ghost predicate Explained(initial: map<Key, Cipher>, cutOff: bool, calls: seq<Call>, key: Key, c: Cipher) {
    || Decrypt(c) == Decrypt(Stored(initial, key))
    || (exists j :: 0 <= j < |calls| && Puts(calls[j], key, c))
    || (cutOff && c.Mangled?)
  }

  // An access that fails returns the empty string.
  ghost predicate CallExplained(initial: map<Key, Cipher>, cutOff: bool, calls: seq<Call>, call: Call) {
    match call.pc
    case Start => true
    case Read(rdValue) => Explained(initial, cutOff, calls, call.key, rdValue)
    case Computed(out) => Explained(initial, cutOff, calls, call.key, out)
    case Done(ret) => ret == EMPTY || Explained(initial, cutOff, calls, call.key, ret)
  }

  ghost predicate AllExplained(initial: map<Key, Cipher>, cutOff: bool, s: State) {
    && (forall key :: Explained(initial, cutOff, s.calls, key, Stored(s.db, key)))
    && (forall j :: 0 <= j < |s.calls| ==> CallExplained(initial, cutOff, s.calls, s.calls[j]))
  }

  ghost predicate NothingCutOff(s: State) {
    forall j :: 0 <= j < |s.calls| && s.calls[j].pc.Computed? ==> !s.calls[j].pc.out.Mangled?
  }

  lemma ExplainedStays(initial: map<Key, Cipher>, cutOff: bool, calls: seq<Call>, calls': seq<Call>, key: Key,
                       c: Cipher)
    requires Explained(initial, cutOff, calls, key, c)
    requires |calls| <= |calls'|
    requires forall j :: 0 <= j < |calls| ==> calls'[j].(pc := Start) == calls[j].(pc := Start)
    ensures Explained(initial, cutOff, calls', key, c)
  {
    if j :| 0 <= j < |calls| && Puts(calls[j], key, c) {
      assert calls'[j].(pc := Start) == calls[j].(pc := Start);
      assert Puts(calls'[j], key, c);
    }
  }

  lemma AnswerKeepsValue(call: Call, salt: string)
    requires call.pc.Read? && IsSalt(salt) && Decrypt(Input(call.op, call.pc.rdValue, call.value)).Some?
    ensures Answer(call, salt).Mangled? || Decrypt(Answer(call, salt)) ==
            Decrypt(Input(call.op, call.pc.rdValue, call.value))
    ensures Length(Answer(call, salt)) == EncryptedLength(Decrypt(Input(call.op, call.pc.rdValue, call.value)).value)
    ensures Answer(call, salt).Mangled? <==> Length(Answer(call, salt)) > Length(call.pc.rdValue)
  {
    var input := Input(call.op, call.pc.rdValue, call.value);
    DecryptedHasNoNul(input);
    DecryptEncrypt(Decrypt(input).value, salt);
    EncryptionFitsBufferIff(Decrypt(input).value, salt);
  }

  // The new program counter of the stepping call is explained.
  lemma StepExplainsCall(initial: map<Key, Cipher>, cutOff: bool, s: State, step: Step)
    requires AllExplained(initial, cutOff, s) && Enabled(s, step) && !step.Begin?
    requires cutOff || NothingCutOff(Apply(s, step))
    ensures CallExplained(initial, cutOff, s.calls, Apply(s, step).calls[step.c])
  {
    var call := s.calls[step.c];
    assert CallExplained(initial, cutOff, s.calls, call);
    if step.Enclave? {
      AnswerKeepsValue(call, step.salt);
      var out := Apply(s, step).calls[step.c].pc.out;
      assert cutOff || !out.Mangled?;
      if call.op != GET && !out.Mangled? {
        assert Puts(call, call.key, out);
      }
    }
  }

  lemma StepKeepsStoreExplained(initial: map<Key, Cipher>, cutOff: bool, s: State, step: Step, key: Key)
    requires AllExplained(initial, cutOff, s) && Enabled(s, step)
    ensures Explained(initial, cutOff, Apply(s, step).calls, key, Stored(Apply(s, step).db, key))
  {
    var s' := Apply(s, step);
    if step.Put? && key == s.calls[step.c].key {
      assert CallExplained(initial, cutOff, s.calls, s.calls[step.c]);
    } else {
      assert Stored(s'.db, key) == Stored(s.db, key);
    }
    ExplainedStays(initial, cutOff, s.calls, s'.calls, key, Stored(s'.db, key));
  }

  lemma StepKeepsExplained(initial: map<Key, Cipher>, cutOff: bool, s: State, step: Step)
    requires AllExplained(initial, cutOff, s) && Enabled(s, step)
    requires cutOff || NothingCutOff(Apply(s, step))
    ensures AllExplained(initial, cutOff, Apply(s, step))
  {
    var s' := Apply(s, step);
    if !step.Begin? {
      StepExplainsCall(initial, cutOff, s, step);
    }
    forall key
      ensures Explained(initial, cutOff, s'.calls, key, Stored(s'.db, key))
    {
      StepKeepsStoreExplained(initial, cutOff, s, step, key);
    }
    forall j | 0 <= j < |s'.calls|
      ensures CallExplained(initial, cutOff, s'.calls, s'.calls[j])
    {
      var call := s'.calls[j];
      if !call.pc.Start? {
        assert CallExplained(initial, cutOff, s.calls, call);
        if Explained(initial, cutOff, s.calls, call.key, CipherOf(call.pc)) {
          ExplainedStays(initial, cutOff, s.calls, s'.calls, call.key, CipherOf(call.pc));
        }
      }
    }
  }

  function CipherOf(pc: Pc): Cipher
    requires !pc.Start?
  {
    match pc
    case Read(rdValue) => rdValue
    case Computed(out) => out
    case Done(ret) => ret
  }

  // Whatever overlaps, every stored and every returned ciphertext decrypts to the key's
  // initial value or to a value some call PUT to that very key, unless an output was cut off.
  lemma {:induction false} OverlapInventsNoValue(states: seq<State>, steps: seq<Step>, i: nat, cutOff: bool)
    requires IsRun(states, steps) && i < |states|
    requires cutOff || forall n :: 0 <= n <= i ==> NothingCutOff(states[n])
    ensures AllExplained(states[0].db, cutOff, states[i])
  {
    if i > 0 {
      OverlapInventsNoValue(states, steps, i - 1, cutOff);
      assert cutOff || NothingCutOff(states[i]);
      StepKeepsExplained(states[0].db, cutOff, states[i - 1], steps[i - 1]);
    }
  }

  /* ---------- every write is a new encryption ---------- */

  // Step e, the enclave call of call c, made the output: the value read by a GET, or the one
  // sent with anything else, encrypted with the salt drawn in that step.
  ghost predicate EncryptedBy(states: seq<State>, steps: seq<Step>, e: nat, c: nat, out: Cipher)
    requires |states| == |steps| + 1 && e < |steps|
  {
    && steps[e].Enclave? && steps[e].c == c && IsSalt(steps[e].salt)
    && c < |states[e].calls| && states[e].calls[c].pc.Read?
    && var call := states[e].calls[c];
    && var input := if call.op == 0 then call.pc.rdValue else call.value;
    && Decrypt(input).Some?
    && out == Transfer(Encrypt(Decrypt(input).value, steps[e].salt), Length(call.pc.rdValue))
  }

  ghost predicate WasEncrypted(states: seq<State>, steps: seq<Step>, i: nat, c: nat, out: Cipher)
    requires |states| == |steps| + 1 && i < |states|
  {
    exists e :: 0 <= e < i && EncryptedBy(states, steps, e, c, out)
  }

  lemma {:induction false} OutputWasEncrypted(states: seq<State>, steps: seq<Step>, i: nat, c: nat)
    requires IsRun(states, steps) && i < |states| && c < |states[i].calls| && states[i].calls[c].pc.Computed?
    ensures WasEncrypted(states, steps, i, c, states[i].calls[c].pc.out)
  {
    if i > 0 {
      assert states[i] == Apply(states[i - 1], steps[i - 1]);
      if steps[i - 1].Enclave? && steps[i - 1].c == c {
        assert EncryptedBy(states, steps, i - 1, c, states[i].calls[c].pc.out);
      } else {
        OutputWasEncrypted(states, steps, i - 1, c);
      }
    }
  }

  // No access stores a ciphertext it was given: what it writes was encrypted for it, GET or
  // PUT, by its own enclave call.
  lemma EveryWriteIsNewlyEncrypted(states: seq<State>, steps: seq<Step>, w: nat)
    requires IsRun(states, steps) && w < |steps| && steps[w].Put?
    ensures var c := steps[w].c; var key := states[w].calls[c].key;
            && key in states[w + 1].db
            && states[w + 1].calls[c].pc == Done(states[w + 1].db[key])
            && WasEncrypted(states, steps, w, c, states[w + 1].db[key])
  {
    OutputWasEncrypted(states, steps, w, steps[w].c);
    assert states[w + 1] == Apply(states[w], steps[w]);
  }

  // So if it is not cut off, it is the encryption of its value with the salt of that call and
  // no other: a GET leaves the stored bytes as they were exactly if it draws the old salt.
  lemma NewEncryptionIsNewBytes(states: seq<State>, steps: seq<Step>, e: nat, c: nat, out: Cipher, q: string,
                                other: string)
    requires |states| == |steps| + 1 && e < |steps| && EncryptedBy(states, steps, e, c, out) && !out.Mangled?
    requires IsSalt(other)
    ensures var call := states[e].calls[c];
            var value := Decrypt(if call.op == 0 then call.pc.rdValue else call.value).value;
            out == Encrypt(q, other) <==> q == value && other == steps[e].salt
  {
    var call := states[e].calls[c];
    var value := Decrypt(if call.op == 0 then call.pc.rdValue else call.value).value;
    EncryptIsInjective(value, steps[e].salt, q, other);
  }

  // How call c ended: it wrote what it returns, or its enclave call failed; then it returns the
  // empty string and has written nothing.
  ghost predicate EndedAt(states: seq<State>, steps: seq<Step>, w: nat, c: nat, key: Key, ret: Cipher)
    requires |states| == |steps| + 1 && w < |steps|
  {
    || (steps[w] == Put(c) && states[w + 1].db == states[w].db[key := ret])
    || (steps[w] == Fail(c) && states[w + 1].db == states[w].db && ret == Mangled(0))
  }

  ghost predicate HasEnded(states: seq<State>, steps: seq<Step>, i: nat, c: nat, key: Key, ret: Cipher)
    requires |states| == |steps| + 1 && i < |states|
  {
    exists w :: 0 <= w < i && EndedAt(states, steps, w, c, key, ret)
  }

  lemma {:induction false} AccessWritesOrFails(states: seq<State>, steps: seq<Step>, i: nat, c: nat)
    requires IsRun(states, steps) && i < |states| && c < |states[i].calls| && states[i].calls[c].pc.Done?
    ensures HasEnded(states, steps, i, c, states[i].calls[c].key, states[i].calls[c].pc.ret)
  {
    if i > 0 {
      assert states[i] == Apply(states[i - 1], steps[i - 1]);
      if c < |states[i - 1].calls| && states[i - 1].calls[c].pc.Done? {
        AccessWritesOrFails(states, steps, i - 1, c);
      } else {
        assert EndedAt(states, steps, i - 1, c, states[i].calls[c].key, states[i].calls[c].pc.ret);
      }
    }
  }

  /* ---------- outputs that fit ---------- */

  // Every key holds ciphertexts of its own length, and a PUT to it sends a value of that length.
  ghost predicate SizesAgree(sizes: Key -> nat, db: map<Key, Cipher>, steps: seq<Step>) {
    && (forall key :: Length(Stored(db, key)) == sizes(key) && FitsKey(sizes, key, Stored(db, key)))
    && (forall i :: 0 <= i < |steps| && steps[i].Begin? && steps[i].op != GET ==>
        FitsKey(sizes, steps[i].key, steps[i].value))
  }

  ghost predicate FitsKey(sizes: Key -> nat, key: Key, c: Cipher) {
    Decrypt(c).Some? ==> EncryptedLength(Decrypt(c).value) == sizes(key)
  }

  ghost predicate Sized(sizes: Key -> nat, s: State) {
    && (forall key :: Length(Stored(s.db, key)) == sizes(key) && FitsKey(sizes, key, Stored(s.db, key)))
    && (forall j :: 0 <= j < |s.calls| ==> CallSized(sizes, s.calls[j]))
  }

  ghost predicate CallSized(sizes: Key -> nat, call: Call) {
    && (call.op != GET ==> FitsKey(sizes, call.key, call.value))
    && (call.pc.Read? || call.pc.Computed? ==>
          Length(CipherOf(call.pc)) == sizes(call.key) && FitsKey(sizes, call.key, CipherOf(call.pc)))
    && (call.pc.Computed? ==> !call.pc.out.Mangled?)
  }

  lemma StepKeepsSized(sizes: Key -> nat, s: State, step: Step)
    requires Sized(sizes, s) && Enabled(s, step)
    requires step.Begin? && step.op != GET ==> FitsKey(sizes, step.key, step.value)
    ensures Sized(sizes, Apply(s, step))
  {
    var s' := Apply(s, step);
    if step.Enclave? {
      var call := s.calls[step.c];
      assert CallSized(sizes, call);
      AnswerKeepsValue(call, step.salt);
    }
    if !step.Begin? {
      assert CallSized(sizes, s.calls[step.c]);
      assert CallSized(sizes, s'.calls[step.c]);
    }
    assert forall j :: 0 <= j < |s'.calls| && (step.Begin? || j != step.c) && j < |s.calls| ==>
        s'.calls[j] == s.calls[j];
  }

  // With one length per key no output is ever cut off.
  lemma {:induction false} EqualSizesNeverCutOff(sizes: Key -> nat, states: seq<State>, steps: seq<Step>, i: nat)
    requires IsRun(states, steps) && i < |states| && SizesAgree(sizes, states[0].db, steps)
    ensures Sized(sizes, states[i]) && NothingCutOff(states[i])
  {
    if i > 0 {
      EqualSizesNeverCutOff(sizes, states, steps, i - 1);
      StepKeepsSized(sizes, states[i - 1], steps[i - 1]);
    }
    forall j | 0 <= j < |states[i].calls| && states[i].calls[j].pc.Computed?
      ensures !states[i].calls[j].pc.out.Mangled?
    {
      assert CallSized(sizes, states[i].calls[j]);
    }
  }

  /* ---------- when the host is a map ---------- */

  // The value the writes of the first i steps leave under a key, seen as a map's.
  ghost function Latest(states: seq<State>, steps: seq<Step>, i: nat, key: Key): Option<string>
    requires IsRun(states, steps) && i < |states|
  {
    if i == 0 then Decrypt(Stored(states[0].db, key))
    else if PutsTo(states[i - 1], steps[i - 1], key) then Decrypt(states[i - 1].calls[steps[i - 1].c].value)
    else Latest(states, steps, i - 1, key)
  }

  // A PUT of the key writes.
  ghost predicate PutsTo(s: State, step: Step, key: Key)
    requires Enabled(s, step)
  {
    step.Put? && s.calls[step.c].op != GET && s.calls[step.c].key == key
  }

  // The store agrees with that map.
  ghost predicate Agrees(states: seq<State>, steps: seq<Step>, i: nat)
    requires IsRun(states, steps) && i < |states|
  {
    forall key :: Decrypt(Stored(states[i].db, key)) == Latest(states, steps, i, key)
  }

  // The step before i in which call c read the store.
  function ReadAt(steps: seq<Step>, i: nat, c: nat): (r: nat)
    requires i <= |steps|
    ensures r <= i
  {
    if i == 0 then 0 else if steps[i - 1] == Get(c) then i - 1 else ReadAt(steps, i - 1, c)
  }

  // Step w writes back, for a GET, a value that PUTs have replaced since the GET read it.
  ghost predicate RevertsAPut(states: seq<State>, steps: seq<Step>, w: nat)
    requires IsRun(states, steps) && w < |steps|
  {
    steps[w].Put? && states[w].calls[steps[w].c].op == GET &&
    var key := states[w].calls[steps[w].c].key;
    Latest(states, steps, ReadAt(steps, w, steps[w].c), key) != Latest(states, steps, w, key)
  }

  // What a call carries is what it read, or its own value.
  ghost predicate Carries(states: seq<State>, steps: seq<Step>, i: nat, c: nat)
    requires |states| == |steps| + 1 && i < |states| && c < |states[i].calls|
  {
    var call := states[i].calls[c];
    var read := Stored(states[ReadAt(steps, i, c)].db, call.key);
    && (call.pc.Read? ==> call.pc.rdValue == read)
    && (call.pc.Computed? ==> Decrypt(call.pc.out) == Decrypt(Input(call.op, read, call.value)))
  }

  lemma ComputedCarries(call: Call, salt: string)
    requires call.pc.Read? && IsSalt(salt) && Decrypt(Input(call.op, call.pc.rdValue, call.value)).Some?
    requires !Answer(call, salt).Mangled?
    ensures Decrypt(Answer(call, salt)) == Decrypt(Input(call.op, call.pc.rdValue, call.value))
  {
    AnswerKeepsValue(call, salt);
  }

  lemma {:induction false} CallsCarry(states: seq<State>, steps: seq<Step>, i: nat, c: nat)
    requires IsRun(states, steps) && i < |states| && c < |states[i].calls|
    requires forall n :: 0 <= n <= i ==> NothingCutOff(states[n])
    ensures Carries(states, steps, i, c)
  {
    if i > 0 {
      var s, step := states[i - 1], steps[i - 1];
      assert states[i] == Apply(s, step);
      if c < |s.calls| {
        CallsCarry(states, steps, i - 1, c);
        if step.Enclave? && step.c == c {
          assert !states[i].calls[c].pc.out.Mangled?;
          ComputedCarries(s.calls[c], step.salt);
        }
      }
    }
  }

  // One write of a run that agreed with the map so far: it goes on agreeing exactly if it
  // does not revert a PUT.
  lemma WriteAgreesIff(states: seq<State>, steps: seq<Step>, w: nat, key: Key)
    requires IsRun(states, steps) && w < |steps| && steps[w].Put?
    requires forall n :: 0 <= n <= w ==> NothingCutOff(states[n]) && Agrees(states, steps, n)
    requires key == states[w].calls[steps[w].c].key
    ensures Decrypt(Stored(states[w + 1].db, key)) == Latest(states, steps, w + 1, key) <==>
            !RevertsAPut(states, steps, w)
  {
    var c := steps[w].c;
    CallsCarry(states, steps, w, c);
    var r := ReadAt(steps, w, c);
    assert Agrees(states, steps, r);
  }

  lemma StepAgreesIff(states: seq<State>, steps: seq<Step>, w: nat)
    requires IsRun(states, steps) && w < |steps|
    requires forall n :: 0 <= n <= w ==> NothingCutOff(states[n]) && Agrees(states, steps, n)
    ensures Agrees(states, steps, w + 1) <==> !RevertsAPut(states, steps, w)
  {
    assert Agrees(states, steps, w);
    assert states[w + 1] == Apply(states[w], steps[w]);
    if steps[w].Put? {
      var key := states[w].calls[steps[w].c].key;
      WriteAgreesIff(states, steps, w, key);
      var n, db := w + 1, states[w + 1].db;
      forall k | k != key
        ensures Decrypt(Stored(db, k)) == Latest(states, steps, n, k)
      {
        assert Stored(db, k) == Stored(states[w].db, k);
      }
    }
  }

  ghost predicate AgreesThroughout(states: seq<State>, steps: seq<Step>, i: nat)
    requires IsRun(states, steps) && i < |states|
  {
    forall n :: 0 <= n <= i ==> Agrees(states, steps, n)
  }

  ghost predicate RevertsNothing(states: seq<State>, steps: seq<Step>, i: nat)
    requires IsRun(states, steps) && i < |states|
  {
    forall w :: 0 <= w < i ==> !RevertsAPut(states, steps, w)
  }

  // As long as nothing is cut off the host is a map, in every state, exactly if no GET writes
  // back a value that has been replaced since it read it.
  lemma {:induction false} HostIsAMapIff(states: seq<State>, steps: seq<Step>, i: nat)
    requires IsRun(states, steps) && i < |states|
    requires forall n :: 0 <= n <= i ==> NothingCutOff(states[n])
    ensures AgreesThroughout(states, steps, i) <==> RevertsNothing(states, steps, i)
  {
    if i == 0 {
      assert Agrees(states, steps, 0);
    } else {
      HostIsAMapIff(states, steps, i - 1);
      if AgreesThroughout(states, steps, i - 1) {
        StepAgreesIff(states, steps, i - 1);
      }
    }
  }

  // Then every access returns the value its key has when it writes; a GET's was there when it
  // read, too.
  lemma AccessReturnsLatest(states: seq<State>, steps: seq<Step>, w: nat)
    requires IsRun(states, steps) && w < |steps| && steps[w].Put?
    requires forall n :: 0 <= n <= w + 1 ==> NothingCutOff(states[n])
    requires RevertsNothing(states, steps, w + 1)
    ensures var call := states[w].calls[steps[w].c];
            && states[w + 1].calls[steps[w].c].pc.Done?
            && var value := Decrypt(states[w + 1].calls[steps[w].c].pc.ret);
            && value == Latest(states, steps, w + 1, call.key)
            && (call.op == GET ==> value == Latest(states, steps, ReadAt(steps, w, steps[w].c), call.key))
            && (call.op != GET ==> value == Decrypt(call.value))
  {
    HostIsAMapIff(states, steps, w + 1);
    assert Agrees(states, steps, w + 1);
    assert !RevertsAPut(states, steps, w);
    CallsCarry(states, steps, w, steps[w].c);
  }

  // No PUT of the key writes between the read and the write of a GET.
  ghost predicate Undisturbed(states: seq<State>, steps: seq<Step>, w: nat)
    requires IsRun(states, steps) && w < |steps|
  {
    steps[w].Put? && states[w].calls[steps[w].c].op == GET ==>
      forall n :: ReadAt(steps, w, steps[w].c) <= n < w ==>
          !PutsTo(states[n], steps[n], states[w].calls[steps[w].c].key)
  }

  lemma {:induction false} LatestStays(states: seq<State>, steps: seq<Step>, r: nat, w: nat, key: Key)
    requires IsRun(states, steps) && r <= w < |states|
    requires forall n :: r <= n < w ==> !PutsTo(states[n], steps[n], key)
    ensures Latest(states, steps, r, key) == Latest(states, steps, w, key)
    decreases w
  {
    if r < w {
      LatestStays(states, steps, r, w - 1, key);
    }
  }

  // So overlapping GETs, overlapping PUTs, and GETs that a PUT does not overtake do no harm.
  lemma UndisturbedGetsRevertNothing(states: seq<State>, steps: seq<Step>, w: nat)
    requires IsRun(states, steps) && w < |steps| && Undisturbed(states, steps, w)
    ensures !RevertsAPut(states, steps, w)
  {
    if steps[w].Put? && states[w].calls[steps[w].c].op == GET {
      LatestStays(states, steps, ReadAt(steps, w, steps[w].c), w, states[w].calls[steps[w].c].key);
    }
  }

  /* ---------- overlap ---------- */

  const SALT := "0123456789"

  // A ciphertext that encrypts its own value with the salt above.
  ghost predicate Renewable(c: Cipher) {
    Decrypt(c).Some? && c == Encrypt(Decrypt(c).value, SALT)
  }

  function Stage(key: Key, db: Cipher, sent: Cipher, put: Pc, get: Pc): State {
    State(map[key := db], [Call(1, key, sent, put), Call(GET, key, EMPTY, get)])
  }

  // A run in which nothing is cut off, and its last state.
  ghost predicate CleanRun(states: seq<State>, steps: seq<Step>, last: State) {
    && IsRun(states, steps) && states[|steps|] == last
    && forall n :: 0 <= n < |states| ==> NothingCutOff(states[n])
  }

  lemma Extend(states: seq<State>, steps: seq<Step>, last: State, step: Step, next: State)
    requires CleanRun(states, steps, last) && Enabled(last, step)
    requires next == Apply(last, step) && NothingCutOff(next)
    ensures CleanRun(states + [next], steps + [step], next)
  {}

  lemma Launch(key: Key, held: Cipher, sent: Cipher) returns (states: seq<State>, steps: seq<Step>)
    ensures CleanRun(states, steps, Stage(key, held, sent, Start, Start)) && states[0] == State(map[key := held], [])
  {
    var s0, s1 := State(map[key := held], []), State(map[key := held], [Call(1, key, sent, Start)]);
    states, steps := [s0], [];
    Extend(states, steps, s0, Begin(1, key, sent), s1);
    states, steps := states + [s1], steps + [Begin(1, key, sent)];
    Extend(states, steps, s1, Begin(GET, key, EMPTY), Stage(key, held, sent, Start, Start));
    states, steps := states + [Stage(key, held, sent, Start, Start)], steps + [Begin(GET, key, EMPTY)];
  }

  // From one stage to the next.
  lemma Advance(states: seq<State>, steps: seq<Step>, last: State, step: Step, next: State)
    returns (states': seq<State>, steps': seq<Step>)
    requires CleanRun(states, steps, last) && Enabled(last, step)
    requires next.db == Apply(last, step).db && next.calls == Apply(last, step).calls && NothingCutOff(next)
    ensures CleanRun(states', steps', next) && states'[0] == states[0]
  {
    Extend(states, steps, last, step, next);
    states', steps' := states + [next], steps + [step];
  }

  lemma ReadBoth(key: Key, held: Cipher, sent: Cipher) returns (states: seq<State>, steps: seq<Step>)
    ensures CleanRun(states, steps, Stage(key, held, sent, Read(held), Read(held))) &&
            states[0] == State(map[key := held], [])
  {
    var half := Stage(key, held, sent, Read(held), Start);
    states, steps := Launch(key, held, sent);
    states, steps := Advance(states, steps, Stage(key, held, sent, Start, Start), Get(0), half);
    states, steps := Advance(states, steps, half, Get(1), Stage(key, held, sent, Read(held), Read(held)));
  }

  lemma ComputeStage(s: State, c: nat, out: Cipher)
    requires Enabled(s, Enclave(c, SALT)) && Answer(s.calls[c], SALT) == out
    ensures Apply(s, Enclave(c, SALT)) == At(s, c, Computed(out))
  {}

  lemma ComputePut(key: Key, held: Cipher, sent: Cipher)
    requires Renewable(sent) && Length(held) == Length(sent)
    ensures var s := Stage(key, held, sent, Read(held), Read(held));
            && Enabled(s, Enclave(0, SALT))
            && Apply(s, Enclave(0, SALT)) == Stage(key, held, sent, Computed(sent), Read(held))
  {
    var s := Stage(key, held, sent, Read(held), Read(held));
    ComputeStage(s, 0, sent);
    assert At(s, 0, Computed(sent)).calls == Stage(key, held, sent, Computed(sent), Read(held)).calls;
  }

  lemma ComputeGet(key: Key, held: Cipher, sent: Cipher)
    requires Renewable(held)
    ensures var s := Stage(key, held, sent, Computed(sent), Read(held));
            && Enabled(s, Enclave(1, SALT))
            && Apply(s, Enclave(1, SALT)) == Stage(key, held, sent, Computed(sent), Computed(held))
  {
    var s := Stage(key, held, sent, Computed(sent), Read(held));
    ComputeStage(s, 1, held);
    assert At(s, 1, Computed(held)).calls == Stage(key, held, sent, Computed(sent), Computed(held)).calls;
  }

  lemma ComputeBoth(key: Key, held: Cipher, sent: Cipher) returns (states: seq<State>, steps: seq<Step>)
    requires Renewable(held) && Renewable(sent) && Length(held) == Length(sent)
    ensures CleanRun(states, steps, Stage(key, held, sent, Computed(sent), Computed(held))) &&
            states[0] == State(map[key := held], [])
  {
    ComputePut(key, held, sent);
    ComputeGet(key, held, sent);
    assert held.Enc? && sent.Enc?;
    var half := Stage(key, held, sent, Computed(sent), Read(held));
    states, steps := ReadBoth(key, held, sent);
    states, steps := Advance(states, steps, Stage(key, held, sent, Read(held), Read(held)), Enclave(0, SALT), half);
    states, steps := Advance(states, steps, half, Enclave(1, SALT),
                             Stage(key, held, sent, Computed(sent), Computed(held)));
  }

  lemma WriteStages(key: Key, held: Cipher, sent: Cipher)
    ensures var s := Stage(key, held, sent, Computed(sent), Computed(held));
            var half := Stage(key, sent, sent, Done(sent), Computed(held));
            && Enabled(s, Put(0)) && half == Apply(s, Put(0))
            && Enabled(half, Put(1)) && Stage(key, held, sent, Done(sent), Done(held)) == Apply(half, Put(1))
  {}

  // The harm can be done: when a PUT and a GET both read before either writes, the PUT
  // returns the new ciphertext and the GET undoes it, with nothing cut off and nothing failed.
  lemma OverlapLosesAnUpdate(key: Key, held: Cipher, sent: Cipher) returns (states: seq<State>, steps: seq<Step>)
    requires Renewable(held) && Renewable(sent) && Length(held) == Length(sent)
    ensures CleanRun(states, steps, Stage(key, held, sent, Done(sent), Done(held)))
    ensures states[0] == State(map[key := held], [])
  {
    var half := Stage(key, sent, sent, Done(sent), Computed(held));
    states, steps := ComputeBoth(key, held, sent);
    WriteStages(key, held, sent);
    assert NothingCutOff(half) by {
      assert held.Enc?;
    }
    states, steps := Advance(states, steps, Stage(key, held, sent, Computed(sent), Computed(held)), Put(0), half);
    states, steps := Advance(states, steps, half, Put(1), Stage(key, held, sent, Done(sent), Done(held)));
  }
}
