/**
 ortoa-lbl/proxy.cpp: handleOp as one call executes it when nothing interleaves, against the
 imperative client helper and server.  Interleavings are the subject of Protocol.dfy.
 */
module Proxy {
  import opened Wrappers
  import opened Bits
  import opened Partition
  import opened Labels
  import opened Entries
  import opened ClientHelper
  import opened KvServer
  import opened Protocol

  // What becomes of the RPC of a call: an exception may leave it before the request has
  // reached the server, or after.
  datatype Rpc = Works | RequestLost | ReplyLost

  class Send_OpHandler {
    const state: OpScure
    const server: Handler
    var accesses: nat
    var aborted: nat

    ghost predicate Configured() {
      && state.Configured() && server.Configured() && state.valueSize == server.valueSize
    }

    function Upto(): nat
      requires Configured()
    {
      Coverage(server.valueSize, server.threads, server.stride)
    }

    predicate IsFree(k: Key)
      reads state
    {
      k in state.locks && state.locks[k]
    }

    // The proxy's tables and the server's block for k agree on the value v.
    ghost predicate Stores(k: Key, v: seq<Byte>)
      requires Configured()
      reads state, server
    {
      && k in state.keySet && k in state.masterKeys && k in state.valueSizes && k in server.db
      && |v| <= state.valueSize && state.valueSizes[k] == |v|
      && Encoded(state.kdf, state.masterKeys[k], PadToLen(v, state.valueSize).value, server.db[k], Upto())
    }

    // The server's block for k holds v under this master key.
    ghost predicate Holds(k: Key, master: MasterKey, v: seq<Byte>)
      requires Configured()
      reads server
    {
      && k in server.db && |v| <= state.valueSize
      && Encoded(state.kdf, master, PadToLen(v, state.valueSize).value, server.db[k], Upto())
    }

    // Proxy and server together stand for the map m, as far as unlocked keys go.
    ghost predicate Represents(m: map<Key, seq<Byte>>)
      requires Configured()
      reads state, server
    {
      forall k: Key :: IsFree(k) ==> (k in state.keySet <==> k in m) && (k in m ==> Stores(k, m[k]))
    }

    constructor (state: OpScure, server: Handler)
      requires state.Configured() && server.Configured() && state.valueSize == server.valueSize
      ensures Configured() && this.state == state && this.server == server && accesses == 0 && aborted == 0
    {
      this.state, this.server, accesses, aborted := state, server, 0, 0;
    }

    // The call throws while it holds the lock: its value does not fit, or its RPC fails.
    predicate Fails(op: Operation, rpc: Rpc) {
      !rpc.Works? || (!op.IsGet() && |op.value| > state.valueSize)
    }

    // Only the block of key k may differ.
    ghost predicate SameElsewhere(db: Database, db': Database, k: Key) {
      forall j: Key :: j != k ==> (j in db <==> j in db') && (j in db ==> db'[j] == db[j])
    }

    // The refinement of a plain map by one call.
    method HandleOp(op: Operation, newMaster: MasterKey, nonces: Nonces, rpc: Rpc, ghost m: map<Key, seq<Byte>>)
      returns (ret: seq<Byte>, thrown: bool)
      requires Configured() && Represents(m)
      modifies this, state, server
      // an unknown key is not read, a locked key is not touched: both abort
      ensures (op.IsGet() && old(op.key !in state.keySet)) || !old(IsFree(op.key)) ==>
                ret == [] && !thrown && aborted == old(aborted) + 1 && accesses == old(accesses) && Represents(m)
                && state.keySet == old(state.keySet) && server.db == old(server.db)
                && state.masterKeys == old(state.masterKeys)
                && forall k: Key :: IsFree(k) == old(IsFree(k))
      // a read returns what the server's portions reach of the value, and keeps the map
      ensures op.IsGet() && old(op.key in state.keySet) && old(IsFree(op.key)) && !Fails(op, rpc) ==>
                op.key in m && ret == Visible(m[op.key], Upto()) && !thrown
                && accesses == old(accesses) + 1 && aborted == old(aborted) && Represents(m)
                && forall k: Key :: IsFree(k) == old(IsFree(k))
      // a write updates the map
      ensures !op.IsGet() && old(IsFree(op.key)) && !Fails(op, rpc) ==>
                ret == [] && !thrown && accesses == old(accesses) + 1 && aborted == old(aborted)
                && Represents(m[op.key := op.value]) && forall k: Key :: IsFree(k) == old(IsFree(k))
      // either way, and if the RPC fails, the key is held under the new master key afterwards
      ensures old(IsFree(op.key)) &&
              (if op.IsGet() then old(op.key in state.keySet) else |op.value| <= state.valueSize) ==>
                state.masterKeys == old(state.masterKeys)[op.key := newMaster]
      // a failure throws with the lock held, counts nothing and touches no other key
      ensures (!op.IsGet() || old(op.key in state.keySet)) && old(IsFree(op.key)) && Fails(op, rpc) ==>
                ret == [] && thrown && accesses == old(accesses) && aborted == old(aborted)
                && SameElsewhere(old(server.db), server.db, op.key)
                && Represents(m) && forall k: Key :: IsFree(k) == (old(IsFree(k)) && k != op.key)
    {
      ret, thrown := [], false;
      var free := op.key in state.locks && state.locks[op.key];
      if op.key !in state.keySet {
        if op.IsGet() {
          aborted := aborted + 1;
        } else {
          state.locks := state.locks[op.key := false];
          if free {
            thrown := CreateLocked(op, newMaster, rpc, m);
          } else {
            aborted := aborted + 1;
          }
        }
      } else {
        state.locks := state.locks[op.key := false];
        if free {
          ret, thrown := AccessLocked(op, newMaster, nonces, rpc, m);
        } else {
          aborted := aborted + 1;
        }
      }
    }

    // Lines 48-51.
    method BuildCreate(op: Operation, newMaster: MasterKey) returns (r: Option<Entry>)
      requires Configured()
      modifies state
      ensures state.locks == old(state.locks)
      ensures r.None? <==> |op.value| > state.valueSize
      ensures r.None? ==> state.masterKeys == old(state.masterKeys) && state.valueSizes == old(state.valueSizes)
                          && state.keySet == old(state.keySet)
      ensures r.Some? ==>
                && state.masterKeys == old(state.masterKeys)[op.key := newMaster]
                && state.valueSizes == old(state.valueSizes)[op.key := |op.value|]
                && state.keySet == old(state.keySet) + {op.key}
                && r.value.CreateEntry? && r.value.keyName == op.key
                && Encoded(state.kdf, newMaster, PadToLen(op.value, state.valueSize).value, r.value.labels, Upto())
    {
      r := state.ConstructCreateEntry(op.key, op.value, newMaster);
      if r.Some? {
        CreateLabelsEncode(state.kdf, newMaster, PadToLen(op.value, state.valueSize).value);
        CoverageIsExact(server.valueSize, server.threads, server.stride);
        state.valueSizes := state.valueSizes[op.key := |op.value|];
        state.keySet := state.keySet + {op.key};
      }
    }

    // Lines 47-57.
    method CreateLocked(op: Operation, newMaster: MasterKey, rpc: Rpc, ghost m: map<Key, seq<Byte>>)
      returns (thrown: bool)
      requires Configured() && Represents(m) && !op.IsGet() && op.key in state.locks && !IsFree(op.key)
      modifies this, state, server
      ensures thrown <==> Fails(op, rpc)
      ensures thrown ==> accesses == old(accesses) && Represents(m) && forall k: Key :: IsFree(k) == old(IsFree(k))
      ensures !thrown ==> accesses == old(accesses) + 1 && Represents(m[op.key := op.value])
                          && forall k: Key :: IsFree(k) == (old(IsFree(k)) || k == op.key)
      ensures |op.value| <= state.valueSize ==> state.masterKeys == old(state.masterKeys)[op.key := newMaster]
      ensures aborted == old(aborted) && SameElsewhere(old(server.db), server.db, op.key)
      // a failed call has taken effect or not, as its request has arrived or not
      ensures rpc.RequestLost? || |op.value| > state.valueSize ==> server.db == old(server.db)
      ensures !rpc.RequestLost? && |op.value| <= state.valueSize ==> Holds(op.key, newMaster, op.value)
    {
      var entry := BuildCreate(op, newMaster);
      if entry.None? || rpc.RequestLost? {
        return true;
      }
      server.Create(entry.value);
      if rpc.ReplyLost? {
        return true;
      }
      accesses := accesses + 1;
      state.locks := state.locks[op.key := true];
      assert Stores(op.key, op.value);
      thrown := false;
    }

    // Lines 68, 80 and 82.
    method BuildEntry(op: Operation, newMaster: MasterKey, nonces: Nonces) returns (r: Option<Entry>)
      requires Configured() && op.key in state.masterKeys
      modifies state
      ensures state.locks == old(state.locks) && state.keySet == old(state.keySet)
      ensures r.None? <==> !op.IsGet() && |op.value| > state.valueSize
      ensures r.None? ==> state.masterKeys == old(state.masterKeys) && state.valueSizes == old(state.valueSizes)
      ensures r.Some? ==>
                && state.masterKeys == old(state.masterKeys)[op.key := newMaster]
                && (op.IsGet() ==> state.valueSizes == old(state.valueSizes))
                && (!op.IsGet() ==> state.valueSizes == old(state.valueSizes)[op.key := |op.value|])
                && r.value.AccessEntry? && r.value.keyName == op.key
                && Rewrites(state.kdf, r.value, old(state.masterKeys)[op.key], newMaster,
                            if op.IsGet() then None else PadToLen(op.value, state.valueSize), state.valueSize)
    {
      ghost var before := state.masterKeys[op.key];
      ghost var target := if op.IsGet() then None else PadToLen(op.value, state.valueSize);
      BuildAccessRewritesIfFits(state.kdf, op.key, before, newMaster, target, nonces, state.valueSize);
      if op.IsGet() {
        var entry := state.ConstructGetEntry(op.key, newMaster, nonces);
        return Some(entry);
      }
      r := state.ConstructPutEntry(op.key, op.value, newMaster, nonces);
      if r.Some? {
        state.valueSizes := state.valueSizes[op.key := |op.value|];
      }
    }

    // Lines 66-90.
    method AccessLocked(op: Operation, newMaster: MasterKey, nonces: Nonces, rpc: Rpc, ghost m: map<Key, seq<Byte>>)
      returns (ret: seq<Byte>, thrown: bool)
      requires Configured() && Represents(m) && op.key in state.locks && !IsFree(op.key)
      requires op.key in m && Stores(op.key, m[op.key])
      modifies this, state, server
      ensures thrown <==> Fails(op, rpc)
      ensures thrown ==> ret == [] && accesses == old(accesses) && Represents(m)
                         && forall k: Key :: IsFree(k) == old(IsFree(k))
      ensures !thrown ==> accesses == old(accesses) + 1
                          && forall k: Key :: IsFree(k) == (old(IsFree(k)) || k == op.key)
      ensures op.IsGet() || |op.value| <= state.valueSize ==>
                state.masterKeys == old(state.masterKeys)[op.key := newMaster]
      ensures !thrown && op.IsGet() ==> ret == Visible(m[op.key], Upto()) && Represents(m)
      ensures !thrown && !op.IsGet() ==> ret == [] && Represents(m[op.key := op.value])
      ensures aborted == old(aborted) && SameElsewhere(old(server.db), server.db, op.key)
      ensures rpc.RequestLost? ==> server.db == old(server.db)
      ensures !rpc.RequestLost? && (op.IsGet() || |op.value| <= state.valueSize) ==>
                Holds(op.key, newMaster, if op.IsGet() then m[op.key] else op.value)
    {
      ghost var before := state.masterKeys[op.key];
      ghost var target := if op.IsGet() then None else PadToLen(op.value, state.valueSize);
      var entry := BuildEntry(op, newMaster, nonces);
      if entry.None? || rpc.RequestLost? {
        return [], true;
      }
      CoverageIsExact(server.valueSize, server.threads, server.stride);
      AccessMovesEncoding(state.kdf, entry.value, before, newMaster, target, PadToLen(m[op.key], state.valueSize).value,
                          server.db[op.key], state.valueSize, Upto());
      var exited, answer := server.Access(entry.value);
      if rpc.ReplyLost? {
        return [], true;
      }
      ret, thrown := [], false;
      if op.IsGet() {
        ReadBack(state.kdf, newMaster, m[op.key], answer, state.valueSize, Upto());
        ret := state.ReadValueFromLabels(op.key, answer);
      }
      accesses := accesses + 1;
      state.locks := state.locks[op.key := true];
      assert Stores(op.key, if op.IsGet() then m[op.key] else op.value);
    }
  }

  lemma BuildAccessRewritesIfFits(kdf: Kdf, key: Key, oldMaster: MasterKey, newMaster: MasterKey, target: Target,
                                  nonces: Nonces, valueSize: nat)
    ensures (target.Some? ==> |target.value| == valueSize) ==>
              Rewrites(kdf, BuildAccess(kdf, key, oldMaster, newMaster, target, nonces, valueSize),
                       oldMaster, newMaster, target, valueSize)
  {
    if target.Some? ==> |target.value| == valueSize {
      BuildAccessRewrites(kdf, key, oldMaster, newMaster, target, nonces, valueSize);
    }
  }
}
