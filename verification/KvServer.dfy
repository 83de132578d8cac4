/**
 ortoa-lbl/server.cpp: the untrusted store.  `stride` is the factor by which decryptPortion
 advances its pointers: server.cpp:65-71 as written has 1, the proxy's layout needs 4.
 The key-value database is the map `db`; a missing key reads as the empty string.
 */
module KvServer {
  import opened Wrappers
  import opened Partition
  import opened Labels
  import opened Entries

  type Database = map<Key, seq<Slot>>

  function Stored(db: Database, key: Key): seq<Slot> {
    if key in db then db[key] else []
  }

  // Slots some part before `parts` has visited.
  ghost predicate Reached(v: nat, t: nat, stride: nat, parts: nat, n: nat)
    requires t > 0
  {
    exists part: nat :: part < parts && InPortion(v, t, stride, part, n)
  }

  class Handler {
    const valueSize: nat
    const threads: nat
    const stride: nat
    var db: Database

    ghost predicate Configured() {
      Parameters(valueSize, threads, stride)
    }

    constructor (valueSize: nat, threads: nat, stride: nat, db: Database)
      requires Parameters(valueSize, threads, stride)
      ensures Configured() && this.valueSize == valueSize && this.threads == threads && this.stride == stride
      ensures this.db == db
    {
      this.valueSize, this.threads, this.stride, this.db := valueSize, threads, stride, db;
    }

    method Create(entry: Entry)
      requires entry.CreateEntry?
      modifies this
      ensures db == old(db)[entry.keyName := entry.labels]
    {
      db := db[entry.keyName := entry.labels];
    }

    // False stands for the exit(1) after a box that does not open.
    method DecryptPortion(part: nat, newKey: array<Slot>, oldKey: seq<Slot>, entry: Entry) returns (ok: bool)
      requires Configured() && entry.AccessEntry? && part < threads && newKey.Length == 4 * valueSize
      modifies newKey
      ensures ok <==> forall n: nat :: InPortion(valueSize, threads, stride, part, n) ==> OpenAt(entry, oldKey, n).Some?
      ensures ok ==> forall n: nat :: n < newKey.Length ==>
                newKey[n] == if InPortion(valueSize, threads, stride, part, n) then OpenAt(entry, oldKey, n).value
                    else old(newKey[n])
    {
      var partSize := PartSize(valueSize, threads);
      var start := part * partSize;
      var limit := Min((part + 1) * partSize, valueSize);
      var base := stride * start;
      var cursor := base;
      PortionInBounds(valueSize, threads, stride, part);
      var i := start;
      while i < limit
        invariant start <= i && (i == start || i <= limit)
        invariant cursor == base + 4 * (i - start)
        invariant Rewritten(newKey, old(newKey[..]), entry, oldKey, base, cursor)
      {
        var j := 0;
        while j < 4
          invariant 0 <= j <= 4 && cursor == base + 4 * (i - start) + j
          invariant Rewritten(newKey, old(newKey[..]), entry, oldKey, base, cursor)
        {
          var slot := OpenSlot(entry, oldKey, cursor);
          if slot.None? {
            assert InPortion(valueSize, threads, stride, part, cursor);
            return false;
          }
          newKey[cursor] := slot.value;
          cursor := cursor + 1;
          j := j + 1;
        }
        i := i + 1;
      }
      ok := true;
    }

    // Lines 78-99: the stored pad bits choose the table, the stored label opens its cell.
    static method OpenSlot(entry: Entry, oldKey: seq<Slot>, n: nat) returns (slot: Option<Slot>)
      requires entry.AccessEntry?
      ensures slot == OpenAt(entry, oldKey, n)
    {
      if n >= |oldKey| {
        return None;
      }
      var auxBits := oldKey[n].pad;
      var table;
      if auxBits == 0 {
        table := entry.a;
      } else if auxBits == 1 {
        table := entry.b;
      } else if auxBits == 2 {
        table := entry.c;
      } else {
        table := entry.d;
      }
      slot := if n < |table| then Open(table[n], oldKey[n].lbl) else None;
    }

    // The answer is the stored block rewritten over the covered prefix, and it replaces the
    // stored block; the process exits exactly when some covered slot does not open.
    method Access(entry: Entry) returns (exited: bool, answer: seq<Slot>)
      requires Configured() && entry.AccessEntry?
      modifies this
      ensures exited <==> AccessResult(entry, Stored(old(db), entry.keyName), valueSize,
                                       Coverage(valueSize, threads, stride)).None?
      ensures exited ==> db == old(db)
      ensures !exited ==> Some(answer) == AccessResult(entry, Stored(old(db), entry.keyName), valueSize,
                                                       Coverage(valueSize, threads, stride))
      ensures !exited ==> db == old(db)[entry.keyName := answer]
    {
      var oldKeys := Stored(db, entry.keyName);
      var newKey := new Slot[4 * valueSize](_ => BLANK);
      ghost var upto := Coverage(valueSize, threads, stride);
      CoverageIsExact(valueSize, threads, stride);
      var i := 0;
      while i < threads
        invariant 0 <= i <= threads && db == old(db)
        invariant forall n: nat :: Reached(valueSize, threads, stride, i, n) ==> OpenAt(entry, oldKeys, n).Some?
        invariant forall n: nat :: n < newKey.Length ==>
                    newKey[n] == if Reached(valueSize, threads, stride, i, n) then OpenAt(entry, oldKeys, n).value
                        else BLANK
      {
        var ok := DecryptPortion(i, newKey, oldKeys, entry);
        ReachedNext(valueSize, threads, stride, i);
        if !ok {
          ghost var n: nat :| InPortion(valueSize, threads, stride, i, n) && OpenAt(entry, oldKeys, n).None?;
          assert InSomePortion(valueSize, threads, stride, n);
          return true, [];
        }
        i := i + 1;
      }
      ReachedAll(valueSize, threads, stride);
      assert AllOpen(entry, oldKeys, upto);
      exited, answer := false, newKey[..];
      assert answer == AccessResult(entry, oldKeys, valueSize, upto).value;
      db := db[entry.keyName := answer];
    }
  }

  // Slots from `base` up to `cursor` have been opened and replaced, the others not.
  ghost predicate Rewritten(newKey: array<Slot>, before: seq<Slot>, entry: Entry, oldKey: seq<Slot>, base: nat,
                            cursor: nat)
    reads newKey
  {
    && |before| == newKey.Length
    && (forall n: nat :: base <= n < cursor ==> OpenAt(entry, oldKey, n).Some?)
    && forall n: nat :: n < newKey.Length ==>
         newKey[n] == if base <= n < cursor then OpenAt(entry, oldKey, n).value else before[n]
  }

  lemma PortionInBounds(v: nat, t: nat, stride: nat, part: nat)
    requires Parameters(v, t, stride) && part < t
    ensures PortionLength(v, t, part) > 0 ==> PortionBase(v, t, stride, part) + PortionLength(v, t, part) <= 4 * v
  {
    if PortionLength(v, t, part) > 0 {
      var last := PortionBase(v, t, stride, part) + PortionLength(v, t, part) - 1;
      PortionStaysBelowCoverage(v, t, stride, part, last);
      CoverageIsExact(v, t, stride);
    }
  }

  lemma ReachedNext(v: nat, t: nat, stride: nat, parts: nat)
    requires t > 0
    ensures forall n: nat :: Reached(v, t, stride, parts + 1, n) <==>
            Reached(v, t, stride, parts, n) || InPortion(v, t, stride, parts, n)
  {}

  lemma ReachedAll(v: nat, t: nat, stride: nat)
    requires Parameters(v, t, stride)
    ensures forall n: nat :: Reached(v, t, stride, t, n) <==> n < Coverage(v, t, stride)
  {
    CoverageIsExact(v, t, stride);
    forall n: nat
      ensures Reached(v, t, stride, t, n) <==> InSomePortion(v, t, stride, n)
    {}
  }
}
