/**
 ortoa-lbl/clientHelper.cpp: building the entries an operation sends, and decoding the
 labels it gets back.  The globals keySet, valueSizes, masterKeys and locks are fields; VALUE_SIZE,
 PROXY_NUM_THREADS and the key-derivation function are constants of the object.  Buffers
 are arrays of slots or cells, and the pointers that walk them are indices.  The parts are
 run here in submission order; Fanout.dfy shows that the order cannot be observed.
 */
module ClientHelper {
  import opened Wrappers
  import opened Bits
  import opened Partition
  import opened Labels
  import opened Entries

  // Cell n of the tables A, B, C and D.  The four pointers of the loops always move
  // together, so the four output buffers are one array of rows.
  datatype Row = Row(a: Cell, b: Cell, c: Cell, d: Cell)

  function RowFor(kdf: Kdf, oldMaster: MasterKey, newMaster: MasterKey, target: Target, nonces: Nonces, n: nat): Row
    requires target.Some? ==> n < 4 * |target.value|
  {
    Row(TableCell(kdf, oldMaster, newMaster, target, nonces, 0, n),
        TableCell(kdf, oldMaster, newMaster, target, nonces, 1, n),
        TableCell(kdf, oldMaster, newMaster, target, nonces, 2, n),
        TableCell(kdf, oldMaster, newMaster, target, nonces, 3, n))
  }

  class OpScure {
    const kdf: Kdf
    const valueSize: nat
    const threads: nat

    var keySet: set<Key>
    var valueSizes: map<Key, nat>
    var masterKeys: map<Key, MasterKey>
    var locks: map<Key, bool>

    ghost predicate Configured() {
      valueSize > 0 && threads > 0
    }

    // OpScureSetup without a saved file: every listed key gets a free lock.
    constructor (kdf: Kdf, valueSize: nat, threads: nat, keys: set<Key>)
      requires valueSize > 0 && threads > 0
      ensures Configured() && this.kdf == kdf && this.valueSize == valueSize && this.threads == threads
      ensures keySet == {} && masterKeys == map[] && valueSizes == map[]
      ensures locks == map k | k in keys :: true
    {
      this.kdf, this.valueSize, this.threads := kdf, valueSize, threads;
      keySet, masterKeys, valueSizes, locks := {}, map[], map[], map k | k in keys :: true;
    }

    method CreateEntryParallel(part: nat, paddedVal: seq<Byte>, masterKey: MasterKey, labels: array<Slot>)
      requires Configured() && |paddedVal| == valueSize && labels.Length == 4 * valueSize
      modifies labels
      ensures forall n: nat :: n < labels.Length ==>
                labels[n] == if 4 * Start(valueSize, threads, part) <= n < 4 * Limit(valueSize, threads, part)
                             then SlotFor(kdf, masterKey, n, CrumbAt(paddedVal, n)) else old(labels[n])
    {
      var partSize := PartSize(valueSize, threads);
      var start := part * partSize;
      var limit := Min((part + 1) * partSize, valueSize);
      var cursor := part * partSize * 4;
      var i := start;
      while i < limit
        invariant start <= i && (i == start || i <= limit)
        invariant cursor == 4 * i
        invariant forall n: nat :: n < labels.Length ==>
                    labels[n] == if 4 * start <= n < cursor then SlotFor(kdf, masterKey, n, CrumbAt(paddedVal, n))
                        else old(labels[n])
      {
        var c := paddedVal[i];
        var j := 0;
        while j < 4
          invariant 0 <= j <= 4 && cursor == 4 * i + j
          invariant forall n: nat :: n < labels.Length ==>
                      labels[n] == if 4 * start <= n < cursor then SlotFor(kdf, masterKey, n, CrumbAt(paddedVal, n))
                          else old(labels[n])
        {
          var tmpAux := kdf(masterKey, 5 * (4 * i + j));
          var bits := GetBits(c, 2 * j);
          assert bits == CrumbAt(paddedVal, cursor);
          labels[cursor] := Slot(tmpAux ^ bits, Derived(masterKey, 5 * (4 * i + j) + 1 + bits as nat));
          cursor := cursor + 1;
          j := j + 1;
        }
        i := i + 1;
      }
    }

    // None is the length_error of padToLen, raised before anything changes.
    method ConstructCreateEntry(key: Key, value: seq<Byte>, newMaster: MasterKey) returns (r: Option<Entry>)
      requires Configured()
      modifies this`masterKeys
      ensures r.Some? <==> |value| <= valueSize
      ensures r.None? ==> masterKeys == old(masterKeys)
      ensures r.Some? ==> masterKeys == old(masterKeys)[key := newMaster]
      ensures r.Some? ==> r.value == CreateEntry(key, CreateLabels(kdf, newMaster, PadToLen(value, valueSize).value))
      // two bits of the value, or of the spaces after it, in each slot
      ensures r.Some? ==> forall n: nat :: n < 4 * valueSize ==>
                var bits := GetBits(if n / 4 < |value| then value[n / 4] else 0x20, 2 * (n % 4));
                r.value.labels[n] == Slot(kdf(newMaster, 5 * n) ^ bits, Derived(newMaster, 5 * n + 1 + bits as nat))
    {
      var padded := PadToLen(value, valueSize);
      if padded.None? {
        return None;
      }
      masterKeys := masterKeys[key := newMaster];
      var labels := new Slot[4 * valueSize](_ => BLANK);
      PartsCoverEachSlotOnce(valueSize, threads);
      var i := 0;
      while i < threads
        invariant 0 <= i <= threads
        invariant masterKeys == old(masterKeys)[key := newMaster]
        invariant forall n: nat :: n < labels.Length && SlotOwner(valueSize, threads, n) < i ==>
                    labels[n] == SlotFor(kdf, newMaster, n, CrumbAt(padded.value, n))
      {
        CreateEntryParallel(i, padded.value, newMaster, labels);
        i := i + 1;
      }
      assert labels[..] == CreateLabels(kdf, newMaster, padded.value);
      r := Some(CreateEntry(key, labels[..]));
    }

    // One iteration of the loop of getEntryParallel: the four cells of slot n.
    method GetCells(n: nat, oldMaster: MasterKey, newMaster: MasterKey, nonces: Nonces) returns (row: Row)
      ensures row == RowFor(kdf, oldMaster, newMaster, None, nonces, n)
    {
      var oldBits := kdf(oldMaster, 5 * n);
      var tmpAux := kdf(newMaster, 5 * n);
      var newLabels := NewLabels(n, newMaster, tmpAux, oldBits);
      var oldLabels := OldLabels(n, oldMaster);
      var a := SealCell(nonces(0, n), newLabels[(0 ^ oldBits) as nat], oldLabels[(0 ^ oldBits) as nat]);
      var b := SealCell(nonces(1, n), newLabels[(1 ^ oldBits) as nat], oldLabels[(1 ^ oldBits) as nat]);
      var c := SealCell(nonces(2, n), newLabels[(2 ^ oldBits) as nat], oldLabels[(2 ^ oldBits) as nat]);
      var d := SealCell(nonces(3, n), newLabels[(3 ^ oldBits) as nat], oldLabels[(3 ^ oldBits) as nat]);
      row := Row(a, b, c, d);
    }

    // One iteration of the loop of putEntryParallel: the same label goes into all four cells.
    method PutCells(n: nat, oldMaster: MasterKey, newMaster: MasterKey, paddedVal: seq<Byte>, newBits: Crumb,
                    nonces: Nonces)
      returns (row: Row)
      requires n < 4 * |paddedVal| && newBits == CrumbAt(paddedVal, n)
      ensures row == RowFor(kdf, oldMaster, newMaster, Some(paddedVal), nonces, n)
    {
      var oldBits := kdf(oldMaster, 5 * n);
      var tmpAux := kdf(newMaster, 5 * n);
      var newLabels := NewLabels(n, newMaster, tmpAux, oldBits);
      var oldLabels := OldLabels(n, oldMaster);
      var newLabel := newLabels[newBits as nat];
      var a := SealCell(nonces(0, n), newLabel, oldLabels[(0 ^ oldBits) as nat]);
      var b := SealCell(nonces(1, n), newLabel, oldLabels[(1 ^ oldBits) as nat]);
      var c := SealCell(nonces(2, n), newLabel, oldLabels[(2 ^ oldBits) as nat]);
      var d := SealCell(nonces(3, n), newLabel, oldLabels[(3 ^ oldBits) as nat]);
      row := Row(a, b, c, d);
    }

    // The four writes newLabels[b ^ oldBits][0] = pad ^ b ^ oldBits reach every index once.
    method NewLabels(n: nat, newMaster: MasterKey, newPad: Crumb, oldBits: Crumb) returns (newLabels: seq<Slot>)
      requires newPad == kdf(newMaster, 5 * n)
      ensures |newLabels| == 4
      ensures forall b: Crumb :: newLabels[b as nat] == SlotFor(kdf, newMaster, n, b)
    {
      var pads: seq<Crumb> := [0, 0, 0, 0];
      pads := pads[(0 ^ oldBits) as nat := newPad ^ 0 ^ oldBits];
      pads := pads[(1 ^ oldBits) as nat := newPad ^ 1 ^ oldBits];
      pads := pads[(2 ^ oldBits) as nat := newPad ^ 2 ^ oldBits];
      pads := pads[(3 ^ oldBits) as nat := newPad ^ 3 ^ oldBits];
      assert pads == [newPad ^ 0, newPad ^ 1, newPad ^ 2, newPad ^ 3] by {
        assert oldBits == 0 || oldBits == 1 || oldBits == 2 || oldBits == 3;
      }
      newLabels := [Slot(pads[0], Derived(newMaster, 5 * n + 1)), Slot(pads[1], Derived(newMaster, 5 * n + 2)),
                    Slot(pads[2], Derived(newMaster, 5 * n + 3)), Slot(pads[3], Derived(newMaster, 5 * n + 4))];
      forall b: Crumb
        ensures newLabels[b as nat] == SlotFor(kdf, newMaster, n, b)
      {
        assert b == 0 || b == 1 || b == 2 || b == 3;
      }
    }

    method OldLabels(n: nat, oldMaster: MasterKey) returns (oldLabels: seq<Label>)
      ensures |oldLabels| == 4
      ensures forall b: Crumb :: oldLabels[b as nat] == LabelFor(oldMaster, n, b)
    {
      oldLabels := [Derived(oldMaster, 5 * n + 1), Derived(oldMaster, 5 * n + 2),
                    Derived(oldMaster, 5 * n + 3), Derived(oldMaster, 5 * n + 4)];
      forall b: Crumb
        ensures oldLabels[b as nat] == LabelFor(oldMaster, n, b)
      {
        assert b == 0 || b == 1 || b == 2 || b == 3;
      }
    }

    static method SealCell(nonce: nat, msg: Slot, key: Label) returns (c: Cell)
      ensures c == Cell(nonce, Seal(key, nonce, msg)) && Open(c, key) == Some(msg)
    {
      c := Cell(nonce, Seal(key, nonce, msg));
    }

    // getEntryParallel, lines 128-217: fills the part's cells of all four tables.
    method GetEntryParallel(part: nat, key: Key, rows: array<Row>, newMaster: MasterKey, nonces: Nonces)
      requires Configured() && key in masterKeys && rows.Length == 4 * valueSize
      modifies rows
      ensures Filled(rows, old(rows[..]), kdf, masterKeys[key], newMaster, None, nonces, FirstSlot(part), EndSlot(part))
    {
      var partSize := PartSize(valueSize, threads);
      var start := part * partSize;
      var limit := Min((part + 1) * partSize, valueSize);
      var cursor := start * 4;
      var i := start;
      while i < limit
        invariant start <= i && (i == start || i <= limit) && cursor == 4 * i
        invariant Filled(rows, old(rows[..]), kdf, masterKeys[key], newMaster, None, nonces, 4 * start, cursor)
      {
        var j := 0;
        while j < 4
          invariant 0 <= j <= 4 && cursor == 4 * i + j
          invariant Filled(rows, old(rows[..]), kdf, masterKeys[key], newMaster, None, nonces, 4 * start, cursor)
        {
          rows[cursor] := GetCells(4 * i + j, masterKeys[key], newMaster, nonces);
          cursor := cursor + 1;
          j := j + 1;
        }
        i := i + 1;
      }
    }

    // putEntryParallel, lines 320-415.
    method PutEntryParallel(part: nat, key: Key, paddedVal: seq<Byte>, rows: array<Row>, newMaster: MasterKey,
                            nonces: Nonces)
      requires Configured() && key in masterKeys && rows.Length == 4 * valueSize && |paddedVal| == valueSize
      modifies rows
      ensures Filled(rows, old(rows[..]), kdf, masterKeys[key], newMaster, Some(paddedVal), nonces, FirstSlot(part),
                     EndSlot(part))
    {
      var partSize := PartSize(valueSize, threads);
      var start := part * partSize;
      var limit := Min((part + 1) * partSize, valueSize);
      var cursor := start * 4;
      var i := start;
      while i < limit
        invariant start <= i && (i == start || i <= limit) && cursor == 4 * i
        invariant Filled(rows, old(rows[..]), kdf, masterKeys[key], newMaster, Some(paddedVal), nonces, 4 * start,
                         cursor)
      {
        var c := paddedVal[i];
        var j := 0;
        while j < 4
          invariant 0 <= j <= 4 && cursor == 4 * i + j
          invariant Filled(rows, old(rows[..]), kdf, masterKeys[key], newMaster, Some(paddedVal), nonces, 4 * start,
                           cursor)
        {
          var newBits := GetBits(c, 2 * j);
          rows[cursor] := PutCells(4 * i + j, masterKeys[key], newMaster, paddedVal, newBits, nonces);
          cursor := cursor + 1;
          j := j + 1;
        }
        i := i + 1;
      }
    }

    // crypto_kdf_keygen draws newMaster; it replaces the key's master key after the futures.
    method ConstructGetEntry(key: Key, newMaster: MasterKey, nonces: Nonces) returns (entry: Entry)
      requires Configured() && key in masterKeys
      modifies this`masterKeys
      ensures masterKeys == old(masterKeys)[key := newMaster]
      ensures entry == BuildAccess(kdf, key, old(masterKeys[key]), newMaster, None, nonces, valueSize)
    {
      var rows := new Row[4 * valueSize](_ => Row(Empty, Empty, Empty, Empty));
      PartsCoverEachSlotOnce(valueSize, threads);
      var i := 0;
      while i < threads
        invariant 0 <= i <= threads && masterKeys == old(masterKeys)
        invariant forall n: nat :: n < rows.Length && SlotOwner(valueSize, threads, n) < i ==>
                    rows[n] == RowFor(kdf, masterKeys[key], newMaster, None, nonces, n)
      {
        GetEntryParallel(i, key, rows, newMaster, nonces);
        i := i + 1;
      }
      entry := AsEntry(key, rows[..]);
      AsEntryBuilds(kdf, key, masterKeys[key], newMaster, None, nonces, valueSize, rows[..]);
      masterKeys := masterKeys[key := newMaster];
    }

    // None is again the length_error of padToLen, raised before anything changes.
    method ConstructPutEntry(key: Key, value: seq<Byte>, newMaster: MasterKey, nonces: Nonces)
      returns (r: Option<Entry>)
      requires Configured() && key in masterKeys
      modifies this`masterKeys
      ensures r.Some? <==> |value| <= valueSize
      ensures r.None? ==> masterKeys == old(masterKeys)
      ensures r.Some? ==> masterKeys == old(masterKeys)[key := newMaster]
      ensures r.Some? ==>
                r.value == BuildAccess(kdf, key, old(masterKeys[key]), newMaster, PadToLen(value, valueSize), nonces,
                                       valueSize)
    {
      var padded := PadToLen(value, valueSize);
      if padded.None? {
        return None;
      }
      var rows := new Row[4 * valueSize](_ => Row(Empty, Empty, Empty, Empty));
      PartsCoverEachSlotOnce(valueSize, threads);
      var i := 0;
      while i < threads
        invariant 0 <= i <= threads && masterKeys == old(masterKeys)
        invariant forall n: nat :: n < rows.Length && SlotOwner(valueSize, threads, n) < i ==>
                    rows[n] == RowFor(kdf, masterKeys[key], newMaster, padded, nonces, n)
      {
        PutEntryParallel(i, key, padded.value, rows, newMaster, nonces);
        i := i + 1;
      }
      AsEntryBuilds(kdf, key, masterKeys[key], newMaster, padded, nonces, valueSize, rows[..]);
      r := Some(AsEntry(key, rows[..]));
      masterKeys := masterKeys[key := newMaster];
    }

    // The variable c starts uninitialised and is carried from byte to byte; the result does
    // not depend on it.
    method ReadValueFromLabels(key: Key, labels: seq<Slot>) returns (value: seq<Byte>)
      requires key in masterKeys && key in valueSizes && |labels| == 4 * valueSize
      ensures value == ReadValue(masterKeys[key], labels, valueSize, valueSizes[key])
      // each pair of bits is the one its label stands for
      ensures |value| == Min(valueSizes[key], valueSize)
      ensures forall n: nat :: n < 4 * |value| ==>
                GetBits(value[n / 4], 2 * (n % 4)) == BitsOf(masterKeys[key], n, labels[n].lbl)
    {
      var result := new Byte[valueSize];
      var c: Byte := *;
      var i := 0;
      while i < valueSize
        invariant 0 <= i <= valueSize
        invariant forall k: nat :: k < i ==> result[k] == ReadByte(masterKeys[key], labels, k)
      {
        c := ReadCrumbs(masterKeys[key], labels, i, c);
        result[i] := c;
        i := i + 1;
      }
      value := if valueSizes[key] < valueSize then result[..valueSizes[key]] else result[..];
      forall n: nat | n < 4 * |value|
        ensures GetBits(value[n / 4], 2 * (n % 4)) == BitsOf(masterKeys[key], n, labels[n].lbl)
      {
        BitsOfByte(masterKeys[key], labels, n);
      }
    }

    // The inner loop: four two-bit writes into c, whatever c held.
    static method ReadCrumbs(master: MasterKey, labels: seq<Slot>, i: nat, junk: Byte) returns (c: Byte)
      requires 4 * i + 3 < |labels|
      ensures c == ReadByte(master, labels, i)
    {
      c := junk;
      var cursor := 4 * i;
      var j := 0;
      while j < 4
        invariant 0 <= j <= 4 && cursor == 4 * i + j
        invariant c == PartlyRead(master, labels, i, junk, j)
      {
        var lbl := labels[cursor].lbl;
        var bits: Crumb :=
          if lbl == Derived(master, 5 * (4 * i + j) + 1) then 0
          else if lbl == Derived(master, 5 * (4 * i + j) + 2) then 1
          else if lbl == Derived(master, 5 * (4 * i + j) + 3) then 2
          else 3;
        assert bits == ReadCrumb(master, cursor, lbl);
        c := ModifyBits(c, 2 * j, bits);
        cursor := cursor + 1;
        j := j + 1;
      }
      JunkIsOverwritten(master, labels, i, junk);
    }

    function FirstSlot(part: nat): nat
      requires Configured()
    {
      4 * Start(valueSize, threads, part)
    }

    function EndSlot(part: nat): nat
      requires Configured()
    {
      4 * Limit(valueSize, threads, part)
    }
  }

  function AsEntry(key: Key, rows: seq<Row>): Entry {
    AccessEntry(key, seq(|rows|, n requires 0 <= n < |rows| => rows[n].a),
                seq(|rows|, n requires 0 <= n < |rows| => rows[n].b),
                seq(|rows|, n requires 0 <= n < |rows| => rows[n].c),
                seq(|rows|, n requires 0 <= n < |rows| => rows[n].d))
  }

  lemma AsEntryBuilds(kdf: Kdf, key: Key, oldMaster: MasterKey, newMaster: MasterKey, target: Target, nonces: Nonces,
                      valueSize: nat, rows: seq<Row>)
    requires |rows| == 4 * valueSize && (target.Some? ==> |target.value| == valueSize)
    requires forall n: nat :: n < |rows| ==> rows[n] == RowFor(kdf, oldMaster, newMaster, target, nonces, n)
    ensures AsEntry(key, rows) == BuildAccess(kdf, key, oldMaster, newMaster, target, nonces, valueSize)
  {
    var left, right := AsEntry(key, rows), BuildAccess(kdf, key, oldMaster, newMaster, target, nonces, valueSize);
    assert left.a == right.a && left.b == right.b && left.c == right.c && left.d == right.d;
  }

  // The position of the label among the four of slot n; the last one if it is none of them.
  function BitsOf(master: MasterKey, n: nat, lbl: Label): Crumb {
    if lbl == Derived(master, 5 * n + 1) then 0
    else if lbl == Derived(master, 5 * n + 2) then 1
    else if lbl == Derived(master, 5 * n + 3) then 2
    else 3
  }

  lemma BitsOfByte(master: MasterKey, labels: seq<Slot>, n: nat)
    requires 4 * (n / 4) + 3 < |labels|
    ensures GetBits(ReadByte(master, labels, n / 4), 2 * (n % 4)) == BitsOf(master, n, labels[n].lbl)
  {
    var i := n / 4;
    var b0, b1 := ReadCrumb(master, 4 * i, labels[4 * i].lbl), ReadCrumb(master, 4 * i + 1, labels[4 * i + 1].lbl);
    var b2 := ReadCrumb(master, 4 * i + 2, labels[4 * i + 2].lbl);
    var b3 := ReadCrumb(master, 4 * i + 3, labels[4 * i + 3].lbl);
    var c := Assemble(0, b0, b1, b2, b3);
    assert c == ReadByte(master, labels, i);
    assert GetBits(c, 0) == b0 && GetBits(c, 2) == b1 && GetBits(c, 4) == b2 && GetBits(c, 6) == b3 by {
      GetBitsInvertsAssemble(0, b0, b1, b2, b3);
    }
    assert BitsOf(master, n, labels[n].lbl) == ReadCrumb(master, n, labels[n].lbl);
    if n % 4 == 0 {
      assert n == 4 * i;
    } else if n % 4 == 1 {
      assert n == 4 * i + 1;
    } else if n % 4 == 2 {
      assert n == 4 * i + 2;
    } else {
      assert n == 4 * i + 3;
    }
  }

  // The value of c after j of the four crumbs of byte i.
  function PartlyRead(master: MasterKey, labels: seq<Slot>, i: nat, junk: Byte, j: nat): Byte
    requires j <= 4 && 4 * i + 3 < |labels|
  {
    if j == 0 then junk
    else ModifyBits(PartlyRead(master, labels, i, junk, j - 1), 2 * (j - 1),
                    ReadCrumb(master, 4 * i + j - 1, labels[4 * i + j - 1].lbl))
  }

  lemma JunkIsOverwritten(master: MasterKey, labels: seq<Slot>, i: nat, junk: Byte)
    requires 4 * i + 3 < |labels|
    ensures PartlyRead(master, labels, i, junk, 4) == ReadByte(master, labels, i)
  {
    var b0 := ReadCrumb(master, 4 * i, labels[4 * i].lbl);
    var b1 := ReadCrumb(master, 4 * i + 1, labels[4 * i + 1].lbl);
    var b2 := ReadCrumb(master, 4 * i + 2, labels[4 * i + 2].lbl);
    var b3 := ReadCrumb(master, 4 * i + 3, labels[4 * i + 3].lbl);
    assert PartlyRead(master, labels, i, junk, 1) == ModifyBits(junk, 0, b0);
    assert PartlyRead(master, labels, i, junk, 2) == ModifyBits(ModifyBits(junk, 0, b0), 2, b1);
    assert PartlyRead(master, labels, i, junk, 4) == Assemble(junk, b0, b1, b2, b3);
    AssembleForgetsJunk(junk, 0, b0, b1, b2, b3);
  }

  // Rows in [from, to) hold the cells of their slot and the others are untouched.
  ghost predicate Filled(rows: array<Row>, before: seq<Row>, kdf: Kdf, oldMaster: MasterKey, newMaster: MasterKey,
                         target: Target, nonces: Nonces, from: nat, to: nat)
    requires target.Some? ==> rows.Length <= 4 * |target.value|
    reads rows
  {
    && |before| == rows.Length
    && forall n: nat :: n < rows.Length ==>
         rows[n] == if from <= n < to then RowFor(kdf, oldMaster, newMaster, target, nonces, n) else before[n]
  }
}
