/**
 The entries the proxy builds and what the server makes of them, as functions: the meaning
 the imperative code in ClientHelper.dfy and KvServer.dfy is proved against.
 */
module Entries {
  import opened Wrappers
  import opened Bits
  import opened Labels

  // The randomness an access entry consumes: one nonce per table and slot.
  type Nonces = (Crumb, nat) -> nat

  // KV_RPC's Entry: create fills the first field only, access fills four tables.
  datatype Entry =
    | CreateEntry(keyName: Key, labels: seq<Slot>)
    | AccessEntry(keyName: Key, a: seq<Cell>, b: seq<Cell>, c: seq<Cell>, d: seq<Cell>)
  {
    function Table(t: Crumb): seq<Cell>
      requires AccessEntry?
    {
      if t == 0 then a else if t == 1 then b else if t == 2 then c else d
    }
  }

  // What an access does to a slot holding b: a GET keeps it, a PUT of w installs w's crumb.
  type Target = Option<seq<Byte>>

  function NewCrumb(target: Target, n: nat, b: Crumb): Crumb
    requires target.Some? ==> n < 4 * |target.value|
  {
    if target.Some? then CrumbAt(target.value, n) else b
  }

  function CreateLabels(kdf: Kdf, master: MasterKey, w: seq<Byte>): seq<Slot> {
    seq(4 * |w|, n requires 0 <= n < 4 * |w| => SlotFor(kdf, master, n, CrumbAt(w, n)))
  }

  // Table t, slot n: the replacement for the crumb b whose stored pad bits read t, sealed
  // under the label that stands for b.
  function TableCell(kdf: Kdf, oldMaster: MasterKey, newMaster: MasterKey, target: Target, nonces: Nonces, t: Crumb,
                     n: nat): Cell
    requires target.Some? ==> n < 4 * |target.value|
  {
    var b := t ^ kdf(oldMaster, 5 * n);
    Cell(nonces(t, n), Seal(LabelFor(oldMaster, n, b), nonces(t, n),
                            SlotFor(kdf, newMaster, n, NewCrumb(target, n, b))))
  }

  function TableFor(kdf: Kdf, oldMaster: MasterKey, newMaster: MasterKey, target: Target, nonces: Nonces, t: Crumb,
                    slots: nat): seq<Cell>
    requires target.Some? ==> slots <= 4 * |target.value|
  {
    seq(slots, n requires 0 <= n < slots => TableCell(kdf, oldMaster, newMaster, target, nonces, t, n))
  }

  function BuildAccess(kdf: Kdf, key: Key, oldMaster: MasterKey, newMaster: MasterKey, target: Target, nonces: Nonces,
                       valueSize: nat): Entry
    requires target.Some? ==> |target.value| == valueSize
  {
    AccessEntry(key,
      TableFor(kdf, oldMaster, newMaster, target, nonces, 0, 4 * valueSize),
      TableFor(kdf, oldMaster, newMaster, target, nonces, 1, 4 * valueSize),
      TableFor(kdf, oldMaster, newMaster, target, nonces, 2, 4 * valueSize),
      TableFor(kdf, oldMaster, newMaster, target, nonces, 3, 4 * valueSize))
  }

  /* ---------- the server ---------- */

  // One iteration of decryptPortion: the stored pad bits pick the table, the stored label
  // must open its cell.  A stored string too short to hold slot n cannot open anything.
  function OpenAt(entry: Entry, block: seq<Slot>, n: nat): Option<Slot> {
    if entry.AccessEntry? && n < |block| && n < |entry.Table(block[n].pad)|
    then Open(entry.Table(block[n].pad)[n], block[n].lbl)
    else None
  }

  ghost predicate AllOpen(entry: Entry, block: seq<Slot>, upto: nat) {
    forall n: nat :: n < upto ==> OpenAt(entry, block, n).Some?
  }

  // The new block: opened slots up to `upto`, zero bytes after them.
  function NewSlot(entry: Entry, block: seq<Slot>, upto: nat, n: nat): Slot {
    if n < upto && OpenAt(entry, block, n).Some? then OpenAt(entry, block, n).value else BLANK
  }

  // The whole of KV_RPCHandler::access on one stored string; None is its exit(1).
  ghost function AccessResult(entry: Entry, block: seq<Slot>, valueSize: nat, upto: nat): Option<seq<Slot>> {
    if AllOpen(entry, block, upto)
    then Some(seq(4 * valueSize, n requires 0 <= n => NewSlot(entry, block, upto, n)))
    else None
  }

  /* ---------- what an access entry does ---------- */

  // This entry turns any encoding under oldMaster into one under newMaster.
  ghost predicate Rewrites(kdf: Kdf, entry: Entry, oldMaster: MasterKey, newMaster: MasterKey, target: Target,
                           valueSize: nat)
    requires target.Some? ==> |target.value| == valueSize
  {
    && entry.AccessEntry?
    && (forall t: Crumb :: |entry.Table(t)| == 4 * valueSize)
    && forall n: nat, b: Crumb :: n < 4 * valueSize ==>
         Open(entry.Table(kdf(oldMaster, 5 * n) ^ b)[n], LabelFor(oldMaster, n, b)) ==
             Some(SlotFor(kdf, newMaster, n, NewCrumb(target, n, b)))
  }

  lemma XorCancels(pad: Crumb, b: Crumb)
    ensures (pad ^ b) ^ pad == b
  {}

  lemma BuildAccessRewrites(kdf: Kdf, key: Key, oldMaster: MasterKey, newMaster: MasterKey, target: Target,
                            nonces: Nonces, valueSize: nat)
    requires target.Some? ==> |target.value| == valueSize
    ensures Rewrites(kdf, BuildAccess(kdf, key, oldMaster, newMaster, target, nonces, valueSize), oldMaster, newMaster,
                     target, valueSize)
  {
    var entry := BuildAccess(kdf, key, oldMaster, newMaster, target, nonces, valueSize);
    forall t: Crumb
      ensures entry.Table(t) == TableFor(kdf, oldMaster, newMaster, target, nonces, t, 4 * valueSize)
    {
      assert t == 0 || t == 1 || t == 2 || t == 3;
    }
    forall n: nat, b: Crumb | n < 4 * valueSize
      ensures Open(entry.Table(kdf(oldMaster, 5 * n) ^ b)[n], LabelFor(oldMaster, n, b)) ==
              Some(SlotFor(kdf, newMaster, n, NewCrumb(target, n, b)))
    {
      var t := kdf(oldMaster, 5 * n) ^ b;
      XorCancels(kdf(oldMaster, 5 * n), b);
      assert entry.Table(t)[n] == TableCell(kdf, oldMaster, newMaster, target, nonces, t, n);
    }
  }

  // GET keeps the value, PUT installs the new one, the failed-open exit is not taken, and
  // slots the portions do not reach come back blank.
  lemma AccessMovesEncoding(kdf: Kdf, entry: Entry, oldMaster: MasterKey, newMaster: MasterKey, target: Target,
                            w: seq<Byte>, block: seq<Slot>, valueSize: nat, upto: nat)
    requires |w| == valueSize && (target.Some? ==> |target.value| == valueSize)
    requires upto <= 4 * valueSize
    requires Encoded(kdf, oldMaster, w, block, upto)
    requires Rewrites(kdf, entry, oldMaster, newMaster, target, valueSize)
    ensures AllOpen(entry, block, upto) && AccessResult(entry, block, valueSize, upto).Some?
    ensures var buf := AccessResult(entry, block, valueSize, upto).value;
            var w' := if target.Some? then target.value else w;
            Encoded(kdf, newMaster, w', buf, upto) && ZeroFrom(buf, upto)
  {
    var w' := if target.Some? then target.value else w;
    forall n: nat | n < upto
      ensures OpenAt(entry, block, n) == Some(SlotFor(kdf, newMaster, n, CrumbAt(w', n)))
    {
      var b := CrumbAt(w, n);
      assert block[n] == SlotFor(kdf, oldMaster, n, b);
    }
  }

  predicate Opens(entry: Entry, t: Crumb, m: nat, lbl: Label)
    requires entry.AccessEntry?
  {
    m < |entry.Table(t)| && Open(entry.Table(t)[m], lbl).Some?
  }

  // The label stored in a covered slot opens exactly one box of the whole entry: the one the
  // stored pad bits point at, in the slot it is stored in.
  lemma ExactlyOneBoxOpens(kdf: Kdf, key: Key, oldMaster: MasterKey, newMaster: MasterKey, target: Target,
                           nonces: Nonces, valueSize: nat, w: seq<Byte>, block: seq<Slot>, upto: nat,
                           n: nat, m: nat, t: Crumb)
    requires |w| == valueSize && (target.Some? ==> |target.value| == valueSize)
    requires upto <= 4 * valueSize && Encoded(kdf, oldMaster, w, block, upto)
    requires n < upto
    ensures var entry := BuildAccess(kdf, key, oldMaster, newMaster, target, nonces, valueSize);
            Opens(entry, t, m, block[n].lbl) <==> m == n && t == block[n].pad
  {
    var entry := BuildAccess(kdf, key, oldMaster, newMaster, target, nonces, valueSize);
    assert entry.Table(t) == TableFor(kdf, oldMaster, newMaster, target, nonces, t, 4 * valueSize) by {
      assert t == 0 || t == 1 || t == 2 || t == 3;
    }
    if m < 4 * valueSize {
      var b := CrumbAt(w, n);
      assert block[n] == SlotFor(kdf, oldMaster, n, b);
      var pad := kdf(oldMaster, 5 * m);
      assert entry.Table(t)[m] == TableCell(kdf, oldMaster, newMaster, target, nonces, t, m);
      LabelsAreDistinct(oldMaster, m, t ^ pad, n, b);
      assert t ^ pad == b <==> t == pad ^ b;
    }
  }

  // What a server can observe of an access even if it tries every box with every label it
  // reads: the sizes of the tables and which boxes open.  Here: nothing but the stored block.
  ghost predicate ShowsOnly(entry: Entry, block: seq<Slot>, valueSize: nat, upto: nat) {
    && entry.AccessEntry? && upto <= |block|
    && (forall t: Crumb :: |entry.Table(t)| == 4 * valueSize)
    && (forall n: nat, t: Crumb, m: nat :: n < upto ==>
          (Opens(entry, t, m, block[n].lbl) <==> m == n && t == block[n].pad))
  }

  // No box of the entry opens under a covered label of the block.
  ghost predicate ShowsNothing(entry: Entry, block: seq<Slot>, valueSize: nat, upto: nat) {
    && entry.AccessEntry?
    && (forall t: Crumb :: |entry.Table(t)| == 4 * valueSize)
    && (forall n: nat, t: Crumb, m: nat :: n < upto && n < |block| ==> !Opens(entry, t, m, block[n].lbl))
  }

  ghost predicate Indistinguishable(e: Entry, e': Entry, block: seq<Slot>, upto: nat) {
    && e.AccessEntry? && e'.AccessEntry?
    && (forall t: Crumb :: |e.Table(t)| == |e'.Table(t)|)
    && (forall n: nat, t: Crumb, m: nat :: n < upto && n < |block| ==>
          (Opens(e, t, m, block[n].lbl) <==> Opens(e', t, m, block[n].lbl)))
  }

  // The observation an access leaves depends on the stored block alone: not on the target,
  // and only on the slots the server's portions visit.
  lemma AccessShowsOnly(kdf: Kdf, key: Key, oldMaster: MasterKey, newMaster: MasterKey, target: Target,
                        nonces: Nonces, valueSize: nat, w: seq<Byte>, block: seq<Slot>, upto: nat)
    requires |w| == valueSize && (target.Some? ==> |target.value| == valueSize)
    requires upto <= 4 * valueSize && Encoded(kdf, oldMaster, w, block, upto)
    ensures ShowsOnly(BuildAccess(kdf, key, oldMaster, newMaster, target, nonces, valueSize), block, valueSize, upto)
  {
    var entry := BuildAccess(kdf, key, oldMaster, newMaster, target, nonces, valueSize);
    forall n: nat, t: Crumb, m: nat | n < upto
      ensures Opens(entry, t, m, block[n].lbl) <==> m == n && t == block[n].pad
    {
      ExactlyOneBoxOpens(kdf, key, oldMaster, newMaster, target, nonces, valueSize, w, block, upto, n, m, t);
    }
    forall t: Crumb
      ensures |entry.Table(t)| == 4 * valueSize
    {
      assert t == 0 || t == 1 || t == 2 || t == 3;
    }
  }

  // A label of another master key opens no box at all.
  lemma OtherLabelOpensNothing(kdf: Kdf, key: Key, oldMaster: MasterKey, newMaster: MasterKey, target: Target,
                               nonces: Nonces, valueSize: nat, lbl: Label, t: Crumb, m: nat)
    requires target.Some? ==> |target.value| == valueSize
    requires lbl.Derived? ==> lbl.master != oldMaster
    ensures !Opens(BuildAccess(kdf, key, oldMaster, newMaster, target, nonces, valueSize), t, m, lbl)
  {
    var entry := BuildAccess(kdf, key, oldMaster, newMaster, target, nonces, valueSize);
    assert entry.Table(t) == TableFor(kdf, oldMaster, newMaster, target, nonces, t, 4 * valueSize) by {
      assert t == 0 || t == 1 || t == 2 || t == 3;
    }
    if m < 4 * valueSize {
      assert entry.Table(t)[m] == TableCell(kdf, oldMaster, newMaster, target, nonces, t, m);
    }
  }

  // A GET and a PUT against the same stored block cannot be told apart.
  lemma GetAndPutLookAlike(kdf: Kdf, key: Key, master: MasterKey, getMaster: MasterKey, putMaster: MasterKey,
                           getNonces: Nonces, putNonces: Nonces, w: seq<Byte>, v: seq<Byte>,
                           block: seq<Slot>, upto: nat)
    requires |v| == |w|
    requires upto <= 4 * |w| && Encoded(kdf, master, w, block, upto)
    ensures Indistinguishable(BuildAccess(kdf, key, master, getMaster, None, getNonces, |w|),
                              BuildAccess(kdf, key, master, putMaster, Some(v), putNonces, |w|), block, upto)
  {
    AccessShowsOnly(kdf, key, master, getMaster, None, getNonces, |w|, w, block, upto);
    AccessShowsOnly(kdf, key, master, putMaster, Some(v), putNonces, |w|, w, block, upto);
  }

  // Whatever block is stored, every value of its length is consistent with its pad bits
  // under exactly one vector of pads.
  function PadsExplaining(stored: seq<Crumb>, v: seq<Byte>): seq<Crumb>
    requires |stored| == 4 * |v|
  {
    seq(|stored|, n requires 0 <= n < |stored| => stored[n] ^ CrumbAt(v, n))
  }

  ghost predicate Explains(pads: seq<Crumb>, stored: seq<Crumb>, v: seq<Byte>) {
    && |pads| == |stored| == 4 * |v|
    && forall n: nat :: n < |stored| ==> pads[n] ^ CrumbAt(v, n) == stored[n]
  }

  lemma ExactlyOnePadVector(stored: seq<Crumb>, v: seq<Byte>, pads: seq<Crumb>)
    requires |stored| == 4 * |v|
    ensures Explains(pads, stored, v) <==> pads == PadsExplaining(stored, v)
  {
    if Explains(pads, stored, v) {
      forall n: nat | n < |stored|
        ensures pads[n] == PadsExplaining(stored, v)[n]
      {
        OnePadPerValue(stored[n], CrumbAt(v, n), pads[n]);
      }
    }
    if pads == PadsExplaining(stored, v) {
      forall n: nat | n < |stored|
        ensures pads[n] ^ CrumbAt(v, n) == stored[n]
      {
        OnePadPerValue(stored[n], CrumbAt(v, n), pads[n]);
      }
    }
  }

  // The four cells of a slot as they are sent: each is sealed under its own nonce and under the
  // old label of the crumb whose stored pad bits name its table.
  lemma CellIsSealed(kdf: Kdf, key: Key, oldMaster: MasterKey, newMaster: MasterKey, target: Target, nonces: Nonces,
                     valueSize: nat, t: Crumb, n: nat)
    requires (target.Some? ==> |target.value| == valueSize) && n < 4 * valueSize
    ensures var entry := BuildAccess(kdf, key, oldMaster, newMaster, target, nonces, valueSize);
            var old' := t ^ kdf(oldMaster, 5 * n);
            var new' := if target.Some? then GetBits(target.value[n / 4], 2 * (n % 4)) else old';
            && |entry.Table(t)| == 4 * valueSize
            && entry.Table(t)[n] ==
               Cell(nonces(t, n), Seal(Derived(oldMaster, 5 * n + 1 + old' as nat), nonces(t, n),
                                       Slot(kdf(newMaster, 5 * n) ^ new', Derived(newMaster, 5 * n + 1 + new' as nat))))
  {
    var entry := BuildAccess(kdf, key, oldMaster, newMaster, target, nonces, valueSize);
    assert entry.Table(t) == TableFor(kdf, oldMaster, newMaster, target, nonces, t, 4 * valueSize) by {
      assert t == 0 || t == 1 || t == 2 || t == 3;
    }
    assert entry.Table(t)[n] == TableCell(kdf, oldMaster, newMaster, target, nonces, t, n);
  }

  // So no randomness is lost: two entries for the same operation are equal exactly if all
  // their nonces are.
  lemma EntriesAgreeIffNoncesDo(kdf: Kdf, key: Key, oldMaster: MasterKey, newMaster: MasterKey, target: Target,
                                nonces: Nonces, other: Nonces, valueSize: nat)
    requires target.Some? ==> |target.value| == valueSize
    ensures BuildAccess(kdf, key, oldMaster, newMaster, target, nonces, valueSize)
            == BuildAccess(kdf, key, oldMaster, newMaster, target, other, valueSize)
            <==> forall t: Crumb, n: nat :: n < 4 * valueSize ==> nonces(t, n) == other(t, n)
  {
    var a := BuildAccess(kdf, key, oldMaster, newMaster, target, nonces, valueSize);
    var b := BuildAccess(kdf, key, oldMaster, newMaster, target, other, valueSize);
    forall t: Crumb, n: nat | n < 4 * valueSize
      ensures |a.Table(t)| == |b.Table(t)| == 4 * valueSize
      ensures a.Table(t)[n] == b.Table(t)[n] <==> nonces(t, n) == other(t, n)
    {
      CellIsSealed(kdf, key, oldMaster, newMaster, target, nonces, valueSize, t, n);
      CellIsSealed(kdf, key, oldMaster, newMaster, target, other, valueSize, t, n);
    }
    if forall t: Crumb, n: nat :: n < 4 * valueSize ==> nonces(t, n) == other(t, n) {
      assert a.Table(0) == b.Table(0) && a.Table(1) == b.Table(1);
      assert a.Table(2) == b.Table(2) && a.Table(3) == b.Table(3);
    }
  }

  lemma CreateLabelsEncode(kdf: Kdf, master: MasterKey, w: seq<Byte>)
    ensures Encoded(kdf, master, w, CreateLabels(kdf, master, w), 4 * |w|)
  {}
}
