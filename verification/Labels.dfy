/**
 Symbolic cryptography and the slot encoding of ORTOA-LBL.

 A derived key is the term Derived(master, subkey), equal only to itself; the two low bits
 of its first byte, which the protocol uses as a pad, come from an arbitrary function `Kdf`.
 A sealed box opens under the sealing label and nonce and under nothing else.
 */
module Labels {
  import opened Wrappers
  import opened Bits

  type Key = string
  type MasterKey = nat
  type Kdf = (MasterKey, nat) -> Crumb

  // crypto_secretbox_KEYBYTES bytes: freshly resized (all zero), or derived.
  datatype Label = Zero | Derived(master: MasterKey, subkey: nat)

  // One pad byte followed by one label: what the server stores for two bits of a value.
  datatype Slot = Slot(pad: Crumb, lbl: Label)

  const BLANK := Slot(0, Zero)

  datatype Box = Seal(key: Label, nonce: nat, msg: Slot)

  // A table cell as sent: the nonce in clear, then the ciphertext.
  datatype Cell = Empty | Cell(nonce: nat, box: Box)

  // crypto_secretbox_open_easy: None is its non-zero return.
  function Open(c: Cell, key: Label): Option<Slot> {
    if c.Cell? && c.box.key == key && c.box.nonce == c.nonce then Some(c.box.msg) else None
  }

  // Subkey 5n seeds the pad of slot n; subkeys 5n+1 .. 5n+4 are its four labels.
  function LabelFor(master: MasterKey, n: nat, b: Crumb): Label {
    Derived(master, 5 * n + 1 + b as nat)
  }

  function SlotFor(kdf: Kdf, master: MasterKey, n: nat, b: Crumb): Slot {
    Slot(kdf(master, 5 * n) ^ b, LabelFor(master, n, b))
  }

  // Distinct slots and distinct offsets below 5 never share a subkey.
  lemma SubkeysAreDistinct(n: nat, j: nat, m: nat, k: nat)
    requires j < 5 && k < 5
    ensures 5 * n + j == 5 * m + k <==> n == m && j == k
  {}

  lemma LabelsAreDistinct(master: MasterKey, n: nat, b: Crumb, m: nat, c: Crumb)
    ensures LabelFor(master, n, b) == LabelFor(master, m, c) <==> n == m && b == c
  {
    SubkeysAreDistinct(n, 1 + b as nat, m, 1 + c as nat);
  }

  /* ---------- values as crumbs ---------- */

  function CrumbAt(v: seq<Byte>, n: nat): Crumb
    requires n < 4 * |v|
  {
    GetBits(v[n / 4], 2 * (n % 4))
  }

  function Spaces(len: nat): seq<Byte> {
    seq(len, i => SPACE)
  }

  // std::string(len - value.length(), ' ') throws length_error when the subtraction wraps.
  function PadToLen(v: seq<Byte>, len: nat): (r: Option<seq<Byte>>)
    ensures r.Some? <==> |v| <= len
    ensures r.Some? ==> |r.value| == len && v <= r.value && forall i :: |v| <= i < len ==> r.value[i] == 0x20
  {
    if |v| <= len then Some(v + Spaces(len - |v|)) else None
  }

  // The first `upto` slots of buf encode the value w under this master key.
  ghost predicate Encoded(kdf: Kdf, master: MasterKey, w: seq<Byte>, buf: seq<Slot>, upto: nat) {
    && |buf| == 4 * |w|
    && forall n: nat :: n < upto && n < |buf| ==> buf[n] == SlotFor(kdf, master, n, CrumbAt(w, n))
  }

  ghost predicate ZeroFrom(buf: seq<Slot>, from: nat) {
    forall n: nat :: from <= n < |buf| ==> buf[n] == BLANK
  }

  /* ---------- reading labels back ---------- */

  function ReadCrumb(master: MasterKey, n: nat, lbl: Label): Crumb {
    if lbl == LabelFor(master, n, 0) then 0
    else if lbl == LabelFor(master, n, 1) then 1
    else if lbl == LabelFor(master, n, 2) then 2
    else 3
  }

  function ReadByte(master: MasterKey, buf: seq<Slot>, i: nat): Byte
    requires 4 * i + 3 < |buf|
  {
    Assemble(0, ReadCrumb(master, 4 * i, buf[4 * i].lbl), ReadCrumb(master, 4 * i + 1, buf[4 * i + 1].lbl),
             ReadCrumb(master, 4 * i + 2, buf[4 * i + 2].lbl), ReadCrumb(master, 4 * i + 3, buf[4 * i + 3].lbl))
  }

  // The string the proxy returns: every byte decoded, then cut to the recorded size.
  function ReadValue(master: MasterKey, buf: seq<Slot>, valueSize: nat, size: nat): seq<Byte>
    requires |buf| == 4 * valueSize
  {
    seq(if size < valueSize then size else valueSize, i requires 0 <= i < valueSize => ReadByte(master, buf, i))
  }

  // What of the crumb at n survives a server that only rewrites the first `upto` slots:
  // the others come back as labels nobody derived, which decode as 3.
  function VisibleCrumb(v: seq<Byte>, upto: nat, n: nat): Crumb
    requires n < 4 * |v|
  {
    if n < upto then CrumbAt(v, n) else 3
  }

  function VisibleByte(v: seq<Byte>, upto: nat, i: nat): Byte
    requires i < |v|
  {
    Assemble(0, VisibleCrumb(v, upto, 4 * i), VisibleCrumb(v, upto, 4 * i + 1),
             VisibleCrumb(v, upto, 4 * i + 2), VisibleCrumb(v, upto, 4 * i + 3))
  }

  function Visible(v: seq<Byte>, upto: nat): seq<Byte> {
    seq(|v|, i requires 0 <= i < |v| => VisibleByte(v, upto, i))
  }

  lemma ReadSlot(kdf: Kdf, master: MasterKey, n: nat, b: Crumb)
    ensures ReadCrumb(master, n, SlotFor(kdf, master, n, b).lbl) == b
    ensures ReadCrumb(master, n, BLANK.lbl) == 3
  {
    LabelsAreDistinct(master, n, b, n, 0);
    LabelsAreDistinct(master, n, b, n, 1);
    LabelsAreDistinct(master, n, b, n, 2);
    assert b == 0 || b == 1 || b == 2 || b == 3;
  }

  lemma ReadSlotOfValue(kdf: Kdf, master: MasterKey, v: seq<Byte>, buf: seq<Slot>, valueSize: nat, upto: nat, n: nat)
    requires |v| <= valueSize && n < 4 * |v|
    requires Encoded(kdf, master, PadToLen(v, valueSize).value, buf, upto) && ZeroFrom(buf, upto)
    ensures ReadCrumb(master, n, buf[n].lbl) == VisibleCrumb(v, upto, n)
  {
    var w := PadToLen(v, valueSize).value;
    assert w[n / 4] == v[n / 4];
    ReadSlot(kdf, master, n, CrumbAt(w, n));
  }

  // Decoding what the server holds gives the visible part of the value, for every kdf and
  // every value that fits; the size recorded by the proxy removes the padding.
  lemma ReadBack(kdf: Kdf, master: MasterKey, v: seq<Byte>, buf: seq<Slot>, valueSize: nat, upto: nat)
    requires |v| <= valueSize
    requires Encoded(kdf, master, PadToLen(v, valueSize).value, buf, upto) && ZeroFrom(buf, upto)
    ensures ReadValue(master, buf, valueSize, |v|) == Visible(v, upto)
  {
    forall i: nat | i < |v|
      ensures ReadByte(master, buf, i) == VisibleByte(v, upto, i)
    {
      ReadByteBack(kdf, master, v, buf, valueSize, upto, i);
    }
  }

  lemma ReadByteBack(kdf: Kdf, master: MasterKey, v: seq<Byte>, buf: seq<Slot>, valueSize: nat, upto: nat, i: nat)
    requires |v| <= valueSize && i < |v|
    requires Encoded(kdf, master, PadToLen(v, valueSize).value, buf, upto) && ZeroFrom(buf, upto)
    ensures ReadByte(master, buf, i) == VisibleByte(v, upto, i)
  {
    ReadSlotOfValue(kdf, master, v, buf, valueSize, upto, 4 * i);
    ReadSlotOfValue(kdf, master, v, buf, valueSize, upto, 4 * i + 1);
    ReadSlotOfValue(kdf, master, v, buf, valueSize, upto, 4 * i + 2);
    ReadSlotOfValue(kdf, master, v, buf, valueSize, upto, 4 * i + 3);
  }

  lemma CrumbOfByte(v: seq<Byte>, i: nat)
    requires i < |v|
    ensures CrumbAt(v, 4 * i) == GetBits(v[i], 0) && CrumbAt(v, 4 * i + 1) == GetBits(v[i], 2)
    ensures CrumbAt(v, 4 * i + 2) == GetBits(v[i], 4) && CrumbAt(v, 4 * i + 3) == GetBits(v[i], 6)
  {}

  // The crumb at n reads back as it was written.
  predicate Survives(v: seq<Byte>, upto: nat, n: nat) {
    n < 4 * |v| ==> n < upto || CrumbAt(v, n) == 3
  }

  predicate ByteSurvives(v: seq<Byte>, upto: nat, i: nat) {
    Survives(v, upto, 4 * i) && Survives(v, upto, 4 * i + 1) && Survives(v, upto, 4 * i + 2) &&
        Survives(v, upto, 4 * i + 3)
  }

  lemma VisibleByteIsWhole(v: seq<Byte>, upto: nat, i: nat)
    requires i < |v|
    ensures VisibleByte(v, upto, i) == v[i] <==> ByteSurvives(v, upto, i)
  {
    CrumbOfByte(v, i);
    AssembleInvertsGetBits(v[i], 0);
    GetBitsInvertsAssemble(0, VisibleCrumb(v, upto, 4 * i), VisibleCrumb(v, upto, 4 * i + 1),
                           VisibleCrumb(v, upto, 4 * i + 2), VisibleCrumb(v, upto, 4 * i + 3));
  }

  lemma SurvivesByByte(v: seq<Byte>, upto: nat, n: nat)
    requires n / 4 < |v| && ByteSurvives(v, upto, n / 4)
    ensures Survives(v, upto, n)
  {
    assert n == 4 * (n / 4) + n % 4;
  }

  // A value comes back intact exactly when every crumb the server never rewrites is 3.
  lemma VisibleIsWhole(v: seq<Byte>, upto: nat)
    ensures Visible(v, upto) == v <==> forall n: nat :: Survives(v, upto, n)
  {
    if Visible(v, upto) == v {
      forall n: nat
        ensures Survives(v, upto, n)
      {
        if n < 4 * |v| {
          assert Visible(v, upto)[n / 4] == v[n / 4];
          VisibleByteIsWhole(v, upto, n / 4);
          SurvivesByByte(v, upto, n);
        }
      }
    } else {
      var i: nat :| i < |v| && Visible(v, upto)[i] != v[i];
      VisibleByteIsWhole(v, upto, i);
    }
  }

  // Some value of every length is damaged as soon as one of its slots is out of reach.
  lemma EveryValueWhole(len: nat, upto: nat)
    ensures (forall v: seq<Byte> :: |v| == len ==> Visible(v, upto) == v) <==> 4 * len <= upto
  {
    if 4 * len <= upto {
      forall v: seq<Byte> | |v| == len
        ensures Visible(v, upto) == v
      {
        VisibleIsWhole(v, upto);
      }
    } else {
      var v: seq<Byte> := seq(len, i => 0);
      VisibleIsWhole(v, upto);
      assert CrumbAt(v, upto) == 0 && !Survives(v, upto, upto);
    }
  }

  // One-time pad: whatever pad bits the server stores, each value is explained by exactly
  // one choice of pads.
  lemma OnePadPerValue(stored: Crumb, b: Crumb, pad: Crumb)
    ensures pad ^ b == stored <==> pad == stored ^ b
  {}
}
