/**
 The bit helpers of ortoa-lbl/clientHelper.cpp.  A byte is cut into four two-bit
 groups ("crumbs"); everything the protocol hides or reveals is one crumb.
 */
module Bits {
  type Byte = bv8
  type Crumb = bv2

  const SPACE: Byte := 0x20

  function GetBits(c: Byte, shift: nat): Crumb
    requires shift < 8
  {
    ((c >> shift) & 3) as Crumb
  }

  function ModifyBit(c: Byte, bitNum: nat, b: Byte): Byte
    requires bitNum < 8
  {
    (c & !(1 << bitNum)) | (b << bitNum)
  }

  function ModifyBits(c: Byte, bitNum: nat, b: Crumb): Byte
    requires bitNum < 7
  {
    var p := ModifyBit(c, bitNum, (b & 1) as Byte);
    ModifyBit(p, bitNum + 1, ((b >> 1) & 1) as Byte)
  }

  // What the inner loop of readValueFromLabels leaves in c after all four crumbs,
  // when c held junk (its uninitialised content, or the previous byte) before.
  function Assemble(junk: Byte, b0: Crumb, b1: Crumb, b2: Crumb, b3: Crumb): Byte {
    ModifyBits(ModifyBits(ModifyBits(ModifyBits(junk, 0, b0), 2, b1), 4, b2), 6, b3)
  }

  // The groups are the digits of the byte to the base 4, lowest first.
  lemma CrumbsAreDigits(c: Byte)
    ensures c as int == GetBits(c, 0) as int + 4 * GetBits(c, 2) as int + 16 * GetBits(c, 4) as int
                        + 64 * GetBits(c, 6) as int
  {}

  // Four crumb writes determine the byte: the junk cannot be seen, and reading
  // the crumbs back and writing the crumbs are inverse to each other.
  lemma AssembleInvertsGetBits(c: Byte, junk: Byte)
    ensures Assemble(junk, GetBits(c, 0), GetBits(c, 2), GetBits(c, 4), GetBits(c, 6)) == c
  {}

  lemma GetBitsInvertsAssemble(junk: Byte, b0: Crumb, b1: Crumb, b2: Crumb, b3: Crumb)
    ensures var c := Assemble(junk, b0, b1, b2, b3);
            GetBits(c, 0) == b0 && GetBits(c, 2) == b1 && GetBits(c, 4) == b2 && GetBits(c, 6) == b3
  {}

  lemma AssembleForgetsJunk(junk: Byte, other: Byte, b0: Crumb, b1: Crumb, b2: Crumb, b3: Crumb)
    ensures Assemble(junk, b0, b1, b2, b3) == Assemble(other, b0, b1, b2, b3)
  {}
}
