/** The 40-bit data length: 32 bits in the length field, eight in bits 20 to 27 of an offset
    or status field whose low 20 bits keep their own meaning. */
module Lengths {

  const TWO20: nat := 0x10_0000
  const TWO32: nat := 0x1_0000_0000
  const MAX_DATASIZE: nat := 1099511627775
  const DATA_VALID: nat := 0x0000_ffee

  predicate IsHuge(len: nat) {
    len > 0xffff_ffff
  }

  function HighBits(len: nat): nat {
    (len / TWO32) % 256
  }

  /** The field with its high bits taken from the length. */
  function InsertLen(len: nat, field: nat): nat {
    HighBits(len) * TWO20 + field % TWO20
  }

  function RealLen(low: nat, field: nat): nat {
    (field / TWO20) % 256 * TWO32 + low
  }

  function LowBits(field: nat): nat {
    field % TWO20
  }

  function Low32(len: nat): nat {
    len % TWO32
  }

  /** Inserting a length keeps the low bits of the field, and both fields decode to it. */
  lemma InsertedLenDecodes(len: nat, field: nat)
    requires len <= MAX_DATASIZE
    ensures RealLen(Low32(len), InsertLen(len, field)) == len
    ensures LowBits(InsertLen(len, field)) == LowBits(field)
  {
    assert len / TWO32 < 256;
    var high := HighBits(len);
    var f := InsertLen(len, field);
    assert f / TWO20 == high && f % TWO20 == field % TWO20;
  }

  /** A field that never had high bits decodes to the plain length. */
  lemma PlainLenDecodes(len: nat, field: nat)
    requires !IsHuge(len) && field < TWO20
    ensures RealLen(Low32(len), field) == len && LowBits(field) == field
  {
  }

  /** What a replacement stores in the offset field of the data pointer: the high bits are
      rewritten for a huge length only. */
  function ReplacedOffset(len: nat, offset: nat): nat {
    if IsHuge(len) then InsertLen(len, offset) else offset
  }

  /** After a replacement the data pointer decodes to the new length exactly when the new
      length is huge or the old one was not. */
  lemma ReplacedPointerDecodes(oldLen: nat, newLen: nat, offset: nat)
    requires newLen <= MAX_DATASIZE && oldLen <= MAX_DATASIZE
    requires HighBits(oldLen) == offset / TWO20 % 256
    ensures RealLen(Low32(newLen), ReplacedOffset(newLen, offset)) == newLen
            <==> (IsHuge(newLen) || !IsHuge(oldLen))
    ensures LowBits(ReplacedOffset(newLen, offset)) == LowBits(offset)
  {
    InsertedLenDecodes(newLen, offset);
    assert IsHuge(oldLen) <==> oldLen / TWO32 > 0;
    if !IsHuge(newLen) {
      assert Low32(newLen) == newLen;
    }
  }

  /** A replacement that is not longer, and huge if the old datum was, decodes to its length. */
  lemma ReplacedDecodes(oldLen: nat, newLen: nat, len: nat, offset: nat)
    requires RealLen(len, offset) == oldLen && newLen <= oldLen <= MAX_DATASIZE
    requires IsHuge(oldLen) ==> IsHuge(newLen)
    ensures RealLen(Low32(newLen), ReplacedOffset(newLen, offset)) == newLen
    ensures LowBits(ReplacedOffset(newLen, offset)) == LowBits(offset)
  {
    if IsHuge(newLen) {
      InsertedLenDecodes(newLen, offset);
    } else {
      var high := (offset / TWO20) % 256;
      assert high == 0;
      assert Low32(newLen) == newLen;
    }
  }

  /** One input on which it fails: 2^32 bytes replaced by one byte. */
  lemma StaleHighBits()
    ensures var offset := InsertLen(TWO32, 32);
      RealLen(Low32(1), ReplacedOffset(1, offset)) == TWO32 + 1
  {
    assert InsertLen(TWO32, 32) == TWO20 + 32;
  }
}
