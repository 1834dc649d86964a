/** The byte/register converters of src/base/Connection.cpp and the `Convert` helpers of the
    handlers. A C pointer into an array is an array and an offset. */
module Converters {
  import opened Words

  method WriteBeByteToMBReg(mb: array<u16>, off: nat, b: array<u8>, bLength: u16)
    requires bLength <= b.Length && off + bLength / 2 + bLength % 2 <= mb.Length
    modifies mb
    ensures mb[..] == Splice(old(mb[..]), off, Pack(old(b[..bLength])))
  {
    var mbLength: u16 := bLength / 2 + bLength % 2;
    for pos := 0 to mbLength
      invariant forall i :: 0 <= i < mb.Length ==>
        mb[i] == if off <= i < off + pos then Pack(b[..bLength])[i - off] else old(mb[i])
    {
      var value: u16 := Word(b[pos * 2], 0);
      if pos * 2 + 1 < bLength {
        value := Word(b[pos * 2], b[pos * 2 + 1]);
      }
      mb[off + pos] := value;
    }
  }

  method WriteMBRegToBeByte(b: array<u8>, boff: nat, mb: array<u16>, off: nat, mbLength: u16)
    requires off + mbLength <= mb.Length && boff + 2 * mbLength <= b.Length
    modifies b
    ensures b[..] == Splice(old(b[..]), boff, Unpack(old(mb[off..off + mbLength])))
  {
    ghost var bytes := Unpack(mb[off..off + mbLength]);
    for pos := 0 to mbLength
      invariant forall j :: 0 <= j < b.Length ==>
        b[j] == if boff <= j < boff + 2 * pos then bytes[j - boff] else old(b[j])
    {
      assert bytes[2 * pos] == Hi(mb[off + pos]) && bytes[2 * pos + 1] == Lo(mb[off + pos]);
      b[boff + pos * 2] := mb[off + pos] / 0x100;
      b[boff + pos * 2 + 1] := mb[off + pos] % 0x100;
    }
  }
}
