/** The machine words of the gateway, their wrap-around, and the big-endian pairing of bytes
    and registers (section 4.2 of the MODBUS Application Protocol Specification V1.1b3). */
module Words {

  type u8 = x: int | 0 <= x < 0x100
  type u16 = x: int | 0 <= x < 0x1_0000

  /** Conversion of an `int` to `uint8_t`. */
  function Wrap8(x: int): u8 {
    x % 0x100
  }

  /** Conversion of an `int` to `uint16_t`. */
  function Wrap16(x: int): u16 {
    x % 0x1_0000
  }

  function Word(hi: u8, lo: u8): u16 {
    hi * 0x100 + lo
  }

  function Hi(w: u16): u8 {
    w / 0x100
  }

  function Lo(w: u16): u8 {
    w % 0x100
  }

  /** Byte `j` of a register table laid out big-endian: register `a` owns bytes `2a` and `2a+1`. */
  function RegByte(regs: seq<u16>, j: nat): u8
    requires j < 2 * |regs|
  {
    if j % 2 == 0 then Hi(regs[j / 2]) else Lo(regs[j / 2])
  }

  /** The register that a device holds in its bytes `2a` and `2a+1`. */
  function DeviceWord(mem: seq<u8>, a: nat): u16
    requires 2 * a + 1 < |mem|
  {
    Word(mem[2 * a], mem[2 * a + 1])
  }

  /** `now` is `was` with the `n` registers from `first` on fetched from the device. */
  ghost predicate Refreshed(now: seq<u16>, was: seq<u16>, mem: seq<u8>, first: nat, n: nat) {
    && |now| == |was| && 2 * |was| <= |mem|
    && forall a :: 0 <= a < |was| ==>
         now[a] == if first <= a < first + n then DeviceWord(mem, a) else was[a]
  }

  /** `now` is `was` with bytes of the `n` registers from `first` on taken from `regs`: every one
      of them when `all`, any of them otherwise. */
  ghost predicate Sent(now: seq<u8>, was: seq<u8>, regs: seq<u16>, first: nat, n: nat, all: bool) {
    && |now| == |was|
    && (n > 0 ==> first + n <= |regs|)
    && forall j :: 0 <= j < |was| ==>
         || (!(all && 2 * first <= j < 2 * (first + n)) && now[j] == was[j])
         || (2 * first <= j < 2 * (first + n) && now[j] == RegByte(regs, j))
  }

  function Splice<T>(s: seq<T>, at: nat, part: seq<T>): (r: seq<T>)
    requires at + |part| <= |s|
    ensures |r| == |s|
    ensures forall i :: 0 <= i < |s| ==> r[i] == if at <= i < at + |part| then part[i - at] else s[i]
  {
    s[..at] + part + s[at + |part|..]
  }

  /** Registers holding `bytes` big-endian; an odd last byte is the high half of its register. */
  function Pack(bytes: seq<u8>): (ws: seq<u16>)
    ensures |ws| == |bytes| / 2 + |bytes| % 2
  {
    seq(|bytes| / 2 + |bytes| % 2, i requires 0 <= i < |bytes| / 2 + |bytes| % 2 =>
      Word(bytes[2 * i], if 2 * i + 1 < |bytes| then bytes[2 * i + 1] else 0))
  }

  function Unpack(ws: seq<u16>): (bytes: seq<u8>)
    ensures |bytes| == 2 * |ws|
  {
    seq(2 * |ws|, j requires 0 <= j < 2 * |ws| => RegByte(ws, j))
  }

  lemma PackRefreshes(was: seq<u16>, mem: seq<u8>, first: nat, n: nat)
    requires first + n <= |was| && 2 * |was| <= |mem|
    ensures Refreshed(Splice(was, first, Pack(mem[2 * first..2 * first + 2 * n])), was, mem, first, n)
  {
    var bytes := mem[2 * first..2 * first + 2 * n];
    assert forall i :: 0 <= i < n ==> Pack(bytes)[i] == DeviceWord(mem, first + i);
  }

  lemma UnpackAt(regs: seq<u16>, first: nat, n: nat, k: nat)
    requires first + n <= |regs| && k < 2 * n
    ensures Unpack(regs[first..first + n])[k] == RegByte(regs, 2 * first + k)
  {
  }

  /** Storing unpacked registers. */
  lemma UnpackSends(now: seq<u8>, was: seq<u8>, regs: seq<u16>, first: nat, n: nat, all: bool)
    requires first + n <= |regs| && |now| == |was|
    requires var data := Unpack(regs[first..first + n]);
      forall j :: 0 <= j < |was| ==>
        || (!(all && 2 * first <= j < 2 * first + |data|) && now[j] == was[j])
        || (2 * first <= j < 2 * first + |data| && now[j] == data[j - 2 * first])
    ensures Sent(now, was, regs, first, n, all)
  {
    forall j | 2 * first <= j < 2 * first + 2 * n
      ensures Unpack(regs[first..first + n])[j - 2 * first] == RegByte(regs, j)
    {
      UnpackAt(regs, first, n, j - 2 * first);
    }
  }

  lemma {:induction false} BytesRoundTrip(bytes: seq<u8>)
    ensures Unpack(Pack(bytes)) == bytes + (if |bytes| % 2 == 1 then [0] else [])
  {
    var back := Unpack(Pack(bytes));
    forall j | 0 <= j < |back|
      ensures back[j] == (bytes + (if |bytes| % 2 == 1 then [0] else []))[j]
    {
      assert back[j] == RegByte(Pack(bytes), j);
    }
  }

  lemma {:induction false} RegistersRoundTrip(ws: seq<u16>)
    ensures Pack(Unpack(ws)) == ws
  {
    var bytes := Unpack(ws);
    forall i | 0 <= i < |ws|
      ensures Pack(bytes)[i] == ws[i]
    {
      assert bytes[2 * i] == RegByte(ws, 2 * i) && bytes[2 * i + 1] == RegByte(ws, 2 * i + 1);
      assert Word(Hi(ws[i]), Lo(ws[i])) == ws[i];
    }
  }

  /** The byte count of a whole table is passed back as `uint16_t`. The round trip through that
      16-bit interface restores the whole table exactly when it has at most 32767 registers. */
  lemma {:induction false} RegistersRoundTrip16(ws: seq<u16>)
    requires |ws| <= 0xFFFF
    ensures Pack(Unpack(ws)[..Wrap16(2 * |ws|)]) == ws <==> |ws| <= 0x7FFF
    ensures Pack(Unpack(ws)[..Wrap16(2 * |ws|)]) == ws[..|ws| % 0x8000]
  {
    var n := |ws| % 0x8000;
    assert Wrap16(2 * |ws|) == 2 * n;
    assert Unpack(ws)[..2 * n] == Unpack(ws[..n]);
    RegistersRoundTrip(ws[..n]);
    assert |ws| <= 0x7FFF ==> ws[..n] == ws;
  }
}
