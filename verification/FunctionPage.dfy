/** The function page of the board (src/webinterface/pages/I2C_IO_Board.ecpp:386-451). */
module FunctionPages {
  import opened Words
  import opened I2C
  import opened VirtualSlaves
  import opened IOBoards

  /** `handle_func_select` for one entry: pin in the high byte, function code in the low byte. The
      page sends the code as the low byte of the register and caches it as the high byte. */
  method SelectFunction(s: VirtualRTUSlave, l: Layout, entry: u16) returns (ok: bool)
    requires s.Valid() && s.CacheAgrees() && (l.bufferSize + l.funcStart) % 2 == 0
    requires Hi(entry) != 255 ==> (l.bufferSize + l.funcStart) / 2 + Hi(entry) < s.NbRegisters()
    modifies s.mapping.tabRegisters, s.comm.memory[s.address], s`clean
    ensures s.CacheAgrees()
    ensures Hi(entry) == 255 ==> !ok && s.Contents() == old(s.Contents()) && s.clean == old(s.clean)
    ensures s.comm.working && Hi(entry) != 255 ==> ok
    ensures Hi(entry) != 255 ==>
      var a := (l.bufferSize + l.funcStart) / 2 + Hi(entry);
      && s.clean == (if ok && Lo(entry) == 0 then old(s.clean) + iset{a} else old(s.clean) - iset{a})
      && Selected(s.Contents(), old(s.Contents()), a, Lo(entry), ok)
    ensures ok ==>
      var a, code := (l.bufferSize + l.funcStart) / 2 + entry / 0x100, entry % 0x100;
      && a < s.NbRegisters() && s.Contents().regs == old(s.Contents()).regs[a := code * 0x100]
      && DeviceWord(s.Contents().mem, a) == code
  {
    hide Agrees;
    ok := false;
    if Hi(entry) != 255 {
      var func: u8 := Lo(entry);
      var i2cAddress: u16 := l.bufferSize + l.funcStart + Hi(entry) as int * 2;
      ghost var a, was := i2cAddress / 2, s.Contents();
      ok := SendCode(s, i2cAddress, func);
      if ok {
        s.mapping.tabRegisters[i2cAddress / 2] := Wrap16(func as int * 0x100);
      }
      s.clean := if ok && func == 0 then s.clean + iset{a} else s.clean - iset{a};
      SelectKeepsCache(s.Contents(), was, old(s.clean), a, func, ok);
    }
  }

  /** The transfer of one code: register address, zero, code. */
  method SendCode(s: VirtualRTUSlave, i2cAddress: u16, func: u8) returns (ok: bool)
    requires s.Valid() && i2cAddress % 2 == 0
    modifies s.comm.memory[s.address]
    ensures s.comm.working ==> ok
    ensures ok ==> DeviceWord(s.comm.memory[s.address][..], i2cAddress / 2) == func
    ensures forall j :: 0 <= j < SPACE && j / 2 != i2cAddress / 2 ==>
      s.comm.memory[s.address][j] == old(s.comm.memory[s.address][j])
  {
    ghost var mem := s.comm.memory[s.address][..];
    var buffer := new u8[5](_ => 0);
    buffer[0], buffer[1] := i2cAddress / 0x100, i2cAddress % 0x100;
    buffer[2], buffer[3] := 0, func;
    assert BusAddress(buffer[..], 2) == i2cAddress;
    assert buffer[2..4] == [0, func];
    ok := s.comm.WriteBytes(s.address, buffer, 2, 2);
    PairWritten(s.comm.memory[s.address][..], mem, [0, func], i2cAddress / 2, ok);
  }

  /** The device gets the code as a register, the table gets it shifted; nothing else changes. */
  ghost predicate Selected(now: Snapshot, was: Snapshot, a: nat, func: u8, ok: bool) {
    && a < |was.regs| && 2 * |was.regs| <= |was.mem| == |now.mem| && now.input == was.input
    && now.regs == (if ok then was.regs[a := Wrap16(func as int * 0x100)] else was.regs)
    && (ok ==> DeviceWord(now.mem, a) == func)
    && forall j :: 0 <= j < |was.mem| && j / 2 != a ==> now.mem[j] == was.mem[j]
  }

  lemma PairWritten(now: seq<u8>, was: seq<u8>, data: seq<u8>, a: nat, ok: bool)
    requires |data| == 2 && Written(now, was, data, 2 * a, ok)
    ensures ok ==> now[2 * a] == data[0] && now[2 * a + 1] == data[1]
    ensures forall j :: 0 <= j < |was| && j / 2 != a ==> now[j] == was[j]
  {
  }

  lemma SelectKeepsCache(now: Snapshot, was: Snapshot, clean: iset<int>, a: nat, func: u8, ok: bool)
    requires Selected(now, was, a, func, ok) && forall i :: i in clean ==> Agrees(was, i)
    ensures forall i :: i in clean && i != a ==> Agrees(now, i)
    ensures ok && func == 0 ==> Agrees(now, a)
  {
    forall i | i in clean && i != a
      ensures Agrees(now, i)
    {
      assert 2 * i / 2 == i && (2 * i + 1) / 2 == i;
    }
  }

  /** The register that the page caches after a successful transfer agrees with the device exactly for
      function code 0. */
  lemma SelectedAgreesWhen(now: Snapshot, was: Snapshot, a: nat, func: u8)
    requires Selected(now, was, a, func, true)
    ensures Agrees(now, a) <==> func == 0
  {
  }
}
