/** The handlers that copy between the register table and device memory: `MultiByteHandler` and
    the classes derived from it. */
module ByteHandlers {
  import opened Words
  import opened I2C
  import opened RegisterMapping
  import opened Converters

  /** Inclusive bounds, as set by `setRange`. */
  datatype Range = Range(first: int, last: int)

  /** `checkRange` of the handler base class, which is not part of this model: all `count`
      registers from `address` on lie within the bounds. */
  predicate InRange(range: Range, address: u16, count: u16) {
    range.first <= address && address + count - 1 <= range.last
  }

  /** The overrides of the derived classes.
      `Plain` is `MultiByteHandler`, `SingleRegisterHandler` and `HolRegHandler`; `ReadOnly` is
      `HolRegHandlerRO`; `Version` reads `units` registers from `first` on and nothing else;
      `Data` has two-register alignment and, for writes, the bounds of the RAM data. */
  datatype Kind = Plain | ReadOnly | Version(first: nat, units: u8) | Data(ram: Range)

  /** The bounds that a version handler sets on every read, and a data handler on an aligned check. */
  function KindBounds(kind: Kind, range: Range): Range {
    match kind
    case Version(first, units) => Range(first, first + units - 1)
    case Data(ram) => ram
    case _ => range
  }

  class MultiByteHandler {
    const comm: I2CComm
    const mode: nat
    /** Fixed number of bytes per call; negative for as many as the request asks for. */
    const byteCount: int
    const kind: Kind
    const enableReadInput: bool
    const enableReadHolding: bool
    const enableWriteSingle: bool
    const enableWriteMultiple: bool
    var range: Range

    /** An odd fixed byte count would make `handleWriteAccess` fill one byte more than
        `sendbuffer` holds, so it is not a configuration the code supports. */
    predicate Valid() {
      && comm.Valid()
      && (mode == 1 || mode == 2)
      && byteCount <= 0x7FFF && (byteCount < 0 || byteCount % 2 == 0)
    }

    constructor (comm: I2CComm, mode: nat, byteCount: int, kind: Kind, enableReadInput: bool, range: Range)
      requires comm.Valid() && (mode == 1 || mode == 2)
      requires byteCount <= 0x7FFF && (byteCount < 0 || byteCount % 2 == 0)
      ensures Valid()
      ensures this.comm == comm && this.mode == mode && this.byteCount == byteCount && this.kind == kind
      ensures this.enableReadInput == enableReadInput && this.range == range
      ensures enableReadHolding && enableWriteSingle && enableWriteMultiple
    {
      this.comm, this.mode, this.byteCount, this.kind := comm, mode, byteCount, kind;
      this.enableReadInput, this.range := enableReadInput, range;
      enableReadHolding, enableWriteSingle, enableWriteMultiple := true, true, true;
    }

    /** `byte_count`, truncated to 16 bits. */
    function ByteCount(count: u16): u16
      requires Valid()
    {
      if byteCount < 0 then Wrap16(count * 2) else byteCount
    }

    /** The number of registers that a call reports as done when it succeeds. */
    function Units(count: u16): u16
      requires Valid()
      ensures Units(count) <= 0x7FFF && ByteCount(count) == 2 * Units(count)
    {
      ByteCount(count) / 2
    }

    predicate Addressable(address: u16) {
      mode == 1 ==> Wrap16(2 * address) <= 0xFF
    }

    /** What `handleReadAccess` demands, transfers aside. */
    predicate ReadGuard(range: Range, fc: u8, address: u16, count: u16, nbRegisters: nat, nbInput: nat)
      requires Valid()
    {
      && BaseReadGuard(fc, address, count, nbRegisters, nbInput)
      && (match kind
          case Version(first, units) =>
            InRange(Range(first, first + units - 1), address, count) && count == units
          case Data(_) => address % 2 == 0 && count % 2 == 0 && InRange(range, address, count)
          case _ => true)
    }

    predicate BaseReadGuard(fc: u8, address: u16, count: u16, nbRegisters: nat, nbInput: nat)
      requires Valid()
    {
      && Addressable(address)
      && (|| (fc == FC_READ_INPUT_REGISTERS && enableReadInput && address + Units(count) <= nbInput)
          || (fc == FC_READ_HOLDING_REGISTERS && enableReadHolding && address + Units(count) <= nbRegisters))
    }

    /** What `checkWriteAccess` demands. */
    predicate CheckGuard(address: u16, count: u16) {
      match kind
      case Plain => true
      case Data(ram) => Aligned(address, count) && InRange(ram, address, count)
      case _ => false
    }

    predicate Aligned(address: u16, count: u16) {
      address % 2 == 0 && count % 2 == 0
    }

    /** What `handleWriteAccess` demands, transfers aside. */
    predicate WriteGuard(fc: u8, address: u16, count: u16, nbRegisters: nat)
      requires Valid()
    {
      && (kind.Plain? || kind.Data?)
      && Addressable(address)
      && (|| (fc == FC_WRITE_SINGLE_REGISTER && enableWriteSingle)
          || (fc == FC_WRITE_MULTIPLE_REGISTERS && enableWriteMultiple
              && address + Units(count) <= nbRegisters))
    }

    /** Puts the device register address of `address` at the front of `buffer`. */
    method PutAddress(buffer: array<u8>, address: u16) returns (ok: bool)
      requires Valid() && buffer.Length >= mode
      modifies buffer
      ensures ok <==> mode == 2 || 2 * address % 0x1_0000 <= 0xFF
      ensures ok ==> BusAddress(buffer[..], mode) == 2 * address % 0x1_0000
      ensures forall i :: mode <= i < buffer.Length ==> buffer[i] == old(buffer[i])
    {
      var i2cAddress: u16 := Wrap16(2 * address);
      if mode == 1 {
        if i2cAddress > 0xFF {
          return false;
        }
        buffer[0] := i2cAddress % 0x100;
      } else {
        buffer[0] := i2cAddress / 0x100;
        buffer[1] := i2cAddress % 0x100;
      }
      ok := true;
    }

    method HandleRead(p: Param) returns (ret: u16)
      requires Valid() && p.mapping.Valid()
      modifies p.mapping.tabRegisters, p.mapping.tabInput, this`range, comm`attempts
      ensures ret == 0 || ret == Units(p.count)
      ensures var guard := ReadGuard(old(range), p.fc, p.address, p.count,
                                     p.mapping.tabRegisters.Length, p.mapping.tabInput.Length);
        (ret != 0 ==> guard) && (comm.working && guard ==> ret == Units(p.count))
      ensures Refreshed(p.mapping.tabRegisters[..], old(p.mapping.tabRegisters[..]), comm.memory[p.slave][..],
                        p.address, if p.fc == FC_READ_HOLDING_REGISTERS then ret else 0)
      ensures Refreshed(p.mapping.tabInput[..], old(p.mapping.tabInput[..]), comm.memory[p.slave][..],
                        p.address, if p.fc == FC_READ_INPUT_REGISTERS then ret else 0)
      ensures range == if kind.Version? then KindBounds(kind, old(range)) else old(range)
    {
      match kind
      case Version(first, units) =>
        range := Range(first, first + units - 1);
        if !InRange(range, p.address, p.count) || p.count != units {
          return 0;
        }
        ret := HandleReadBase(p);
      case Data(_) =>
        if p.address % 2 != 0 || p.count % 2 != 0 || !InRange(range, p.address, p.count) {
          return 0;
        }
        ret := HandleReadBase(p);
      case _ =>
        ret := HandleReadBase(p);
    }

    /** The transfer of a read: address bytes out, `count` data bytes in. */
    method Fetch(slave: u8, address: u16, count: u16) returns (ok: bool, buffer: array<u8>)
      requires Valid() && 2 * address + count <= SPACE
      modifies comm`attempts
      ensures fresh(buffer) && buffer.Length == mode + count
      ensures ok ==> Addressable(address)
      ensures comm.working && Addressable(address) ==> ok
      ensures ok ==> buffer[..count] == comm.memory[slave][2 * address..2 * address + count]
    {
      buffer := new u8[mode + count];
      ok := PutAddress(buffer, address);
      if ok {
        ok := comm.ReadBytes(slave, buffer, mode, count);
      }
    }

    static method Store(tab: array<u16>, address: u16, buffer: array<u8>, count: u16, ghost mem: seq<u8>)
      requires count % 2 == 0 && count <= buffer.Length
      requires address + count / 2 <= tab.Length && 2 * tab.Length <= |mem|
      requires buffer[..count] == mem[2 * address..2 * address + count]
      modifies tab
      ensures Refreshed(tab[..], old(tab[..]), mem, address, count / 2)
    {
      PackRefreshes(tab[..], mem, address, count / 2);
      WriteBeByteToMBReg(tab, address, buffer, count);
    }

    /** `MultiByteHandler::handleReadAccess`. */
    method HandleReadBase(p: Param) returns (ret: u16)
      requires Valid() && p.mapping.Valid()
      modifies p.mapping.tabRegisters, p.mapping.tabInput, comm`attempts
      ensures ret == 0 || ret == Units(p.count)
      ensures var guard :=
          && (mode == 2 || 2 * p.address % 0x1_0000 <= 0xFF)
          && (|| (p.fc == 4 && enableReadInput && p.address + Units(p.count) <= p.mapping.tabInput.Length)
              || (p.fc == 3 && enableReadHolding && p.address + Units(p.count) <= p.mapping.tabRegisters.Length));
        (ret != 0 ==> guard) && (comm.working && guard ==> ret == Units(p.count))
      ensures Refreshed(p.mapping.tabRegisters[..], old(p.mapping.tabRegisters[..]), comm.memory[p.slave][..],
                        p.address, if p.fc == FC_READ_HOLDING_REGISTERS then ret else 0)
      ensures Refreshed(p.mapping.tabInput[..], old(p.mapping.tabInput[..]), comm.memory[p.slave][..],
                        p.address, if p.fc == FC_READ_INPUT_REGISTERS then ret else 0)
    {
      var count := ByteCount(p.count);
      if p.fc == FC_READ_INPUT_REGISTERS {
        if !enableReadInput || p.address + count / 2 > p.mapping.tabInput.Length {
          return 0;
        }
      } else if p.fc == FC_READ_HOLDING_REGISTERS {
        if !enableReadHolding || p.address + count / 2 > p.mapping.tabRegisters.Length {
          return 0;
        }
      } else {
        return 0;
      }
      var ok, buffer := Fetch(p.slave, p.address, count);
      if !ok {
        return 0;
      }
      ghost var mem := comm.memory[p.slave][..];
      if p.fc == FC_READ_INPUT_REGISTERS {
        Store(p.mapping.tabInput, p.address, buffer, count, mem);
      } else {
        Store(p.mapping.tabRegisters, p.address, buffer, count, mem);
      }
      ret := count / 2 + count % 2;
    }

    method CheckWrite(p: Param) returns (ret: u16)
      requires Valid()
      modifies this`range
      ensures ret == if CheckGuard(p.address, p.count) then Units(p.count) else 0
      ensures range == if kind.Data? && Aligned(p.address, p.count) then kind.ram else old(range)
    {
      match kind
      case Plain =>
        ret := ByteCount(p.count) / 2 + ByteCount(p.count) % 2;
      case Data(ram) =>
        if p.address % 2 != 0 || p.count % 2 != 0 {
          return 0;
        }
        range := ram;
        if !InRange(range, p.address, p.count) {
          return 0;
        }
        ret := ByteCount(p.count) / 2 + ByteCount(p.count) % 2;
      case _ =>
        ret := 0;
    }

    /** A single-register write does not check the table size, so its caller must. */
    method HandleWrite(p: Param) returns (ret: u16)
      requires Valid() && p.mapping.Valid()
      requires p.fc == FC_WRITE_SINGLE_REGISTER ==>
        p.address + Units(p.count) <= p.mapping.tabRegisters.Length
      modifies comm.memory[p.slave]
      ensures ret == 0 || ret == Units(p.count)
      ensures var guard :=
          && !kind.ReadOnly? && !kind.Version?
          && (mode == 2 || 2 * p.address % 0x1_0000 <= 0xFF)
          && (|| (p.fc == 6 && enableWriteSingle)
              || (p.fc == 16 && enableWriteMultiple && p.address + Units(p.count) <= p.mapping.tabRegisters.Length));
        && (guard <==> WriteGuard(p.fc, p.address, p.count, p.mapping.tabRegisters.Length))
        && (ret != 0 ==> guard) && (comm.working && guard ==> ret == Units(p.count))
      ensures kind.ReadOnly? || kind.Version? ==>
        ret == 0 && comm.memory[p.slave][..] == old(comm.memory[p.slave][..])
      ensures Sent(comm.memory[p.slave][..], old(comm.memory[p.slave][..]), p.mapping.tabRegisters[..],
                   p.address, if ret != 0 || WriteGuard(p.fc, p.address, p.count, p.mapping.tabRegisters.Length)
                              then Units(p.count) else 0, ret != 0)
    {
      if kind.ReadOnly? || kind.Version? {
        return 0;
      }
      var count := ByteCount(p.count);
      if p.fc == FC_WRITE_SINGLE_REGISTER {
        if !enableWriteSingle {
          return 0;
        }
      } else if p.fc == FC_WRITE_MULTIPLE_REGISTERS {
        if !enableWriteMultiple || p.address + count / 2 > p.mapping.tabRegisters.Length {
          return 0;
        }
      } else {
        return 0;
      }
      var ok := Send(p.slave, p.address, p.mapping.tabRegisters, count);
      if ok {
        ret := count / 2 + count % 2;
      } else {
        ret := 0;
      }
    }

    /** The buffer of a write: address bytes, then the registers big-endian. */
    method FillBuffer(address: u16, tab: array<u16>, count: u16) returns (ok: bool, buffer: array<u8>)
      requires Valid()
      requires count % 2 == 0 && address + count / 2 <= tab.Length <= 0x8000
      ensures fresh(buffer) && buffer.Length == mode + count
      ensures ok <==> Addressable(address)
      ensures ok ==> BusAddress(buffer[..mode], mode) == Wrap16(2 * address)
      ensures buffer[mode..] == Unpack(tab[address..address + count / 2])
    {
      buffer := new u8[mode + count];
      ok := PutAddress(buffer, address);
      WriteMBRegToBeByte(buffer, mode, tab, address, count / 2 + count % 2);
    }

    /** The transfer of a write. */
    method Send(slave: u8, address: u16, tab: array<u16>, count: u16) returns (ok: bool)
      requires Valid()
      requires count % 2 == 0 && address + count / 2 <= tab.Length <= 0x8000
      modifies comm.memory[slave]
      ensures ok ==> Addressable(address)
      ensures comm.working && Addressable(address) ==> ok
      ensures Sent(comm.memory[slave][..], old(comm.memory[slave][..]), tab[..], address,
                   if Addressable(address) then count / 2 else 0, ok)
    {
      var addressed, buffer := FillBuffer(address, tab, count);
      if !addressed {
        return false;
      }
      ghost var was := comm.memory[slave][..];
      assert buffer[mode..mode + count] == buffer[mode..];
      assert tab[..][address..address + count / 2] == tab[address..address + count / 2];
      assert BusAddress(buffer[..], mode) == BusAddress(buffer[..mode], mode);
      ok := comm.WriteBytes(slave, buffer, mode, count);
      if count > 0 {
        UnpackSends(comm.memory[slave][..], was, tab[..], address, count / 2, ok);
      }
    }
  }

  /** What the handlers let through, by number: all of them inside the table of the function, the version
      handler only the whole version, a data handler only pairs of registers within its bounds. */
  lemma ReadsWhen(h: MultiByteHandler, range: Range, fc: u8, address: u16, count: u16, nbRegisters: nat, nbInput: nat)
    requires h.Valid()
    ensures h.ReadGuard(range, fc, address, count, nbRegisters, nbInput) <==>
      && (h.mode == 2 || 2 * address % 0x1_0000 <= 0xFF)
      && (|| (fc == 4 && h.enableReadInput && address + h.Units(count) <= nbInput)
          || (fc == 3 && h.enableReadHolding && address + h.Units(count) <= nbRegisters))
      && (h.kind.Version? ==>
            h.kind.first <= address && address + count <= h.kind.first + h.kind.units && count == h.kind.units)
      && (h.kind.Data? ==>
            && address % 2 == 0 && count % 2 == 0
            && range.first <= address && address + count - 1 <= range.last)
  {
  }

  /** The version can be read as a whole only: bounds and count together leave one request. */
  lemma VersionReadsExactly(h: MultiByteHandler, range: Range, fc: u8, address: u16, count: u16,
                            nbRegisters: nat, nbInput: nat)
    requires h.Valid() && h.kind.Version? && h.kind.units > 0
    ensures h.ReadGuard(range, fc, address, count, nbRegisters, nbInput)
      <==> address == h.kind.first && count == h.kind.units && h.BaseReadGuard(fc, address, count, nbRegisters, nbInput)
  {
  }
}
