/** A slave as the connections see it: its register tables, the device behind it and the handlers
    for holding and for input registers. */
module VirtualSlaves {
  import opened Words
  import opened I2C
  import opened RegisterMapping
  import opened ByteHandlers
  import opened Dispatch

  ghost function BytesOf(t: Table): set<MultiByteHandler> {
    (set a | a in t.handlers && t.handlers[a].Bytes? :: t.handlers[a].bytes)
    + (set i | 0 <= i < |t.blocks| && t.blocks[i].handler.Bytes? :: t.blocks[i].handler.bytes)
  }

  /** Holding registers are served from the device only. A handler sits only where the register
      table has the registers it writes there. */
  predicate HoldingHandler(h: HandlerRef, last: int, comm: I2CComm, nbRegisters: nat) {
    && h.Bytes? && h.bytes.Valid() && h.bytes.comm == comm
    && last < nbRegisters && last + h.bytes.byteCount / 2 <= nbRegisters
  }

  /** Input registers are served from the device or from the slave's own table. */
  predicate InputHandler(h: HandlerRef, last: int, comm: I2CComm, mapping: Mapping) {
    && HandlerValid(h) && last < 0x8000
    && (match h
        case Bytes(b) => b.comm == comm
        case Registers(r) => r.store == mapping)
  }

  /** The contents of both register tables and of the device, and the bounds of the handlers. */
  datatype Snapshot = Snapshot(regs: seq<u16>, input: seq<u16>, mem: seq<u8>, ranges: map<MultiByteHandler, Range>)

  /** Holding register `a` equals its device bytes. */
  ghost predicate Agrees(c: Snapshot, a: int) {
    0 <= a < |c.regs| && 2 * a + 1 < |c.mem| && c.regs[a] == DeviceWord(c.mem, a)
  }

  class VirtualRTUSlave {
    const address: u8
    const mapping: Mapping
    const comm: I2CComm
    const holding: Table
    const input: Table
    /** Holding registers known to equal their device bytes. */
    ghost var clean: iset<int>

    predicate Valid() {
      && comm.Valid() && mapping.Valid()
      && (forall a :: a in holding.handlers ==>
            HoldingHandler(holding.handlers[a], a, comm, mapping.tabRegisters.Length))
      && (forall i :: 0 <= i < |holding.blocks| ==>
            HoldingHandler(holding.blocks[i].handler, holding.blocks[i].end, comm, mapping.tabRegisters.Length))
      && (forall a :: a in input.handlers ==> InputHandler(input.handlers[a], a, comm, mapping))
      && (forall i :: 0 <= i < |input.blocks| ==>
            InputHandler(input.blocks[i].handler, input.blocks[i].end, comm, mapping))
    }

    constructor (address: u8, mapping: Mapping, comm: I2CComm, holding: Table, input: Table)
      ensures this.address == address && this.mapping == mapping && this.comm == comm
      ensures this.holding == holding && this.input == input && clean == iset{}
    {
      this.address, this.mapping, this.comm := address, mapping, comm;
      this.holding, this.input, this.clean := holding, input, iset{};
    }

    /** The table is a cache of the device on every clean register. */
    ghost predicate CacheAgrees()
      requires Valid()
      reads this, mapping.tabRegisters, mapping.tabInput, comm.memory[address], Handlers()
    {
      forall a :: a in clean ==> Agrees(Contents(), a)
    }

    ghost function Contents(): (c: Snapshot)
      requires Valid()
      reads mapping.tabRegisters, mapping.tabInput, comm.memory[address], Handlers()
      ensures |c.mem| == SPACE && |c.regs| == NbRegisters() <= 0x8000 && |c.input| == NbInput() <= 0x8000
    {
      Snapshot(mapping.tabRegisters[..], mapping.tabInput[..], comm.memory[address][..], Bounds())
    }

    ghost function Bounds(): (r: map<MultiByteHandler, Range>)
      reads Handlers()
      ensures r.Keys == Handlers() && forall b :: b in r ==> r[b] == b.range
    {
      map b | b in Handlers() :: b.range
    }

    ghost function Handlers(): set<MultiByteHandler> {
      BytesOf(holding) + BytesOf(input)
    }

    function NbRegisters(): nat {
      mapping.tabRegisters.Length
    }

    function NbInput(): nat {
      mapping.tabInput.Length
    }
  }
}
