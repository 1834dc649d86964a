/** The generic I2C slave (src/I2C/I2CSlave.cpp): 128 holding registers, one handler in 8-bit
    address mode at positions 0 to 126 of both tables. */
module GenericSlaves {
  import opened Words
  import opened I2C
  import opened RegisterMapping
  import opened ByteHandlers
  import opened Dispatch
  import opened VirtualSlaves
  import opened Connections
  import opened Serving
  import opened CacheRuns

  predicate GenericHandler(h: MultiByteHandler) {
    h.Valid() && h.mode == 1 && h.byteCount < 0 && h.kind == Plain
    && h.enableReadInput && h.enableReadHolding && h.enableWriteSingle && h.enableWriteMultiple
  }

  function GenericTable(h: MultiByteHandler): Table {
    Table(Filled(map[], Bytes(h), 0, 127), [])
  }

  predicate IsGeneric(s: VirtualRTUSlave, h: MultiByteHandler) {
    && s.Valid() && GenericHandler(h) && s.comm == h.comm
    && s.NbRegisters() == 128 && s.NbInput() == 0
    && s.holding == GenericTable(h) && s.input == GenericTable(h)
  }

  /** `I2C_Slave::I2C_Slave` and `I2C_Slave::init`. */
  method NewI2CSlave(address: u8, comm: I2CComm) returns (s: VirtualRTUSlave, h: MultiByteHandler)
    requires comm.Valid()
    ensures IsGeneric(s, h) && s.address == address && s.comm == comm && h.range == Range(0, 127)
    ensures fresh(s) && fresh(h) && fresh(s.mapping.tabRegisters) && fresh(s.mapping.tabInput)
    ensures s.CacheAgrees()
  {
    var mapping := new Mapping(128, 0);
    h := new MultiByteHandler(comm, 1, -1, Plain, true, Range(0, 127));
    var input: map<u16, HandlerRef>, holding: map<u16, HandlerRef> := map[], map[];
    for i: int := 0 to 127
      invariant input == holding == Filled(map[], Bytes(h), 0, i)
    {
      input := input[i := Bytes(h)];
      holding := holding[i := Bytes(h)];
    }
    s := new VirtualRTUSlave(address, mapping, comm, Table(holding, []), Table(input, []));
  }

  /** A request of any size is one segment at most: for 0x8000 registers or more the 16-bit byte count
      loses the top bit, and the plan cannot be completed. */
  lemma GenericPlan(h: MultiByteHandler, address: u16, count: u16)
    requires GenericHandler(h)
    ensures var t, n := GenericTable(h), count % 0x8000;
      var p := PlanFrom(t, address, address + count);
      && (p.complete <==> count == 0 || (address <= 126 && count < 0x8000))
      && p.segs == if address > 126 || n == 0 then [] else
           [Segment(Bytes(h), address, count, n)]
  {
    var t, n := GenericTable(h), count % 0x8000;
    if address <= 126 && n > 0 {
      assert Lookup(t, address, count) == Found(Bytes(h), count);
      assert h.Units(count) == n;
      var next: u16 := address + n;
      if count >= 0x8000 {
        assert h.Units(0x8000) == 0;
        assert PlanFrom(t, next, address + count).segs == [] && !PlanFrom(t, next, address + count).complete;
      }
    }
  }

  /** A read of holding registers is let through exactly for a position below 127 and a range inside
      the table, of all 16-bit positions and counts. Register 127 can be read as the tail of a longer
      request only. */
  lemma GenericReadAccepted(s: VirtualRTUSlave, h: MultiByteHandler, q: Request, c: Snapshot)
    requires IsGeneric(s, h) && q.fc == FC_READ_HOLDING_REGISTERS
    requires |c.regs| == 128 && |c.input| == 0 && h in c.ranges
    ensures AllAllowed(s, q, ReadAccess, c)
      <==> q.quantity == 0 || (q.address <= 126 && q.address + q.quantity <= 128)
  {
    GenericPlan(h, q.address, q.quantity);
    assert PlanOf(s, q).segs != [] ==>
      (Allowed(ReadAccess, PlanOf(s, q).segs[0], q.fc, c) <==>
         h.ReadGuard(c.ranges[h], q.fc, q.address, q.quantity, 128, 0));
  }

  /** Reads of input registers are never let through. */
  lemma GenericInputRejected(s: VirtualRTUSlave, h: MultiByteHandler, q: Request, c: Snapshot)
    requires IsGeneric(s, h) && q.fc == FC_READ_INPUT_REGISTERS && q.quantity > 0
    requires |c.regs| == 128 && |c.input| == 0 && h in c.ranges
    ensures !AllAllowed(s, q, ReadAccess, c)
  {
    GenericPlan(h, q.address, q.quantity);
    assert PlanOf(s, q).segs != [] ==>
      (Allowed(ReadAccess, PlanOf(s, q).segs[0], q.fc, c) <==>
         h.ReadGuard(c.ranges[h], q.fc, q.address, q.quantity, 128, 0));
  }

  /** The check pass does not look at the size of the table: it lets through writes that
      `modbus_reply` and the write pass then refuse. */
  lemma GenericWriteAccepted(s: VirtualRTUSlave, h: MultiByteHandler, q: Request, c: Snapshot)
    requires IsGeneric(s, h) && (q.fc == FC_WRITE_MULTIPLE_REGISTERS || q.fc == FC_WRITE_SINGLE_REGISTER)
    requires |c.regs| == 128
    ensures AllAllowed(s, q, CheckAccess, c)
      <==> Count(q) == 0 || (q.address <= 126 && Count(q) < 0x8000)
    ensures AllAllowed(s, q, WriteAccess, c)
      <==> Count(q) == 0 || (q.address <= 126 && q.address + Count(q) <= 128)
  {
    GenericPlan(h, q.address, Count(q));
    assert PlanOf(s, q).segs != [] ==>
      (Allowed(WriteAccess, PlanOf(s, q).segs[0], q.fc, c) <==> h.WriteGuard(q.fc, q.address, Count(q), 128));
  }

  /** The check pass accepts writes past the end of the table; they change neither table nor device. */
  lemma OversizedWriteHarmless(s: VirtualRTUSlave, h: MultiByteHandler, q: Request, now: Snapshot, was: Snapshot,
                               log: seq<Segment>)
    requires IsGeneric(s, h) && IsWrite(q) && Count(q) > 0 && q.address + Count(q) > 128
    requires |was.regs| == 128 && Served(s, q, now, was, true, log)
    ensures now.regs == was.regs && now.mem == was.mem
  {
    GenericWriteAccepted(s, h, q, was);
    GenericPlan(h, q.address, Count(q));
    RefusedWriteLeavesDevice(s, q, now, was, log);
  }

  /** The reply to any read of holding registers, on a working bus. */
  method ReadGeneric(s: VirtualRTUSlave, h: MultiByteHandler, q: Request) returns (reply: Reply)
    requires IsGeneric(s, h) && s.CacheAgrees() && q.slave == s.address && s.comm.working
    requires q.fc == 3 && q.quantity > 0
    modifies s.mapping.tabRegisters, s.mapping.tabInput, s.comm.memory[s.address]
    modifies s.Handlers()`range, s.comm`attempts, s`clean
    ensures s.CacheAgrees()
    ensures reply.Values? <==>
      q.quantity <= 125 && q.address <= 126 && q.address + q.quantity <= 128
    ensures reply.Values? ==> FromDevice(q, reply.values, old(s.Contents()).mem)
  {
    hide AllAllowed, BoundsServed, FromDevice;
    assert s.holding.handlers[0] == Bytes(h);
    GenericReadAccepted(s, h, q, s.Contents());
    reply := ReadNow(s, q);
  }
}
