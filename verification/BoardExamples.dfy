/** Requests to a board with 16 pins and 512 registers on which the code does something else than it
    seems to: each is a concrete input of the conditions in `BoardData` and `Overruns`. */
module BoardExamples {
  import opened Words
  import opened I2C
  import opened RegisterMapping
  import opened ByteHandlers
  import opened Dispatch
  import opened VirtualSlaves
  import opened Connections
  import opened Serving
  import opened CacheRuns
  import opened IOBoards
  import opened BoardData
  import opened BoardPositions
  import opened Overruns
  import opened WriteReplies

  predicate IsExample(s: VirtualRTUSlave, hs: BoardHandlers) {
    IsBoard(s, EXAMPLE_LAYOUT, 16, hs) && s.NbRegisters() == 512
  }

  /** RAM data at 16..47, functions at 136..151, names at 160..287, permanent data at 288..319. */
  lemma ExampleBlocks(s: VirtualRTUSlave, hs: BoardHandlers)
    requires IsExample(s, hs)
    ensures Board(s, hs) && s.Valid() && s.holding.handlers
         == map[0 := Bytes(hs.readOnly), 1 := Bytes(hs.readOnly), 2 := Bytes(hs.version), 8 := Bytes(hs.readOnly),
                10 := Bytes(hs.holding), 11 := Bytes(hs.holding), 128 := Bytes(hs.holding)]
    ensures s.holding.blocks == [Block(Bytes(hs.tmp), 16, 47), Block(Bytes(hs.holding), 136, 151),
                                 Block(Bytes(hs.holding), 160, 287), Block(Bytes(hs.perm), 288, 319),
                                 Block(Bytes(hs.holding), 320, 383)]
    ensures Ram(hs) == Range(16, 23)
  {
    ExampleTable(hs);
    IOBoardIsBoard(s, EXAMPLE_LAYOUT, 16, hs);
  }

  lemma ExampleIsPlain()
    ensures PlainLayout(EXAMPLE_LAYOUT, 16)
  {
    assert Positions(EXAMPLE_LAYOUT) == [0, 1, 2, 8, 10, 11, 128];
  }

  /** A request for four registers at 150 is one call of 148, which reaches permanent data; all three
      passes let it through. */
  lemma ClippedRequestOverruns(s: VirtualRTUSlave, hs: BoardHandlers, q: Request, c: Snapshot)
    requires IsExample(s, hs) && OnHolding(q) && q.address == 150 && Count(q) == 4
    requires |c.regs| == 512 && hs.holding in c.ranges
    ensures PlanOf(s, q) == Plan([Segment(Bytes(hs.holding), 150, 148, 148)], true, [])
    ensures AllAllowed(s, q, CheckAccess, c)
    ensures IsWrite(q) ==> AllAllowed(s, q, WriteAccess, c)
    ensures IsRead(q) ==> AllAllowed(s, q, ReadAccess, c)
    ensures RunsInto(s.holding, Perm(s), q)
    ensures BadClip(s.holding, 150, 4)
  {
    ExampleBlocks(s, hs);
    hide IsBoard, Board, PlanOf, AllAllowed, DeviceBlocks;
    assert s.holding.blocks[1] == Block(Bytes(hs.holding), 136, 151);
    HoldingBlockAccepted(s, hs, q, c, 1);
  }

  /** The write of four registers at 150 on a working bus: besides the payload, device bytes 308..595 are
      overwritten from the table, those of the permanent registers 288..297 among them. */
  lemma ClippedWriteOverwrites(s: VirtualRTUSlave, hs: BoardHandlers, q: Request, now: Snapshot, was: Snapshot,
                               accepted: bool, log: seq<Segment>)
    requires IsExample(s, hs) && s.comm.working && q.fc == FC_WRITE_MULTIPLE_REGISTERS
    requires q.address == 150 && q.quantity == |q.payload| == 4 && Served(s, q, now, was, accepted, log)
    requires |was.regs| == 512 && |was.input| == s.NbInput() && |was.mem| == SPACE && hs.holding in was.ranges
    ensures accepted && |now.regs| == 512 && |now.mem| == SPACE
    ensures forall k :: 0 <= k < 4 ==> DeviceWord(now.mem, 150 + k) == q.payload[k]
    ensures forall j :: 0 <= j < SPACE ==>
      now.mem[j] == if 300 <= j < 308 then RegByte(now.regs, j)
                    else if 308 <= j < 596 then RegByte(was.regs, j) else was.mem[j]
  {
    ClippedRequestOverruns(s, hs, q, was);
    hide IsExample, IsBoard, Board, PlanOf, AllAllowed, RunsInto, BadClip, Allowed, Flushed, BoundsServed;
    ExampleBlocks(s, hs);
    AllowedWriteFinishes(s, q, now, was, accepted, log);
    DoneOne(log[0]);
    BeyondPayload(s, q, now, was, log);
    forall j | 0 <= j < SPACE
      ensures now.mem[j] == if 300 <= j < 308 then RegByte(now.regs, j)
                            else if 308 <= j < 596 then RegByte(was.regs, j) else was.mem[j]
    {
      FinishedWriteBytes(s, q, now, was, log, j);
    }
    forall k | 0 <= k < 4
      ensures DeviceWord(now.mem, 150 + k) == q.payload[k]
    {
      FinishedWriteReachesDevice(s, q, now, was, log, k);
    }
  }

  lemma ExampleHandlers(s: VirtualRTUSlave, hs: BoardHandlers)
    requires IsExample(s, hs)
    ensures BoardHandler(hs.holding, s.comm, Plain)
  {
  }

  /** A lookup in the names, 160..287. */
  lemma NamesLookup(s: VirtualRTUSlave, hs: BoardHandlers, a: u16, rem: u16)
    requires IsExample(s, hs) && 160 <= a <= 287
    ensures Lookup(s.holding, a, rem) == Decided(Block(Bytes(hs.holding), 160, 287), a, rem)
    ensures TableValid(s.holding) && HandlerValid(Bytes(hs.holding)) && hs.holding.byteCount < 0
  {
    ExampleBlocks(s, hs);
    BoardHasDeviceBlocks(s, hs);
    hide IsBoard, Board, Lookup;
    assert s.holding.blocks[2] == Block(Bytes(hs.holding), 160, 287);
    BlockLookup(s, hs, 2, a, rem);
  }

  /** A position of the names crosses into the permanent data exactly when the clipped count does. */
  lemma NamesCross(s: VirtualRTUSlave, hs: BoardHandlers, q: Request, p: u16)
    requires IsExample(s, hs) && 160 <= p <= 287 && q.address <= p < q.address + Count(q)
    ensures Crosses(s.holding, Perm(s), q, p)
      <==> p + Clip(287, p, q.address + Count(q) - p) % 0x8000 > 288
  {
    ExampleBlocks(s, hs);
    hide IsBoard, Board, Clip;
    assert s.holding.blocks[2] == Block(Bytes(hs.holding), 160, 287);
  }

  function TwoCallsPlan(hs: BoardHandlers): Plan {
    Plan([Segment(Bytes(hs.holding), 160, 88, 88), Segment(Bytes(hs.holding), 248, 176, 176)], true, [])
  }

  /** The first lookup need not be the one that crosses: a request for 200 registers at 160 is clipped to
      88, and only the second call, of 176, runs over the permanent data, all of it. */
  lemma SecondCallCrosses(s: VirtualRTUSlave, hs: BoardHandlers, q: Request, c: Snapshot)
    requires IsExample(s, hs) && OnHolding(q) && q.address == 160 && Count(q) == 200
    requires |c.regs| == 512 && hs.holding in c.ranges
    ensures PlanOf(s, q) == TwoCallsPlan(hs)
    ensures AllAllowed(s, q, CheckAccess, c)
    ensures IsWrite(q) ==> AllAllowed(s, q, WriteAccess, c)
    ensures IsRead(q) ==> AllAllowed(s, q, ReadAccess, c)
    ensures !Crosses(s.holding, Perm(s), q, 160)
    ensures Crosses(s.holding, Perm(s), q, 248)
  {
    ExampleBlocks(s, hs);
    hide IsExample, IsBoard, Board, PlanOf, Crosses, AllAllowed, PlanFrom, Lookup, PermBlock;
    NamesCross(s, hs, q, 160);
    NamesCross(s, hs, q, 248);
    TwoCalls(s, hs, q);
    TwoCallsAllowed(s, hs, q, c);
  }

  lemma TwoCallsAllowed(s: VirtualRTUSlave, hs: BoardHandlers, q: Request, c: Snapshot)
    requires IsExample(s, hs) && OnHolding(q) && q.address == 160 && Count(q) == 200
    requires |c.regs| == 512 && hs.holding in c.ranges
    requires s.Valid() && PlanOf(s, q) == TwoCallsPlan(hs)
    ensures AllAllowed(s, q, CheckAccess, c)
    ensures IsWrite(q) ==> AllAllowed(s, q, WriteAccess, c)
    ensures IsRead(q) ==> AllAllowed(s, q, ReadAccess, c)
  {
    ExampleHandlers(s, hs);
    hide IsExample, IsBoard, Board, PlanOf, Allowed, BoardHandler, AllAllowed;
    HoldingCall(hs.holding, s.comm, q, 88, c);
    HoldingCall(hs.holding, s.comm, q.(address := 248), 176, c);
    forall mode: Mode
      ensures AllAllowed(s, q, mode, c) <==>
        && Allowed(mode, Segment(Bytes(hs.holding), 160, 88, 88), q.fc, c)
        && Allowed(mode, Segment(Bytes(hs.holding), 248, 176, 176), q.fc, c)
    {
      TwoAllowed(s, q, mode, c, Segment(Bytes(hs.holding), 160, 88, 88), Segment(Bytes(hs.holding), 248, 176, 176));
    }
  }

  lemma TwoAllowed(s: VirtualRTUSlave, q: Request, mode: Mode, c: Snapshot, seg: Segment, seg': Segment)
    requires s.Valid() && PlanOf(s, q) == Plan([seg, seg'], true, [])
    ensures AllAllowed(s, q, mode, c) <==> Allowed(mode, seg, q.fc, c) && Allowed(mode, seg', q.fc, c)
  {
    hide PlanOf, Allowed;
    assert PlanOf(s, q).segs[0] == seg && PlanOf(s, q).segs[1] == seg';
  }

  lemma TwoCalls(s: VirtualRTUSlave, hs: BoardHandlers, q: Request)
    requires IsExample(s, hs) && OnHolding(q) && q.address == 160 && Count(q) == 200
    ensures PlanOf(s, q) == TwoCallsPlan(hs)
  {
    assert s.holding == TableOf(s, q.fc) && PlanOf(s, q) == PlanFrom(s.holding, 160, 360);
    hide IsExample, IsBoard, Board, PlanOf, PlanFrom, Lookup;
    NamesLookup(s, hs, 160, 200);
    NamesLookup(s, hs, 248, 112);
    PlanHead(s.holding, 160, 360);
    PlanTurn(s.holding, 160, 360);
    WholePlan(s.holding, 248, 360, Bytes(hs.holding), 176);
  }

  /** Locked permanent data is written and read all the same by a request that starts in the names: an
      aligned write at 288 is refused and locks it, a write of 100 registers at 200 is stored up to
      register 299, with stale table registers behind it up to 387, and a read of the same range is
      answered from the device. */
  method LockedYetServed(s: VirtualRTUSlave, ghost hs: BoardHandlers, w: Request, q: Request, r: Request)
    returns (refused: Reply, stored: Reply, reply: Reply)
    requires IsExample(s, hs) && s.CacheAgrees() && s.comm.working
    requires w.slave == q.slave == r.slave == s.address
    requires w.fc == q.fc == FC_WRITE_MULTIPLE_REGISTERS && r.fc == FC_READ_HOLDING_REGISTERS
    requires w.address == 288 && w.quantity == 2
    requires q.address == r.address == 200 && q.quantity == r.quantity == |q.payload| == 100
    modifies s.mapping.tabRegisters, s.mapping.tabInput, s.comm.memory[s.address]
    modifies s.Handlers()`range, s.comm`attempts, s`clean
    ensures refused == IllegalAddress && hs.perm.range == Range(16, 23)
    ensures stored == Stored && reply == Values(q.payload)
    ensures forall a :: 200 <= a < 300 ==> DeviceWord(s.Contents().mem, a) == q.payload[a - 200]
    ensures forall a :: 300 <= a < 388 ==> DeviceWord(s.Contents().mem, a) == old(s.Contents()).regs[a]
  {
    assert s.Valid();
    hide IsExample, IsBoard, Board, Served, Replied, AllAllowed, Agrees, BoundsServed, CleanAfter, Locks;
    hide FromDevice, PlanOf;
    ExampleReady(s, hs);
    ghost var was, accepted, log := s.Contents(), false, [];
    refused, accepted, log := Serve(s, w);
    LockingWrite(s, hs, w, s.Contents(), was, accepted, log, refused);
    ghost var locked := s.Contents();
    stored, accepted, log := Serve(s, q);
    NamesWrite(s, hs, q, s.Contents(), locked, accepted, log, stored);
    ServedBounds(s, q, s.Contents(), locked, accepted, log);
    LockKept(s, q, s.Contents().ranges, locked.ranges, hs.perm);
    ghost var written := s.Contents();
    NamesPlan(s, hs, r, written);
    reply := ReadNow(s, r);
    ReadBack(q, r, reply.values, s.Contents().mem);
    LockKept(s, r, s.Contents().ranges, written.ranges, hs.perm);
  }

  lemma ExampleReady(s: VirtualRTUSlave, hs: BoardHandlers)
    requires IsExample(s, hs)
    ensures s.NbRegisters() == 512
    ensures hs.tmp in s.Handlers() && hs.perm in s.Handlers() && hs.holding in s.Handlers()
    ensures hs.tmp.kind == hs.perm.kind == Data(Range(16, 23))
  {
    ExampleBlocks(s, hs);
    hide IsBoard;
    DataKinds(s, hs);
    hide Board;
    HasHandlers(s, hs);
  }

  lemma LockingWrite(s: VirtualRTUSlave, hs: BoardHandlers, w: Request, now: Snapshot, was: Snapshot,
                     accepted: bool, log: seq<Segment>, reply: Reply)
    requires IsExample(s, hs) && Served(s, w, now, was, accepted, log) && hs.perm in was.ranges
    requires Replied(w, accepted, reply, now.regs, now.input)
    requires w.fc == FC_WRITE_MULTIPLE_REGISTERS && w.address == 288 && w.quantity == 2
    ensures reply == IllegalAddress && now.regs == was.regs && now.mem == was.mem
    ensures hs.perm in now.ranges && now.ranges[hs.perm] == Range(16, 23)
  {
    ExampleBlocks(s, hs);
    hide IsBoard, Board, Served;
    assert s.holding.blocks[3] == Block(Bytes(hs.perm), 288, 319);
    PermRefused(s, hs, w, now, was, accepted, log);
  }

  lemma NamesPlan(s: VirtualRTUSlave, hs: BoardHandlers, q: Request, c: Snapshot)
    requires IsExample(s, hs) && OnHolding(q) && q.fc != FC_WRITE_SINGLE_REGISTER
    requires q.address == 200 && q.quantity == 100
    requires |c.regs| == 512 && hs.holding in c.ranges
    ensures PlanOf(s, q) == Plan([Segment(Bytes(hs.holding), 200, 188, 188)], true, [])
    ensures AllAllowed(s, q, CheckAccess, c)
    ensures IsWrite(q) ==> AllAllowed(s, q, WriteAccess, c)
    ensures IsRead(q) ==> AllAllowed(s, q, ReadAccess, c)
  {
    ExampleBlocks(s, hs);
    hide IsBoard, Board, PlanOf, AllAllowed, DeviceBlocks;
    assert s.holding.blocks[2] == Block(Bytes(hs.holding), 160, 287);
    HoldingBlockAccepted(s, hs, q, c, 2);
  }

  lemma NamesWrite(s: VirtualRTUSlave, hs: BoardHandlers, q: Request, now: Snapshot, was: Snapshot,
                   accepted: bool, log: seq<Segment>, reply: Reply)
    requires IsExample(s, hs) && s.comm.working && Served(s, q, now, was, accepted, log)
    requires Replied(q, accepted, reply, now.regs, now.input)
    requires |was.regs| == 512 && |was.input| == s.NbInput() && |was.mem| == SPACE
    requires hs.holding in was.ranges
    requires q.fc == FC_WRITE_MULTIPLE_REGISTERS && q.address == 200 && q.quantity == |q.payload| == 100
    ensures reply == Stored && |now.regs| == 512 && |now.mem| == SPACE
    ensures forall a :: 200 <= a < 300 ==> DeviceWord(now.mem, a) == q.payload[a - 200]
    ensures forall a :: 300 <= a < 388 ==> DeviceWord(now.mem, a) == was.regs[a]
  {
    NamesPlan(s, hs, q, was);
    ExampleHandlers(s, hs);
    hide IsBoard, Board, PlanOf, AllAllowed, Allowed, Flushed, BoundsServed, Locks, IsExample;
    AllowedWriteFinishes(s, q, now, was, accepted, log);
    DoneOne(log[0]);
    FinishedWriteRegisters(s, q, now, was, log);
    hide Served;
    assert PlanOf(s, q).segs[0].len == 188;
    forall a | 200 <= a < 300
      ensures DeviceWord(now.mem, a) == q.payload[a - 200]
    {
      FinishedWriteReachesDevice(s, q, now, was, log, a - 200);
    }
  }

  lemma ReadBack(q: Request, r: Request, values: seq<u16>, mem: seq<u8>)
    requires q.address == r.address == 200 && q.quantity == r.quantity == |q.payload| == 100 && |mem| == SPACE
    requires FromDevice(r, values, mem)
    requires forall a :: 200 <= a < 300 ==> DeviceWord(mem, a) == q.payload[a - 200]
    ensures values == q.payload
  {
    forall k | 0 <= k < 100
      ensures values[k] == q.payload[k]
    {
      assert values[k] == DeviceWord(mem, 200 + k);
    }
  }

  lemma LockKept(s: VirtualRTUSlave, q: Request, now: map<MultiByteHandler, Range>, was: map<MultiByteHandler, Range>,
                 b: MultiByteHandler)
    requires s.Valid() && BoundsServed(s, q, now, was) && b in was && b.kind.Data? && was[b] == b.kind.ram
    ensures b in now && now[b] == b.kind.ram
  {
    hide Locks;
  }

  /** The lock shrinks the RAM data of this board: before a write at its start, registers 24 and 25 can be
      read, and after it, though the write was stored, they cannot. */
  method RamDataShrinks(s: VirtualRTUSlave, ghost hs: BoardHandlers, w: Request, r: Request)
    returns (before: Reply, stored: Reply, after: Reply)
    requires IsExample(s, hs) && s.CacheAgrees() && s.comm.working && hs.tmp.range == Range(16, 47)
    requires w.slave == r.slave == s.address
    requires w.fc == FC_WRITE_MULTIPLE_REGISTERS && w.address == 16 && w.quantity == |w.payload| == 2
    requires r.fc == FC_READ_HOLDING_REGISTERS && r.address == 24 && r.quantity == 2
    modifies s.mapping.tabRegisters, s.mapping.tabInput, s.comm.memory[s.address]
    modifies s.Handlers()`range, s.comm`attempts, s`clean
    ensures before.Values? && stored == Stored && after == IllegalAddress
  {
    assert s.Valid();
    hide IsExample, IsBoard, Board, Served, Replied, AllAllowed, Agrees, BoundsServed, CleanAfter, Locks;
    hide FromDevice, PlanOf;
    ExampleReady(s, hs);
    ghost var start := s.Contents();
    RamRead(s, hs, r, start);
    before := ReadNow(s, r);
    ghost var was, accepted, log := s.Contents(), false, [];
    stored, accepted, log := Serve(s, w);
    RamWrite(s, hs, w, s.Contents(), was, accepted, log, stored);
    RamRead(s, hs, r, s.Contents());
    after := ReadNow(s, r);
  }

  lemma RamRead(s: VirtualRTUSlave, hs: BoardHandlers, r: Request, c: Snapshot)
    requires IsExample(s, hs) && |c.regs| == 512 && hs.tmp in c.ranges
    requires r.fc == FC_READ_HOLDING_REGISTERS && r.address == 24 && r.quantity == 2
    ensures AllAllowed(s, r, ReadAccess, c) <==> InRange(c.ranges[hs.tmp], 24, 2)
  {
    ExampleBlocks(s, hs);
    hide IsBoard, Board, PlanOf, AllAllowed;
    assert s.holding.blocks[0] == Block(Bytes(hs.tmp), 16, 47);
    DataReadAccepted(s, hs, r, c, 0);
  }

  lemma RamWrite(s: VirtualRTUSlave, hs: BoardHandlers, w: Request, now: Snapshot, was: Snapshot,
                 accepted: bool, log: seq<Segment>, reply: Reply)
    requires IsExample(s, hs) && Served(s, w, now, was, accepted, log) && hs.tmp in was.ranges
    requires Replied(w, accepted, reply, now.regs, now.input) && |was.regs| == 512
    requires w.fc == FC_WRITE_MULTIPLE_REGISTERS && w.address == 16 && w.quantity == |w.payload| == 2
    ensures reply == Stored && hs.tmp in now.ranges && now.ranges[hs.tmp] == Range(16, 23)
  {
    ExampleBlocks(s, hs);
    ExampleReady(s, hs);
    hide IsBoard, Board, IsExample, PlanOf, AllAllowed, Allowed, Locks, Flushed, Outcome;
    assert s.holding.blocks[0] == Block(Bytes(hs.tmp), 16, 47);
    DataWriteChecked(s, hs, w, was, 0);
    RamAnswer(s, w, now, was, accepted, log, reply);
    ServedBounds(s, w, now, was, accepted, log);
    hide Served;
  }

  lemma RamAnswer(s: VirtualRTUSlave, w: Request, now: Snapshot, was: Snapshot, accepted: bool, log: seq<Segment>,
                  reply: Reply)
    requires s.Valid() && Served(s, w, now, was, accepted, log) && AllAllowed(s, w, CheckAccess, was)
    requires Replied(w, accepted, reply, now.regs, now.input) && |was.regs| == 512
    requires w.fc == FC_WRITE_MULTIPLE_REGISTERS && w.address == 16 && w.quantity == |w.payload| == 2
    ensures reply == Stored
  {
    hide PlanOf, AllAllowed, Allowed, Flushed, Outcome, BoundsServed;
  }

  /** Acknowledged and lost: a write of eight registers at 380 is clipped to 376, which the check lets through
      and the write pass does not. The device is as it was, on a working bus too, and a read of the first
      four registers returns what the device held. */
  method StoredAndLost(s: VirtualRTUSlave, ghost hs: BoardHandlers, w: Request, r: Request)
    returns (stored: Reply, reply: Reply)
    requires IsExample(s, hs) && s.CacheAgrees() && s.comm.working && w.slave == r.slave == s.address
    requires w.fc == FC_WRITE_MULTIPLE_REGISTERS && w.address == 380 && w.quantity == |w.payload| == 8
    requires r.fc == FC_READ_HOLDING_REGISTERS && r.address == 380 && r.quantity == 4
    modifies s.mapping.tabRegisters, s.mapping.tabInput, s.comm.memory[s.address]
    modifies s.Handlers()`range, s.comm`attempts, s`clean
    ensures stored == Stored && s.Contents().mem == old(s.Contents()).mem
    ensures reply.Values? && FromDevice(r, reply.values, old(s.Contents()).mem)
  {
    assert s.Valid();
    hide IsExample, IsBoard, Board, Served, Replied, AllAllowed, Agrees, BoundsServed, CleanAfter, Locks;
    hide FromDevice, PlanOf;
    ExampleReady(s, hs);
    ghost var was, accepted, log := s.Contents(), false, [];
    stored, accepted, log := Serve(s, w);
    LostWrite(s, hs, w, s.Contents(), was, accepted, log, stored);
    SharedRead(s, hs, r, s.Contents());
    reply := ReadNow(s, r);
  }

  lemma LostWrite(s: VirtualRTUSlave, hs: BoardHandlers, w: Request, now: Snapshot, was: Snapshot,
                  accepted: bool, log: seq<Segment>, reply: Reply)
    requires IsExample(s, hs) && hs.holding in was.ranges && Exchange(s, w, now, was, accepted, log, reply)
    requires w.fc == FC_WRITE_MULTIPLE_REGISTERS && w.address == 380 && w.quantity == |w.payload| == 8
    ensures accepted && reply == Stored && log == [] && now.mem == was.mem
    ensures |now.regs| == 512 && forall k :: 0 <= k < 8 ==> now.regs[380 + k] == w.payload[k]
  {
    ExampleBlocks(s, hs);
    assert s.NbRegisters() == 512;
    hide IsExample, IsBoard, Board, PlanOf, AllAllowed, Allowed, BoundsServed, Flushed, Outcome;
    assert s.holding.blocks[4] == Block(Bytes(hs.holding), 320, 383);
    HoldingBlockAccepted(s, hs, w, was, 4);
    OneAllowed(s, w, WriteAccess, was, Segment(Bytes(hs.holding), 380, 376, 376));
    StoredMeans(s, w, now, was, accepted, log, reply);
    RefusedWriteLeavesDevice(s, w, now, was, log);
  }

  lemma SharedRead(s: VirtualRTUSlave, hs: BoardHandlers, r: Request, c: Snapshot)
    requires IsExample(s, hs) && |c.regs| == 512 && hs.holding in c.ranges
    requires r.fc == FC_READ_HOLDING_REGISTERS && r.address == 380 && r.quantity == 4
    ensures AllAllowed(s, r, ReadAccess, c)
  {
    ExampleBlocks(s, hs);
    hide IsBoard, Board, PlanOf, AllAllowed;
    assert s.holding.blocks[4] == Block(Bytes(hs.holding), 320, 383);
    HoldingBlockReadAccepted(s, hs, r, c, 4);
  }

  /** Refused and carried out: a write of 100 registers at 200 whose payload has another length is answered by
      an exception and leaves the table alone, and the write pass stores old table registers in 200..387 all
      the same, permanent data among them. */
  method RefusedAndDone(s: VirtualRTUSlave, ghost hs: BoardHandlers, w: Request) returns (refused: Reply)
    requires IsExample(s, hs) && s.CacheAgrees() && s.comm.working && w.slave == s.address
    requires w.fc == FC_WRITE_MULTIPLE_REGISTERS && w.address == 200 && w.quantity == 100 != |w.payload|
    modifies s.mapping.tabRegisters, s.mapping.tabInput, s.comm.memory[s.address]
    modifies s.Handlers()`range, s.comm`attempts, s`clean
    ensures refused == IllegalValue && s.Contents().regs == old(s.Contents()).regs
    ensures forall a :: 200 <= a < 388 ==> DeviceWord(s.Contents().mem, a) == old(s.Contents()).regs[a]
  {
    assert s.Valid();
    hide IsExample, IsBoard, Board, Served, Replied, AllAllowed, Agrees, BoundsServed, CleanAfter, Locks;
    hide PlanOf;
    ExampleReady(s, hs);
    ghost var was, accepted, log := s.Contents(), false, [];
    refused, accepted, log := Serve(s, w);
    RefusedWrite(s, hs, w, s.Contents(), was, accepted, log, refused);
  }

  lemma RefusedWrite(s: VirtualRTUSlave, hs: BoardHandlers, w: Request, now: Snapshot, was: Snapshot,
                     accepted: bool, log: seq<Segment>, reply: Reply)
    requires IsExample(s, hs) && s.comm.working && hs.holding in was.ranges
    requires Exchange(s, w, now, was, accepted, log, reply)
    requires w.fc == FC_WRITE_MULTIPLE_REGISTERS && w.address == 200 && w.quantity == 100 != |w.payload|
    ensures reply == IllegalValue && now.regs == was.regs && |was.regs| == 512 && |now.mem| == SPACE
    ensures forall a :: 200 <= a < 388 ==> DeviceWord(now.mem, a) == was.regs[a]
  {
    assert s.Valid() && s.NbRegisters() == 512;
    NamesPlan(s, hs, w, was);
    hide IsExample, IsBoard, Board, PlanOf, AllAllowed, Allowed, BoundsServed, Flushed, Outcome;
    AllowedWriteFinishes(s, w, now, was, accepted, log);
    RefusedTable(s, w, now, was, log);
    DoneOne(log[0]);
    FinishedWriteRegisters(s, w, now, was, log);
  }
}
