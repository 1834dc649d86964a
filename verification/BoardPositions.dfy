/** What an IO board answers at each register position: which positions can be read and written, and what
    then reaches the client and the device. */
module BoardPositions {
  import opened Words
  import opened I2C
  import opened ByteHandlers
  import opened Dispatch
  import opened VirtualSlaves
  import opened Connections
  import opened Serving
  import opened CacheRuns
  import opened IOBoards
  import opened BoardData

  /** The positions that `init` enters into the handler map. */
  function Positions(l: Layout): seq<nat> {
    [0, 1, l.versionStart / 2, l.ioCount / 2, l.ioStart / 2, l.ioStart / 2 + 1, l.bufferSize / 2]
  }

  /** The registers of an area with `bytes` for each pin. */
  function PerPin(pins: nat, bytes: nat): nat {
    pins * (bytes / 2)
  }

  /** They are seven different ones, and the blocks end below register 0x8000. */
  predicate PlainLayout(l: Layout, pins: nat) {
    && (forall i, j :: 0 <= i < j < 7 ==> Positions(l)[i] != Positions(l)[j])
    && (forall i :: 0 <= i < 7 ==> Positions(l)[i] < 0x8000)
    && l.dataStart / 2 + PerPin(pins, l.dataLength) <= 0x8000
    && l.bufferSize / 2 + l.funcStart / 2 + pins <= 0x8000
    && (l.bufferSize + l.nameStart) / 2 + PerPin(pins, l.nameLength) <= 0x8000
    && (l.bufferSize + l.permStart) / 2 + PerPin(pins, l.permLength) <= 0x8000
    && (l.bufferSize + l.sharedStart) / 2 + l.sharedLength <= 0x8000
  }

  predicate Area(first: int, length: int, p: int) {
    first <= p < first + length
  }

  /** A register of functions, names or shared data. */
  predicate InHolding(l: Layout, pins: nat, p: nat) {
    || Area(l.bufferSize / 2 + l.funcStart / 2, pins, p)
    || Area((l.bufferSize + l.nameStart) / 2, PerPin(pins, l.nameLength), p)
    || Area((l.bufferSize + l.sharedStart) / 2, l.sharedLength, p)
  }

  /** A register of RAM or permanent data. */
  predicate InData(l: Layout, pins: nat, p: nat) {
    || Area(l.dataStart / 2, PerPin(pins, l.dataLength), p)
    || Area((l.bufferSize + l.permStart) / 2, PerPin(pins, l.permLength), p)
  }

  /** A position with a handler of its own that reads and writes, or only reads, or reads the version. */
  predicate Port(l: Layout, p: nat) {
    p == l.ioStart / 2 || p == l.ioStart / 2 + 1 || p == l.bufferSize / 2
  }

  predicate Fixed(l: Layout, p: nat) {
    p == 0 || p == 1 || p == l.ioCount / 2
  }

  predicate VersionAt(l: Layout, p: nat) {
    p == l.versionStart / 2
  }

  predicate Own(l: Layout, p: nat) {
    Port(l, p) || Fixed(l, p) || VersionAt(l, p)
  }

  // ---- the table ----

  lemma PositionsApart(l: Layout, pins: nat, p: nat)
    requires PlainLayout(l, pins)
    ensures Port(l, p) ==> !Fixed(l, p) && !VersionAt(l, p)
    ensures Fixed(l, p) ==> !VersionAt(l, p)
    ensures l.versionStart / 2 < 0x8000 && l.ioCount / 2 < 0x8000
    ensures l.ioStart / 2 + 1 < 0x8000 && l.bufferSize / 2 < 0x8000
  {
    var k := Positions(l);
    assert k[0] == 0 && k[1] == 1 && k[2] == l.versionStart / 2 && k[3] == l.ioCount / 2;
    assert k[4] == l.ioStart / 2 && k[5] == l.ioStart / 2 + 1 && k[6] == l.bufferSize / 2;
  }

  /** The map after the seven entries of `init`. */
  function Entries(k: seq<u16>, ro: HandlerRef, ver: HandlerRef, hol: HandlerRef): map<u16, HandlerRef>
    requires |k| == 7
  {
    map[k[0] := ro][k[1] := ro][k[2] := ver][k[3] := ro][k[4] := hol][k[5] := hol][k[6] := hol]
  }

  lemma EntryAt(k: seq<u16>, ro: HandlerRef, ver: HandlerRef, hol: HandlerRef, p: u16)
    requires |k| == 7 && forall i, j :: 0 <= i < j < 7 ==> k[i] != k[j]
    ensures var m := Entries(k, ro, ver, hol);
      && (p in m <==> p == k[0] || p == k[1] || p == k[2] || p == k[3] || p == k[4] || p == k[5] || p == k[6])
      && (p == k[4] || p == k[5] || p == k[6] ==> m[p] == hol)
      && (p == k[0] || p == k[1] || p == k[3] ==> m[p] == ro)
      && (p == k[2] ==> m[p] == ver)
  {
  }

  lemma WrapSmall(x: nat)
    requires x <= 0xFFFF
    ensures Wrap16(x) == x
  {
  }

  lemma TableEntries(l: Layout, pins: u8, hs: BoardHandlers) returns (k: seq<u16>)
    requires PlainLayout(l, pins)
    ensures |k| == 7 && (forall i :: 0 <= i < 7 ==> k[i] as int == Positions(l)[i])
    ensures BoardTable(l, pins, hs).handlers == Entries(k, Bytes(hs.readOnly), Bytes(hs.version), Bytes(hs.holding))
  {
    PositionsApart(l, pins, 0);
    WrapSmall(l.versionStart / 2);
    WrapSmall(l.ioCount / 2);
    WrapSmall(l.ioStart / 2);
    WrapSmall(l.ioStart / 2 + 1);
    WrapSmall(l.bufferSize / 2);
    WrapSmall(0);
    hide PlainLayout, BoardBlocks, Wrap16;
    k := [0, 1, l.versionStart / 2, l.ioCount / 2, l.ioStart / 2, l.ioStart / 2 + 1, l.bufferSize / 2];
  }

  lemma TableHandlers(l: Layout, pins: u8, hs: BoardHandlers, p: u16)
    requires PlainLayout(l, pins)
    ensures var m := BoardTable(l, pins, hs).handlers;
      && (p in m <==> Own(l, p))
      && (Port(l, p) ==> m[p] == Bytes(hs.holding))
      && (Fixed(l, p) ==> m[p] == Bytes(hs.readOnly))
      && (VersionAt(l, p) ==> m[p] == Bytes(hs.version))
  {
    var k := TableEntries(l, pins, hs);
    assert forall i, j :: 0 <= i < j < 7 ==> Positions(l)[i] != Positions(l)[j];
    hide BoardTable, BoardMap, BoardBlocks, PlainLayout;
    hide Entries;
    EntryAt(k, Bytes(hs.readOnly), Bytes(hs.version), Bytes(hs.holding), p);
  }

  /** Who sits at a position of the handler map. */
  lemma PositionHandler(s: VirtualRTUSlave, l: Layout, pins: u8, hs: BoardHandlers, p: u16)
    requires IsBoard(s, l, pins, hs) && PlainLayout(l, pins)
    ensures p in s.holding.handlers <==> Own(l, p)
    ensures Port(l, p) ==> s.holding.handlers[p] == Bytes(hs.holding)
    ensures Fixed(l, p) ==> s.holding.handlers[p] == Bytes(hs.readOnly)
    ensures VersionAt(l, p) ==> s.holding.handlers[p] == Bytes(hs.version)
  {
    hide BoardFits, BoardTable, PlainLayout, HandlersOk, HoldingHandler, InputHandler;
    TableHandlers(l, pins, hs, p);
  }

  lemma AreaCovers(h: MultiByteHandler, first: nat, length: nat, p: u16)
    requires first + length <= 0x8000 && BlockAt(h, first, length).end < 0x8000
    ensures Covers(BlockAt(h, first, length), p) <==> Area(first, length, p)
  {
  }

  lemma AreasFit(l: Layout, pins: nat)
    requires PlainLayout(l, pins)
    ensures l.dataStart / 2 + PerPin(pins, l.dataLength) <= 0x8000
    ensures l.bufferSize / 2 + l.funcStart / 2 + pins <= 0x8000
    ensures (l.bufferSize + l.nameStart) / 2 + PerPin(pins, l.nameLength) <= 0x8000
    ensures PermFirst(l) + PerPin(pins, l.permLength) <= 0x8000
    ensures (l.bufferSize + l.sharedStart) / 2 + l.sharedLength <= 0x8000
  {
    hide PerPin;
  }

  /** The blocks of `init` with their lengths. */
  lemma BlocksAre(l: Layout, pins: u8, hs: BoardHandlers)
    ensures BoardBlocks(l, pins, hs)[0] == BlockAt(hs.tmp, l.dataStart / 2, PerPin(pins, l.dataLength))
    ensures BoardBlocks(l, pins, hs)[1] == BlockAt(hs.holding, l.bufferSize / 2 + l.funcStart / 2, pins)
    ensures BoardBlocks(l, pins, hs)[2] ==
      BlockAt(hs.holding, (l.bufferSize + l.nameStart) / 2, PerPin(pins, l.nameLength))
    ensures BoardBlocks(l, pins, hs)[3] == BlockAt(hs.perm, PermFirst(l), PerPin(pins, l.permLength))
    ensures BoardBlocks(l, pins, hs)[4] == BlockAt(hs.holding, (l.bufferSize + l.sharedStart) / 2, l.sharedLength)
  {
    hide BlockAt, Wrap16;
  }

  lemma HoldingAreas(l: Layout, pins: u8, hs: BoardHandlers, p: u16)
    requires PlainLayout(l, pins)
    requires var b := BoardBlocks(l, pins, hs); b[1].end < 0x8000 && b[2].end < 0x8000 && b[4].end < 0x8000
    ensures var b := BoardBlocks(l, pins, hs);
      InHolding(l, pins, p) <==> Covers(b[1], p) || Covers(b[2], p) || Covers(b[4], p)
  {
    AreasFit(l, pins);
    BlocksAre(l, pins, hs);
    hide BoardBlocks, BlockAt, Covers, PlainLayout, Area, PerPin;
    AreaCovers(hs.holding, l.bufferSize / 2 + l.funcStart / 2, pins, p);
    AreaCovers(hs.holding, (l.bufferSize + l.nameStart) / 2, PerPin(pins, l.nameLength), p);
    AreaCovers(hs.holding, (l.bufferSize + l.sharedStart) / 2, l.sharedLength, p);
  }

  lemma DataAreas(l: Layout, pins: u8, hs: BoardHandlers, p: u16)
    requires PlainLayout(l, pins)
    requires var b := BoardBlocks(l, pins, hs); b[0].end < 0x8000 && b[3].end < 0x8000
    ensures var b := BoardBlocks(l, pins, hs);
      InData(l, pins, p) <==> Covers(b[0], p) || Covers(b[3], p)
  {
    AreasFit(l, pins);
    BlocksAre(l, pins, hs);
    hide BoardBlocks, BlockAt, Covers, PlainLayout, Area, PerPin;
    AreaCovers(hs.tmp, l.dataStart / 2, PerPin(pins, l.dataLength), p);
    AreaCovers(hs.perm, PermFirst(l), PerPin(pins, l.permLength), p);
  }

  /** Which registers the blocks hold. */
  lemma BlockRegisters(s: VirtualRTUSlave, l: Layout, pins: u8, hs: BoardHandlers, p: u16)
    requires IsBoard(s, l, pins, hs) && PlainLayout(l, pins)
    ensures |s.holding.blocks| == 5
    ensures var b := s.holding.blocks;
      && (InHolding(l, pins, p) <==> Covers(b[1], p) || Covers(b[2], p) || Covers(b[4], p))
      && (InData(l, pins, p) <==> Covers(b[0], p) || Covers(b[3], p))
  {
    IOBoardIsBoard(s, l, pins, hs);
    BoardHasDeviceBlocks(s, hs);
    assert s.holding.blocks == BoardBlocks(l, pins, hs) && s.NbRegisters() <= 0x8000;
    hide IsBoard, Board, BoardBlocks, PlainLayout, InHolding, InData, Covers;
    HoldingAreas(l, pins, hs, p);
    DataAreas(l, pins, hs, p);
  }

  // ---- calls at the seven positions ----

  lemma PositionPlan(s: VirtualRTUSlave, hs: BoardHandlers, q: Request)
    requires Board(s, hs) && OnHolding(q) && q.address in s.holding.handlers && 0 < Count(q) < 0x8000
    ensures q.address < s.NbRegisters() <= 0x8000
    ensures PlanOf(s, q) == Plan([Segment(s.holding.handlers[q.address], q.address, Count(q), Count(q))], true, [])
  {
    BoardHasDeviceBlocks(s, hs);
    var h := s.holding.handlers[q.address];
    assert HoldingHandler(h, q.address, s.comm, s.NbRegisters()) && WordHandler(h);
    assert PlanOf(s, q) == PlanFrom(s.holding, q.address, q.address + Count(q));
    assert Lookup(s.holding, q.address, Count(q)) == Found(h, Count(q));
    hide Board, PlanOf, PlanFrom, Lookup, DeviceBlocks, TableValid;
    assert h.bytes.Units(Count(q)) == Count(q);
    WholePlan(s.holding, q.address, q.address + Count(q), h, Count(q));
  }

  /** The handlers of the positions, and that the slave knows them. */
  lemma PositionKinds(s: VirtualRTUSlave, l: Layout, pins: u8, hs: BoardHandlers, p: u16)
    requires IsBoard(s, l, pins, hs) && PlainLayout(l, pins) && Own(l, p)
    ensures Board(s, hs) && p in s.holding.handlers && s.holding.handlers[p].Bytes?
    ensures s.holding.handlers[p].bytes in s.Handlers()
    ensures BoardHandler(s.holding.handlers[p].bytes, s.comm,
              if Port(l, p) then Plain else if Fixed(l, p) then ReadOnly
              else Version(l.versionStart / 2, l.versionLength / 2 + l.versionLength % 2))
  {
    PositionsApart(l, pins, p);
    PositionHandler(s, l, pins, hs, p);
    IOBoardIsBoard(s, l, pins, hs);
    assert s.holding.handlers[p].bytes in BytesOf(s.holding);
    hide BoardFits, BoardTable, PlainLayout, HoldingHandler, InputHandler;
  }

  lemma FixedCall(h: MultiByteHandler, comm: I2CComm, p: u16, count: u16, fc: u8, c: Snapshot)
    requires BoardHandler(h, comm, ReadOnly) && h in c.ranges && count < 0x8000 && p < 0x8000
    ensures var seg := Segment(Bytes(h), p, count, count);
      && !Allowed(CheckAccess, seg, fc, c)
      && (fc == 3 ==> (Allowed(ReadAccess, seg, fc, c) <==> p + count <= |c.regs|))
  {
    assert h.Units(count) == count;
  }

  lemma VersionCall(h: MultiByteHandler, comm: I2CComm, p: u16, units: u8, count: u16, fc: u8, c: Snapshot)
    requires BoardHandler(h, comm, Version(p, units)) && h in c.ranges && 0 < count < 0x8000 && p < 0x8000
    ensures var seg := Segment(Bytes(h), p, count, count);
      && !Allowed(CheckAccess, seg, fc, c)
      && (fc == 3 ==> (Allowed(ReadAccess, seg, fc, c) <==> count == units && p + count <= |c.regs|))
  {
    assert h.Units(count) == count;
  }

  /** A read from one of the seven positions is let through exactly inside the table, but the version only
      as a whole. */
  lemma PositionReadAccepted(s: VirtualRTUSlave, l: Layout, pins: u8, hs: BoardHandlers, q: Request, c: Snapshot)
    requires IsBoard(s, l, pins, hs) && PlainLayout(l, pins) && Own(l, q.address)
    requires q.fc == 3 && 0 < q.quantity < 0x8000 && |c.regs| == s.NbRegisters() && c.ranges.Keys == s.Handlers()
    ensures AllAllowed(s, q, ReadAccess, c) <==>
      && q.address + q.quantity <= s.NbRegisters()
      && (VersionAt(l, q.address) ==> q.quantity == l.versionLength / 2 + l.versionLength % 2)
  {
    assert s.Valid() && l.versionLength <= 33;
    PositionsApart(l, pins, q.address);
    PositionKinds(s, l, pins, hs, q.address);
    hide IsBoard, PlainLayout, Board, PlanOf, Allowed, AllAllowed, BoardHandler;
    PositionPlan(s, hs, q);
    var h := s.holding.handlers[q.address].bytes;
    OneAllowed(s, q, ReadAccess, c, Segment(Bytes(h), q.address, q.quantity, q.quantity));
    if Port(l, q.address) {
      HoldingCall(h, s.comm, q, q.quantity, c);
    } else if Fixed(l, q.address) {
      FixedCall(h, s.comm, q.address, q.quantity, q.fc, c);
    } else {
      VersionCall(h, s.comm, q.address, l.versionLength / 2 + l.versionLength % 2, q.quantity, q.fc, c);
    }
  }

  /** A write from one of the seven positions is accepted exactly at the ports and at the bus address of the
      board, of all counts below 32768. The pin count, the version and the two registers before it are
      never written. */
  lemma PositionWriteChecked(s: VirtualRTUSlave, l: Layout, pins: u8, hs: BoardHandlers, q: Request, c: Snapshot)
    requires IsBoard(s, l, pins, hs) && PlainLayout(l, pins) && Own(l, q.address)
    requires IsWrite(q) && 0 < Count(q) < 0x8000 && |c.regs| == s.NbRegisters() && c.ranges.Keys == s.Handlers()
    ensures AllAllowed(s, q, CheckAccess, c) <==> Port(l, q.address)
    ensures Port(l, q.address) ==>
      (AllAllowed(s, q, WriteAccess, c) <==> q.address + Count(q) <= s.NbRegisters())
  {
    assert s.Valid() && l.versionLength <= 33;
    PositionsApart(l, pins, q.address);
    PositionKinds(s, l, pins, hs, q.address);
    hide IsBoard, PlainLayout, Board, PlanOf, Allowed, AllAllowed, BoardHandler;
    PositionPlan(s, hs, q);
    var h := s.holding.handlers[q.address].bytes;
    OneAllowed(s, q, CheckAccess, c, Segment(Bytes(h), q.address, Count(q), Count(q)));
    OneAllowed(s, q, WriteAccess, c, Segment(Bytes(h), q.address, Count(q), Count(q)));
    if Port(l, q.address) {
      HoldingCall(h, s.comm, q, Count(q), c);
    } else if Fixed(l, q.address) {
      FixedCall(h, s.comm, q.address, Count(q), q.fc, c);
    } else {
      VersionCall(h, s.comm, q.address, l.versionLength / 2 + l.versionLength % 2, Count(q), q.fc, c);
    }
  }

  // ---- single registers at every position ----

  /** A position without handler and outside all blocks is not served. */
  lemma NotServed(s: VirtualRTUSlave, hs: BoardHandlers, q: Request, mode: Mode, c: Snapshot)
    requires Board(s, hs) && OnHolding(q) && Count(q) > 0 && q.address !in s.holding.handlers
    requires forall i :: 0 <= i < 5 ==> !Covers(s.holding.blocks[i], q.address)
    ensures !AllAllowed(s, q, mode, c)
  {
    BoardHasDeviceBlocks(s, hs);
    ScanOfDisjoint(s.holding.blocks, q.address, Count(q), 5);
    assert Lookup(s.holding, q.address, Count(q)) == NoHandler;
    hide Board, PlanFrom, Lookup, DeviceBlocks, TableValid;
    PlanHead(s.holding, q.address, q.address + Count(q));
    PlanTurn(s.holding, q.address, q.address + Count(q));
  }

  /** A single register in a block, for reads and writes. */
  lemma BlockRegister(s: VirtualRTUSlave, hs: BoardHandlers, q: Request, c: Snapshot, i: nat)
    requires Board(s, hs) && OnHolding(q) && Count(q) == 1 && q.address !in s.holding.handlers
    requires (HoldingBlock(i) || DataBlock(i)) && Covers(s.holding.blocks[i], q.address)
    requires |c.regs| == s.NbRegisters() && c.ranges.Keys == s.Handlers()
    ensures q.fc == 3 ==> (AllAllowed(s, q, ReadAccess, c) <==> HoldingBlock(i))
    ensures IsWrite(q) ==> (AllAllowed(s, q, CheckAccess, c) <==> HoldingBlock(i))
    ensures IsWrite(q) && HoldingBlock(i) ==> AllAllowed(s, q, WriteAccess, c)
  {
    BoardHasDeviceBlocks(s, hs);
    HasHandlers(s, hs);
    assert Clip(s.holding.blocks[i].end, q.address, 1) == 1 && InBlock(s, q, i);
    hide Board, AllAllowed, Clip, DeviceBlocks, TableValid;
    if HoldingBlock(i) {
      HoldingBlockAccepted(s, hs, q, c, i);
    } else if q.fc == 3 {
      DataReadAccepted(s, hs, q, c, i);
    } else {
      DataWriteChecked(s, hs, q, c, i);
    }
  }

  /** Which single registers are let through, at all positions. */
  lemma RegisterAccepted(s: VirtualRTUSlave, l: Layout, pins: u8, hs: BoardHandlers, q: Request, c: Snapshot)
    requires IsBoard(s, l, pins, hs) && PlainLayout(l, pins) && OnHolding(q) && Count(q) == 1
    requires |c.regs| == s.NbRegisters() && c.ranges.Keys == s.Handlers()
    ensures var p := q.address;
      && (q.fc == 3 ==>
            (AllAllowed(s, q, ReadAccess, c) <==>
               || Port(l, p) || Fixed(l, p) || (VersionAt(l, p) && 1 <= l.versionLength <= 2)
               || (!Own(l, p) && InHolding(l, pins, p))))
      && (IsWrite(q) ==>
            && (AllAllowed(s, q, CheckAccess, c) <==> Port(l, p) || (!Own(l, p) && InHolding(l, pins, p)))
            && (AllAllowed(s, q, CheckAccess, c) ==> AllAllowed(s, q, WriteAccess, c)))
  {
    IOBoardIsBoard(s, l, pins, hs);
    PositionsApart(l, pins, q.address);
    PositionHandler(s, l, pins, hs, q.address);
    BlockRegisters(s, l, pins, hs, q.address);
    assert s.Valid();
    hide IsBoard, PlainLayout, Board, AllAllowed, InHolding, InData;
    if Own(l, q.address) {
      PositionPlan(s, hs, q);
      if q.fc == 3 {
        PositionReadAccepted(s, l, pins, hs, q, c);
      } else {
        PositionWriteChecked(s, l, pins, hs, q, c);
      }
    } else if i: nat :| (HoldingBlock(i) || DataBlock(i)) && Covers(s.holding.blocks[i], q.address) {
      BlockRegister(s, hs, q, c, i);
      OneBlock(s, hs, q.address, i);
    } else {
      assert forall i :: 0 <= i < 5 ==> HoldingBlock(i) || DataBlock(i);
      NotServed(s, hs, q, ReadAccess, c);
      NotServed(s, hs, q, CheckAccess, c);
    }
  }

  lemma OneBlock(s: VirtualRTUSlave, hs: BoardHandlers, p: u16, i: nat)
    requires Board(s, hs) && i < 5 && Covers(s.holding.blocks[i], p)
    ensures forall j :: 0 <= j < 5 && Covers(s.holding.blocks[j], p) ==> j == i
  {
  }

  // ---- what the client gets ----

  /** A read of any length from one of the seven positions, on a working bus. */
  method ReadPosition(s: VirtualRTUSlave, ghost l: Layout, ghost pins: u8, ghost hs: BoardHandlers, q: Request)
    returns (reply: Reply)
    requires IsBoard(s, l, pins, hs) && PlainLayout(l, pins) && s.CacheAgrees() && s.comm.working
    requires q.slave == s.address && q.fc == 3 && 0 < q.quantity && Own(l, q.address)
    modifies s.mapping.tabRegisters, s.mapping.tabInput, s.comm.memory[s.address]
    modifies s.Handlers()`range, s.comm`attempts, s`clean
    ensures reply.Values? <==>
      && q.quantity <= 125 && q.address + q.quantity <= s.NbRegisters()
      && (q.address == l.versionStart / 2 ==> q.quantity == (l.versionLength + 1) / 2)
    ensures reply.Values? ==> FromDevice(q, reply.values, old(s.Contents()).mem)
  {
    assert s.Valid() && l.versionLength <= 33;
    hide IsBoard, PlainLayout, AllAllowed, FromDevice, Agrees, BoundsServed;
    if q.quantity < 0x8000 {
      PositionReadAccepted(s, l, pins, hs, q, s.Contents());
    }
    reply := ReadNow(s, q);
  }

  /** A read of a single register at any position, on a working bus: exactly the pin count, the first two
      registers, the ports, the bus address, functions, names and shared data are answered, with what the
      device holds (and a version of one register). */
  method ReadRegister(s: VirtualRTUSlave, ghost l: Layout, ghost pins: u8, ghost hs: BoardHandlers, q: Request)
    returns (reply: Reply)
    requires IsBoard(s, l, pins, hs) && PlainLayout(l, pins) && s.CacheAgrees() && s.comm.working
    requires q.slave == s.address && q.fc == 3 && q.quantity == 1
    modifies s.mapping.tabRegisters, s.mapping.tabInput, s.comm.memory[s.address]
    modifies s.Handlers()`range, s.comm`attempts, s`clean
    ensures var p := q.address as int;
      reply.Values? <==>
        || p == 0 || p == 1 || p == l.ioCount / 2 || p == l.ioStart / 2 || p == l.ioStart / 2 + 1
        || p == l.bufferSize / 2 || (p == l.versionStart / 2 && 1 <= l.versionLength <= 2)
        || (p != l.versionStart / 2 && InHolding(l, pins, p))
    ensures reply.Values? ==> q.address < 0x8000 && reply == Values([DeviceWord(old(s.Contents()).mem, q.address)])
    ensures reply.Values? || reply == IllegalAddress
  {
    assert s.Valid();
    hide IsBoard, PlainLayout, AllAllowed, Agrees, BoundsServed, InHolding;
    RegisterAccepted(s, l, pins, hs, q, s.Contents());
    reply := ReadNow(s, q);
    if reply.Values? {
      assert reply.values == [reply.values[0]];
    }
  }

  /** A write of a single register at any position, on a working bus: exactly at the ports, the bus address,
      functions, names and shared data it is stored, and then the device holds the value and is otherwise as
      it was; anywhere else table and device are as they were. */
  method WriteRegister(s: VirtualRTUSlave, ghost l: Layout, ghost pins: u8, ghost hs: BoardHandlers, q: Request)
    returns (reply: Reply)
    requires IsBoard(s, l, pins, hs) && PlainLayout(l, pins) && s.CacheAgrees() && s.comm.working
    requires q.slave == s.address && (q.fc == 6 || (q.fc == 16 && q.quantity == 1)) && |q.payload| == 1
    modifies s.mapping.tabRegisters, s.mapping.tabInput, s.comm.memory[s.address]
    modifies s.Handlers()`range, s.comm`attempts, s`clean
    ensures var p := q.address as int;
      reply == Stored <==>
        || p == l.ioStart / 2 || p == l.ioStart / 2 + 1 || p == l.bufferSize / 2
        || (p != 0 && p != 1 && p != l.ioCount / 2 && p != l.versionStart / 2 && InHolding(l, pins, p))
    ensures reply == Stored ==> q.address < 0x8000 && DeviceWord(s.Contents().mem, q.address) == q.payload[0]
    ensures forall j :: 0 <= j < SPACE && (reply != Stored || j / 2 != q.address) ==>
      s.Contents().mem[j] == old(s.Contents()).mem[j]
    ensures reply == Stored || (reply == IllegalAddress && s.Contents().regs == old(s.Contents()).regs)
  {
    assert s.Valid();
    PositionsApart(l, pins, q.address);
    IOBoardIsBoard(s, l, pins, hs);
    BoardHasDeviceBlocks(s, hs);
    hide IsBoard, Board, DeviceBlocks, PlainLayout, AllAllowed, Agrees, BoundsServed, InHolding;
    hide Served, Replied, CleanAfter;
    RegisterAccepted(s, l, pins, hs, q, s.Contents());
    ghost var was, accepted, log := s.Contents(), false, [];
    reply, accepted, log := Serve(s, q);
    RegisterWritten(s, q, s.Contents(), was, accepted, log, reply);
  }

  lemma RegisterWritten(s: VirtualRTUSlave, q: Request, now: Snapshot, was: Snapshot, accepted: bool,
                        log: seq<Segment>, reply: Reply)
    requires s.Valid() && DeviceBlocks(s.holding) && s.comm.working && IsWrite(q) && Count(q) == |q.payload| == 1
    requires Served(s, q, now, was, accepted, log) && Replied(q, accepted, reply, now.regs, now.input)
    requires |was.regs| == s.NbRegisters() && |was.input| == s.NbInput() && |was.mem| == SPACE
    requires AllAllowed(s, q, CheckAccess, was) ==> AllAllowed(s, q, WriteAccess, was)
    ensures reply == Stored <==> AllAllowed(s, q, CheckAccess, was)
    ensures |now.mem| == SPACE
    ensures reply == Stored ==> q.address < 0x8000 && DeviceWord(now.mem, q.address) == q.payload[0]
    ensures forall j :: 0 <= j < SPACE && (reply != Stored || j / 2 != q.address) ==> now.mem[j] == was.mem[j]
    ensures reply == Stored || (reply == IllegalAddress && now.regs == was.regs)
  {
    RegisterExact(s, q);
    hide PlanOf, Allowed, AllAllowed, BoundsServed, Flushed, DeviceBlocks, Outcome;
    if AllAllowed(s, q, CheckAccess, was) {
      AllowedWriteFinishes(s, q, now, was, accepted, log);
      CompletePlan(s, q, was);
      FinishedWriteRegisters(s, q, now, was, log);
      DoneNothing();
      FinishedWriteReachesDevice(s, q, now, was, log, 0);
      hide Served;
      forall j | 0 <= j < SPACE && j / 2 != q.address
        ensures now.mem[j] == was.mem[j]
      {
        FinishedWriteBytes(s, q, now, was, log, j);
      }
    }
  }

  lemma CompletePlan(s: VirtualRTUSlave, q: Request, c: Snapshot)
    requires s.Valid() && AllAllowed(s, q, CheckAccess, c)
    ensures PlanOf(s, q).complete
  {
  }

  /** A single register always fits its block, so its plan is exact. */
  lemma RegisterExact(s: VirtualRTUSlave, q: Request)
    requires s.Valid() && DeviceBlocks(s.holding) && OnHolding(q) && Count(q) == 1
    ensures PlanOf(s, q).complete ==> Done(PlanOf(s, q).segs) == 1
  {
    assert PlanOf(s, q) == PlanFrom(s.holding, q.address, q.address + 1);
    assert Unclipped(s.holding, q.address, q.address + 1);
    hide PlanOf, PlanFrom, DeviceBlocks, Unclipped;
    UnclippedIsExact(s.holding, q.address, q.address + 1);
  }
}
