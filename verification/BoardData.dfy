/** The blocks of an IO board: which requests inside them are let through, and which lock its data
    handlers. */
module BoardData {
  import opened Words
  import opened I2C
  import opened RegisterMapping
  import opened ByteHandlers
  import opened Dispatch
  import opened VirtualSlaves
  import opened Connections
  import opened Serving
  import opened CacheRuns
  import opened IOBoards

  /** A device handler with 16-bit addresses that takes any count, for reads and writes of holding registers. */
  predicate WordHandler(h: HandlerRef) {
    && h.Bytes? && h.bytes.mode == 2 && h.bytes.byteCount < 0
    && h.bytes.enableReadHolding && h.bytes.enableWriteSingle && h.bytes.enableWriteMultiple
  }

  /** What matters of a board: its table has handlers that take any count, and five disjoint blocks, of which
       the fourth holds the permanent data; that block lies behind the RAM data, and no position
      of it has a handler of its own. */
  predicate Board(s: VirtualRTUSlave, hs: BoardHandlers) {
    && s.Valid() && |s.holding.blocks| == 5 && Disjoint(s.holding.blocks) && 0 in s.holding.handlers
    && (forall a :: a in s.holding.handlers ==>
          WordHandler(s.holding.handlers[a]) && !Covers(s.holding.blocks[3], a))
    && s.holding.blocks[0].handler == Bytes(hs.tmp) && s.holding.blocks[3].handler == Bytes(hs.perm)
    && s.holding.blocks[1].handler == s.holding.blocks[2].handler == s.holding.blocks[4].handler == Bytes(hs.holding)
    && hs.perm.kind.Data? && hs.perm.kind.ram.last < s.holding.blocks[3].start
    && BoardHandler(hs.perm, s.comm, hs.perm.kind) && BoardHandler(hs.tmp, s.comm, hs.perm.kind)
    && BoardHandler(hs.holding, s.comm, Plain)
  }

  /** The block of the permanent data. */
  function Perm(s: VirtualRTUSlave): Block
    requires |s.holding.blocks| == 5
  {
    s.holding.blocks[3]
  }

  /** The bounds of the RAM data, which a check gives both data handlers. */
  function Ram(hs: BoardHandlers): Range
    requires hs.perm.kind.Data?
  {
    hs.perm.kind.ram
  }

  /** An IO board is one. */
  lemma IOBoardIsBoard(s: VirtualRTUSlave, l: Layout, pins: u8, hs: BoardHandlers)
    requires IsBoard(s, l, pins, hs)
    ensures Board(s, hs) && Perm(s) == PermBlock(l, pins, hs)
    ensures Ram(hs) == Range(l.dataStart / 2, l.dataStart / 2 + l.maxPins / 2 - 1)
  {
  }

  lemma DataKinds(s: VirtualRTUSlave, hs: BoardHandlers)
    requires Board(s, hs)
    ensures hs.perm.kind.Data? && hs.tmp.kind == hs.perm.kind && |s.holding.blocks| == 5
    ensures Ram(hs).last < Perm(s).start
  {
  }

  // ---- lookups ----

  /** All handlers of a board are device handlers that take any count, in disjoint blocks. */
  lemma BoardHasDeviceBlocks(s: VirtualRTUSlave, hs: BoardHandlers)
    requires Board(s, hs)
    ensures DeviceBlocks(s.holding) && TableValid(s.holding)
    ensures forall i :: 0 <= i < 5 ==>
      && s.holding.blocks[i].handler.Bytes? && s.holding.blocks[i].handler.bytes.byteCount < 0
      && s.holding.blocks[i].end < s.NbRegisters()
  {
  }

  /** A position without a handler of its own is resolved by the block it lies in. */
  lemma BlockLookup(s: VirtualRTUSlave, hs: BoardHandlers, i: nat, a: u16, rem: u16)
    requires Board(s, hs) && i < |s.holding.blocks| && Covers(s.holding.blocks[i], a)
    requires a !in s.holding.handlers
    ensures Lookup(s.holding, a, rem) == Decided(s.holding.blocks[i], a, rem)
  {
    ScanOfDisjoint(s.holding.blocks, a, rem, |s.holding.blocks|);
  }

  /** A position in the block of the permanent data is resolved by that block. */
  lemma PermLookup(s: VirtualRTUSlave, hs: BoardHandlers, a: u16, rem: u16)
    requires Board(s, hs) && Covers(Perm(s), a)
    ensures Lookup(s.holding, a, rem) == Decided(Perm(s), a, rem)
  {
    BlockLookup(s, hs, 3, a, rem);
  }

  /** The registers of `q` lie in block `i`, and its first position has no handler of its own. */
  predicate InBlock(s: VirtualRTUSlave, q: Request, i: nat) {
    && i < |s.holding.blocks| && q.address !in s.holding.handlers && Count(q) > 0
    && Covers(s.holding.blocks[i], q.address) && q.address + Count(q) - 1 <= s.holding.blocks[i].end
  }

  predicate OnHolding(q: Request) {
    Supported(q.fc) && q.fc != FC_READ_INPUT_REGISTERS
  }

  /** A handler that takes at least all remaining registers at the first position is the whole plan. */
  lemma BlockTakesAll(s: VirtualRTUSlave, hs: BoardHandlers, q: Request, i: nat)
    requires Board(s, hs) && OnHolding(q) && Count(q) > 0
    requires i < |s.holding.blocks| && Covers(s.holding.blocks[i], q.address) && q.address !in s.holding.handlers
    requires Count(q) <= Clip(s.holding.blocks[i].end, q.address, Count(q)) < 0x8000
    ensures var given := Clip(s.holding.blocks[i].end, q.address, Count(q));
      PlanOf(s, q) == Plan([Segment(s.holding.blocks[i].handler, q.address, given, given)], true, [])
  {
    BoardHasDeviceBlocks(s, hs);
    BlockBelow(s, hs, q, i);
    hide Board, PlanFrom, Lookup, DeviceBlocks, TableValid, Clip, HandlerValid, Units, Covers;
    BlockLookup(s, hs, i, q.address, Count(q));
    var h, given := s.holding.blocks[i].handler, Clip(s.holding.blocks[i].end, q.address, Count(q));
    TakesAll(s, i, given);
    WholePlan(s.holding, q.address, q.address + Count(q), h, given);
  }

  lemma BlockWhole(s: VirtualRTUSlave, hs: BoardHandlers, q: Request, i: nat)
    requires Board(s, hs) && OnHolding(q) && InBlock(s, q, i)
    ensures PlanOf(s, q) == Plan([Segment(s.holding.blocks[i].handler, q.address, Count(q), Count(q))], true, [])
    ensures q.address + Count(q) <= s.NbRegisters()
  {
    BoardHasDeviceBlocks(s, hs);
    hide Board, PlanFrom;
    BlockTakesAll(s, hs, q, i);
  }

  lemma TakesAll(s: VirtualRTUSlave, i: nat, count: u16)
    requires s.Valid() && i < |s.holding.blocks|
    requires s.holding.blocks[i].handler.Bytes? && s.holding.blocks[i].handler.bytes.byteCount < 0 && count < 0x8000
    ensures HandlerValid(s.holding.blocks[i].handler) && Units(s.holding.blocks[i].handler, count) == count
  {
  }

  // ---- reads and writes inside one block ----

  /** The blocks of functions, names and shared data. */
  predicate HoldingBlock(i: nat) {
    i == 1 || i == 2 || i == 4
  }

  /** The blocks of RAM data and of permanent data. */
  predicate DataBlock(i: nat) {
    i == 0 || i == 3
  }

  function DataHandler(hs: BoardHandlers, i: nat): MultiByteHandler {
    if i == 0 then hs.tmp else hs.perm
  }

  /** A request in a block of functions, names or shared data whose first call takes all of it is one
      segment, inside the block or not. The check lets it through, and read and write do exactly when it
      lies in the table. */
  lemma HoldingBlockAccepted(s: VirtualRTUSlave, hs: BoardHandlers, q: Request, c: Snapshot,
                             i: nat)
    requires Board(s, hs) && OnHolding(q) && Count(q) > 0 && HoldingBlock(i)
    requires Covers(s.holding.blocks[i], q.address) && q.address !in s.holding.handlers
    requires Count(q) <= Clip(s.holding.blocks[i].end, q.address, Count(q)) < 0x8000
    requires |c.regs| == s.NbRegisters() && hs.holding in c.ranges
    ensures var given := Clip(s.holding.blocks[i].end, q.address, Count(q));
      && PlanOf(s, q) == Plan([Segment(Bytes(hs.holding), q.address, given, given)], true, [])
      && AllAllowed(s, q, CheckAccess, c)
      && (q.fc == FC_WRITE_SINGLE_REGISTER ==> AllAllowed(s, q, WriteAccess, c))
      && (q.fc == FC_WRITE_MULTIPLE_REGISTERS ==>
            (AllAllowed(s, q, WriteAccess, c) <==> q.address + given <= s.NbRegisters()))
      && (IsRead(q) ==>
            (AllAllowed(s, q, ReadAccess, c) <==> q.address + given <= s.NbRegisters()))
  {
    BoardHasDeviceBlocks(s, hs);
    hide PlanOf, Board, Clip, Allowed, AllAllowed, DeviceBlocks, TableValid;
    BlockTakesAll(s, hs, q, i);
    BlockBelow(s, hs, q, i);
    var given := Clip(s.holding.blocks[i].end, q.address, Count(q));
    HoldingCall(hs.holding, s.comm, q, given, c);
    forall mode: Mode
      ensures AllAllowed(s, q, mode, c) <==> Allowed(mode, Segment(Bytes(hs.holding), q.address, given, given), q.fc, c)
    {
      OneAllowed(s, q, mode, c, Segment(Bytes(hs.holding), q.address, given, given));
    }
  }

  lemma BlockBelow(s: VirtualRTUSlave, hs: BoardHandlers, q: Request, i: nat)
    requires Board(s, hs) && i < |s.holding.blocks| && Covers(s.holding.blocks[i], q.address)
    ensures q.address < 0x8000
  {
    BoardHasDeviceBlocks(s, hs);
  }

  /** What the guards of the holding handler come down to. */
  lemma HoldingCall(h: MultiByteHandler, comm: I2CComm, q: Request, given: u16, c: Snapshot)
    requires BoardHandler(h, comm, Plain) && given < 0x8000 && q.address < 0x8000 && h in c.ranges && OnHolding(q)
    ensures var seg := Segment(Bytes(h), q.address, given, given);
      && Allowed(CheckAccess, seg, q.fc, c)
      && (q.fc == FC_WRITE_MULTIPLE_REGISTERS ==>
            (Allowed(WriteAccess, seg, q.fc, c) <==> q.address + given <= |c.regs|))
      && (q.fc == FC_WRITE_SINGLE_REGISTER ==> Allowed(WriteAccess, seg, q.fc, c))
      && (IsRead(q) ==> (Allowed(ReadAccess, seg, q.fc, c) <==> q.address + given <= |c.regs|))
  {
    assert h.Units(given) == given;
  }

  lemma OneAllowed(s: VirtualRTUSlave, q: Request, mode: Mode, c: Snapshot, seg: Segment)
    requires s.Valid() && PlanOf(s, q) == Plan([seg], true, [])
    ensures AllAllowed(s, q, mode, c) <==> Allowed(mode, seg, q.fc, c)
  {
    hide PlanOf, Allowed;
    assert PlanOf(s, q).segs[0] == seg;
  }

  /** A read inside a block of functions, names or shared data is one segment and always let through. */
  lemma HoldingBlockReadAccepted(s: VirtualRTUSlave, hs: BoardHandlers, q: Request, c: Snapshot,
                                 i: nat)
    requires Board(s, hs) && q.fc == FC_READ_HOLDING_REGISTERS && HoldingBlock(i) && InBlock(s, q, i)
    requires |c.regs| == s.NbRegisters() && hs.holding in c.ranges
    ensures PlanOf(s, q) == Plan([Segment(Bytes(hs.holding), q.address, q.quantity, q.quantity)], true, [])
    ensures AllAllowed(s, q, ReadAccess, c)
  {
    BoardHasDeviceBlocks(s, hs);
    hide Board, PlanOf, AllAllowed;
    HoldingBlockAccepted(s, hs, q, c, i);
  }

  /** A read of RAM or permanent data inside its block is let through exactly when it is aligned and
      within the bounds that the handler has at that time. */
  lemma DataReadAccepted(s: VirtualRTUSlave, hs: BoardHandlers, q: Request, c: Snapshot, i: nat)
    requires Board(s, hs) && q.fc == FC_READ_HOLDING_REGISTERS && DataBlock(i) && InBlock(s, q, i)
    requires |c.regs| == s.NbRegisters() && DataHandler(hs, i) in c.ranges
    ensures AllAllowed(s, q, ReadAccess, c)
      <==> var range := c.ranges[DataHandler(hs, i)];
           && q.address % 2 == 0 && q.quantity % 2 == 0
           && range.first <= q.address && q.address + q.quantity - 1 <= range.last
  {
    BoardHasDeviceBlocks(s, hs);
    BlockWhole(s, hs, q, i);
    hide PlanFrom, Board;
    var b := DataHandler(hs, i);
    assert Allowed(ReadAccess, PlanOf(s, q).segs[0], q.fc, c) <==>
      b.ReadGuard(c.ranges[b], q.fc, q.address, q.quantity, |c.regs|, |c.input|);
  }

  /** The check of a data handler compares with the bounds of the RAM data whichever data it serves: a
      write inside a data block is let through exactly when it is aligned and within those, and it locks
      the handler exactly when it is aligned, let through or not. */
  lemma DataWriteChecked(s: VirtualRTUSlave, hs: BoardHandlers, q: Request, c: Snapshot, i: nat)
    requires Board(s, hs) && IsWrite(q) && DataBlock(i) && InBlock(s, q, i)
    ensures var b := DataHandler(hs, i);
      && (AllAllowed(s, q, CheckAccess, c) <==>
            && q.address % 2 == 0 && Count(q) % 2 == 0
            && Ram(hs).first <= q.address && q.address + Count(q) - 1 <= Ram(hs).last)
      && (Locks(s, q, b) <==> q.address % 2 == 0 && Count(q) % 2 == 0)
  {
    BoardHasDeviceBlocks(s, hs);
    BlockWhole(s, hs, q, i);
    hide PlanFrom, Board;
    var plan := PlanOf(s, q);
    CheckedOne(plan.segs);
    assert Calls(plan) == plan.segs;
    ReboundedOne(CheckAccess, plan.segs[0]);
  }

  // ---- reads that run past their data block ----

  /** How a read that starts in a data block gets on: some call of the block's handler refuses it, or it
      leaves for a position that the block does not resolve, or for one past its bound. */
  datatype Way = Blocked | Leaves(position: u16)

  /** A call of a data handler is let through. */
  predicate DataLets(range: Range, p: u16, given: u16, nbRegisters: nat) {
    && given % 0x8000 > 0 && p + given % 0x8000 <= nbRegisters
    && p % 2 == 0 && given % 2 == 0 && InRange(range, p, given)
  }

  /** Every call in the block is given the clipped count, and has to be aligned, within the bounds of the
      handler and in the table. */
  function WayOut(t: Table, end: u16, range: Range, p: u16, bound: nat, nbRegisters: nat): Way
    requires bound - p <= 0xFFFF && nbRegisters <= 0x8000
    decreases 0x1_0000 - p
  {
    if p > end || p >= bound || p in t.handlers then Leaves(p)
    else
      var given := Clip(end, p, bound - p);
      if !DataLets(range, p, given, nbRegisters) then Blocked
      else WayOut(t, end, range, p + given % 0x8000, bound, nbRegisters)
  }

  /** A read that starts in a data block, inside it or not, is let through exactly when the calls in the
      block are, and what they leave is let through as a request of its own. */
  lemma DataReadLeaves(s: VirtualRTUSlave, hs: BoardHandlers, q: Request, c: Snapshot, i: nat)
    requires Board(s, hs) && q.fc == FC_READ_HOLDING_REGISTERS && DataBlock(i)
    requires s.holding.blocks[i].start <= q.address
    requires |c.regs| == s.NbRegisters() && DataHandler(hs, i) in c.ranges
    ensures var way := WayOut(s.holding, s.holding.blocks[i].end, c.ranges[DataHandler(hs, i)], q.address,
                              q.address + q.quantity, s.NbRegisters());
      AllAllowed(s, q, ReadAccess, c) <==> way.Leaves? && AllAllowed(s, Rest(q, way.position), ReadAccess, c)
  {
    DataReadWay(s, hs, q, c, i, s.holding.blocks[i], c.ranges[DataHandler(hs, i)], s.NbRegisters());
  }

  lemma {:induction false} DataReadWay(s: VirtualRTUSlave, hs: BoardHandlers, q: Request, c: Snapshot, i: nat,
                                       b: Block, range: Range, nbRegisters: nat)
    requires Board(s, hs) && q.fc == FC_READ_HOLDING_REGISTERS && DataBlock(i)
    requires b == s.holding.blocks[i] && b.start <= q.address
    requires |c.regs| == nbRegisters == s.NbRegisters() <= 0x8000
    requires DataHandler(hs, i) in c.ranges && range == c.ranges[DataHandler(hs, i)]
    ensures var way := WayOut(s.holding, b.end, range, q.address, q.address + q.quantity, nbRegisters);
      AllAllowed(s, q, ReadAccess, c) <==> way.Leaves? && AllAllowed(s, Rest(q, way.position), ReadAccess, c)
    decreases 0x1_0000 - q.address
  {
    hide *;
    if q.address > b.end || q.quantity == 0 || q.address in s.holding.handlers {
      WayStops(s.holding, b.end, range, q, nbRegisters);
    } else {
      var given := Clip(b.end, q.address, q.quantity);
      WayTurn(s.holding, b.end, range, q.address, q.address + q.quantity, nbRegisters);
      DataStep(s, hs, q, c, i, b, range);
      if DataLets(range, q.address, given, nbRegisters) {
        var next: u16 := q.address + given % 0x8000;
        RestStarts(q, next);
        DataReadWay(s, hs, Rest(q, next), c, i, b, range, nbRegisters);
        WayGoesOn(s.holding, b.end, range, q, next, nbRegisters);
      }
    }
  }

  lemma DataStep(s: VirtualRTUSlave, hs: BoardHandlers, q: Request, c: Snapshot, i: nat, b: Block, range: Range)
    requires Board(s, hs) && q.fc == FC_READ_HOLDING_REGISTERS && DataBlock(i) && q.quantity > 0
    requires b == s.holding.blocks[i] && b.start <= q.address <= b.end && q.address !in s.holding.handlers
    requires |c.regs| == s.NbRegisters() && DataHandler(hs, i) in c.ranges && range == c.ranges[DataHandler(hs, i)]
    ensures var given := Clip(b.end, q.address, q.quantity);
      AllAllowed(s, q, ReadAccess, c) <==>
        && DataLets(range, q.address, given, s.NbRegisters())
        && AllAllowed(s, Rest(q, q.address + given % 0x8000), ReadAccess, c)
  {
    assert s.Valid();
    DataCall(s, hs, q, c, i);
    hide Board, PlanOf, Clip, Allowed, AllAllowed, InRange, Rest, DataHandler;
    NothingAllowed(s, q, c);
    if Clip(b.end, q.address, q.quantity) % 0x8000 > 0 {
      AllowedSplits(s, q, ReadAccess, c);
    }
  }

  lemma NothingAllowed(s: VirtualRTUSlave, q: Request, c: Snapshot)
    requires s.Valid()
    ensures !PlanOf(s, q).complete ==> !AllAllowed(s, q, ReadAccess, c)
  {
  }

  lemma WayStops(t: Table, end: u16, range: Range, q: Request, nbRegisters: nat)
    requires nbRegisters <= 0x8000 && (q.address > end || q.quantity == 0 || q.address in t.handlers)
    ensures WayOut(t, end, range, q.address, q.address + q.quantity, nbRegisters) == Leaves(q.address)
    ensures Rest(q, q.address) == q
  {
  }

  lemma RestStarts(q: Request, p: u16)
    ensures Rest(q, p).fc == q.fc && Rest(q, p).address == p
  {
  }

  /** One unfolding of a way. */
  lemma WayTurn(t: Table, end: u16, range: Range, p: u16, bound: nat, nbRegisters: nat)
    requires bound - p <= 0xFFFF && nbRegisters <= 0x8000 && p <= end && p < bound && p !in t.handlers
    ensures DataLets(range, p, Clip(end, p, bound - p), nbRegisters) ==>
      0 < Clip(end, p, bound - p) % 0x8000 && p + Clip(end, p, bound - p) % 0x8000 <= nbRegisters
    ensures var given := Clip(end, p, bound - p);
      WayOut(t, end, range, p, bound, nbRegisters) ==
        if !DataLets(range, p, given, nbRegisters) then Blocked
        else WayOut(t, end, range, p + given % 0x8000, bound, nbRegisters)
  {
    hide Clip, InRange;
  }

  /** The way of what is left is the rest of the way. */
  lemma WayGoesOn(t: Table, end: u16, range: Range, q: Request, next: u16, nbRegisters: nat)
    requires q.address < next && nbRegisters <= 0x8000
    ensures var rest := Rest(q, next);
      var way := WayOut(t, end, range, next, q.address + q.quantity, nbRegisters);
      && WayOut(t, end, range, next, rest.address + rest.quantity, nbRegisters) == way
      && (way.Leaves? ==> Rest(rest, way.position) == Rest(q, way.position))
  {
    WayForward(t, end, range, next, q.address + q.quantity, nbRegisters);
  }

  lemma {:induction false} WayForward(t: Table, end: u16, range: Range, p: u16, bound: nat, nbRegisters: nat)
    requires bound - p <= 0xFFFF && nbRegisters <= 0x8000
    ensures var way := WayOut(t, end, range, p, bound, nbRegisters);
      way.Leaves? ==> way.position >= p && (p >= bound ==> way.position == p)
    decreases 0x1_0000 - p
  {
    hide Clip, InRange;
    if !(p > end || p >= bound || p in t.handlers) {
      var n := Clip(end, p, bound - p) % 0x8000;
      if 0 < n && p + n <= nbRegisters {
        WayForward(t, end, range, p + n, bound, nbRegisters);
      }
    }
  }

  /** The first call of a read that starts in a data block. */
  lemma DataCall(s: VirtualRTUSlave, hs: BoardHandlers, q: Request, c: Snapshot, i: nat)
    requires Board(s, hs) && q.fc == FC_READ_HOLDING_REGISTERS && DataBlock(i) && q.quantity > 0
    requires Covers(s.holding.blocks[i], q.address) && q.address !in s.holding.handlers
    requires |c.regs| == s.NbRegisters() && DataHandler(hs, i) in c.ranges
    ensures var b, given := DataHandler(hs, i), Clip(s.holding.blocks[i].end, q.address, q.quantity);
      if given % 0x8000 == 0 then !PlanOf(s, q).complete
      else
        && PlanOf(s, q).segs != []
        && PlanOf(s, q).segs[0] == Segment(Bytes(b), q.address, given, given % 0x8000)
        && (Allowed(ReadAccess, PlanOf(s, q).segs[0], q.fc, c) <==>
              && b.Aligned(q.address, given) && InRange(c.ranges[b], q.address, given)
              && q.address + given % 0x8000 <= s.NbRegisters())
  {
    var b, given := DataHandler(hs, i), Clip(s.holding.blocks[i].end, q.address, q.quantity);
    BoardHasDeviceBlocks(s, hs);
    BlockBelow(s, hs, q, i);
    DataGuard(b, s.comm, q, given, c);
    BlockLookup(s, hs, i, q.address, q.quantity);
    ElasticUnits(Bytes(b), given);
    hide Board, PlanFrom, Lookup, Clip, InRange, Allowed, DeviceBlocks, Units;
    PlanHead(s.holding, q.address, q.address + q.quantity);
    PlanTurn(s.holding, q.address, q.address + q.quantity);
  }

  /** What the read guard of a data handler comes down to. */
  lemma DataGuard(b: MultiByteHandler, comm: I2CComm, q: Request, given: u16, c: Snapshot)
    requires b.kind.Data? && BoardHandler(b, comm, b.kind) && b in c.ranges && q.fc == FC_READ_HOLDING_REGISTERS
    ensures Allowed(ReadAccess, Segment(Bytes(b), q.address, given, given % 0x8000), q.fc, c) <==>
      && b.Aligned(q.address, given) && InRange(c.ranges[b], q.address, given)
      && q.address + given % 0x8000 <= |c.regs|
  {
    assert b.Units(given) == given % 0x8000;
  }

  // ---- requests that start in the permanent data ----

  lemma PermPlan(s: VirtualRTUSlave, hs: BoardHandlers, q: Request)
    requires Board(s, hs) && OnHolding(q) && Count(q) > 0 && Covers(Perm(s), q.address)
    ensures var p, given := PlanOf(s, q), Clip(Perm(s).end, q.address, Count(q));
      if given == 0 then Calls(p) == [] && !p.complete
      else
        && Calls(p) != [] && Calls(p)[0].handler == Bytes(hs.perm)
        && Calls(p)[0].start == q.address && Calls(p)[0].given == given
        && if p.segs == [] then !p.complete else p.segs[0] == Calls(p)[0]
  {
    PermLookup(s, hs, q.address, Count(q));
    BoardHasDeviceBlocks(s, hs);
    hide PlanFrom, Lookup, Board, TableValid, DeviceBlocks;
    PlanHead(s.holding, q.address, q.address + Count(q));
    PlanTurn(s.holding, q.address, q.address + Count(q));
  }

  /** No write that starts in the permanent data is ever accepted. It locks the permanent data exactly
      when it is aligned after the clip. */
  lemma PermWriteRejected(s: VirtualRTUSlave, hs: BoardHandlers, q: Request, c: Snapshot)
    requires Board(s, hs) && IsWrite(q) && Count(q) > 0
    requires Covers(Perm(s), q.address)
    ensures !AllAllowed(s, q, CheckAccess, c)
    ensures Locks(s, q, hs.perm) <==>
      var given := Clip(Perm(s).end, q.address, Count(q));
      given > 0 && q.address % 2 == 0 && given % 2 == 0
  {
    PermPlan(s, hs, q);
    hide PlanOf, Board, Clip;
    var calls := Calls(PlanOf(s, q));
    if calls == [] {
      CheckedOne(calls);
    } else {
      CheckedStops(calls);
      ReboundedOne(CheckAccess, calls[0]);
    }
  }

  /** A read that starts in locked permanent data is never let through. */
  lemma PermReadRejected(s: VirtualRTUSlave, hs: BoardHandlers, q: Request, c: Snapshot)
    requires Board(s, hs) && q.fc == FC_READ_HOLDING_REGISTERS && q.quantity > 0
    requires Covers(Perm(s), q.address)
    requires hs.perm in c.ranges && c.ranges[hs.perm] == Ram(hs)
    ensures !AllAllowed(s, q, ReadAccess, c)
  {
    PermPlan(s, hs, q);
    hide PlanOf, Board;
  }

  // ---- the lock ----

  lemma HasHandlers(s: VirtualRTUSlave, hs: BoardHandlers)
    requires Board(s, hs)
    ensures hs.tmp in s.Handlers() && hs.perm in s.Handlers() && hs.holding in s.Handlers()
  {
    BoardHasDeviceBlocks(s, hs);
    hide Board;
    assert forall i :: 0 <= i < 5 ==> s.holding.blocks[i].handler.bytes in BytesOf(s.holding);
  }

  lemma DataReadDecided(s: VirtualRTUSlave, hs: BoardHandlers, i: nat, qs: seq<Request>, r: Request,
                        mid: Snapshot, range: Range)
    requires Board(s, hs) && r.fc == FC_READ_HOLDING_REGISTERS && DataBlock(i) && r.quantity > 0
    requires Covers(s.holding.blocks[i], r.address)
    requires |mid.regs| == s.NbRegisters() && DataHandler(hs, i) in mid.ranges
    requires mid.ranges[DataHandler(hs, i)] == BoundsAfterAll(s, qs, DataHandler(hs, i), range)
    ensures var b := DataHandler(hs, i);
      var range' := if LockedBy(s, qs, b) then Ram(hs) else range;
      var way := WayOut(s.holding, s.holding.blocks[i].end, range', r.address, r.address + r.quantity, s.NbRegisters());
      && (AllAllowed(s, r, ReadAccess, mid) <==> way.Leaves? && AllAllowed(s, Rest(r, way.position), ReadAccess, mid))
      && (InBlock(s, r, i) ==>
            (AllAllowed(s, r, ReadAccess, mid) <==>
               && r.address % 2 == 0 && r.quantity % 2 == 0
               && range'.first <= r.address && r.address + r.quantity - 1 <= range'.last))
  {
    DataKinds(s, hs);
    hide Board, LockedBy, AllAllowed, InBlock, WayOut, Rest;
    DataReadLeaves(s, hs, r, mid, i);
    if InBlock(s, r, i) {
      DataReadAccepted(s, hs, r, mid, i);
    }
  }

  /** After any run of requests, a read that starts in RAM or permanent data is answered exactly when it is
      not too long and the calls in the block, and what they leave, are let through within the bounds that
      the run has left: those of the RAM data, if a write of the run locked the handler, and those it had
      before the run, if none did. Inside the block that means: aligned, and within those bounds. For
      permanent data, which the bounds of the RAM data exclude: exactly when it was readable before, and no
      write of the run locked it. */
  method DataReadAfter(s: VirtualRTUSlave, ghost hs: BoardHandlers, ghost i: nat, qs: seq<Request>, r: Request)
    returns (reply: Reply, ghost mid: Snapshot)
    requires Board(s, hs) && s.CacheAgrees() && s.comm.working
    requires r.slave == s.address && forall k :: 0 <= k < |qs| ==> qs[k].slave == s.address
    requires r.fc == 3 && r.quantity > 0
    requires DataBlock(i) && Covers(s.holding.blocks[i], r.address) && r.address !in s.holding.handlers
    modifies s.mapping.tabRegisters, s.mapping.tabInput, s.comm.memory[s.address]
    modifies s.Handlers()`range, s.comm`attempts, s`clean
    ensures |mid.regs| == s.NbRegisters() && mid.ranges.Keys == s.Handlers()
    ensures forall b :: b in s.Handlers() && !b.kind.Version? ==>
      mid.ranges[b] == BoundsAfterAll(s, qs, b, old(b.range))
    ensures var b := DataHandler(hs, i);
      var range := if LockedBy(s, qs, b) then Ram(hs) else old(b.range);
      var way := WayOut(s.holding, s.holding.blocks[i].end, range, r.address, r.address + r.quantity, s.NbRegisters());
      && (reply.Values? <==>
            && r.quantity <= 125
            && way.Leaves? && AllAllowed(s, Rest(r, way.position), ReadAccess, mid))
      && (InBlock(s, r, i) ==>
            (reply.Values? <==>
               && r.quantity <= 125 && r.address % 2 == 0 && r.quantity % 2 == 0
               && range.first <= r.address && r.address + r.quantity - 1 <= range.last))
    ensures i == 3 && InBlock(s, r, i) && r.address % 2 == 0 && r.quantity % 2 == 0
            && old(hs.perm.range).first <= r.address && r.address + r.quantity - 1 <= old(hs.perm.range).last ==>
      (reply.Values? <==> r.quantity <= 125 && !LockedBy(s, qs, hs.perm))
    ensures reply.Values? ==> FromDevice(r, reply.values, s.Contents().mem)
  {
    assert s.Valid();
    hide Board, LockedBy, AllAllowed, Agrees, FromDevice, BoundsAfterAll, InBlock, WayOut;
    DataKinds(s, hs);
    HasHandlers(s, hs);
    reply, mid := ServeAllThenRead(s, qs, r);
    DataReadDecided(s, hs, i, qs, r, mid, old(DataHandler(hs, i).range));
    if i == 3 && InBlock(s, r, i) {
      PermOutsideRam(s, hs, r);
    }
  }

  /** One aligned attempt to write permanent data is refused without a trace in table or device, and
      from then on, whatever is served in between, no read that starts in the permanent data is
      answered. */
  method PermDataLocks(s: VirtualRTUSlave, ghost hs: BoardHandlers,
                       w: Request, qs: seq<Request>, r: Request)
    returns (refused: Reply, reply: Reply)
    requires Board(s, hs) && s.CacheAgrees()
    requires w.slave == r.slave == s.address && forall i :: 0 <= i < |qs| ==> qs[i].slave == s.address
    requires IsWrite(w) && InBlock(s, w, 3) && w.address % 2 == 0 && Count(w) % 2 == 0
    requires r.fc == FC_READ_HOLDING_REGISTERS && r.quantity > 0 && Covers(Perm(s), r.address)
    modifies s.mapping.tabRegisters, s.mapping.tabInput, s.comm.memory[s.address]
    modifies s.Handlers()`range, s.comm`attempts, s`clean
    ensures refused == reply == IllegalAddress
  {
    assert s.Valid();
    hide Board, Perm, InBlock, Served, Replied, AllAllowed, Agrees, IsRun, BoundsServed, CleanAfter, CleanOver, Locks;
    DataKinds(s, hs);
    HasHandlers(s, hs);
    ghost var was, accepted, log := s.Contents(), false, [];
    refused, accepted, log := Serve(s, w);
    PermRefused(s, hs, w, s.Contents(), was, accepted, log);
    RefusedReply(w, refused, s.Contents());
    ghost var locked := s.Contents();
    var replies;
    ghost var history;
    replies, history := ServeAll(s, qs);
    StaysLocked(s, s.Contents(), locked, history, hs.perm);
    ghost var before, accepted', log' := s.Contents(), false, [];
    reply, accepted', log' := Serve(s, r);
    PermReadRefused(s, hs, r, s.Contents(), before, accepted', log');
    RefusedReply(r, reply, s.Contents());
  }

  lemma RefusedReply(q: Request, reply: Reply, c: Snapshot)
    requires Supported(q.fc) && Replied(q, false, reply, c.regs, c.input)
    ensures reply == IllegalAddress
  {
  }

  /** A data handler with the bounds of the RAM data keeps them over every run. */
  lemma StaysLocked(s: VirtualRTUSlave, now: Snapshot, was: Snapshot, history: seq<Step>, b: MultiByteHandler)
    requires s.Valid() && IsRun(s, now, was, history)
    requires b in was.ranges && b.kind.Data? && was.ranges[b] == b.kind.ram
    ensures b in now.ranges && now.ranges[b] == b.kind.ram
  {
    hide IsRun, Locks;
    BoundsOverRun(s, now, was, history, b);
  }

  lemma PermRefused(s: VirtualRTUSlave, hs: BoardHandlers, w: Request,
                    now: Snapshot, was: Snapshot, accepted: bool, log: seq<Segment>)
    requires Board(s, hs) && Served(s, w, now, was, accepted, log) && hs.perm in was.ranges
    requires IsWrite(w) && InBlock(s, w, 3) && w.address % 2 == 0 && Count(w) % 2 == 0
    ensures !accepted && now.regs == was.regs && now.mem == was.mem
    ensures hs.perm in now.ranges && now.ranges[hs.perm] == Ram(hs)
  {
    DataWriteChecked(s, hs, w, was, 3);
    PermOutsideRam(s, hs, w);
    hide Board, PlanOf, InBlock, AllAllowed, Allowed, Locks;
  }

  lemma PermOutsideRam(s: VirtualRTUSlave, hs: BoardHandlers, q: Request)
    requires Board(s, hs) && InBlock(s, q, 3)
    ensures Ram(hs).last < q.address
  {
    BoardHasDeviceBlocks(s, hs);
    hide Board;
  }

  lemma PermReadRefused(s: VirtualRTUSlave, hs: BoardHandlers, r: Request,
                        now: Snapshot, was: Snapshot, accepted: bool, log: seq<Segment>)
    requires Board(s, hs) && Served(s, r, now, was, accepted, log)
    requires r.fc == FC_READ_HOLDING_REGISTERS && r.quantity > 0 && Covers(Perm(s), r.address)
    requires hs.perm in was.ranges && was.ranges[hs.perm] == Ram(hs)
    ensures !accepted
  {
    PermReadRejected(s, hs, r, was);
    hide Board, PlanOf, Perm;
    if accepted {
      OutcomeDecides(s, r, ReadAccess, now, was, accepted, log);
    }
  }
}
