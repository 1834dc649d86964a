/** The summary slave (src/base/SummerySlave.cpp): input registers that mirror the slave list, and
    five registers of thread pool figures. */
module SummarySlaves {
  import opened Words
  import opened I2C
  import opened RegisterMapping
  import opened RegisterHandlers
  import opened Dispatch
  import opened VirtualSlaves
  import opened Connections
  import opened Serving
  import opened SlaveLists
  import opened Scanners

  const DEFAULT_SUMMERY_ADDR: u8 := 255
  const DEFAULT_SUMMERY_COUNT: u16 := 256
  const DEFAULT_SUMMERY_VALUE: u16 := 0

  /** The five figures of the thread pool, as the `int`s they are read as. */
  datatype PoolFigures = PoolFigures(low: int, high: int, workers: int, queue: int, delayedQueue: int)

  function SummaryTable(single: MultiRegisterHandler, multi: MultiRegisterHandler): Table {
    Table(Filled(Filled(map[], Registers(single), 0, 256), Registers(multi), 256, 5), [])
  }

  predicate IsSummary(s: VirtualRTUSlave, single: MultiRegisterHandler, multi: MultiRegisterHandler) {
    && s.Valid() && s.NbRegisters() == 0 && s.NbInput() == 266
    && single.Valid() && single.store == s.mapping && single.registerCount == 1
    && multi.Valid() && multi.store == s.mapping && multi.registerCount < 0
    && s.holding == Table(map[], []) && s.input == SummaryTable(single, multi)
  }

  /** `SummerySlave::init`. The slave has no device; `comm` is not used. */
  method NewSummarySlave(comm: I2CComm)
    returns (s: VirtualRTUSlave, single: MultiRegisterHandler, multi: MultiRegisterHandler)
    requires comm.Valid()
    ensures IsSummary(s, single, multi) && s.address == DEFAULT_SUMMERY_ADDR && s.comm == comm
    ensures fresh(s) && fresh(s.mapping.tabRegisters) && fresh(s.mapping.tabInput)
    ensures s.clean == iset{} && forall a :: 0 <= a < 266 ==> s.mapping.tabInput[a] == 0
  {
    var mapping := new Mapping(0, DEFAULT_SUMMERY_COUNT + 10);
    multi := new MultiRegisterHandler(mapping, -1);
    single := new MultiRegisterHandler(mapping, 1);
    var input: map<u16, HandlerRef> := map[];
    for i: int := 0 to 256
      invariant input == Filled(map[], Registers(single), 0, i)
    {
      input := input[i := Registers(single)];
    }
    for i: int := 0 to 5
      invariant input == Filled(Filled(map[], Registers(single), 0, 256), Registers(multi), 256, i)
    {
      input := input[DEFAULT_SUMMERY_COUNT + i := Registers(multi)];
    }
    s := new VirtualRTUSlave(DEFAULT_SUMMERY_ADDR, mapping, comm, Table(map[], []), Table(input, []));
  }

  /** The plan steps one register at a time below 256 and then takes the remainder in one call; it is
      complete and let through exactly inside the table. */
  lemma {:induction false} SummaryPlan(single: MultiRegisterHandler, multi: MultiRegisterHandler, cur: u16, bound: nat)
    requires single.Valid() && single.registerCount == 1 && multi.Valid() && multi.registerCount < 0
    requires bound - cur <= 0xFFFF
    ensures var p := PlanFrom(SummaryTable(single, multi), cur, bound);
      && (p.complete && (forall i :: 0 <= i < |p.segs| ==> p.segs[i].start + p.segs[i].len <= 266)
          <==> cur >= bound || (cur <= 260 && bound <= 266))
      && (forall i :: 0 <= i < |p.segs| ==>
            && p.segs[i].handler == (if p.segs[i].start < 256 then Registers(single) else Registers(multi))
            && p.segs[i].len == if p.segs[i].start < 256 then 1 else bound - p.segs[i].start)
    decreases 0x1_0000 - cur
  {
    var t := SummaryTable(single, multi);
    var p := PlanFrom(t, cur, bound);
    if cur < bound && cur <= 260 {
      var h := if cur < 256 then Registers(single) else Registers(multi);
      assert Lookup(t, cur, bound - cur) == Found(h, bound - cur);
      PlanHead(t, cur, bound);
      PlanTurn(t, cur, bound);
      if p.segs != [] {
        SummaryPlan(single, multi, cur + p.segs[0].len, bound);
        var rest := PlanFrom(t, cur + p.segs[0].len, bound);
        assert forall i :: 0 <= i < |rest.segs| ==> p.segs[i + 1] == rest.segs[i];
      }
    }
  }

  /** A read of input registers is let through exactly for a position below 261 and a range inside the
      table, of all 16-bit positions and counts. */
  lemma SummaryReadAccepted(s: VirtualRTUSlave, single: MultiRegisterHandler, multi: MultiRegisterHandler,
                            q: Request, c: Snapshot)
    requires IsSummary(s, single, multi) && q.fc == FC_READ_INPUT_REGISTERS
    requires |c.regs| == 0 && |c.input| == 266
    ensures AllAllowed(s, q, ReadAccess, c)
      <==> q.quantity == 0 || (q.address <= 260 && q.address + q.quantity <= 266)
    ensures AllCertain(s, q, ReadAccess)
  {
    var p := PlanOf(s, q);
    assert p == PlanFrom(SummaryTable(single, multi), q.address, q.address + q.quantity);
    SummaryPlan(single, multi, q.address, q.address + q.quantity);
    hide PlanOf, PlanFrom, SummaryTable, Allowed, IsSummary;
    forall i | 0 <= i < |p.segs|
      ensures Allowed(ReadAccess, p.segs[i], q.fc, c) <==> p.segs[i].start + p.segs[i].len <= 266
      ensures p.segs[i].handler.Registers?
    {
      SummarySegment(s, single, multi, q, c, i);
    }
  }

  lemma SummarySegment(s: VirtualRTUSlave, single: MultiRegisterHandler, multi: MultiRegisterHandler,
                       q: Request, c: Snapshot, i: nat)
    requires IsSummary(s, single, multi) && q.fc == FC_READ_INPUT_REGISTERS && i < |PlanOf(s, q).segs|
    requires |c.input| == 266
    ensures var seg := PlanOf(s, q).segs[i];
      seg.handler.Registers? && (Allowed(ReadAccess, seg, q.fc, c) <==> seg.start + seg.len <= 266)
  {
    SummaryCall(s, single, multi, q, i);
    hide PlanOf, SummaryTable;
  }

  lemma SummaryCall(s: VirtualRTUSlave, single: MultiRegisterHandler, multi: MultiRegisterHandler, q: Request, i: nat)
    requires IsSummary(s, single, multi) && q.fc == FC_READ_INPUT_REGISTERS && i < |PlanOf(s, q).segs|
    ensures var seg := PlanOf(s, q).segs[i];
      && (seg.handler == Registers(single) || seg.handler == Registers(multi))
      && HandlerValid(seg.handler) && seg.len == Units(seg.handler, seg.given)
  {
    assert PlanOf(s, q) == PlanFrom(s.input, q.address, q.address + q.quantity);
    assert s.input == SummaryTable(single, multi);
    assert TableValid(s.input);
    hide PlanOf, PlanFrom, SummaryTable, Lookup, IsSummary, HandlerValid, Units, TableValid;
    SummaryPlan(single, multi, q.address, q.address + q.quantity);
    PlanIsConsecutive(s.input, q.address, q.address + q.quantity, i);
  }

  /** The value shown for an address. */
  function Shown(slaves: map<u8, Slave>, a: u8): u16 {
    if a in slaves then slaves[a].slaveType else DEFAULT_SUMMERY_VALUE
  }

  /** The table with the listed types of the first `n` addresses. */
  function Mirrored(was: seq<u16>, slaves: map<u8, Slave>, n: nat): (r: seq<u16>)
    ensures |r| == |was|
  {
    seq(|was|, a requires 0 <= a < |was| =>
      if a >= n || a >= 0x100 then was[a] else Shown(slaves, a))
  }

  /** The registers behind the addresses: five figures modulo 65536, or what was there without a pool,
      and the other ones as they were. */
  ghost predicate Figures(now: seq<u16>, was: seq<u16>, pool: Option<PoolFigures>) {
    && |now| == |was| == 266
    && (pool.Some? ==>
          && now[256] == pool.value.low % 0x1_0000 && now[257] == pool.value.high % 0x1_0000
          && now[258] == pool.value.workers % 0x1_0000 && now[259] == pool.value.queue % 0x1_0000
          && now[260] == pool.value.delayedQueue % 0x1_0000)
    && (pool.None? ==> forall a :: 256 <= a <= 260 ==> now[a] == was[a])
    && now[255] == was[255] && forall a :: 261 <= a <= 265 ==> now[a] == was[a]
  }

  function WithFigures(was: seq<u16>, pool: Option<PoolFigures>): (r: seq<u16>)
    requires |was| == 266
    ensures |r| == |was|
  {
    match pool
    case None => was
    case Some(p) =>
      was[..256] + [Wrap16(p.low), Wrap16(p.high), Wrap16(p.workers), Wrap16(p.queue), Wrap16(p.delayedQueue)]
      + was[261..]
  }

  /** `functor_function` of the summary slave. The loop counts in 8 bits and stops at 255, so the
      slave with the highest address is never summarized. */
  method SummaryPass(s: VirtualRTUSlave, list: SlaveList, pool: Option<PoolFigures>)
    requires s.Valid() && s.NbInput() == 266
    modifies s.mapping.tabInput
    ensures s.mapping.tabInput[..] == WithFigures(Mirrored(old(s.mapping.tabInput[..]), list.slaves, 255), pool)
    ensures Figures(s.mapping.tabInput[..], old(s.mapping.tabInput[..]), pool)
    ensures forall a :: 0 <= a < 255 ==>
      s.mapping.tabInput[a] == if a in list.slaves then list.slaves[a].slaveType else 0
  {
    MirrorList(s.mapping.tabInput, list);
    var tab := s.mapping.tabInput;
    ghost var mirrored := tab[..];
    if pool.Some? {
      tab[DEFAULT_SUMMERY_COUNT] := Wrap16(pool.value.low);
      tab[DEFAULT_SUMMERY_COUNT + 1] := Wrap16(pool.value.high);
      tab[DEFAULT_SUMMERY_COUNT + 2] := Wrap16(pool.value.workers);
      tab[DEFAULT_SUMMERY_COUNT + 3] := Wrap16(pool.value.queue);
      tab[DEFAULT_SUMMERY_COUNT + 4] := Wrap16(pool.value.delayedQueue);
    }
    assert tab[..] == WithFigures(mirrored, pool);
  }

  method MirrorList(tab: array<u16>, list: SlaveList)
    requires tab.Length >= 255
    modifies tab
    ensures tab[..] == Mirrored(old(tab[..]), list.slaves, 255)
  {
    ghost var was := tab[..];
    var slave: u8 := 0;
    while true
      invariant 0 <= slave < 255
      invariant tab[..] == Mirrored(was, list.slaves, slave)
      decreases 255 - slave
    {
      var cur := list.GetSlave(slave);
      if cur.Some? {
        tab[slave] := cur.value.slaveType;
      } else {
        tab[slave] := DEFAULT_SUMMERY_VALUE;
      }
      assert tab[..] == Mirrored(was, list.slaves, slave + 1);
      slave := Wrap8(slave + 1);
      if !(slave < 255) {
        break;
      }
    }
  }

  /** A read at the summary slave is answered exactly inside its table, from the table as it is. */
  method ReadSummary(s: VirtualRTUSlave, ghost single: MultiRegisterHandler, ghost multi: MultiRegisterHandler,
                     q: Request)
    returns (reply: Reply)
    requires IsSummary(s, single, multi) && q.slave == s.address && s.CacheAgrees()
    requires q.fc == FC_READ_INPUT_REGISTERS && q.quantity > 0
    modifies s.mapping.tabRegisters, s.mapping.tabInput, s.comm.memory[s.address]
    modifies s.Handlers()`range, s.comm`attempts, s`clean
    ensures reply.Values? <==>
      q.quantity <= 125 && q.address <= 260 && q.address + q.quantity <= 266
    ensures reply.Values? ==>
      reply.values == old(s.Contents()).input[q.address..q.address + q.quantity]
  {
    ghost var was, accepted, log := s.Contents(), false, [];
    SummaryReadAccepted(s, single, multi, q, was);
    reply, accepted, log := Serve(s, q);
    OutcomeDecides(s, q, ReadAccess, s.Contents(), was, accepted, log);
    SummaryUntouched(s, single, multi, q, s.Contents(), was, accepted, log);
  }

  lemma SummaryUntouched(s: VirtualRTUSlave, single: MultiRegisterHandler, multi: MultiRegisterHandler,
                         q: Request, now: Snapshot, was: Snapshot, accepted: bool, log: seq<Segment>)
    requires IsSummary(s, single, multi) && q.fc == FC_READ_INPUT_REGISTERS
    requires Outcome(s, q, ReadAccess, now, was, accepted, log)
    ensures now.input == was.input
  {
    SummaryOwn(s, single, multi, q);
    hide PlanOf, Allowed, BoundsAfter, Fetched, IsSummary, Certain;
    assert forall i :: 0 <= i < |log| ==> log[i] == PlanOf(s, q).segs[i];
    NothingFetched(now.input, was.input, was.mem, log);
  }

  /** All handlers of the plan serve the slave's own table. */
  lemma SummaryOwn(s: VirtualRTUSlave, single: MultiRegisterHandler, multi: MultiRegisterHandler, q: Request)
    requires IsSummary(s, single, multi) && q.fc == FC_READ_INPUT_REGISTERS
    ensures forall i :: 0 <= i < |PlanOf(s, q).segs| ==> PlanOf(s, q).segs[i].handler.Registers?
  {
    assert PlanOf(s, q) == PlanFrom(SummaryTable(single, multi), q.address, q.address + q.quantity);
    hide *;
    SummaryPlan(single, multi, q.address, q.address + q.quantity);
  }

  lemma NothingFetched(now: seq<u16>, was: seq<u16>, mem: seq<u8>, log: seq<Segment>)
    requires Fetched(now, was, mem, log) && forall i :: 0 <= i < |log| ==> log[i].handler.Registers?
    ensures now == was
  {
  }

  /** A register of the summary table, given the scans: non-zero exactly for an address in the window,
      with the type found when it was last listed. */
  ghost predicate SummaryOf(value: u16, scans: seq<Scan>, n: nat, a: u8, boardId: u8)
    requires Trace(scans, n) && a < n
  {
    && (value != 0 <==> SeenWithin(scans, n, a, 7))
    && (value != 0 ==>
          exists j: nat :: ListedSince(scans, n, a, j) && value == if scans[j].board[a] then boardId else 0x10)
  }

  lemma ScannedIsSummarized(scans: seq<Scan>, n: nat, a: u8, boardId: u8)
    requires Trace(scans, n) && a < n && boardId != 0
    ensures var c := RunCell(scans, n, a, boardId);
      SummaryOf(if c.listed.Some? then c.listed.value else DEFAULT_SUMMERY_VALUE, scans, n, a, boardId)
  {
    ListedIffSeen(scans, n, a, boardId);
    if SeenWithin(scans, n, a, 7) {
      var j := TypeSinceListed(scans, n, a, boardId);
    }
  }

  /** From the bus to the client: after any run of scans and one summary pass, a read of input registers
      (function 4) at the summary slave is answered exactly for up to 125 registers at a position up to 260
      inside its table. Below both 255 and the scanned addresses a value is zero exactly for an address found
      in none of the last seven scans; any other is the type of the device that answered the scan by which
      the address was listed. Behind them come the five figures of the pool, in this order. */
  method Discover(scanner: Scanner, scans: seq<Scan>, pool: Option<PoolFigures>, s: VirtualRTUSlave,
                  ghost single: MultiRegisterHandler, ghost multi: MultiRegisterHandler, q: Request)
    returns (reply: Reply)
    requires scanner.Valid() && scanner.history == [] && Trace(scans, scanner.maxAddress) && scanner.boardId != 0
    requires IsSummary(s, single, multi) && s.address == q.slave && s.CacheAgrees()
    requires q.fc == 4 && q.quantity > 0
    modifies scanner.list, scanner.counters, scanner`history
    modifies s.mapping.tabRegisters, s.mapping.tabInput, s.comm.memory[s.address]
    modifies s.Handlers()`range, s.comm`attempts, s`clean
    ensures reply.Values? <==> q.quantity <= 125 && q.address <= 260 && q.address + q.quantity <= 266
    ensures reply.Values? ==> |reply.values| == q.quantity
    ensures reply.Values? ==>
      forall k, a: u8 :: 0 <= k < q.quantity && a == q.address + k && a < 255 && a < scanner.maxAddress ==>
        && (reply.values[k] != 0 <==> SeenWithin(scans, scanner.maxAddress, a, 7))
        && (reply.values[k] != 0 ==>
              exists j: nat ::
                && ListedSince(scans, scanner.maxAddress, a, j)
                && reply.values[k] == if scans[j].board[a] then scanner.boardId else 0x10)
    ensures reply.Values? && q.address <= 256 && q.address + q.quantity >= 261 && pool.Some? ==>
      var first := 256 - q.address;
      && reply.values[first] == pool.value.low % 0x1_0000 && reply.values[first + 1] == pool.value.high % 0x1_0000
      && reply.values[first + 2] == pool.value.workers % 0x1_0000
      && reply.values[first + 3] == pool.value.queue % 0x1_0000
      && reply.values[first + 4] == pool.value.delayedQueue % 0x1_0000
    ensures reply.Values? ==>
      forall k, a :: 0 <= k < q.quantity && a == q.address + k && (a == 255 || a > 260 || (a > 255 && pool.None?)) ==>
        reply.values[k] == old(s.Contents()).input[a]
  {
    hide RunCell, SeenWithin, ListedSince, Filled, SummaryTable, HoldingHandler, InputHandler, SummaryOf;
    hide Mirrored, WithFigures, Figures, Trace;
    ghost var was := s.Contents().input;
    ghost var slaves := ScanAndSummarize(scanner, scans, pool, s);
    assert forall a :: a !in s.clean;
    hide IsSummary;
    ghost var input := s.Contents().input;
    reply := ReadSummary(s, single, multi, q);
    if reply.Values? {
      SummaryRead(reply.values, input, slaves, q, scans, scanner.maxAddress, scanner.boardId);
      FiguresRead(reply.values, input, was, q, pool);
    }
  }

  /** Any run of scans and one summary pass. */
  method ScanAndSummarize(scanner: Scanner, scans: seq<Scan>, pool: Option<PoolFigures>, s: VirtualRTUSlave)
    returns (ghost slaves: map<u8, Slave>)
    requires scanner.Valid() && scanner.history == [] && Trace(scans, scanner.maxAddress) && scanner.boardId != 0
    requires s.Valid() && s.NbInput() == 266
    modifies scanner.list, scanner.counters, scanner`history, s.mapping.tabInput
    ensures Figures(s.mapping.tabInput[..], old(s.mapping.tabInput[..]), pool)
    ensures forall a :: 0 <= a < 255 ==> s.mapping.tabInput[a] == Shown(slaves, a)
    ensures forall a :: 0 <= a < 255 && a < scanner.maxAddress ==>
      SummaryOf(Shown(slaves, a), scans, scanner.maxAddress, a, scanner.boardId)
  {
    hide RunCell, SeenWithin, ListedSince, SummaryOf, Mirrored, WithFigures, Figures, HoldingHandler, InputHandler;
    scanner.ScanAll(scans);
    slaves := scanner.list.slaves;
    ScannerIsSummarized(scanner, scans);
    SummaryPass(s, scanner.list, pool);
  }

  lemma SummaryRead(values: seq<u16>, input: seq<u16>, slaves: map<u8, Slave>, q: Request, scans: seq<Scan>, n: nat,
                    boardId: u8)
    requires Trace(scans, n) && |input| == 266 && q.address + q.quantity <= 266
    requires values == input[q.address..q.address + q.quantity]
    requires forall a :: 0 <= a < 255 ==> input[a] == Shown(slaves, a)
    requires forall a :: 0 <= a < 255 && a < n ==> SummaryOf(Shown(slaves, a), scans, n, a, boardId)
    ensures forall k, a: u8 :: 0 <= k < q.quantity && a == q.address + k && a < 255 && a < n ==>
      && (values[k] != 0 <==> SeenWithin(scans, n, a, 7))
      && (values[k] != 0 ==>
            exists j: nat ::
              && ListedSince(scans, n, a, j)
              && values[k] == if scans[j].board[a] then boardId else 0x10)
  {
    hide Shown, SeenWithin;
    forall k, a: u8 | 0 <= k < q.quantity && a == q.address + k && a < 255 && a < n
      ensures values[k] != 0 <==> SeenWithin(scans, n, a, 7)
      ensures values[k] != 0 ==>
        exists j: nat ::
          && ListedSince(scans, n, a, j)
          && values[k] == if scans[j].board[a] then boardId else 0x10
    {
      assert values[k] == input[a] == Shown(slaves, a);
      assert SummaryOf(values[k], scans, n, a, boardId);
    }
  }

  lemma FiguresRead(values: seq<u16>, input: seq<u16>, was: seq<u16>, q: Request, pool: Option<PoolFigures>)
    requires Figures(input, was, pool) && q.address + q.quantity <= 266
    requires values == input[q.address..q.address + q.quantity]
    ensures q.address <= 256 && q.address + q.quantity >= 261 && pool.Some? ==>
      var first := 256 - q.address;
      && values[first] == pool.value.low % 0x1_0000 && values[first + 1] == pool.value.high % 0x1_0000
      && values[first + 2] == pool.value.workers % 0x1_0000
      && values[first + 3] == pool.value.queue % 0x1_0000
      && values[first + 4] == pool.value.delayedQueue % 0x1_0000
    ensures forall k, a :: 0 <= k < q.quantity && a == q.address + k
                           && (a == 255 || a > 260 || (a > 255 && pool.None?)) ==>
      values[k] == was[a]
  {
  }

  lemma ScannerIsSummarized(scanner: Scanner, scans: seq<Scan>)
    requires scanner.Valid() && scanner.history == scans && Trace(scans, scanner.maxAddress) && scanner.boardId != 0
    ensures forall a :: 0 <= a < 255 && a < scanner.maxAddress ==>
      SummaryOf(Shown(scanner.list.slaves, a), scans, scanner.maxAddress, a, scanner.boardId)
  {
    forall a | 0 <= a < 255 && a < scanner.maxAddress
      ensures SummaryOf(Shown(scanner.list.slaves, a), scans, scanner.maxAddress, a, scanner.boardId)
    {
      ScannedIsSummarized(scans, scanner.maxAddress, a, scanner.boardId);
      assert scanner.CellOf(a) == RunCell(scans, scanner.maxAddress, a, scanner.boardId);
    }
  }
}
