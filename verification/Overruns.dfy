/** Requests that start outside the permanent data of an IO board and run into it: the handlers in front
    of it are not confined to their block, and their guards do not know the permanent data. */
module Overruns {
  import opened Words
  import opened I2C
  import opened RegisterMapping
  import opened Dispatch
  import opened VirtualSlaves
  import opened Connections
  import opened Serving
  import opened CacheRuns
  import opened IOBoards
  import opened BoardData

  /** Position `p` of request `q` lies in front of the permanent data, and a call there runs into it:
      the handler of the position is given all remaining registers, that of a block the clipped count,
      and each takes the count up to its top bit. */
  ghost predicate Crosses(t: Table, perm: Block, q: Request, p: u16) {
    && q.address <= p < q.address + Count(q) && p < perm.start <= perm.end
    && var rem: u16 := q.address + Count(q) - p;
       if p in t.handlers then p + rem % 0x8000 > perm.start
       else exists i :: 0 <= i < |t.blocks| && Covers(t.blocks[i], p)
                        && p + Clip(t.blocks[i].end, p, rem) % 0x8000 > perm.start
  }

  /** Some register of the permanent data belongs to a segment. */
  ghost predicate Touches(segs: seq<Segment>, perm: Block) {
    exists a: u16 :: Covers(perm, a) && InLog(segs, a)
  }

  /** The count that the lookup at `p` hands over: all remaining registers, or the clipped count of the
      block that covers it. */
  ghost predicate Given(t: Table, p: u16, rem: u16, given: u16) {
    if p in t.handlers then given == rem
    else exists i :: 0 <= i < |t.blocks| && Covers(t.blocks[i], p) && given == Clip(t.blocks[i].end, p, rem)
                     && forall j :: 0 <= j < |t.blocks| && Covers(t.blocks[j], p) ==> j == i
  }

  lemma LookupGives(t: Table, p: u16, rem: u16)
    requires Disjoint(t.blocks) && Lookup(t, p, rem).Found?
    ensures Given(t, p, rem, Lookup(t, p, rem).given)
  {
    hide Scan, Clip;
    if p !in t.handlers {
      ScanFindsBlock(t.blocks, p, rem, |t.blocks|);
    }
  }

  lemma OpenHandler(t: Table, p: u16, rem: u16)
    requires TableValid(t) && Lookup(t, p, rem).Found?
    requires forall a :: a in t.handlers ==> t.handlers[a].Bytes? && t.handlers[a].bytes.byteCount < 0
    requires forall i :: 0 <= i < |t.blocks| ==>
      t.blocks[i].handler.Bytes? && t.blocks[i].handler.bytes.byteCount < 0
    ensures var f := Lookup(t, p, rem);
      f.handler.Bytes? && HandlerValid(f.handler) && Units(f.handler, f.given) == f.given % 0x8000
  {
    hide Scan;
    if p !in t.handlers {
      ScanFindsBlock(t.blocks, p, rem, |t.blocks|);
    }
  }

  lemma CallTouches(t: Table, perm: Block, q: Request, seg: Segment)
    requires q.address <= seg.start < q.address + Count(q)
    requires seg.handler.Bytes? && seg.len == seg.given % 0x8000 > 0
    requires Given(t, seg.start, q.address + Count(q) - seg.start, seg.given)
    ensures Touches([seg], perm) <==> Covers(perm, seg.start) || Crosses(t, perm, q, seg.start)
  {
    hide Clip;
    InLogOne(seg);
    hide InLog;
    if Crosses(t, perm, q, seg.start) {
      assert Covers(perm, perm.start) && InLog([seg], perm.start);
    }
    if Covers(perm, seg.start) {
      assert InLog([seg], seg.start);
    }
  }

  lemma PlanSegment(s: VirtualRTUSlave, q: Request, i: nat)
    requires s.Valid() && OnHolding(q) && i < |PlanOf(s, q).segs|
    ensures TableValid(s.holding)
    ensures var seg, bound := PlanOf(s, q).segs[i], q.address + Count(q);
      && q.address <= seg.start < bound && seg.len > 0
      && Lookup(s.holding, seg.start, bound - seg.start) == Found(seg.handler, seg.given)
      && HandlerValid(seg.handler) && seg.len == Units(seg.handler, seg.given)
  {
    assert s.holding == TableOf(s, q.fc);
    hide PlanFrom, Lookup, Units;
    PlanIsConsecutive(s.holding, q.address, q.address + Count(q), i);
  }

  /** A segment has registers of the permanent data exactly when it starts there or crosses into it. */
  lemma SegmentTouches(s: VirtualRTUSlave, hs: BoardHandlers, q: Request, i: nat)
    requires Board(s, hs) && OnHolding(q) && i < |PlanOf(s, q).segs|
    ensures var seg, perm := PlanOf(s, q).segs[i], Perm(s);
      && seg.handler.Bytes? && (Covers(perm, seg.start) ==> seg.handler == Bytes(hs.perm) && seg.given > 0)
      && (Touches([seg], perm) <==> Covers(perm, seg.start) || Crosses(s.holding, perm, q, seg.start))
  {
    BoardHasDeviceBlocks(s, hs);
    BlocksDisjoint(s, hs);
    hide *;
    var seg, perm := PlanOf(s, q).segs[i], Perm(s);
    PlanSegment(s, q, i);
    var rem := q.address + Count(q) - seg.start;
    LookupGives(s.holding, seg.start, rem);
    OpenHandler(s.holding, seg.start, rem);
    CallTouches(s.holding, perm, q, seg);
    if Covers(perm, seg.start) {
      PermLookup(s, hs, seg.start, rem);
      DecidedGives(perm, seg.start, rem);
    }
  }

  lemma BlocksDisjoint(s: VirtualRTUSlave, hs: BoardHandlers)
    requires Board(s, hs)
    ensures s.Valid() && Disjoint(s.holding.blocks) && Perm(s).handler == Bytes(hs.perm)
  {
  }

  lemma DecidedGives(b: Block, p: u16, rem: u16)
    requires Decided(b, p, rem).Found?
    ensures Decided(b, p, rem).handler == b.handler && Decided(b, p, rem).given > 0
  {
  }

  lemma TouchesBySegment(segs: seq<Segment>, perm: Block)
    ensures Touches(segs, perm) <==> exists i :: 0 <= i < |segs| && Touches([segs[i]], perm)
  {
    forall i | 0 <= i < |segs|
      ensures forall a :: InLog([segs[i]], a) ==> InLog(segs, a)
    {
      InLogOne(segs[i]);
    }
    if a: u16 :| Covers(perm, a) && InLog(segs, a) {
      var i :| 0 <= i < |segs| && segs[i].handler.Bytes? && segs[i].start <= a < segs[i].start + segs[i].len;
      InLogOne(segs[i]);
      assert InLog([segs[i]], a);
    }
  }

  /** A pass has finished registers of the permanent data exactly when one of its calls started there or
      crossed into it. */
  lemma PassTouches(s: VirtualRTUSlave, hs: BoardHandlers, q: Request, log: seq<Segment>)
    requires Board(s, hs) && OnHolding(q) && log <= PlanOf(s, q).segs
    ensures Touches(log, Perm(s)) <==>
      exists i :: 0 <= i < |log| && (Covers(Perm(s), log[i].start) || Crosses(s.holding, Perm(s), q, log[i].start))
  {
    DataKinds(s, hs);
    hide Board, PlanOf, Crosses, Touches, Covers;
    var perm := Perm(s);
    forall i | 0 <= i < |log|
      ensures Touches([log[i]], perm) <==> Covers(perm, log[i].start) || Crosses(s.holding, perm, q, log[i].start)
    {
      SegmentTouches(s, hs, q, i);
    }
    TouchesBySegment(log, perm);
  }

  /** No write is let through by the check at a position in the permanent data, and no read while it is
      locked. So a pass that is let through has registers of the permanent data exactly when one of its
      segments crosses into it. */
  lemma TouchesWhen(s: VirtualRTUSlave, hs: BoardHandlers, q: Request, mode: Mode, c: Snapshot,
                    log: seq<Segment>)
    requires Board(s, hs) && log <= PlanOf(s, q).segs
    requires forall i :: 0 <= i < |log| ==> Allowed(mode, log[i], q.fc, c)
    requires if mode.CheckAccess? then IsWrite(q)
             else mode.ReadAccess? && q.fc == FC_READ_HOLDING_REGISTERS
                  && hs.perm in c.ranges && c.ranges[hs.perm] == Ram(hs)
    ensures var perm := Perm(s);
      Touches(log, perm) <==> exists i :: 0 <= i < |log| && Crosses(s.holding, perm, q, log[i].start)
  {
    DataKinds(s, hs);
    hide Board, PlanOf, Perm, Crosses, Touches;
    var perm := Perm(s);
    forall i | 0 <= i < |log|
      ensures Touches([log[i]], perm) <==> Crosses(s.holding, perm, q, log[i].start)
    {
      SegmentTouches(s, hs, q, i);
      assert Allowed(mode, log[i], q.fc, c);
    }
    TouchesBySegment(log, perm);
  }

  /** The first call of the request takes all of its registers. */
  ghost predicate TakesRest(t: Table, q: Request) {
    if q.address in t.handlers then 0 < Count(q) < 0x8000
    else exists i :: 0 <= i < |t.blocks| && Covers(t.blocks[i], q.address)
                     && 0 < Count(q) <= Clip(t.blocks[i].end, q.address, Count(q)) % 0x8000
  }

  /** A request that starts outside the permanent data, and that its first call completes, has registers
      of the permanent data exactly when that call crosses into it. */
  lemma OneCallTouches(s: VirtualRTUSlave, hs: BoardHandlers, q: Request)
    requires Board(s, hs) && OnHolding(q) && PlanOf(s, q).complete && TakesRest(s.holding, q)
    requires !Covers(Perm(s), q.address)
    ensures |PlanOf(s, q).segs| == 1
    ensures Touches(PlanOf(s, q).segs, Perm(s)) <==> Crosses(s.holding, Perm(s), q, q.address)
  {
    FirstTakesRest(s, hs, q);
    DataKinds(s, hs);
    hide Board, PlanOf, TakesRest, Touches, Crosses;
    var segs := PlanOf(s, q).segs;
    SegmentTouches(s, hs, q, 0);
    assert segs == [segs[0]];
  }

  lemma FirstTakesRest(s: VirtualRTUSlave, hs: BoardHandlers, q: Request)
    requires Board(s, hs) && OnHolding(q) && PlanOf(s, q).complete && TakesRest(s.holding, q)
    ensures |PlanOf(s, q).segs| == 1 && PlanOf(s, q).segs[0].start == q.address
  {
    BoardHasDeviceBlocks(s, hs);
    BlocksDisjoint(s, hs);
    assert PlanOf(s, q) == PlanFrom(s.holding, q.address, q.address + Count(q));
    var f := Lookup(s.holding, q.address, Count(q));
    hide Board, PlanOf, PlanFrom, Lookup, Clip, DeviceBlocks, TableValid, Units;
    PlanTurn(s.holding, q.address, q.address + Count(q));
    PlanHead(s.holding, q.address, q.address + Count(q));
    LookupGives(s.holding, q.address, Count(q));
    OpenHandler(s.holding, q.address, Count(q));
    PlanTurn(s.holding, q.address + f.given % 0x8000, q.address + Count(q));
  }

  /** What the request alone tells: it starts in front of the permanent data, and has registers of it or
      crosses into it at its first position. */
  ghost predicate RunsInto(t: Table, perm: Block, q: Request) {
    (q.address < perm.start <= perm.end && perm.start < q.address + Count(q)) || Crosses(t, perm, q, q.address)
  }

  /** Such a request, once its plan is complete, has registers of the permanent data. */
  lemma RequestTouches(s: VirtualRTUSlave, hs: BoardHandlers, q: Request)
    requires Board(s, hs) && OnHolding(q) && PlanOf(s, q).complete
    requires RunsInto(s.holding, Perm(s), q)
    ensures var perm := Perm(s);
      Covers(perm, perm.start) && InLog(PlanOf(s, q).segs, perm.start) && Touches(PlanOf(s, q).segs, perm)
  {
    BoardHasDeviceBlocks(s, hs);
    hide Board, Perm, InLog, PlanFrom, DeviceBlocks, TableValid, Lookup;
    var perm := Perm(s);
    PlanOfOccupies(s, q, perm.start);
    if Crosses(s.holding, perm, q, q.address) {
      PlanTurn(s.holding, q.address, q.address + Count(q));
      SegmentTouches(s, hs, q, 0);
      FirstReaches(s, q, perm);
    }
    assert Covers(perm, perm.start);
  }

  lemma FirstReaches(s: VirtualRTUSlave, q: Request, perm: Block)
    requires s.Valid() && OnHolding(q) && PlanOf(s, q).segs != [] && PlanOf(s, q).segs[0].start == q.address
    requires q.address < perm.start && Touches([PlanOf(s, q).segs[0]], perm)
    ensures InLog(PlanOf(s, q).segs, perm.start)
  {
    hide PlanOf;
    InLogOne(PlanOf(s, q).segs[0]);
  }

  // ---- what that does to the permanent data ----

  /** Whatever transfers fail, a write of which no position crosses leaves the permanent data alone, in
      the table and in the device. */
  lemma WriteSparesPermanentData(s: VirtualRTUSlave, hs: BoardHandlers, q: Request,
                                 now: Snapshot, was: Snapshot, accepted: bool, log: seq<Segment>, a: u16)
    requires Board(s, hs) && IsWrite(q) && Served(s, q, now, was, accepted, log)
    requires |was.regs| == s.NbRegisters() && |was.mem| == SPACE
    requires forall p: u16 :: !Crosses(s.holding, Perm(s), q, p)
    requires Covers(Perm(s), a)
    ensures a < |was.regs| == |now.regs| && |now.mem| == SPACE
    ensures now.regs[a] == was.regs[a] && DeviceWord(now.mem, a) == DeviceWord(was.mem, a)
  {
    BoardHasDeviceBlocks(s, hs);
    hide Board, PlanOf, Perm, Crosses, Allowed, BoundsServed, InLog;
    if accepted {
      TouchesWhen(s, hs, q, CheckAccess, was, PlanOf(s, q).segs);
      assert !InLog(PlanOf(s, q).segs, a);
      PlanOfOccupies(s, q, a);
      VisitedInPlan(s, q, was, log, a);
      assert 2 * a as int / 2 == a && (2 * a as int + 1) / 2 == a;
    }
  }

  /** A finished write that runs into the permanent data stores the table there, registers of the payload
      and registers behind it alike. */
  lemma WriteHitsPermanentData(s: VirtualRTUSlave, hs: BoardHandlers, q: Request,
                               now: Snapshot, was: Snapshot, log: seq<Segment>)
    requires Board(s, hs) && IsWrite(q) && Served(s, q, now, was, true, log) && log == PlanOf(s, q).segs
    requires |was.regs| == s.NbRegisters() && |was.input| == s.NbInput() && |was.mem| == SPACE
    requires RunsInto(s.holding, Perm(s), q)
    ensures Perm(s).start < q.address + Done(log) <= |now.regs| == |was.regs| && |now.mem| == SPACE
    ensures forall a :: q.address <= a < q.address + Done(log) ==>
      DeviceWord(now.mem, a) == now.regs[a] && (a >= q.address + Count(q) ==> now.regs[a] == was.regs[a])
  {
    hide Served, PlanOf, Perm, RunsInto, InLog;
    BoardHasDeviceBlocks(s, hs);
    FinishedWriteRegisters(s, q, now, was, log);
    RequestTouches(s, hs, q);
    PlanOfOccupies(s, q, Perm(s).start);
    hide Board;
    NothingInLog(Perm(s).start);
  }

  /** While the permanent data is locked, a read of which no position crosses does not fetch it, and one
      that is accepted does not ask for it. */
  lemma LockedReadSparesPermanentData(s: VirtualRTUSlave, hs: BoardHandlers, q: Request,
                                      now: Snapshot, was: Snapshot, accepted: bool, log: seq<Segment>, a: u16)
    requires Board(s, hs) && q.fc == FC_READ_HOLDING_REGISTERS && Served(s, q, now, was, accepted, log)
    requires |was.regs| == s.NbRegisters()
    requires hs.perm in was.ranges && was.ranges[hs.perm] == Ram(hs)
    requires forall p: u16 :: !Crosses(s.holding, Perm(s), q, p)
    requires Covers(Perm(s), a)
    ensures a < |was.regs| == |now.regs| && now.regs[a] == was.regs[a]
    ensures accepted ==> !(q.address <= a < q.address + q.quantity)
  {
    BoardHasDeviceBlocks(s, hs);
    hide Board, PlanOf, Perm, Crosses, Allowed, BoundsServed, BoundsAfter, InLog;
    TouchesWhen(s, hs, q, ReadAccess, was, log);
    assert !InLog(log, a);
    if accepted {
      PlanOfOccupies(s, q, a);
    }
  }

  /** An accepted read that runs into the permanent data fetches it, locked or not. */
  lemma ReadHitsPermanentData(s: VirtualRTUSlave, hs: BoardHandlers, q: Request,
                              now: Snapshot, was: Snapshot, log: seq<Segment>)
    requires Board(s, hs) && q.fc == FC_READ_HOLDING_REGISTERS && Served(s, q, now, was, true, log)
    requires |was.regs| == s.NbRegisters() && RunsInto(s.holding, Perm(s), q)
    ensures Agrees(now, Perm(s).start)
  {
    BoardHasDeviceBlocks(s, hs);
    hide PlanFrom, Allowed, BoundsAfter, RunsInto, Perm, Board, InLog;
    RequestTouches(s, hs, q);
  }
}
