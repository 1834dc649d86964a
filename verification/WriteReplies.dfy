/** What the reply to a write says about the device. It is sent before the write pass: a write can be
    acknowledged and lost, or refused and carried out all the same. */
module WriteReplies {
  import opened Words
  import opened I2C
  import opened ByteHandlers
  import opened Dispatch
  import opened VirtualSlaves
  import opened Connections
  import opened Serving
  import opened CacheRuns
  import opened GenericSlaves
  import opened IOBoards
  import opened BoardData
  import opened Overruns

  // ---- any slave ----

  /** The request was served and answered like this. */
  ghost predicate Exchange(s: VirtualRTUSlave, q: Request, now: Snapshot, was: Snapshot, accepted: bool,
                           log: seq<Segment>, reply: Reply)
    requires s.Valid()
  {
    && Served(s, q, now, was, accepted, log) && Replied(q, accepted, reply, now.regs, now.input)
    && |was.regs| == s.NbRegisters() && |was.input| == s.NbInput() && |was.mem| == SPACE
  }

  /** An acknowledgement says that the check let the write through and that the table has its payload. */
  lemma StoredMeans(s: VirtualRTUSlave, q: Request, now: Snapshot, was: Snapshot, accepted: bool, log: seq<Segment>,
                    reply: Reply)
    requires s.Valid() && Exchange(s, q, now, was, accepted, log, reply)
    ensures reply == Stored <==> IsWrite(q) && accepted && Storable(q, s.NbRegisters())
    ensures reply == Stored ==>
      1 <= Count(q) <= 123 && |q.payload| == Count(q) && q.address + Count(q) <= s.NbRegisters()
    ensures reply == Stored ==> AllAllowed(s, q, CheckAccess, was)
    ensures reply == Stored ==>
      |now.regs| == |was.regs| && forall k :: 0 <= k < |q.payload| ==> now.regs[q.address + k] == q.payload[k]
  {
    hide PlanOf, AllAllowed, Allowed, Flushed, BoundsServed, Outcome;
  }

  /** On a working bus a write that the check accepts is finished, whatever it is answered, exactly when the
      write pass lets all of it through too. */
  lemma FinishedWhen(s: VirtualRTUSlave, q: Request, now: Snapshot, was: Snapshot, log: seq<Segment>)
    requires s.Valid() && IsWrite(q) && s.comm.working && Served(s, q, now, was, true, log)
    ensures log == PlanOf(s, q).segs <==> AllAllowed(s, q, WriteAccess, was)
  {
    hide PlanOf, Allowed, Flushed, BoundsServed;
    if AllAllowed(s, q, WriteAccess, was) {
      AllowedWriteFinishes(s, q, now, was, true, log);
    }
  }

  /** A finished write that is answered by an exception leaves the device alone exactly when all its
      registers agreed with the device before: it stores the old table. */
  lemma RefusedHarmlessWhen(s: VirtualRTUSlave, q: Request, now: Snapshot, was: Snapshot, accepted: bool,
                            log: seq<Segment>, reply: Reply)
    requires s.Valid() && Exchange(s, q, now, was, accepted, log, reply)
    requires IsWrite(q) && accepted && log == PlanOf(s, q).segs && reply != Stored
    ensures now.regs == was.regs
    ensures now.mem == was.mem <==> forall a :: q.address <= a < q.address + Done(log) ==> Agrees(was, a)
  {
    StoredMeans(s, q, now, was, accepted, log, reply);
    RefusedTable(s, q, now, was, log);
    hide PlanOf, Agrees, Flushed, Allowed, Served, Replied;
    FinishedWriteRegisters(s, q, now, was, log);
    DoneNothing();
    forall j | 0 <= j < |was.mem|
      ensures now.mem[j] == if 2 * q.address <= j < 2 * (q.address + Done(log)) then RegByte(was.regs, j)
                            else was.mem[j]
    {
      FinishedWriteBytes(s, q, now, was, log, j);
    }
    StoreIsHarmlessWhen(now.mem, was, q.address, q.address + Done(log));
  }

  /** Storing registers that agree with the device changes nothing, and storing any other does. */
  lemma StoreIsHarmlessWhen(mem: seq<u8>, was: Snapshot, first: nat, end: nat)
    requires |mem| == |was.mem| && 2 * |was.regs| <= |was.mem| && (first < end ==> end <= |was.regs|)
    requires forall j :: 0 <= j < |was.mem| ==>
      mem[j] == if 2 * first <= j < 2 * end then RegByte(was.regs, j) else was.mem[j]
    ensures mem == was.mem <==> forall a :: first <= a < end ==> Agrees(was, a)
  {
    forall a | first <= a < end
      ensures Agrees(was, a) <==> mem[2 * a] == was.mem[2 * a] && mem[2 * a + 1] == was.mem[2 * a + 1]
    {
      AgreesByBytes(was, a);
    }
    hide Agrees;
    if forall a :: first <= a < end ==> Agrees(was, a) {
      forall j | 0 <= j < |was.mem|
        ensures mem[j] == was.mem[j]
      {
        if 2 * first <= j < 2 * end {
          assert Agrees(was, j / 2);
          assert j == 2 * (j / 2) || j == 2 * (j / 2) + 1;
        }
      }
    }
  }

  lemma RefusedTable(s: VirtualRTUSlave, q: Request, now: Snapshot, was: Snapshot, log: seq<Segment>)
    requires s.Valid() && IsWrite(q) && Served(s, q, now, was, true, log) && !Storable(q, |was.regs|)
    ensures now.regs == was.regs
  {
    hide PlanOf, AllAllowed, Allowed, Flushed, BoundsServed, Outcome;
  }

  // ---- generic slaves ----

  /** The reply to every write at a generic slave. */
  lemma GenericStoredWhen(s: VirtualRTUSlave, h: MultiByteHandler, q: Request, now: Snapshot, was: Snapshot,
                          accepted: bool, log: seq<Segment>, reply: Reply)
    requires IsGeneric(s, h) && Exchange(s, q, now, was, accepted, log, reply)
    requires q.fc == 16 || (q.fc == 6 && |q.payload| == 1)
    ensures reply == Stored <==>
      && 1 <= |q.payload| <= 123 && (q.fc == 16 ==> q.quantity == |q.payload|)
      && q.address <= 126 && q.address + |q.payload| <= 128
  {
    StoredMeans(s, q, now, was, accepted, log, reply);
    GenericWriteAccepted(s, h, q, was);
    hide PlanOf, Allowed, AllAllowed, Replied, Flushed, BoundsServed, Outcome;
  }

  /** On a generic slave with a working bus, an acknowledged write has reached the device. */
  lemma GenericStoredReachesDevice(s: VirtualRTUSlave, h: MultiByteHandler, q: Request, now: Snapshot, was: Snapshot,
                                   accepted: bool, log: seq<Segment>, reply: Reply, k: nat)
    requires IsGeneric(s, h) && s.comm.working && Exchange(s, q, now, was, accepted, log, reply) && reply == Stored
    requires k < |q.payload|
    ensures log == PlanOf(s, q).segs && |now.mem| == SPACE && q.address + k < 128
    ensures DeviceWord(now.mem, q.address + k) == q.payload[k]
  {
    StoredMeans(s, q, now, was, accepted, log, reply);
    GenericWriteAccepted(s, h, q, was);
    hide PlanOf, Allowed, AllAllowed, Served, Replied, IsGeneric;
    FinishedWhen(s, q, now, was, log);
    FinishedWriteRegisters(s, q, now, was, log);
    FinishedWriteReachesDevice(s, q, now, was, log, k);
  }

  // ---- boards ----

  /** A call that the check lets through is let through by the write pass exactly when it ends inside the
      table. */
  lemma CallWrittenWhen(s: VirtualRTUSlave, hs: BoardHandlers, q: Request, c: Snapshot, i: nat)
    requires Board(s, hs) && IsWrite(q) && i < |PlanOf(s, q).segs| && |c.regs| == s.NbRegisters()
    requires Allowed(CheckAccess, PlanOf(s, q).segs[i], q.fc, c)
    ensures var seg := PlanOf(s, q).segs[i];
      Allowed(WriteAccess, seg, q.fc, c) <==> seg.start + seg.len <= s.NbRegisters()
  {
    var seg, rem := PlanOf(s, q).segs[i], q.address + Count(q) - PlanOf(s, q).segs[i].start;
    PlanSegment(s, q, i);
    LookupFits(s, q.fc, seg.start, rem);
    WordHandlerFound(s, hs, seg.start, rem);
    hide Board, PlanOf, Lookup;
  }

  lemma WordHandlerFound(s: VirtualRTUSlave, hs: BoardHandlers, p: u16, rem: u16)
    requires Board(s, hs) && Lookup(s.holding, p, rem).Found?
    ensures WordHandler(Lookup(s.holding, p, rem).handler)
  {
    if p !in s.holding.handlers {
      ScanFindsBlock(s.holding.blocks, p, rem, |s.holding.blocks|);
    }
  }

  /** The write pass lets an accepted write through exactly when its calls end inside the table. */
  lemma BoardWriteAllowedWhen(s: VirtualRTUSlave, hs: BoardHandlers, q: Request, c: Snapshot)
    requires Board(s, hs) && IsWrite(q) && AllAllowed(s, q, CheckAccess, c)
    requires |c.regs| == s.NbRegisters() && |c.input| == s.NbInput()
    ensures var segs := PlanOf(s, q).segs;
      AllAllowed(s, q, WriteAccess, c) <==> segs == [] || q.address + Done(segs) <= s.NbRegisters()
  {
    assert s.Valid();
    hide Board, PlanFrom, Allowed;
    var segs := PlanOf(s, q).segs;
    forall i | 0 <= i < |segs|
      ensures Allowed(WriteAccess, segs[i], q.fc, c) <==> segs[i].start + segs[i].len <= s.NbRegisters()
      ensures segs[i].start + segs[i].len <= q.address + Done(segs)
      ensures i == |segs| - 1 ==> segs[i].start + segs[i].len == q.address + Done(segs)
    {
      CallWrittenWhen(s, hs, q, c, i);
      SegmentEnds(s, q, i);
    }
  }

  lemma SegmentEnds(s: VirtualRTUSlave, q: Request, i: nat)
    requires s.Valid() && OnHolding(q) && i < |PlanOf(s, q).segs|
    ensures var segs := PlanOf(s, q).segs;
      && segs[i].start + segs[i].len <= q.address + Done(segs)
      && (i == |segs| - 1 ==> segs[i].start + segs[i].len == q.address + Done(segs))
  {
    hide PlanFrom, Lookup, Units;
    var segs := PlanOf(s, q).segs;
    PlanIsConsecutive(s.holding, q.address, q.address + Count(q), i);
    assert segs[..i + 1][..i] == segs[..i];
    assert segs[..i + 1] + segs[i + 1..] == segs;
    DoneConcat(segs[..i + 1], segs[i + 1..]);
    if i == |segs| - 1 {
      assert segs[..i + 1] == segs;
    }
  }

  /** On a board with a working bus, a write that the check accepts is finished exactly when its calls end
      inside the table. */
  lemma BoardWriteFinishesWhen(s: VirtualRTUSlave, hs: BoardHandlers, q: Request, now: Snapshot, was: Snapshot,
                               log: seq<Segment>)
    requires Board(s, hs) && s.comm.working && IsWrite(q) && Served(s, q, now, was, true, log)
    requires |was.regs| == s.NbRegisters() && |was.input| == s.NbInput()
    ensures var segs := PlanOf(s, q).segs;
      log == segs <==> segs == [] || q.address + Done(segs) <= s.NbRegisters()
  {
    assert s.Valid();
    hide Board, PlanOf, Allowed, AllAllowed, BoundsServed, Flushed;
    FinishedWhen(s, q, now, was, log);
    BoardWriteAllowedWhen(s, hs, q, was);
  }

  /** On a board with a working bus, an acknowledged write without a badly clipped position has reached the
      device. */
  lemma UnclippedStoredReachesDevice(s: VirtualRTUSlave, hs: BoardHandlers, q: Request, now: Snapshot, was: Snapshot,
                                     accepted: bool, log: seq<Segment>, reply: Reply, k: nat)
    requires Board(s, hs) && s.comm.working && Exchange(s, q, now, was, accepted, log, reply) && reply == Stored
    requires Unclipped(s.holding, q.address, q.address + Count(q)) && k < |q.payload|
    ensures log == PlanOf(s, q).segs && |now.mem| == SPACE && q.address + k < 0x8000
    ensures DeviceWord(now.mem, q.address + k) == q.payload[k]
  {
    assert s.Valid();
    StoredMeans(s, q, now, was, accepted, log, reply);
    hide Board, PlanOf, Allowed, Served, Replied, Unclipped;
    UnclippedPlanIsExact(s, hs, q);
    BoardWriteFinishesWhen(s, hs, q, now, was, log);
    FinishedWriteRegisters(s, q, now, was, log);
    FinishedWriteReachesDevice(s, q, now, was, log, k);
  }

  lemma UnclippedPlanIsExact(s: VirtualRTUSlave, hs: BoardHandlers, q: Request)
    requires Board(s, hs) && OnHolding(q) && Unclipped(s.holding, q.address, q.address + Count(q))
    ensures PlanOf(s, q).complete ==> Done(PlanOf(s, q).segs) == Count(q)
  {
    BoardHasDeviceBlocks(s, hs);
    assert PlanOf(s, q) == PlanFrom(s.holding, q.address, q.address + Count(q));
    hide Board, PlanOf, PlanFrom, Unclipped, DeviceBlocks, TableValid;
    UnclippedIsExact(s.holding, q.address, q.address + Count(q));
  }

  /** A write to functions, names or shared data whose first call takes all of it is accepted, and on a
      working bus it is finished exactly when that call, of the clipped count, ends inside the table. */
  lemma HoldingWriteFinishesWhen(s: VirtualRTUSlave, hs: BoardHandlers, q: Request, now: Snapshot, was: Snapshot,
                                 accepted: bool, log: seq<Segment>, i: nat)
    requires Board(s, hs) && s.comm.working && IsWrite(q) && Served(s, q, now, was, accepted, log)
    requires |was.regs| == s.NbRegisters() && |was.input| == s.NbInput() && hs.holding in was.ranges
    requires Count(q) > 0 && HoldingBlock(i)
    requires Covers(s.holding.blocks[i], q.address) && q.address !in s.holding.handlers
    requires Count(q) <= Clip(s.holding.blocks[i].end, q.address, Count(q)) < 0x8000
    ensures accepted
    ensures log == PlanOf(s, q).segs
      <==> q.address + Clip(s.holding.blocks[i].end, q.address, Count(q)) <= s.NbRegisters()
  {
    HoldingBlockAccepted(s, hs, q, was, i);
    hide Board, PlanOf, Allowed, BoundsServed, Flushed, Clip, AllAllowed;
    BoardWriteFinishesWhen(s, hs, q, now, was, log);
    DoneOne(PlanOf(s, q).segs[0]);
  }
}
