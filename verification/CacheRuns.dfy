/** The register table as a cache of the device, over whole requests and over runs of them. */
module CacheRuns {
  import opened Words
  import opened I2C
  import opened RegisterMapping
  import opened ByteHandlers
  import opened Dispatch
  import opened VirtualSlaves
  import opened Connections
  import opened Serving

  lemma NothingInLog(a: int)
    ensures !InLog([], a)
  {
  }

  /** The segments of a plan over holding registers occupy the registers from its position on, one
      after the other. */
  lemma {:induction false} PlanOccupies(s: VirtualRTUSlave, cur: u16, bound: nat, a: int)
    requires s.Valid() && bound - cur <= 0xFFFF
    ensures var p := PlanFrom(s.holding, cur, bound);
      InLog(p.segs, a) <==> cur <= a < cur + Done(p.segs)
    decreases 0x1_0000 - cur
  {
    hide PlanFrom, Lookup, InLog;
    assert s.holding == TableOf(s, FC_READ_HOLDING_REGISTERS);
    NothingInLog(a);
    PlanTurn(s.holding, cur, bound);
    var p := PlanFrom(s.holding, cur, bound);
    if p.segs != [] {
      var rest := PlanFrom(s.holding, cur + p.segs[0].len, bound);
      PlanHead(s.holding, cur, bound);
      LookupFits(s, FC_READ_HOLDING_REGISTERS, cur, bound - cur);
      PlanOccupies(s, cur + p.segs[0].len, bound, a);
      InLogConcat([p.segs[0]], rest.segs);
      InLogOne(p.segs[0]);
      DoneConcat([p.segs[0]], rest.segs);
      DoneOne(p.segs[0]);
    }
  }

  lemma PlanOfOccupies(s: VirtualRTUSlave, q: Request, a: int)
    requires s.Valid() && Supported(q.fc) && q.fc != FC_READ_INPUT_REGISTERS
    ensures InLog(PlanOf(s, q).segs, a) <==> q.address <= a < q.address + Done(PlanOf(s, q).segs)
    ensures PlanOf(s, q).complete <==> Done(PlanOf(s, q).segs) >= Count(q)
  {
    hide PlanFrom, InLog;
    PlanOccupies(s, q.address, q.address + Count(q), a);
    PlanCompleteWhenCovered(s.holding, q.address, q.address + Count(q));
  }

  /** An accepted read leaves the whole requested range equal to the device, however many segments
      it took; the device is untouched, and registers outside the segments are. */
  lemma AcceptedReadFetchesRange(s: VirtualRTUSlave, q: Request, now: Snapshot, was: Snapshot, log: seq<Segment>)
    requires s.Valid() && q.fc == FC_READ_HOLDING_REGISTERS
    requires |was.regs| == s.NbRegisters() && |was.input| == s.NbInput()
    requires Served(s, q, now, was, true, log)
    ensures now.mem == was.mem && now.input == was.input
    ensures forall a :: q.address <= a < q.address + q.quantity ==> Agrees(now, a)
    ensures forall a :: 0 <= a < |was.regs| && !(q.address <= a < q.address + Done(log)) ==> now.regs[a] == was.regs[a]
  {
    if q.quantity > 0 {
      AcceptedInTable(s, q, now, was, log);
    }
    forall a | 0 <= a < |was.regs|
      ensures q.address <= a < q.address + q.quantity ==> Agrees(now, a)
      ensures !(q.address <= a < q.address + Done(log)) ==> now.regs[a] == was.regs[a]
    {
      PlanOfOccupies(s, q, a);
    }
    InputUntouched(now.input, was.input, was.mem);
  }

  lemma InputUntouched(now: seq<u16>, was: seq<u16>, mem: seq<u8>)
    requires Fetched(now, was, mem, [])
    ensures now == was
  {
  }

  /** A write whose last pass finished every segment leaves the payload in table and device. */
  lemma FinishedWriteReachesDevice(s: VirtualRTUSlave, q: Request, now: Snapshot, was: Snapshot, log: seq<Segment>,
                                   k: nat)
    requires s.Valid() && IsWrite(q) && |was.regs| == s.NbRegisters() && |was.mem| == SPACE
    requires Served(s, q, now, was, true, log) && log == PlanOf(s, q).segs
    requires Storable(q, s.NbRegisters()) && k < |q.payload|
    ensures now.regs[q.address + k] == q.payload[k] == DeviceWord(now.mem, q.address + k)
  {
    hide BoundsServed, Allowed, PlanFrom;
    var a := q.address + k;
    PlanOfOccupies(s, q, a);
    assert InLog(log, a) && 2 * a / 2 == a && (2 * a + 1) / 2 == a;
    assert log + Next(PlanOf(s, q), log) == log;
    AgreesByBytes(now, a);
  }

  /** The device after a write that was finished completely, byte by byte. */
  lemma FinishedWriteBytes(s: VirtualRTUSlave, q: Request, now: Snapshot, was: Snapshot, log: seq<Segment>, j: nat)
    requires s.Valid() && IsWrite(q) && |was.regs| == s.NbRegisters() && |was.input| == s.NbInput() && j < |was.mem|
    requires Served(s, q, now, was, true, log) && log == PlanOf(s, q).segs
    ensures |now.mem| == |was.mem| && |now.regs| == |was.regs| && (log != [] ==> q.address + Done(log) <= |was.regs|)
    ensures now.mem[j] == if 2 * q.address <= j < 2 * (q.address + Done(log)) then RegByte(now.regs, j) else was.mem[j]
  {
    hide PlanFrom, Allowed;
    PlanOfOccupies(s, q, j / 2);
    FinishedFits(s, q, was, log);
    assert log + Next(PlanOf(s, q), log) == log;
  }

  lemma DoneNothing()
    ensures Done([]) == 0
  {
  }

  /** The segments of a finished write end inside the table. */
  lemma FinishedFits(s: VirtualRTUSlave, q: Request, was: Snapshot, log: seq<Segment>)
    requires s.Valid() && IsWrite(q) && |was.regs| == s.NbRegisters() && |was.input| == s.NbInput()
    requires log == PlanOf(s, q).segs && forall i :: 0 <= i < |log| ==> Allowed(WriteAccess, log[i], q.fc, was)
    ensures log == [] || q.address + Done(log) <= |was.regs|
  {
    hide PlanFrom, Allowed;
    if log != [] {
      AllowedInTable(s, q, WriteAccess, was, |log| - 1);
      PlanIsConsecutive(s.holding, q.address, q.address + Count(q), |log| - 1);
    }
  }

  /** The same by registers: all of its segments agree with the table, of which only the payload is new. */
  lemma FinishedWriteRegisters(s: VirtualRTUSlave, q: Request, now: Snapshot, was: Snapshot, log: seq<Segment>)
    requires s.Valid() && IsWrite(q) && |was.regs| == s.NbRegisters() && |was.input| == s.NbInput()
    requires |was.mem| == SPACE && Served(s, q, now, was, true, log) && log == PlanOf(s, q).segs
    ensures PlanOf(s, q).complete && Count(q) <= Done(log)
    ensures |now.mem| == SPACE && |now.regs| == |was.regs| && (log != [] ==> q.address + Done(log) <= |was.regs|)
    ensures forall a :: q.address <= a < q.address + Done(log) ==>
      DeviceWord(now.mem, a) == now.regs[a] && (a >= q.address + Count(q) ==> now.regs[a] == was.regs[a])
  {
    hide PlanFrom, Allowed, Flushed;
    PlanCompleteWhenCovered(s.holding, q.address, q.address + Count(q));
    BeyondPayload(s, q, now, was, log);
    FinishedFits(s, q, was, log);
    hide Served;
    DoneNothing();
    forall a | q.address <= a < q.address + Done(log)
      ensures DeviceWord(now.mem, a) == now.regs[a] && (a >= q.address + Count(q) ==> now.regs[a] == was.regs[a])
    {
      FinishedWriteBytes(s, q, now, was, log, 2 * a);
      FinishedWriteBytes(s, q, now, was, log, 2 * a + 1);
      assert RegByte(now.regs, 2 * a) == Hi(now.regs[a]) && RegByte(now.regs, 2 * a + 1) == Lo(now.regs[a]);
      assert RegByte(was.regs, 2 * a) == Hi(was.regs[a]) && RegByte(was.regs, 2 * a + 1) == Lo(was.regs[a]);
    }
  }

  /** A write finished completely stores the table on all its segments, the payload registers and any
      that a bad clip adds behind them. It leaves the device bytes outside the payload alone exactly
      when the added registers agreed with the device before. */
  lemma FinishedWriteConfinedWhen(s: VirtualRTUSlave, q: Request, now: Snapshot, was: Snapshot, log: seq<Segment>)
    requires s.Valid() && IsWrite(q) && |was.regs| == s.NbRegisters() && |was.input| == s.NbInput()
    requires 2 * |was.regs| <= |was.mem|
    requires Served(s, q, now, was, true, log) && log == PlanOf(s, q).segs
    ensures (forall j :: 0 <= j < |was.mem| && !(2 * q.address <= j < 2 * (q.address + Count(q))) ==>
               now.mem[j] == was.mem[j])
       <==> (forall a :: q.address + Count(q) <= a < q.address + Done(log) ==> Agrees(was, a))
  {
    hide PlanOf, Flushed, Allowed, Agrees, Served;
    var end := q.address + Count(q);
    BeyondPayload(s, q, now, was, log);
    FinishedFits(s, q, was, log);
    DoneNothing();
    forall j | 0 <= j < |was.mem|
      ensures now.mem[j] == if 2 * q.address <= j < 2 * (q.address + Done(log)) then RegByte(now.regs, j)
                            else was.mem[j]
    {
      FinishedWriteBytes(s, q, now, was, log, j);
    }
    forall a | end <= a < q.address + Done(log)
      ensures Agrees(was, a) <==> now.mem[2 * a] == was.mem[2 * a] && now.mem[2 * a + 1] == was.mem[2 * a + 1]
    {
      AgreesByBytes(was, a);
    }
    forall j | 2 * end <= j < 2 * (q.address + Done(log)) && Agrees(was, j / 2)
      ensures now.mem[j] == was.mem[j]
    {
      assert j == 2 * (j / 2) || j == 2 * (j / 2) + 1;
    }
  }

  lemma BeyondPayload(s: VirtualRTUSlave, q: Request, now: Snapshot, was: Snapshot, log: seq<Segment>)
    requires s.Valid() && IsWrite(q) && Served(s, q, now, was, true, log)
    ensures |now.regs| == |was.regs| && |now.mem| == |was.mem|
    ensures forall i :: 0 <= i < |log| ==> Allowed(WriteAccess, log[i], q.fc, was)
    ensures forall j :: 2 * (q.address + Count(q)) <= j < 2 * |was.regs| ==>
      RegByte(now.regs, j) == RegByte(was.regs, j)
  {
  }

  /** Finished or not, a write whose plan is exact touches no device byte outside the payload. */
  lemma ExactWriteIsConfined(s: VirtualRTUSlave, q: Request, now: Snapshot, was: Snapshot, log: seq<Segment>)
    requires s.Valid() && IsWrite(q) && Served(s, q, now, was, true, log)
    requires Done(PlanOf(s, q).segs) == Count(q)
    ensures forall j :: 0 <= j < |was.mem| && !(2 * q.address <= j < 2 * (q.address + Count(q))) ==>
      now.mem[j] == was.mem[j]
  {
    hide PlanFrom, InLog, Allowed;
    forall j | 0 <= j < |was.mem| && !(2 * q.address <= j < 2 * (q.address + Count(q)))
      ensures now.mem[j] == was.mem[j]
    {
      PlanOfOccupies(s, q, j / 2);
      VisitedInPlan(s, q, was, log, j / 2);
    }
  }

  /** What a write pass finished or attempted belongs to the plan. */
  lemma VisitedInPlan(s: VirtualRTUSlave, q: Request, c: Snapshot, log: seq<Segment>, a: int)
    requires s.Valid() && log <= PlanOf(s, q).segs && PlanOf(s, q).complete
    ensures var plan := PlanOf(s, q);
      InLog(log + Attempted(q.fc, c, Next(plan, log)), a) || InLog(log, a) ==> InLog(plan.segs, a)
  {
    var plan := PlanOf(s, q);
    var tried := Attempted(q.fc, c, Next(plan, log));
    var visited := log + tried;
    assert visited <= plan.segs;
    InLogConcat(visited, plan.segs[|visited|..]);
    assert visited + plan.segs[|visited|..] == plan.segs;
    InLogConcat(log, tried);
  }

  /** Whatever transfers fail, a write without a badly clipped position touches no device byte outside
      the payload. */
  lemma UnclippedWriteIsConfined(s: VirtualRTUSlave, q: Request, now: Snapshot, was: Snapshot, accepted: bool,
                                 log: seq<Segment>)
    requires s.Valid() && IsWrite(q) && Served(s, q, now, was, accepted, log)
    requires DeviceBlocks(s.holding) && Unclipped(s.holding, q.address, q.address + Count(q))
    ensures forall j :: 0 <= j < |was.mem| && !(2 * q.address <= j < 2 * (q.address + Count(q))) ==>
      now.mem[j] == was.mem[j]
  {
    hide PlanFrom, DeviceBlocks, Unclipped, Allowed, Flushed;
    if accepted {
      UnclippedIsExact(s.holding, q.address, q.address + Count(q));
      ExactWriteIsConfined(s, q, now, was, log);
    }
  }

  /** A finished write whose first position is badly clipped stores registers of the table behind the
      payload as well. */
  lemma ClippedWriteOverruns(s: VirtualRTUSlave, q: Request, now: Snapshot, was: Snapshot, log: seq<Segment>)
    requires s.Valid() && IsWrite(q) && |was.regs| == s.NbRegisters() && |was.input| == s.NbInput()
    requires |was.mem| == SPACE
    requires Served(s, q, now, was, true, log) && log == PlanOf(s, q).segs
    requires DeviceBlocks(s.holding) && Count(q) > 0 && BadClip(s.holding, q.address, Count(q))
    ensures q.address + Count(q) < q.address + Done(log) <= |was.regs|
    ensures forall a :: q.address + Count(q) <= a < q.address + Done(log) ==> DeviceWord(now.mem, a) == was.regs[a]
  {
    hide PlanFrom, DeviceBlocks, BadClip, Allowed, Flushed;
    ClippedIsOverrun(s.holding, q.address, q.address + Count(q));
    FinishedWriteRegisters(s, q, now, was, log);
  }

  /** A write whose first segment the write pass refuses leaves the device as it was, although its
      payload may already be in the table. */
  lemma RefusedWriteLeavesDevice(s: VirtualRTUSlave, q: Request, now: Snapshot, was: Snapshot, log: seq<Segment>)
    requires s.Valid() && IsWrite(q) && Served(s, q, now, was, true, log)
    requires PlanOf(s, q).segs != [] && !Allowed(WriteAccess, PlanOf(s, q).segs[0], q.fc, was)
    ensures log == [] && now.mem == was.mem && now.regs == WithPayload(q, was.regs)
  {
    assert log == [];
    assert forall a :: !InLog([], a);
    assert [] + Attempted(q.fc, was, Next(PlanOf(s, q), log)) == [];
  }

  // ---- runs ----

  /** One served request: the state before and after it, the result of its first pass, the segments
      its last pass finished, and its reply. */
  datatype Step = Step(q: Request, before: Snapshot, after: Snapshot, accepted: bool, log: seq<Segment>, reply: Reply)

  ghost function CleanOver(clean: iset<int>, nbRegisters: nat, history: seq<Step>): iset<int> {
    if history == [] then clean
    else
      CleanStep(CleanOver(clean, nbRegisters, history[..|history| - 1]), nbRegisters, history[|history| - 1])
  }

  ghost predicate StepOk(s: VirtualRTUSlave, step: Step)
    requires s.Valid()
  {
    && Served(s, step.q, step.after, step.before, step.accepted, step.log)
    && Replied(step.q, step.accepted, step.reply, step.after.regs, step.after.input)
  }

  /** The steps lead from `was` to `now`, each from where the one before it ended. */
  ghost predicate IsRun(s: VirtualRTUSlave, now: Snapshot, was: Snapshot, history: seq<Step>)
    requires s.Valid()
    decreases history
  {
    if history == [] then now == was
    else
      var last := history[|history| - 1];
      last.after == now && StepOk(s, last) && IsRun(s, last.before, was, history[..|history| - 1])
  }

  ghost function CleanStep(clean: iset<int>, nbRegisters: nat, step: Step): iset<int> {
    if step.q.fc == FC_READ_HOLDING_REGISTERS || (IsWrite(step.q) && step.accepted)
    then CleanAfter(step.q, clean, nbRegisters, step.log) else clean
  }

  lemma CleanOverSnoc(clean: iset<int>, nbRegisters: nat, history: seq<Step>, step: Step)
    ensures CleanOver(clean, nbRegisters, history + [step])
         == CleanStep(CleanOver(clean, nbRegisters, history), nbRegisters, step)
  {
    assert (history + [step])[..|history|] == history;
  }

  lemma IsRunSnoc(s: VirtualRTUSlave, was: Snapshot, history: seq<Step>, step: Step)
    requires s.Valid() && IsRun(s, step.before, was, history) && StepOk(s, step)
    ensures IsRun(s, step.after, was, history + [step])
  {
    assert (history + [step])[..|history|] == history;
  }

  /** Over every run of requests on a slave, whatever transfers fail, the registers of the clean set
      equal their device bytes. The clean set grows by the finished segments and shrinks by payload
      registers that no segment finished. Every request does to tables, device and bounds what `Served`
      says, and is answered as `Replied` says, from where the one before it left off. */
  method ServeAll(s: VirtualRTUSlave, qs: seq<Request>) returns (replies: seq<Reply>, ghost history: seq<Step>)
    requires s.Valid() && s.CacheAgrees() && forall i :: 0 <= i < |qs| ==> qs[i].slave == s.address
    modifies s.mapping.tabRegisters, s.mapping.tabInput, s.comm.memory[s.address]
    modifies s.Handlers()`range, s.comm`attempts, s`clean
    ensures s.CacheAgrees() && s.clean == CleanOver(old(s.clean), s.NbRegisters(), history)
    ensures |replies| == |history| == |qs|
    ensures forall i :: 0 <= i < |qs| ==> history[i].q == qs[i] && history[i].reply == replies[i]
    ensures IsRun(s, s.Contents(), old(s.Contents()), history)
  {
    hide Served, Replied, CleanAfter, PlanOf, AllAllowed, Agrees, StepOk, CleanOver, IsRun;
    replies, history := [], [];
    RunStarts(s, s.Contents(), s.clean);
    for i := 0 to |qs|
      invariant s.CacheAgrees() && s.clean == CleanOver(old(s.clean), s.NbRegisters(), history)
      invariant |replies| == |history| == i
      invariant forall k :: 0 <= k < i ==> history[k].q == qs[k] && history[k].reply == replies[k]
      invariant IsRun(s, s.Contents(), old(s.Contents()), history)
    {
      ghost var step;
      var reply;
      reply, step := ServeStep(s, qs[i]);
      CleanOverSnoc(old(s.clean), s.NbRegisters(), history, step);
      IsRunSnoc(s, old(s.Contents()), history, step);
      replies, history := replies + [reply], history + [step];
    }
  }

  method ServeStep(s: VirtualRTUSlave, q: Request) returns (reply: Reply, ghost step: Step)
    requires s.Valid() && q.slave == s.address && s.CacheAgrees()
    modifies s.mapping.tabRegisters, s.mapping.tabInput, s.comm.memory[s.address]
    modifies s.Handlers()`range, s.comm`attempts, s`clean
    ensures s.CacheAgrees() && s.clean == CleanStep(old(s.clean), s.NbRegisters(), step)
    ensures step.q == q && step.before == old(s.Contents()) && step.after == s.Contents() && step.reply == reply
    ensures StepOk(s, step)
  {
    hide Served, Replied, CleanAfter, Agrees;
    ghost var before, accepted, log := s.Contents(), false, [];
    reply, accepted, log := Serve(s, q);
    step := Step(q, before, s.Contents(), accepted, log, reply);
    ServedIsSupported(s, q, s.Contents(), before, accepted, log);
  }

  lemma ServedIsSupported(s: VirtualRTUSlave, q: Request, now: Snapshot, was: Snapshot, accepted: bool,
                          log: seq<Segment>)
    requires s.Valid() && Served(s, q, now, was, accepted, log)
    ensures accepted ==> Supported(q.fc)
  {
  }

  lemma RunStarts(s: VirtualRTUSlave, c: Snapshot, clean: iset<int>)
    requires s.Valid()
    ensures IsRun(s, c, c, []) && CleanOver(clean, s.NbRegisters(), []) == clean
  {
  }

  /** Over every run the bounds of a data handler are those of the RAM data exactly when some write of
      the run locked it or it had them before, and otherwise the ones it had. */
  lemma {:induction false} BoundsOverRun(s: VirtualRTUSlave, now: Snapshot, was: Snapshot, history: seq<Step>,
                                         b: MultiByteHandler)
    requires s.Valid() && IsRun(s, now, was, history) && b in was.ranges && !b.kind.Version?
    ensures b in now.ranges
    ensures now.ranges[b] == if exists i :: 0 <= i < |history| && Locks(s, history[i].q, b)
                             then KindBounds(b.kind, was.ranges[b]) else was.ranges[b]
    decreases history
  {
    hide Locks, Served;
    if history != [] {
      var last, init := history[|history| - 1], history[..|history| - 1];
      BoundsOverRun(s, last.before, was, init, b);
      ServedBounds(s, last.q, last.after, last.before, last.accepted, last.log);
      if i :| 0 <= i < |history| && Locks(s, history[i].q, b) {
        assert i < |init| ==> init[i] == history[i];
      }
    }
  }

  lemma ServedBounds(s: VirtualRTUSlave, q: Request, now: Snapshot, was: Snapshot, accepted: bool, log: seq<Segment>)
    requires s.Valid() && Served(s, q, now, was, accepted, log)
    ensures BoundsServed(s, q, now.ranges, was.ranges)
  {
  }

  /** A register fetched or stored stays clean over the rest of a run that sends it no payload. */
  lemma {:induction false} StaysClean(s: VirtualRTUSlave, clean: iset<int>, history: seq<Step>, rest: seq<Step>, a: int)
    requires a in CleanOver(clean, s.NbRegisters(), history)
    requires forall i :: 0 <= i < |rest| ==>
      !(IsWrite(rest[i].q) && rest[i].q.address <= a < rest[i].q.address + Count(rest[i].q))
    ensures a in CleanOver(clean, s.NbRegisters(), history + rest)
  {
    if rest == [] {
      assert history + rest == history;
    } else {
      var init := rest[..|rest| - 1];
      StaysClean(s, clean, history, init, a);
      assert (history + rest)[..|history + rest| - 1] == history + init;
    }
  }

  /** On a working bus a write that check and write pass let through is accepted and finished. */
  lemma AllowedWriteFinishes(s: VirtualRTUSlave, q: Request, now: Snapshot, was: Snapshot, accepted: bool,
                             log: seq<Segment>)
    requires s.Valid() && IsWrite(q) && s.comm.working && Served(s, q, now, was, accepted, log)
    requires AllAllowed(s, q, WriteAccess, was) && (accepted || AllAllowed(s, q, CheckAccess, was))
    ensures accepted && log == PlanOf(s, q).segs
  {
    hide PlanOf, Allowed, Flushed, BoundsServed;
  }

  /** What is left of `q` at position `p`. */
  function Rest(q: Request, p: u16): Request {
    q.(address := p, quantity := if q.address <= p < q.address + q.quantity then q.address + q.quantity - p else 0)
  }

  /** A pass is let through exactly when its first call is, and what that leaves as a request of its own. */
  lemma AllowedSplits(s: VirtualRTUSlave, q: Request, mode: Mode, c: Snapshot)
    requires s.Valid() && Supported(q.fc) && q.fc != FC_WRITE_SINGLE_REGISTER && PlanOf(s, q).segs != []
    ensures var first := PlanOf(s, q).segs[0];
      && first.start == q.address && first.start + first.len <= 0xFFFF
      && (AllAllowed(s, q, mode, c) <==>
            Allowed(mode, first, q.fc, c) && AllAllowed(s, Rest(q, q.address + first.len), mode, c))
  {
    hide PlanFrom, Allowed;
    var t, bound := TableOf(s, q.fc), q.address + q.quantity;
    PlanTurn(t, q.address, bound);
    var first := PlanOf(s, q).segs[0];
    var p: u16 := q.address + first.len;
    PlanTurn(t, p, bound);
    PlanTurn(t, p, p);
    assert PlanOf(s, Rest(q, p)) == PlanFrom(t, p, bound);
    assert PlanOf(s, q).segs == [first] + PlanOf(s, Rest(q, p)).segs;
    assert forall i :: 0 <= i < |PlanOf(s, Rest(q, p)).segs| ==>
      PlanOf(s, Rest(q, p)).segs[i] == PlanOf(s, q).segs[i + 1];
  }

  /** The values of a read are those of the device. */
  ghost predicate FromDevice(q: Request, values: seq<u16>, mem: seq<u8>) {
    && |values| == q.quantity && 2 * (q.address + q.quantity) <= |mem|
    && forall k :: 0 <= k < q.quantity ==> values[k] == DeviceWord(mem, q.address + k)
  }

  /** On a working bus a read of holding registers is answered exactly when it is not too long and the
      handlers let all of it through, and then with what the device holds. */
  method ReadNow(s: VirtualRTUSlave, q: Request) returns (reply: Reply)
    requires s.Valid() && s.CacheAgrees() && q.slave == s.address && s.comm.working
    requires q.fc == FC_READ_HOLDING_REGISTERS && q.quantity > 0
    modifies s.mapping.tabRegisters, s.mapping.tabInput, s.comm.memory[s.address]
    modifies s.Handlers()`range, s.comm`attempts, s`clean
    ensures s.CacheAgrees() && s.Contents().mem == old(s.Contents()).mem
    ensures reply.Values? <==>
      q.quantity <= MODBUS_MAX_READ_REGISTERS && old(AllAllowed(s, q, ReadAccess, s.Contents()))
    ensures !old(AllAllowed(s, q, ReadAccess, s.Contents())) ==> reply == IllegalAddress
    ensures reply.Values? || reply == IllegalAddress || reply == IllegalValue
    ensures reply.Values? ==> FromDevice(q, reply.values, s.Contents().mem)
    ensures BoundsServed(s, q, s.Contents().ranges, old(s.Contents()).ranges)
  {
    hide Served, CleanAfter, PlanOf, AllAllowed, BoundsServed, Agrees;
    ghost var was, accepted, log := s.Contents(), false, [];
    reply, accepted, log := Serve(s, q);
    ReadDecided(s, q, s.Contents(), was, accepted, log);
    if accepted && q.quantity <= MODBUS_MAX_READ_REGISTERS {
      ReadFromDevice(s, q, s.Contents(), was, log);
    }
  }

  lemma ReadDecided(s: VirtualRTUSlave, q: Request, now: Snapshot, was: Snapshot, accepted: bool, log: seq<Segment>)
    requires s.Valid() && s.comm.working && q.fc == FC_READ_HOLDING_REGISTERS && Served(s, q, now, was, accepted, log)
    ensures accepted <==> AllAllowed(s, q, ReadAccess, was)
    ensures now.mem == was.mem && BoundsServed(s, q, now.ranges, was.ranges)
  {
    hide PlanOf, Allowed, BoundsServed, BoundsAfter, Fetched;
    OutcomeDecides(s, q, ReadAccess, now, was, accepted, log);
  }

  lemma ReadFromDevice(s: VirtualRTUSlave, q: Request, now: Snapshot, was: Snapshot, log: seq<Segment>)
    requires s.Valid() && q.fc == FC_READ_HOLDING_REGISTERS && q.quantity > 0 && Served(s, q, now, was, true, log)
    requires |was.regs| == s.NbRegisters() && |was.input| == s.NbInput() && |now.mem| == SPACE
    requires |now.regs| == |was.regs| && q.address + q.quantity <= |now.regs|
    ensures FromDevice(q, now.regs[q.address..q.address + q.quantity], now.mem)
  {
    hide Served;
    AcceptedReadFetchesRange(s, q, now, was, log);
    var values := now.regs[q.address..q.address + q.quantity];
    forall k | 0 <= k < q.quantity
      ensures values[k] == DeviceWord(now.mem, q.address + k)
    {
      assert Agrees(now, q.address + k);
    }
  }

  /** Some write of `qs` locks handler `b`. */
  ghost predicate LockedBy(s: VirtualRTUSlave, qs: seq<Request>, b: MultiByteHandler)
    requires s.Valid()
  {
    exists i :: 0 <= i < |qs| && Locks(s, qs[i], b)
  }

  /** The bounds that handler `b` has after serving `qs`, if it had the bounds `range` before. */
  ghost function BoundsAfterAll(s: VirtualRTUSlave, qs: seq<Request>, b: MultiByteHandler, range: Range): Range
    requires s.Valid()
  {
    if LockedBy(s, qs, b) then KindBounds(b.kind, range) else range
  }

  lemma BoundsOverRequests(s: VirtualRTUSlave, now: Snapshot, was: Snapshot, history: seq<Step>, qs: seq<Request>,
                           b: MultiByteHandler)
    requires s.Valid() && IsRun(s, now, was, history) && b in was.ranges && !b.kind.Version?
    requires |history| == |qs| && forall i :: 0 <= i < |qs| ==> history[i].q == qs[i]
    ensures b in now.ranges && now.ranges[b] == BoundsAfterAll(s, qs, b, was.ranges[b])
  {
    hide Locks, IsRun;
    BoundsOverRun(s, now, was, history, b);
    if i :| 0 <= i < |qs| && Locks(s, qs[i], b) {
      assert Locks(s, history[i].q, b);
    }
    if i :| 0 <= i < |history| && Locks(s, history[i].q, b) {
      assert Locks(s, qs[i], b);
    }
  }

  /** A read after any run of requests, on a working bus: it is answered exactly when it is not too
      long and the handlers let it through within the bounds that the writes of the run have left them with. */
  method ServeAllThenRead(s: VirtualRTUSlave, qs: seq<Request>, r: Request) returns (reply: Reply, ghost mid: Snapshot)
    requires s.Valid() && s.CacheAgrees() && s.comm.working
    requires r.slave == s.address && forall i :: 0 <= i < |qs| ==> qs[i].slave == s.address
    requires r.fc == FC_READ_HOLDING_REGISTERS && r.quantity > 0
    modifies s.mapping.tabRegisters, s.mapping.tabInput, s.comm.memory[s.address]
    modifies s.Handlers()`range, s.comm`attempts, s`clean
    ensures s.CacheAgrees() && |mid.regs| == s.NbRegisters() && mid.ranges.Keys == s.Handlers()
    ensures forall b :: b in s.Handlers() && !b.kind.Version? ==>
      mid.ranges[b] == BoundsAfterAll(s, qs, b, old(b.range))
    ensures reply.Values? <==> r.quantity <= MODBUS_MAX_READ_REGISTERS && AllAllowed(s, r, ReadAccess, mid)
    ensures reply.Values? ==> FromDevice(r, reply.values, s.Contents().mem)
  {
    hide IsRun, AllAllowed, Agrees, FromDevice, BoundsServed, BoundsAfterAll, CleanOver;
    ghost var was := s.Contents();
    var replies;
    ghost var history;
    replies, history := ServeAll(s, qs);
    mid := s.Contents();
    forall b | b in s.Handlers() && !b.kind.Version?
      ensures mid.ranges[b] == BoundsAfterAll(s, qs, b, was.ranges[b])
    {
      BoundsOverRequests(s, mid, was, history, qs, b);
    }
    reply := ReadNow(s, r);
  }

  /** What was written is what is read: a write that was stored and finished, then an accepted read
      of the same registers, which fetches them from the device again. On a working bus the write is
      finished when the handlers let all of it through. */
  method WriteThenRead(s: VirtualRTUSlave, w: Request, r: Request)
    returns (stored: Reply, reply: Reply, ghost finished: bool)
    requires s.Valid() && s.CacheAgrees() && w.slave == r.slave == s.address
    requires IsWrite(w) && r.fc == FC_READ_HOLDING_REGISTERS
    requires r.address == w.address && r.quantity == Count(w) > 0
    modifies s.mapping.tabRegisters, s.mapping.tabInput, s.comm.memory[s.address]
    modifies s.Handlers()`range, s.comm`attempts, s`clean
    ensures stored == Stored && finished && reply.Values? ==> reply.values == w.payload
    ensures stored == Stored && s.comm.working && old(AllAllowed(s, w, WriteAccess, s.Contents())) ==> finished
  {
    hide Served, CleanAfter, PlanOf, AllAllowed;
    ghost var was, accepted, log := s.Contents(), false, [];
    stored, accepted, log := Serve(s, w);
    ghost var mid := s.Contents();
    finished := log == PlanOf(s, w).segs;
    if stored == Stored && s.comm.working && AllAllowed(s, w, WriteAccess, was) {
      AllowedWriteFinishes(s, w, mid, was, true, log);
    }
    ghost var accepted', log';
    reply, accepted', log' := Serve(s, r);
    if stored == Stored && finished && reply.Values? {
      WrittenIsRead(s, w, r, s.Contents(), mid, was, log, log', reply.values);
    }
  }

  lemma WrittenIsRead(s: VirtualRTUSlave, w: Request, r: Request, now: Snapshot, mid: Snapshot, was: Snapshot,
                      log: seq<Segment>, log': seq<Segment>, values: seq<u16>)
    requires s.Valid() && IsWrite(w) && r.fc == FC_READ_HOLDING_REGISTERS
    requires r.address == w.address && r.quantity == Count(w)
    requires |was.regs| == s.NbRegisters() && |was.mem| == SPACE && |mid.input| == s.NbInput()
    requires Served(s, w, mid, was, true, log) && log == PlanOf(s, w).segs && Storable(w, s.NbRegisters())
    requires Served(s, r, now, mid, true, log') && |mid.regs| == |now.regs| == s.NbRegisters()
    requires r.address + r.quantity <= |now.regs| && values == now.regs[r.address..r.address + r.quantity]
    ensures values == w.payload
  {
    hide Served, PlanOf;
    AcceptedReadFetchesRange(s, r, now, mid, log');
    forall k | 0 <= k < |w.payload|
      ensures values[k] == w.payload[k]
    {
      FinishedWriteReachesDevice(s, w, mid, was, log, k);
      assert Agrees(now, w.address + k);
    }
  }
}
