/** `Connection` (src/base/Connection.cpp): one request served on one slave. */
module Connections {
  import opened Words
  import opened RegisterMapping
  import opened ByteHandlers
  import opened RegisterHandlers
  import opened Dispatch
  import opened VirtualSlaves

  /** What the gateway reads of a query: for function 6 `quantity` is not used and `payload` is the
      single value, for function 16 `payload` holds the values that follow the byte count. */
  datatype Request = Request(slave: u8, fc: u8, address: u16, quantity: u16, payload: seq<u16>)

  datatype Mode = ReadAccess | CheckAccess | WriteAccess

  datatype Reply = Values(values: seq<u16>) | Stored | IllegalAddress | IllegalValue | IllegalFunction

  predicate Supported(fc: u8) {
    fc == FC_READ_INPUT_REGISTERS || fc == FC_READ_HOLDING_REGISTERS
    || fc == FC_WRITE_SINGLE_REGISTER || fc == FC_WRITE_MULTIPLE_REGISTERS
  }

  function Count(q: Request): u16 {
    if q.fc == FC_WRITE_SINGLE_REGISTER then 1 else q.quantity
  }

  function TableOf(s: VirtualRTUSlave, fc: u8): (t: Table)
    requires s.Valid()
    ensures TableValid(t)
  {
    if fc == FC_READ_INPUT_REGISTERS then s.input else s.holding
  }

  function PlanOf(s: VirtualRTUSlave, q: Request): Plan
    requires s.Valid()
  {
    if Supported(q.fc) then PlanFrom(TableOf(s, q.fc), q.address, q.address + Count(q)) else Plan([], false, [])
  }

  /** Whether the handler of a segment lets the call through, transfers aside, given the table
      sizes and handler bounds of `c`. */
  ghost predicate Allowed(mode: Mode, s: Segment, fc: u8, c: Snapshot) {
    && HandlerValid(s.handler)
    && match (mode, s.handler)
       case (ReadAccess, Bytes(b)) =>
         b in c.ranges && b.ReadGuard(c.ranges[b], fc, s.start, s.given, |c.regs|, |c.input|)
       case (ReadAccess, Registers(r)) => r.ReadGuard(fc, s.start, s.given, |c.regs|, |c.input|)
       case (CheckAccess, Bytes(b)) => b.CheckGuard(s.start, s.given)
       case (CheckAccess, Registers(r)) => true
       case (WriteAccess, Bytes(b)) => b.WriteGuard(fc, s.start, s.given, |c.regs|)
       case (WriteAccess, Registers(r)) => r.WriteGuard(fc, s.start, s.given, |c.regs|)
  }

  /** A call that a transfer cannot fail: on a working bus, in a check, or without a device. */
  predicate Certain(s: VirtualRTUSlave, mode: Mode, h: HandlerRef) {
    s.comm.working || mode.CheckAccess? || h.Registers?
  }

  /** Register `a` belongs to a segment that a device handler finished. */
  ghost predicate InLog(log: seq<Segment>, a: int) {
    exists i :: 0 <= i < |log| && log[i].handler.Bytes? && log[i].start <= a < log[i].start + log[i].len
  }

  lemma InLogConcat(log: seq<Segment>, log': seq<Segment>)
    ensures forall a :: InLog(log + log', a) <==> InLog(log, a) || InLog(log', a)
  {
    forall a | InLog(log, a) || InLog(log', a)
      ensures InLog(log + log', a)
    {
      if i :| 0 <= i < |log| && log[i].handler.Bytes? && log[i].start <= a < log[i].start + log[i].len {
        assert (log + log')[i] == log[i];
      } else {
        var i :| 0 <= i < |log'| && log'[i].handler.Bytes? && log'[i].start <= a < log'[i].start + log'[i].len;
        assert (log + log')[|log| + i] == log'[i];
      }
    }
  }

  lemma InLogOne(s: Segment)
    ensures forall a :: InLog([s], a) <==> s.handler.Bytes? && s.start <= a < s.start + s.len
  {
    assert [s][0] == s;
  }

  /** `now` is `was` with the registers of the finished segments fetched from the device. */
  ghost predicate Fetched(now: seq<u16>, was: seq<u16>, mem: seq<u8>, log: seq<Segment>) {
    && |now| == |was| && 2 * |was| <= |mem|
    && forall a :: 0 <= a < |was| ==> now[a] == if InLog(log, a) then DeviceWord(mem, a) else was[a]
  }

  /** `now` is `was` with the registers of the finished segments stored in the device, and some
      bytes of the registers of a segment that was attempted. */
  ghost predicate Flushed(now: seq<u8>, was: seq<u8>, regs: seq<u16>, log: seq<Segment>, attempted: seq<Segment>) {
    && |now| == |was|
    && forall j :: 0 <= j < |was| ==>
         || (!InLog(log, j / 2) && now[j] == was[j])
         || (InLog(log + attempted, j / 2) && j < 2 * |regs| && now[j] == RegByte(regs, j))
  }

  /** Whether a call gives handler `b` new bounds: a read does so to a version handler, a check to a
      data handler that it reaches with an aligned position and count. */
  predicate Rebounds(mode: Mode, call: Segment, b: MultiByteHandler) {
    && call.handler == Bytes(b)
    && match mode
       case ReadAccess => b.kind.Version?
       case CheckAccess => b.kind.Data? && b.Aligned(call.start, call.given)
       case WriteAccess => false
  }

  predicate Rebounded(mode: Mode, calls: seq<Segment>, b: MultiByteHandler) {
    exists i :: 0 <= i < |calls| && Rebounds(mode, calls[i], b)
  }

  /** Exactly the handlers that one of the calls rebounds have the bounds of their kind, and all others
      those they had. */
  ghost predicate BoundsAfter(mode: Mode, now: map<MultiByteHandler, Range>, was: map<MultiByteHandler, Range>,
                              calls: seq<Segment>) {
    && now.Keys == was.Keys
    && forall b :: b in was ==>
         now[b] == if Rebounded(mode, calls, b) then KindBounds(b.kind, was[b]) else was[b]
  }

  lemma ReboundedConcat(mode: Mode, calls: seq<Segment>, calls': seq<Segment>)
    ensures forall b :: Rebounded(mode, calls + calls', b) <==> Rebounded(mode, calls, b) || Rebounded(mode, calls', b)
  {
    forall b | Rebounded(mode, calls, b) || Rebounded(mode, calls', b)
      ensures Rebounded(mode, calls + calls', b)
    {
      if i :| 0 <= i < |calls| && Rebounds(mode, calls[i], b) {
        assert (calls + calls')[i] == calls[i];
      } else {
        var i :| 0 <= i < |calls'| && Rebounds(mode, calls'[i], b);
        assert (calls + calls')[|calls| + i] == calls'[i];
      }
    }
  }

  lemma ReboundedOne(mode: Mode, call: Segment)
    ensures forall b :: Rebounded(mode, [call], b) <==> Rebounds(mode, call, b)
  {
    assert [call][0] == call;
  }

  lemma BoundsCompose(mode: Mode, now: map<MultiByteHandler, Range>, mid: map<MultiByteHandler, Range>,
                      was: map<MultiByteHandler, Range>, calls: seq<Segment>, calls': seq<Segment>)
    requires BoundsAfter(mode, mid, was, calls) && BoundsAfter(mode, now, mid, calls')
    ensures BoundsAfter(mode, now, was, calls + calls')
  {
    ReboundedConcat(mode, calls, calls');
  }

  /** What a pass with this log leaves behind; `next` is the call it was stopped at, if any. */
  ghost predicate Effect(mode: Mode, fc: u8, now: Snapshot, was: Snapshot, log: seq<Segment>, next: seq<Segment>) {
    && BoundsAfter(mode, now.ranges, was.ranges, log + next)
    && match mode
       case ReadAccess =>
         && now.mem == was.mem
         && Fetched(now.regs, was.regs, was.mem, if fc == FC_READ_HOLDING_REGISTERS then log else [])
         && Fetched(now.input, was.input, was.mem, if fc == FC_READ_INPUT_REGISTERS then log else [])
       case CheckAccess =>
         now.regs == was.regs && now.input == was.input && now.mem == was.mem
       case WriteAccess =>
         now.regs == was.regs && now.input == was.input
         && Flushed(now.mem, was.mem, was.regs, log, Attempted(fc, was, next))
  }

  /** A segment whose handler refuses the write is not transferred at all. */
  ghost function Attempted(fc: u8, c: Snapshot, next: seq<Segment>): seq<Segment> {
    if next != [] && Allowed(WriteAccess, next[0], fc, c) then next else []
  }

  ghost predicate BoundsAfterCall(mode: Mode, now: map<MultiByteHandler, Range>, was: map<MultiByteHandler, Range>,
                                  call: Segment) {
    && now.Keys == was.Keys
    && forall b :: b in was ==> now[b] == if Rebounds(mode, call, b) then KindBounds(b.kind, was[b]) else was[b]
  }

  /** What one handler call leaves behind. */
  ghost predicate CallEffect(mode: Mode, fc: u8, now: Snapshot, was: Snapshot, seg: Segment, ret: nat, sent: nat) {
    && BoundsAfterCall(mode, now.ranges, was.ranges, seg)
    && match mode
       case ReadAccess =>
         && now.mem == was.mem
         && Refreshed(now.regs, was.regs, was.mem, seg.start,
                      if seg.handler.Bytes? && fc == FC_READ_HOLDING_REGISTERS then ret else 0)
         && Refreshed(now.input, was.input, was.mem, seg.start,
                      if seg.handler.Bytes? && fc == FC_READ_INPUT_REGISTERS then ret else 0)
       case CheckAccess =>
         now.regs == was.regs && now.input == was.input && now.mem == was.mem
       case WriteAccess =>
         now.regs == was.regs && now.input == was.input
         && Sent(now.mem, was.mem, was.regs, seg.start, sent, ret != 0)
  }

  /** The call of the plan that a pass with this log was stopped at, if any. */
  function Next(p: Plan, log: seq<Segment>): seq<Segment> {
    if |log| < |p.segs| then [p.segs[|log|]] else p.stuck
  }

  /** The search of `handleQuery` for the handler at `cur`. */
  method Find(t: Table, cur: u16, rem: u16) returns (found: Found)
    ensures found == Lookup(t, cur, rem)
  {
    found := NoHandler;
    if cur in t.handlers {
      found := Found(t.handlers[cur], rem);
    }
    if found.NoHandler? {
      for k := 0 to |t.blocks|
        invariant cur !in t.handlers
        invariant found == Scan(t.blocks, cur, rem, k) && !found.Refused?
      {
        var b := t.blocks[k];
        if b.start <= cur && b.end >= cur {
          var count := rem;
          if cur + count - 1 > b.end {
            count := Wrap16(b.end - count + 1);
          }
          if count <= 0 {
            ScanRefused(t.blocks, cur, rem, k + 1);
            return Refused;
          }
          found := Found(b.handler, count);
        }
      }
    }
  }

  lemma {:induction false} ScanRefused(blocks: seq<Block>, cur: u16, rem: u16, n: nat)
    requires n <= |blocks| && Scan(blocks, cur, rem, n).Refused?
    ensures Scan(blocks, cur, rem, |blocks|).Refused?
    decreases |blocks| - n
  {
    if n < |blocks| {
      ScanRefused(blocks, cur, rem, n + 1);
    }
  }

  /** A handler found at `cur` belongs to the slave and sits where the slave has registers. */
  lemma LookupFits(s: VirtualRTUSlave, fc: u8, cur: u16, rem: u16)
    requires s.Valid()
    ensures var t := TableOf(s, fc);
      var f := Lookup(t, cur, rem);
      f.Found? ==>
        && cur < 0x8000 && InputHandler(f.handler, cur, s.comm, s.mapping)
        && (fc != FC_READ_INPUT_REGISTERS ==> HoldingHandler(f.handler, cur, s.comm, s.NbRegisters()))
        && (f.handler.Bytes? ==> f.handler.bytes in s.Handlers())
        && (rem == 1 ==> f.given == 1)
  {
    var t := TableOf(s, fc);
    if cur !in t.handlers {
      ScanFindsBlock(t.blocks, cur, rem, |t.blocks|);
    }
  }

  /** The call of the handler of a segment, for each of the three modes; `sent` is the number of
      registers a write began to transfer. */
  method Call(s: VirtualRTUSlave, q: Request, mode: Mode, cur: u16, found: Found)
    returns (ret: u16, ghost sent: nat)
    requires s.Valid() && q.slave == s.address && found.Found?
    requires cur < 0x8000 && InputHandler(found.handler, cur, s.comm, s.mapping)
    requires found.handler.Bytes? ==> found.handler.bytes in s.Handlers()
    requires mode != ReadAccess ==> HoldingHandler(found.handler, cur, s.comm, s.NbRegisters())
    requires q.fc == FC_WRITE_SINGLE_REGISTER ==> found.given == 1
    modifies s.mapping.tabRegisters, s.mapping.tabInput, s.comm.memory[s.address], s.Handlers()`range, s.comm`attempts
    ensures ret == 0 || ret == Units(found.handler, found.given)
    ensures ret != 0 ==> cur + ret <= 0xFFFF
    ensures sent == 0 || (mode.WriteAccess? && sent == Units(found.handler, found.given))
    ensures mode.WriteAccess? && ret != 0 ==> sent == ret
    ensures sent > 0 ==>
      Allowed(WriteAccess, Segment(found.handler, cur, found.given, Units(found.handler, found.given)), q.fc,
              old(s.Contents()))
    ensures var seg := Segment(found.handler, cur, found.given, Units(found.handler, found.given));
      && CallEffect(mode, q.fc, s.Contents(), old(s.Contents()), seg, ret, sent)
      && (ret != 0 ==> Allowed(mode, seg, q.fc, old(s.Contents())))
      && (Certain(s, mode, found.handler) && Allowed(mode, seg, q.fc, old(s.Contents())) ==> ret == seg.len)
  {
    hide CallEffect, Allowed, InputHandler;
    var p := Param(q.slave, q.fc, cur, found.given, s.mapping);
    sent := 0;
    match mode
    case ReadAccess =>
      ret := ReadCall(s, found.handler, p);
    case CheckAccess =>
      ret := CheckCall(s, found.handler, p);
    case WriteAccess =>
      ret, sent := WriteCall(s, found.handler, p);
  }

  method CheckCall(s: VirtualRTUSlave, h: HandlerRef, p: Param) returns (ret: u16)
    requires s.Valid() && p.address < 0x8000 && HoldingHandler(h, p.address, s.comm, s.NbRegisters())
    requires h.bytes in s.Handlers()
    modifies s.Handlers()`range
    ensures ret == 0 || ret == Units(h, p.count)
    ensures ret != 0 ==> p.address + ret <= 0xFFFF
    ensures var seg := Segment(h, p.address, p.count, Units(h, p.count));
      && CallEffect(CheckAccess, p.fc, s.Contents(), old(s.Contents()), seg, ret, 0)
      && (Allowed(CheckAccess, seg, p.fc, old(s.Contents())) ==> ret == seg.len)
      && (ret != 0 ==> Allowed(CheckAccess, seg, p.fc, old(s.Contents())))
  {
    ret := h.bytes.CheckWrite(p);
  }

  method WriteCall(s: VirtualRTUSlave, h: HandlerRef, p: Param) returns (ret: u16, ghost sent: nat)
    requires s.Valid() && p.slave == s.address && p.mapping == s.mapping
    requires p.address < 0x8000 && HoldingHandler(h, p.address, s.comm, s.NbRegisters())
    requires p.fc == FC_WRITE_SINGLE_REGISTER ==> p.count == 1
    modifies s.comm.memory[s.address]
    ensures ret == 0 || ret == Units(h, p.count) == sent
    ensures ret != 0 ==> p.address + ret <= 0xFFFF
    ensures sent == 0 || sent == Units(h, p.count)
    ensures var seg := Segment(h, p.address, p.count, Units(h, p.count));
      && CallEffect(WriteAccess, p.fc, s.Contents(), old(s.Contents()), seg, ret, sent)
      && (ret != 0 || sent > 0 ==> Allowed(WriteAccess, seg, p.fc, old(s.Contents())))
      && (s.comm.working && Allowed(WriteAccess, seg, p.fc, old(s.Contents())) ==> ret == seg.len)
  {
    var b := h.bytes;
    ret := b.HandleWrite(p);
    sent := if ret != 0 || b.WriteGuard(p.fc, p.address, p.count, s.NbRegisters()) then b.Units(p.count) else 0;
  }

  method ReadCall(s: VirtualRTUSlave, h: HandlerRef, p: Param) returns (ret: u16)
    requires s.Valid() && p.slave == s.address && p.mapping == s.mapping
    requires p.address < 0x8000 && InputHandler(h, p.address, s.comm, s.mapping)
    requires h.Bytes? ==> h.bytes in s.Handlers()
    modifies s.mapping.tabRegisters, s.mapping.tabInput, s.Handlers()`range, s.comm`attempts
    ensures ret == 0 || ret == Units(h, p.count)
    ensures ret != 0 ==> p.address + ret <= 0xFFFF
    ensures var seg := Segment(h, p.address, p.count, Units(h, p.count));
      && CallEffect(ReadAccess, p.fc, s.Contents(), old(s.Contents()), seg, ret, 0)
      && (ret != 0 ==> Allowed(ReadAccess, seg, p.fc, old(s.Contents())))
      && (Certain(s, ReadAccess, h) && Allowed(ReadAccess, seg, p.fc, old(s.Contents())) ==> ret == seg.len)
  {
    hide CallEffect, Allowed, HoldingHandler;
    match h
    case Bytes(b) =>
      ret := ReadDevice(s, b, p);
    case Registers(r) =>
      ret := ReadOwn(s, r, p);
      OwnEffect(s, r, p, s.Contents(), ret);
  }

  method ReadDevice(s: VirtualRTUSlave, b: MultiByteHandler, p: Param) returns (ret: u16)
    requires s.Valid() && p.slave == s.address && p.mapping == s.mapping
    requires p.address < 0x8000 && b.Valid() && b.comm == s.comm && b in s.Handlers()
    modifies s.mapping.tabRegisters, s.mapping.tabInput, s.Handlers()`range, s.comm`attempts
    ensures ret == 0 || ret == b.Units(p.count)
    ensures var seg := Segment(Bytes(b), p.address, p.count, b.Units(p.count));
      && CallEffect(ReadAccess, p.fc, s.Contents(), old(s.Contents()), seg, ret, 0)
      && (ret != 0 ==> Allowed(ReadAccess, seg, p.fc, old(s.Contents())))
      && (s.comm.working && Allowed(ReadAccess, seg, p.fc, old(s.Contents())) ==> ret == seg.len)
  {
    hide HoldingHandler, InputHandler, Refreshed;
    ret := b.HandleRead(p);
  }

  lemma OwnEffect(s: VirtualRTUSlave, r: MultiRegisterHandler, p: Param, c: Snapshot, ret: u16)
    requires r.Valid() && 2 * |c.regs| <= |c.mem| && 2 * |c.input| <= |c.mem|
    requires ret == if r.ReadGuard(p.fc, p.address, p.count, |c.regs|, |c.input|) then r.Units(p.count) else 0
    ensures var seg := Segment(Registers(r), p.address, p.count, r.Units(p.count));
      && CallEffect(ReadAccess, p.fc, c, c, seg, ret, 0)
      && (ret != 0 ==> Allowed(ReadAccess, seg, p.fc, c))
      && (Allowed(ReadAccess, seg, p.fc, c) ==> ret == seg.len)
  {
  }

  /** A handler on the slave's own table copies it onto itself. */
  method ReadOwn(s: VirtualRTUSlave, r: MultiRegisterHandler, p: Param) returns (ret: u16)
    requires s.Valid() && r.Valid() && p.mapping == s.mapping == r.store
    modifies s.mapping.tabRegisters, s.mapping.tabInput
    ensures s.Contents() == old(s.Contents())
    ensures ret == if r.ReadGuard(p.fc, p.address, p.count, s.NbRegisters(), s.NbInput()) then r.Units(p.count) else 0
  {
    hide CopyBytes, HoldingHandler, InputHandler;
    ret := r.HandleRead(p);
    if p.fc == FC_READ_INPUT_REGISTERS && p.address + ret <= s.NbInput() {
      CopyBytesOntoItself(old(s.mapping.tabInput[..]), p.address, ret);
    }
    if p.fc == FC_READ_HOLDING_REGISTERS && p.address + ret <= s.NbRegisters() {
      CopyBytesOntoItself(old(s.mapping.tabRegisters[..]), p.address, ret);
    }
  }

  /** One handler call is a pass of at most one segment. */
  lemma CallIsEffect(mode: Mode, fc: u8, now: Snapshot, was: Snapshot, seg: Segment, ret: nat, sent: nat,
                     next: seq<Segment>)
    requires CallEffect(mode, fc, now, was, seg, ret, sent)
    requires ret == 0 || ret == seg.len
    requires sent == 0 || (sent == seg.len && seg.handler.Bytes?)
    requires mode.WriteAccess? && ret > 0 ==> sent > 0
    requires ret > 0 || next == [seg] || (next == [seg.(len := 0)] && sent == 0)
    requires sent > 0 ==> Allowed(WriteAccess, seg, fc, was)
    ensures Effect(mode, fc, now, was, if ret > 0 then [seg] else [], if ret > 0 then [] else next)
  {
    InLogOne(seg);
    ReboundedOne(mode, seg);
    ReboundedOne(mode, seg.(len := 0));
    assert [seg] + [] == [seg] && [] + next == next;
  }

  lemma FlushedCompose(now: seq<u8>, mid: seq<u8>, was: seq<u8>, regs: seq<u16>,
                       log: seq<Segment>, log': seq<Segment>, tried: seq<Segment>)
    requires Flushed(mid, was, regs, log, []) && Flushed(now, mid, regs, log', tried)
    ensures Flushed(now, was, regs, log + log', tried)
  {
    InLogConcat(log, log');
    InLogConcat(log', tried);
    InLogConcat(log + log', tried);
    assert log + [] == log;
  }

  lemma EffectCompose(mode: Mode, fc: u8, now: Snapshot, mid: Snapshot, was: Snapshot,
                      log: seq<Segment>, log': seq<Segment>, next: seq<Segment>)
    requires Effect(mode, fc, mid, was, log, []) && Effect(mode, fc, now, mid, log', next)
    ensures Effect(mode, fc, now, was, log + log', next)
  {
    assert log + [] == log && log + log' + next == log + (log' + next);
    BoundsCompose(mode, now.ranges, mid.ranges, was.ranges, log, log' + next);
    match mode
    case ReadAccess =>
      InLogConcat(log, log');
    case CheckAccess =>
    case WriteAccess =>
      var tried := Attempted(fc, mid, next);
      assert Attempted(fc, was, next) == tried by {
        if next != [] {
          AllowedKept(mode, fc, mid, was, log, next[0]);
        }
      }
      FlushedCompose(now.mem, mid.mem, was.mem, was.regs, log, log', tried);
  }

  /** Earlier calls of a pass do not change what later handlers let through. */
  lemma AllowedKept(mode: Mode, fc: u8, now: Snapshot, was: Snapshot, calls: seq<Segment>, seg: Segment)
    requires BoundsAfter(mode, now.ranges, was.ranges, calls) && |now.regs| == |was.regs| && |now.input| == |was.input|
    ensures Allowed(mode, seg, fc, now) <==> Allowed(mode, seg, fc, was)
  {
  }

  // ---- the loop ----

  /** The pass has finished `log`, the segments below `cur`, and changed `was` into `now`. */
  ghost predicate Passed(s: VirtualRTUSlave, q: Request, mode: Mode, now: Snapshot, was: Snapshot,
                         log: seq<Segment>, cur: u16)
    requires s.Valid() && Supported(q.fc)
  {
    && 0 <= cur - q.address <= 0xFFFF && q.address + Done(log) == cur
    && (var rest := PlanFrom(TableOf(s, q.fc), cur, q.address + Count(q));
        PlanOf(s, q) == Plan(log + rest.segs, rest.complete, rest.stuck))
    && (forall i :: 0 <= i < |log| ==> Allowed(mode, log[i], q.fc, was))
    && Effect(mode, q.fc, now, was, log, [])
  }

  /** What a whole pass achieves. Its log is a prefix of the plan, and all of a complete plan exactly
      when it succeeds. Every finished segment was let through, and the one it was stopped at was
      not, unless a transfer failed. */
  ghost predicate Outcome(s: VirtualRTUSlave, q: Request, mode: Mode, now: Snapshot, was: Snapshot,
                          ok: bool, log: seq<Segment>)
    requires s.Valid()
  {
    var plan := PlanOf(s, q);
    && log <= plan.segs
    && (ok <==> plan.complete && log == plan.segs)
    && (forall i :: 0 <= i < |log| ==> Allowed(mode, log[i], q.fc, was))
    && (|log| < |plan.segs| && Certain(s, mode, plan.segs[|log|].handler) ==>
          !Allowed(mode, plan.segs[|log|], q.fc, was))
    && Effect(mode, q.fc, now, was, log, Next(plan, log))
  }

  /** What one turn of the loop achieves: the first segment of the plan from `cur` on, or nothing. */
  ghost predicate Turned(s: VirtualRTUSlave, q: Request, mode: Mode, now: Snapshot, was: Snapshot, cur: u16, ret: u16)
    requires s.Valid() && q.address + Count(q) - cur <= 0xFFFF
  {
    var p := PlanFrom(TableOf(s, q.fc), cur, q.address + Count(q));
    && (ret > 0 ==> p.segs != [] && p.segs[0].len == ret)
    && (p.segs != [] ==>
          && (ret > 0 ==> Allowed(mode, p.segs[0], q.fc, was))
          && (Certain(s, mode, p.segs[0].handler) && Allowed(mode, p.segs[0], q.fc, was) ==> ret > 0))
    && Effect(mode, q.fc, now, was, if ret > 0 then p.segs[..1] else [], if ret > 0 then [] else Next(p, []))
  }

  lemma PassStarts(s: VirtualRTUSlave, q: Request, mode: Mode, c: Snapshot)
    requires s.Valid() && 2 * |c.regs| <= |c.mem| && 2 * |c.input| <= |c.mem|
    ensures Effect(mode, q.fc, c, c, [], [])
    ensures Supported(q.fc) ==> Passed(s, q, mode, c, c, [], q.address)
    ensures !Supported(q.fc) ==> Outcome(s, q, mode, c, c, false, [])
  {
    assert [] + PlanOf(s, q).segs == PlanOf(s, q).segs;
  }

  lemma PassTurns(s: VirtualRTUSlave, q: Request, mode: Mode, now: Snapshot, mid: Snapshot, was: Snapshot,
                  log: seq<Segment>, cur: u16, ret: u16)
    requires s.Valid() && Supported(q.fc)
    requires Passed(s, q, mode, mid, was, log, cur) && cur < q.address + Count(q)
    requires Turned(s, q, mode, now, mid, cur, ret)
    ensures ret > 0 ==>
      && |log| < |PlanOf(s, q).segs| && cur + ret <= 0xFFFF
      && Passed(s, q, mode, now, was, log + [PlanOf(s, q).segs[|log|]], cur + ret)
    ensures ret == 0 ==> Outcome(s, q, mode, now, was, false, log)
  {
    hide Effect, Allowed, PlanFrom, TableOf, BoundsAfter, Certain;
    if ret > 0 {
      PassGoesOn(s, q, mode, now, mid, was, log, cur, ret);
    } else {
      PassStops(s, q, mode, now, mid, was, log, cur);
    }
  }

  lemma PassGoesOn(s: VirtualRTUSlave, q: Request, mode: Mode, now: Snapshot, mid: Snapshot, was: Snapshot,
                   log: seq<Segment>, cur: u16, ret: u16)
    requires s.Valid() && Supported(q.fc) && ret > 0
    requires Passed(s, q, mode, mid, was, log, cur) && cur < q.address + Count(q)
    requires Turned(s, q, mode, now, mid, cur, ret)
    ensures |log| < |PlanOf(s, q).segs| && cur + ret <= 0xFFFF
    ensures Passed(s, q, mode, now, was, log + [PlanOf(s, q).segs[|log|]], cur + ret)
  {
    hide Effect, Allowed, PlanFrom, TableOf, BoundsAfter, Certain;
    var t, bound := TableOf(s, q.fc), q.address + Count(q);
    var p := PlanFrom(t, cur, bound);
    PlanTurn(t, cur, bound);
    EffectSizes(mode, q.fc, mid, was, log);
    EffectCompose(mode, q.fc, now, mid, was, log, p.segs[..1], []);
    AllowedKept(mode, q.fc, mid, was, log, p.segs[0]);
    assert PlanOf(s, q).segs[|log|] == p.segs[0];
    DoneConcat(log, [p.segs[0]]);
    DoneOne(p.segs[0]);
    assert p.segs[..1] == [p.segs[0]];
    assert log + p.segs == log + [p.segs[0]] + PlanFrom(t, cur + ret, bound).segs;
  }

  lemma PassStops(s: VirtualRTUSlave, q: Request, mode: Mode, now: Snapshot, mid: Snapshot, was: Snapshot,
                  log: seq<Segment>, cur: u16)
    requires s.Valid() && Supported(q.fc)
    requires Passed(s, q, mode, mid, was, log, cur) && cur < q.address + Count(q)
    requires Turned(s, q, mode, now, mid, cur, 0)
    ensures Outcome(s, q, mode, now, was, false, log)
  {
    hide Effect, Allowed, PlanFrom, TableOf, BoundsAfter, Certain;
    var p := PlanFrom(TableOf(s, q.fc), cur, q.address + Count(q));
    PlanTurn(TableOf(s, q.fc), cur, q.address + Count(q));
    EffectSizes(mode, q.fc, mid, was, log);
    EffectCompose(mode, q.fc, now, mid, was, log, [], Next(p, []));
    if p.segs != [] {
      AllowedKept(mode, q.fc, mid, was, log, p.segs[0]);
      assert PlanOf(s, q).segs[|log|] == p.segs[0];
    }
    assert log + [] == log;
  }

  lemma EffectSizes(mode: Mode, fc: u8, now: Snapshot, was: Snapshot, log: seq<Segment>)
    requires Effect(mode, fc, now, was, log, [])
    ensures BoundsAfter(mode, now.ranges, was.ranges, log) && |now.regs| == |was.regs| && |now.input| == |was.input|
  {
    assert log + [] == log;
  }

  lemma PassEnds(s: VirtualRTUSlave, q: Request, mode: Mode, now: Snapshot, was: Snapshot,
                 log: seq<Segment>, cur: u16)
    requires s.Valid() && Supported(q.fc)
    requires Passed(s, q, mode, now, was, log, cur) && cur >= q.address + Count(q)
    ensures Outcome(s, q, mode, now, was, true, log)
  {
    assert log + [] == log;
  }

  /** One turn of the loop of `handleQuery`: the lookup at `cur` and the call of the handler. */
  method Advance(s: VirtualRTUSlave, q: Request, mode: Mode, cur: u16, rem: u16) returns (ret: u16)
    requires s.Valid() && q.slave == s.address && rem > 0 && cur + rem == q.address + Count(q)
    requires mode != ReadAccess ==> q.fc != FC_READ_INPUT_REGISTERS
    requires q.fc == FC_WRITE_SINGLE_REGISTER ==> rem == 1
    modifies s.mapping.tabRegisters, s.mapping.tabInput, s.comm.memory[s.address], s.Handlers()`range, s.comm`attempts
    ensures Turned(s, q, mode, s.Contents(), old(s.Contents()), cur, ret)
  {
    hide PlanFrom, Turned, CallEffect, Allowed, Effect;
    var t := TableOf(s, q.fc);
    var found := Find(t, cur, rem);
    if !found.Found? {
      NothingTurns(s, q, mode, s.Contents(), cur, rem);
      return 0;
    }
    LookupFits(s, q.fc, cur, rem);
    hide Lookup;
    ghost var sent;
    ret, sent := Call(s, q, mode, cur, found);
    CallTurns(s, q, mode, s.Contents(), old(s.Contents()), cur, rem, found, ret, sent);
  }

  lemma NothingTurns(s: VirtualRTUSlave, q: Request, mode: Mode, c: Snapshot, cur: u16, rem: u16)
    requires s.Valid() && rem > 0 && cur + rem == q.address + Count(q)
    requires 2 * |c.regs| <= |c.mem| && 2 * |c.input| <= |c.mem|
    requires !Lookup(TableOf(s, q.fc), cur, rem).Found?
    ensures Turned(s, q, mode, c, c, cur, 0)
  {
    hide Allowed, Lookup;
    PlanHead(TableOf(s, q.fc), cur, cur + rem);
    PassStarts(s, q, mode, c);
  }

  /** A handler call is one turn: it does the first segment of the plan, or nothing. */
  lemma CallTurns(s: VirtualRTUSlave, q: Request, mode: Mode, now: Snapshot, was: Snapshot,
                  cur: u16, rem: u16, found: Found, ret: u16, sent: nat)
    requires s.Valid() && rem > 0 && cur + rem == q.address + Count(q)
    requires found.Found? && Lookup(TableOf(s, q.fc), cur, rem) == found && HandlerValid(found.handler)
    requires mode.WriteAccess? ==> found.handler.Bytes? && cur < 0x8000
    requires ret == 0 || ret == Units(found.handler, found.given)
    requires ret != 0 ==> cur + ret <= 0xFFFF
    requires sent == 0 || (mode.WriteAccess? && sent == Units(found.handler, found.given))
    requires mode.WriteAccess? && ret != 0 ==> sent == ret
    requires sent > 0 ==>
      Allowed(WriteAccess, Segment(found.handler, cur, found.given, Units(found.handler, found.given)), q.fc, was)
    requires var seg := Segment(found.handler, cur, found.given, Units(found.handler, found.given));
      && CallEffect(mode, q.fc, now, was, seg, ret, sent)
      && (ret != 0 ==> Allowed(mode, seg, q.fc, was))
      && (Certain(s, mode, found.handler) && Allowed(mode, seg, q.fc, was) ==> ret == seg.len)
    ensures Turned(s, q, mode, now, was, cur, ret)
  {
    hide PlanFrom, Lookup, Effect, CallEffect, Allowed, Certain;
    var p := PlanFrom(TableOf(s, q.fc), cur, cur + rem);
    PlanHead(TableOf(s, q.fc), cur, cur + rem);
    var seg := Segment(found.handler, cur, found.given, Units(found.handler, found.given));
    CallIsEffect(mode, q.fc, now, was, seg, ret, sent, Next(p, []));
  }

  /** `Connection::handleQuery`. */
  method HandleQuery(s: VirtualRTUSlave, q: Request, mode: Mode) returns (ok: bool, ghost log: seq<Segment>)
    requires s.Valid() && q.slave == s.address
    requires mode != ReadAccess ==> q.fc != FC_READ_INPUT_REGISTERS
    modifies s.mapping.tabRegisters, s.mapping.tabInput, s.comm.memory[s.address], s.Handlers()`range, s.comm`attempts
    ensures Outcome(s, q, mode, s.Contents(), old(s.Contents()), ok, log)
  {
    hide Passed, Turned, Outcome, PlanOf;
    log := [];
    PassStarts(s, q, mode, s.Contents());
    if !Supported(q.fc) {
      return false, [];
    }
    var count := Count(q);
    var cur: u16, done: u16 := q.address, 0;
    while cur < q.address + count
      invariant cur == q.address + done
      invariant Passed(s, q, mode, s.Contents(), old(s.Contents()), log, cur)
      decreases 0x1_0000 - cur
    {
      ghost var mid := s.Contents();
      var ret := Advance(s, q, mode, cur, Wrap16(count - done));
      PassTurns(s, q, mode, s.Contents(), mid, old(s.Contents()), log, cur, ret);
      if ret > 0 {
        log := log + [PlanOf(s, q).segs[|log|]];
        cur, done := Wrap16(cur + ret), Wrap16(done + ret);
      } else {
        return false, log;
      }
    }
    PassEnds(s, q, mode, s.Contents(), old(s.Contents()), log, cur);
    return true, log;
  }
}
