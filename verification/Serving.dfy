/** `Connection::ConnFunctor::functor_function` (src/base/Connection.cpp:301-409): one request
    served on one slave, and what it does to the table as a cache of the device. */
module Serving {
  import opened Words
  import opened RegisterMapping
  import opened ByteHandlers
  import opened Dispatch
  import opened VirtualSlaves
  import opened Connections

  predicate IsWrite(q: Request) {
    q.fc == FC_WRITE_SINGLE_REGISTER || q.fc == FC_WRITE_MULTIPLE_REGISTERS
  }

  predicate IsRead(q: Request) {
    q.fc == FC_READ_INPUT_REGISTERS || q.fc == FC_READ_HOLDING_REGISTERS
  }

  /** The quantity of a query is within the limits of the protocol, and that of a write is announced
      truthfully. */
  predicate ValueOk(q: Request) {
    if IsWrite(q) then 1 <= Count(q) <= MODBUS_MAX_WRITE_REGISTERS && |q.payload| == Count(q)
    else 1 <= Count(q) <= MODBUS_MAX_READ_REGISTERS
  }

  /** Whether `modbus_reply` stores the payload of a write. */
  predicate Storable(q: Request, nbRegisters: nat) {
    IsWrite(q) && ValueOk(q) && q.address + Count(q) <= nbRegisters
  }

  function WithPayload(q: Request, regs: seq<u16>): seq<u16> {
    if Storable(q, |regs|) then Splice(regs, q.address, q.payload) else regs
  }

  /** The registers known to agree with the device after a request: those of the finished segments,
      and those that agreed before and did not receive a payload. */
  ghost function CleanAfter(q: Request, clean: iset<int>, nbRegisters: nat, log: seq<Segment>): iset<int> {
    iset a: int |
      || InLog(log, a)
      || (a in clean && !(Storable(q, nbRegisters) && q.address <= a < q.address + Count(q)))
  }

  lemma AgreesByBytes(c: Snapshot, a: int)
    requires 0 <= a < |c.regs| && 2 * a + 1 < |c.mem|
    ensures Agrees(c, a) <==> c.mem[2 * a] == RegByte(c.regs, 2 * a) && c.mem[2 * a + 1] == RegByte(c.regs, 2 * a + 1)
  {
  }

  /** A segment that a read or write pass lets through lies within the register table. */
  lemma AllowedInTable(s: VirtualRTUSlave, q: Request, mode: Mode, c: Snapshot, i: nat)
    requires s.Valid() && |c.regs| == s.NbRegisters() && |c.input| == s.NbInput()
    requires !mode.CheckAccess? && i < |PlanOf(s, q).segs| && Allowed(mode, PlanOf(s, q).segs[i], q.fc, c)
    ensures var seg := PlanOf(s, q).segs[i];
      seg.start + seg.len <= if q.fc == FC_READ_INPUT_REGISTERS then s.NbInput() else s.NbRegisters()
  {
    var seg := PlanOf(s, q).segs[i];
    PlanIsConsecutive(TableOf(s, q.fc), q.address, q.address + Count(q), i);
    LookupFits(s, q.fc, seg.start, q.address + Count(q) - seg.start);
    hide PlanFrom, Lookup, SegmentOk;
  }

  /** The segments a pass over holding registers finishes lie within the register table. */
  lemma FinishedInTable(s: VirtualRTUSlave, q: Request, mode: Mode, now: Snapshot, was: Snapshot,
                        ok: bool, log: seq<Segment>, i: nat)
    requires s.Valid() && |was.regs| == s.NbRegisters() && |was.input| == s.NbInput()
    requires Outcome(s, q, mode, now, was, ok, log) && !mode.CheckAccess? && i < |log|
    ensures log[i].start + log[i].len <= if q.fc == FC_READ_INPUT_REGISTERS then s.NbInput() else s.NbRegisters()
  {
    hide PlanOf, Effect, Allowed;
    assert Allowed(mode, log[i], q.fc, was);
    AllowedInTable(s, q, mode, was, i);
  }

  /** An accepted query with registers in it lies within the table, so `modbus_reply` answers it. */
  lemma AcceptedInTable(s: VirtualRTUSlave, q: Request, now: Snapshot, was: Snapshot, log: seq<Segment>)
    requires s.Valid() && |was.regs| == s.NbRegisters() && |was.input| == s.NbInput()
    requires Outcome(s, q, ReadAccess, now, was, true, log) && Count(q) > 0
    ensures q.address + Count(q) <= if q.fc == FC_READ_INPUT_REGISTERS then s.NbInput() else s.NbRegisters()
  {
    var t, bound := TableOf(s, q.fc), q.address + Count(q);
    PlanCompleteWhenCovered(t, q.address, bound);
    var last := |log| - 1;
    assert log != [];
    PlanIsConsecutive(t, q.address, bound, last);
    FinishedInTable(s, q, ReadAccess, now, was, true, log, last);
  }

  /** A read keeps the clean registers clean and adds those of the finished segments. */
  lemma ReadKeepsCache(q: Request, now: Snapshot, was: Snapshot, clean: iset<int>, log: seq<Segment>,
                       next: seq<Segment>)
    requires Effect(ReadAccess, q.fc, now, was, log, next) && q.fc == FC_READ_HOLDING_REGISTERS
    requires forall a :: a in clean ==> Agrees(was, a)
    requires forall i :: 0 <= i < |log| ==> log[i].start + log[i].len <= |was.regs|
    ensures forall a :: a in CleanAfter(q, clean, |was.regs|, log) ==> Agrees(now, a)
  {
  }

  /** A write pass over `regs` keeps clean what agreed with it before, finished or not. */
  lemma FlushKeepsCache(now: Snapshot, was: Snapshot, clean: iset<int>, log: seq<Segment>, next: seq<Segment>)
    requires now.regs == was.regs && Flushed(now.mem, was.mem, was.regs, log, next)
    requires 2 * |was.regs| <= |was.mem|
    requires forall a :: a in clean ==> Agrees(was, a)
    requires forall i :: 0 <= i < |log| ==> log[i].start + log[i].len <= |was.regs|
    ensures forall a :: a in clean || InLog(log, a) ==> Agrees(now, a)
  {
    forall a | a in clean || InLog(log, a)
      ensures Agrees(now, a)
    {
      AgreesByBytes(was, a);
      AgreesByBytes(now, a);
      assert 2 * a / 2 == a && (2 * a + 1) / 2 == a;
    }
  }

  /** The reply to a request, given the tables after it and the result of its first pass. */
  predicate Replied(q: Request, accepted: bool, reply: Reply, regs: seq<u16>, input: seq<u16>) {
    var tab := if q.fc == FC_READ_INPUT_REGISTERS then input else regs;
    if !Supported(q.fc) then reply == IllegalFunction
    else if !accepted then reply == IllegalAddress
    else if !ValueOk(q) then reply == IllegalValue
    else if IsWrite(q) then reply == if Storable(q, |regs|) then Stored else IllegalAddress
    else q.address + q.quantity <= |tab| && reply == Values(tab[q.address..q.address + q.quantity])
  }

  /** `modbus_reply` for a read; the function is not part of this model. */
  method ReplyRead(s: VirtualRTUSlave, q: Request) returns (reply: Reply)
    requires s.Valid() && IsRead(q)
    requires q.quantity > 0 ==>
      q.address + q.quantity <= if q.fc == FC_READ_INPUT_REGISTERS then s.NbInput() else s.NbRegisters()
    ensures Replied(q, true, reply, s.Contents().regs, s.Contents().input)
  {
    var tab := if q.fc == FC_READ_INPUT_REGISTERS then s.mapping.tabInput else s.mapping.tabRegisters;
    if q.quantity < 1 || q.quantity > MODBUS_MAX_READ_REGISTERS {
      return IllegalValue;
    }
    if q.address + q.quantity > tab.Length {
      return IllegalAddress;
    }
    reply := Values(tab[q.address..q.address + q.quantity]);
    assert tab[..][q.address..q.address + q.quantity] == tab[q.address..q.address + q.quantity];
  }

  /** `modbus_reply` for a write: a payload for registers of the table is stored, any other is
      answered by an exception. */
  method ReplyWrite(s: VirtualRTUSlave, q: Request) returns (reply: Reply)
    requires s.Valid()
    modifies s.mapping.tabRegisters
    ensures s.Contents() == old(s.Contents()).(regs := WithPayload(q, old(s.Contents()).regs))
    ensures IsWrite(q) ==> Replied(q, true, reply, s.Contents().regs, s.Contents().input)
  {
    var regs := s.mapping.tabRegisters;
    if !ValueOk(q) {
      return IllegalValue;
    }
    if !Storable(q, regs.Length) {
      return IllegalAddress;
    }
    StorePayload(regs, q.address, q.payload);
    reply := Stored;
  }

  method StorePayload(regs: array<u16>, address: u16, payload: seq<u16>)
    requires address + |payload| <= regs.Length
    modifies regs
    ensures regs[..] == Splice(old(regs[..]), address, payload)
  {
    for k := 0 to |payload|
      invariant forall a :: 0 <= a < regs.Length ==>
        regs[a] == if address <= a < address + k then payload[a - address] else old(regs[a])
    {
      regs[address + k] := payload[k];
    }
  }

  /** Whether every handler of a complete plan lets its segment through. */
  ghost predicate AllAllowed(s: VirtualRTUSlave, q: Request, mode: Mode, c: Snapshot)
    requires s.Valid()
  {
    PlanOf(s, q).complete && forall i :: 0 <= i < |PlanOf(s, q).segs| ==> Allowed(mode, PlanOf(s, q).segs[i], q.fc, c)
  }

  /** No call of the plan can be failed by a transfer. */
  ghost predicate AllCertain(s: VirtualRTUSlave, q: Request, mode: Mode)
    requires s.Valid()
  {
    forall i :: 0 <= i < |PlanOf(s, q).segs| ==> Certain(s, mode, PlanOf(s, q).segs[i].handler)
  }

  /** A pass succeeds when every handler lets its segment through and no transfer fails, and never
      when some handler does not. */
  lemma OutcomeDecides(s: VirtualRTUSlave, q: Request, mode: Mode, now: Snapshot, was: Snapshot,
                       ok: bool, log: seq<Segment>)
    requires s.Valid() && Outcome(s, q, mode, now, was, ok, log)
    ensures ok ==> AllAllowed(s, q, mode, was)
    ensures AllCertain(s, q, mode) && AllAllowed(s, q, mode, was) ==> ok
  {
  }

  /** Whether the check pass lets a call through. */
  predicate CheckLets(call: Segment) {
    call.handler.Bytes? ==> call.handler.bytes.CheckGuard(call.start, call.given)
  }

  /** The calls a check pass makes: all of them, up to the first that is refused. */
  function Checked(calls: seq<Segment>): seq<Segment> {
    if calls == [] then []
    else if CheckLets(calls[0]) then [calls[0]] + Checked(calls[1..])
    else [calls[0]]
  }

  lemma {:induction false} CheckedSplits(log: seq<Segment>, rest: seq<Segment>)
    requires forall i :: 0 <= i < |log| ==> CheckLets(log[i])
    ensures Checked(log + rest) == log + Checked(rest)
  {
    if log == [] {
      assert log + rest == rest;
    } else {
      CheckedSplits(log[1..], rest);
      assert (log + rest)[1..] == log[1..] + rest;
      assert [log[0]] + (log[1..] + Checked(rest)) == log + Checked(rest);
    }
  }

  /** The check pass makes the same calls whatever the tables, the bounds and the bus are. */
  lemma CheckedIsLog(s: VirtualRTUSlave, q: Request, now: Snapshot, was: Snapshot, ok: bool, log: seq<Segment>)
    requires s.Valid() && Outcome(s, q, CheckAccess, now, was, ok, log)
    ensures Checked(Calls(PlanOf(s, q))) == log + Next(PlanOf(s, q), log)
  {
    hide PlanFrom, Effect, Checked;
    var plan := PlanOf(s, q);
    SegmentsValid(s, q);
    CheckedSplits(log, plan.segs[|log|..] + plan.stuck);
    assert log + (plan.segs[|log|..] + plan.stuck) == Calls(plan);
    if |log| < |plan.segs| {
      CheckedStops(plan.segs[|log|..] + plan.stuck);
    } else {
      assert plan.segs[|log|..] + plan.stuck == plan.stuck;
      CheckedOne(plan.stuck);
    }
  }

  lemma CheckedStops(calls: seq<Segment>)
    requires calls != [] && !CheckLets(calls[0])
    ensures Checked(calls) == [calls[0]]
  {
  }

  lemma CheckedOne(calls: seq<Segment>)
    requires |calls| <= 1
    ensures Checked(calls) == calls
  {
  }

  lemma SegmentsValid(s: VirtualRTUSlave, q: Request)
    requires s.Valid()
    ensures forall i :: 0 <= i < |PlanOf(s, q).segs| ==> HandlerValid(PlanOf(s, q).segs[i].handler)
  {
    forall i | 0 <= i < |PlanOf(s, q).segs|
      ensures HandlerValid(PlanOf(s, q).segs[i].handler)
    {
      PlanIsConsecutive(TableOf(s, q.fc), q.address, q.address + Count(q), i);
    }
  }

  /** Whether `q` gives the data handler `b` the bounds of the RAM data: it is a write, and its check
      reaches the handler with an aligned call. */
  ghost predicate Locks(s: VirtualRTUSlave, q: Request, b: MultiByteHandler)
    requires s.Valid()
  {
    IsWrite(q) && Rebounded(CheckAccess, Checked(Calls(PlanOf(s, q))), b)
  }

  /** The bounds of exactly the locked handlers change. Those of version handlers, which they set anew
      before they look at them, may change in a read. */
  ghost predicate BoundsServed(s: VirtualRTUSlave, q: Request, now: map<MultiByteHandler, Range>,
                               was: map<MultiByteHandler, Range>)
    requires s.Valid()
  {
    && now.Keys == was.Keys
    && forall b :: b in was && (IsWrite(q) || !b.kind.Version?) ==>
         now[b] == if Locks(s, q, b) then KindBounds(b.kind, was[b]) else was[b]
  }

  /** What a request changes. A read fetches the finished segments. A write that the check accepts stores
      the payload in the table, if it can be stored, then the finished segments in the device and perhaps
      bytes of the one it was stopped at; one that the check refuses changes neither table nor device. */
  ghost predicate Served(s: VirtualRTUSlave, q: Request, now: Snapshot, was: Snapshot, accepted: bool,
                         log: seq<Segment>)
    requires s.Valid()
  {
    && BoundsServed(s, q, now.ranges, was.ranges)
    && if IsRead(q) then
      Outcome(s, q, ReadAccess, now, was, accepted, log)
    else if !accepted then
      && now.(ranges := was.ranges) == was && log == []
      && (Supported(q.fc) ==> !AllAllowed(s, q, CheckAccess, was))
    else
      && Supported(q.fc) && AllAllowed(s, q, CheckAccess, was)
      && log <= PlanOf(s, q).segs
      && now.regs == WithPayload(q, was.regs) && now.input == was.input
      && (forall i :: 0 <= i < |log| ==> Allowed(WriteAccess, log[i], q.fc, was))
      && Flushed(now.mem, was.mem, now.regs, log, Attempted(q.fc, was, Next(PlanOf(s, q), log)))
      && (s.comm.working && |log| < |PlanOf(s, q).segs| ==>
            !Allowed(WriteAccess, PlanOf(s, q).segs[|log|], q.fc, was))
  }

  /** `functor_function`: serves `q` on its slave. `accepted` is the result of the first pass and
      `log` are the segments the last pass finished. */
  method Serve(s: VirtualRTUSlave, q: Request) returns (reply: Reply, ghost accepted: bool, ghost log: seq<Segment>)
    requires s.Valid() && q.slave == s.address && s.CacheAgrees()
    modifies s.mapping.tabRegisters, s.mapping.tabInput, s.comm.memory[s.address]
    modifies s.Handlers()`range, s.comm`attempts, s`clean
    ensures s.CacheAgrees()
    ensures Served(s, q, s.Contents(), old(s.Contents()), accepted, log)
    ensures (q.fc != FC_READ_INPUT_REGISTERS && accepted) || q.fc == FC_READ_HOLDING_REGISTERS ==>
      s.clean == CleanAfter(q, old(s.clean), s.NbRegisters(), log)
    ensures q.fc == FC_READ_INPUT_REGISTERS || (!accepted && q.fc != FC_READ_HOLDING_REGISTERS) ==>
      s.clean == old(s.clean)
    ensures Replied(q, accepted, reply, s.Contents().regs, s.Contents().input)
  {
    accepted, log := false, [];
    if IsRead(q) {
      reply, accepted, log := ServeRead(s, q);
    } else if IsWrite(q) {
      reply, accepted, log := ServeWrite(s, q);
    } else {
      reply := IllegalFunction;
    }
  }

  /** Any function but 3, 4, 6 and 16 is answered by an exception and changes nothing. */
  lemma OtherFunctions(s: VirtualRTUSlave, q: Request, now: Snapshot, was: Snapshot, accepted: bool, log: seq<Segment>,
                       reply: Reply)
    requires s.Valid() && Served(s, q, now, was, accepted, log) && Replied(q, accepted, reply, now.regs, now.input)
    ensures q.fc != 3 && q.fc != 4 && q.fc != 6 && q.fc != 16 <==> reply == IllegalFunction
    ensures reply == IllegalFunction ==> now.regs == was.regs && now.input == was.input && now.mem == was.mem
  {
  }

  method ServeRead(s: VirtualRTUSlave, q: Request) returns (reply: Reply, ghost accepted: bool, ghost log: seq<Segment>)
    requires s.Valid() && q.slave == s.address && s.CacheAgrees()
    requires IsRead(q)
    modifies s.mapping.tabRegisters, s.mapping.tabInput, s.comm.memory[s.address]
    modifies s.Handlers()`range, s.comm`attempts, s`clean
    ensures s.CacheAgrees()
    ensures Outcome(s, q, ReadAccess, s.Contents(), old(s.Contents()), accepted, log)
    ensures s.clean == if q.fc == FC_READ_HOLDING_REGISTERS
                       then CleanAfter(q, old(s.clean), s.NbRegisters(), log) else old(s.clean)
    ensures Replied(q, accepted, reply, s.Contents().regs, s.Contents().input)
  {
    hide Outcome, CleanAfter, Agrees, Replied, HoldingHandler, InputHandler;
    var ok;
    ok, log := ReadPass(s, q);
    accepted := ok;
    if ok {
      reply := ReplyRead(s, q);
    } else {
      reply := IllegalAddress;
      ReplyRefused(q, s.Contents());
    }
  }

  lemma ReplyRefused(q: Request, c: Snapshot)
    requires Supported(q.fc)
    ensures Replied(q, false, IllegalAddress, c.regs, c.input)
  {
  }

  /** The pass of a read. */
  method ReadPass(s: VirtualRTUSlave, q: Request) returns (ok: bool, ghost log: seq<Segment>)
    requires s.Valid() && q.slave == s.address && s.CacheAgrees()
    requires IsRead(q)
    modifies s.mapping.tabRegisters, s.mapping.tabInput, s.comm.memory[s.address]
    modifies s.Handlers()`range, s.comm`attempts, s`clean
    ensures s.CacheAgrees()
    ensures Outcome(s, q, ReadAccess, s.Contents(), old(s.Contents()), ok, log)
    ensures s.clean == if q.fc == FC_READ_HOLDING_REGISTERS
                       then CleanAfter(q, old(s.clean), s.NbRegisters(), log) else old(s.clean)
    ensures ok && q.quantity > 0 ==>
      q.address + q.quantity <= if q.fc == FC_READ_INPUT_REGISTERS then s.NbInput() else s.NbRegisters()
  {
    hide Outcome, CleanAfter, Agrees, HoldingHandler, InputHandler;
    ok, log := HandleQuery(s, q, ReadAccess);
    ReadOutcome(s, q, s.Contents(), old(s.Contents()), s.clean, ok, log);
    if q.fc == FC_READ_HOLDING_REGISTERS {
      s.clean := CleanAfter(q, s.clean, s.NbRegisters(), log);
    }
  }

  lemma ReadOutcome(s: VirtualRTUSlave, q: Request, now: Snapshot, was: Snapshot, clean: iset<int>,
                    ok: bool, log: seq<Segment>)
    requires s.Valid() && |was.regs| == s.NbRegisters() && |was.input| == s.NbInput()
    requires IsRead(q)
    requires Outcome(s, q, ReadAccess, now, was, ok, log) && forall a :: a in clean ==> Agrees(was, a)
    ensures ok && q.quantity > 0 ==>
      q.address + q.quantity <= if q.fc == FC_READ_INPUT_REGISTERS then s.NbInput() else s.NbRegisters()
    ensures q.fc == FC_READ_HOLDING_REGISTERS ==>
      forall a :: a in CleanAfter(q, clean, s.NbRegisters(), log) ==> Agrees(now, a)
    ensures q.fc == FC_READ_INPUT_REGISTERS ==> forall a :: a in clean ==> Agrees(now, a)
  {
    if ok && q.quantity > 0 {
      AcceptedInTable(s, q, now, was, log);
    }
    if q.fc == FC_READ_HOLDING_REGISTERS {
      forall i | 0 <= i < |log|
        ensures log[i].start + log[i].len <= |was.regs|
      {
        FinishedInTable(s, q, ReadAccess, now, was, ok, log, i);
      }
      ReadKeepsCache(q, now, was, clean, log, Next(PlanOf(s, q), log));
    }
  }

  method ServeWrite(s: VirtualRTUSlave, q: Request)
    returns (reply: Reply, ghost accepted: bool, ghost log: seq<Segment>)
    requires s.Valid() && q.slave == s.address && s.CacheAgrees()
    requires IsWrite(q)
    modifies s.mapping.tabRegisters, s.mapping.tabInput, s.comm.memory[s.address]
    modifies s.Handlers()`range, s.comm`attempts, s`clean
    ensures s.CacheAgrees()
    ensures Served(s, q, s.Contents(), old(s.Contents()), accepted, log)
    ensures s.clean == if accepted then CleanAfter(q, old(s.clean), s.NbRegisters(), log) else old(s.clean)
    ensures Replied(q, accepted, reply, s.Contents().regs, s.Contents().input)
  {
    hide Outcome, CleanAfter, Agrees, Served, Effect, AllAllowed, BoundsServed;
    log := [];
    ghost var was, clean := s.Contents(), s.clean;
    var ok;
    ghost var checked;
    ok, checked := HandleQuery(s, q, CheckAccess);
    accepted := ok;
    ghost var mid := s.Contents();
    CheckOutcome(s, q, mid, was, ok, checked);
    if ok {
      reply := ReplyWrite(s, q);
      ghost var stored := s.Contents();
      ok, log := HandleQuery(s, q, WriteAccess);
      WriteOutcome(s, q, s.Contents(), stored, was, clean, ok, log);
      s.clean := CleanAfter(q, s.clean, s.NbRegisters(), log);
    } else {
      reply := IllegalAddress;
    }
  }

  lemma CheckOutcome(s: VirtualRTUSlave, q: Request, now: Snapshot, was: Snapshot, ok: bool, log: seq<Segment>)
    requires s.Valid() && Outcome(s, q, CheckAccess, now, was, ok, log)
    requires IsWrite(q)
    ensures now.regs == was.regs && now.input == was.input && now.mem == was.mem
    ensures forall a :: Agrees(was, a) ==> Agrees(now, a)
    ensures BoundsServed(s, q, now.ranges, was.ranges)
    ensures !ok ==> Served(s, q, now, was, false, [])
    ensures ok ==> AllAllowed(s, q, CheckAccess, was)
  {
    hide PlanFrom;
    CheckedIsLog(s, q, now, was, ok, log);
  }

  lemma WriteOutcome(s: VirtualRTUSlave, q: Request, now: Snapshot, stored: Snapshot, was: Snapshot,
                     clean: iset<int>, ok: bool, log: seq<Segment>)
    requires s.Valid() && |was.regs| == s.NbRegisters() && |was.input| == s.NbInput() && 2 * |was.regs| <= |was.mem|
    requires IsWrite(q)
    requires stored.regs == WithPayload(q, was.regs) && stored.input == was.input && stored.mem == was.mem
    requires AllAllowed(s, q, CheckAccess, was) && BoundsServed(s, q, stored.ranges, was.ranges)
    requires Outcome(s, q, WriteAccess, now, stored, ok, log) && forall a :: a in clean ==> Agrees(was, a)
    ensures forall a :: a in CleanAfter(q, clean, s.NbRegisters(), log) ==> Agrees(now, a)
    ensures Served(s, q, now, was, true, log)
  {
    hide PlanOf, Allowed, BoundsServed;
    WriteKeepsCache(s, q, now, stored, was, clean, ok, log);
    WriteBounds(s, q, now, stored, was.ranges, ok, log);
    WriteGuards(s, q, stored, was);
    assert Attempted(q.fc, was, Next(PlanOf(s, q), log)) == Attempted(q.fc, stored, Next(PlanOf(s, q), log));
  }

  lemma WriteKeepsCache(s: VirtualRTUSlave, q: Request, now: Snapshot, stored: Snapshot, was: Snapshot,
                        clean: iset<int>, ok: bool, log: seq<Segment>)
    requires s.Valid() && |was.regs| == s.NbRegisters() && |was.input| == s.NbInput() && 2 * |was.regs| <= |was.mem|
    requires IsWrite(q)
    requires stored.regs == WithPayload(q, was.regs) && stored.input == was.input && stored.mem == was.mem
    requires Outcome(s, q, WriteAccess, now, stored, ok, log) && forall a :: a in clean ==> Agrees(was, a)
    ensures forall a :: a in CleanAfter(q, clean, s.NbRegisters(), log) ==> Agrees(now, a)
  {
    forall i | 0 <= i < |log|
      ensures log[i].start + log[i].len <= |stored.regs|
    {
      FinishedInTable(s, q, WriteAccess, now, stored, ok, log, i);
    }
    hide PlanOf, Allowed, BoundsAfter;
    var kept := iset a | a in clean && !(Storable(q, s.NbRegisters()) && q.address <= a < q.address + Count(q));
    FlushKeepsCache(now, stored, kept, log, Attempted(q.fc, stored, Next(PlanOf(s, q), log)));
  }

  /** The write pass leaves all bounds alone. */
  lemma WriteBounds(s: VirtualRTUSlave, q: Request, now: Snapshot, stored: Snapshot,
                    was: map<MultiByteHandler, Range>, ok: bool, log: seq<Segment>)
    requires s.Valid() && Outcome(s, q, WriteAccess, now, stored, ok, log) && BoundsServed(s, q, stored.ranges, was)
    ensures BoundsServed(s, q, now.ranges, was)
  {
    hide PlanOf, Allowed, Locks;
  }

  /** What the write pass lets through depends on the size of the table only. */
  lemma WriteGuards(s: VirtualRTUSlave, q: Request, stored: Snapshot, was: Snapshot)
    requires |stored.regs| == |was.regs|
    ensures forall seg :: Allowed(WriteAccess, seg, q.fc, stored) <==> Allowed(WriteAccess, seg, q.fc, was)
  {
  }
}
