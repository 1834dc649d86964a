/** How `Connection::handleQuery` splits a request over handlers: the handler tables, the lookup
    at one position, and the sequence of segments that the positions visited make up. */
module Dispatch {
  import opened Words
  import opened ByteHandlers
  import opened RegisterHandlers

  datatype HandlerRef = Bytes(bytes: MultiByteHandler) | Registers(registers: MultiRegisterHandler)

  /** `MBBlockInt`, which is not part of this model; both bounds belong to the block. */
  datatype Block = Block(handler: HandlerRef, start: u16, end: u16)

  datatype Table = Table(handlers: map<u16, HandlerRef>, blocks: seq<Block>)

  /** The handler map after a loop that enters `h` at the `n` positions from `first` on. */
  function Filled(m: map<u16, HandlerRef>, h: HandlerRef, first: nat, n: nat): (r: map<u16, HandlerRef>)
    requires first + n <= 0x1_0000
    ensures forall a :: a in r <==> a in m || first <= a < first + n
    ensures forall a :: a in r ==> r[a] == if first <= a < first + n then h else m[a]
  {
    if n == 0 then m else Filled(m, h, first, n - 1)[first + n - 1 := h]
  }

  datatype Found = NoHandler | Refused | Found(handler: HandlerRef, given: u16)

  /** One handler call: the position, the count handed over and the registers reported done. */
  datatype Segment = Segment(handler: HandlerRef, start: u16, given: u16, len: nat)

  /** The calls of a pass as the lookups determine them: those that report registers, and the one, if
      any, that reports none and so ends the pass; its length is 0. */
  datatype Plan = Plan(segs: seq<Segment>, complete: bool, stuck: seq<Segment>)

  function Calls(p: Plan): seq<Segment> {
    p.segs + p.stuck
  }

  predicate HandlerValid(h: HandlerRef) {
    match h
    case Bytes(b) => b.Valid()
    case Registers(r) => r.Valid()
  }

  function Units(h: HandlerRef, count: u16): u16
    requires HandlerValid(h)
  {
    match h
    case Bytes(b) => b.Units(count)
    case Registers(r) => r.Units(count)
  }

  predicate TableValid(t: Table) {
    && (forall a :: a in t.handlers ==> HandlerValid(t.handlers[a]))
    && (forall i :: 0 <= i < |t.blocks| ==> HandlerValid(t.blocks[i].handler))
  }

  // ---- the block scan ----

  predicate Covers(b: Block, cur: u16) {
    b.start <= cur <= b.end
  }

  /** The count handed to a block's handler when `rem` registers remain at `cur`. When they do not
      fit, the source subtracts the remaining count from the end of the block, not the position. */
  function Clip(end: u16, cur: u16, rem: u16): u16 {
    if cur + rem - 1 > end then Wrap16(end - rem + 1) else rem
  }

  /** The scan after the first `n` blocks: the last covering block wins, and one that clips the
      count to zero refuses the request at once. */
  function Scan(blocks: seq<Block>, cur: u16, rem: u16, n: nat): Found
    requires n <= |blocks|
  {
    if n == 0 then NoHandler
    else
      var found := Scan(blocks, cur, rem, n - 1);
      var b := blocks[n - 1];
      if found.Refused? || !Covers(b, cur) then found
      else if Clip(b.end, cur, rem) == 0 then Refused
      else Found(b.handler, Clip(b.end, cur, rem))
  }

  /** The scan one would expect: the first covering block decides. */
  function FirstMatch(blocks: seq<Block>, cur: u16, rem: u16): Found {
    if blocks == [] then NoHandler
    else if !Covers(blocks[0], cur) then FirstMatch(blocks[1..], cur, rem)
    else if Clip(blocks[0].end, cur, rem) == 0 then Refused
    else Found(blocks[0].handler, Clip(blocks[0].end, cur, rem))
  }

  predicate Disjoint(blocks: seq<Block>) {
    forall i, j :: 0 <= i < j < |blocks| ==>
      blocks[i].end < blocks[j].start || blocks[j].end < blocks[i].start
      || blocks[i].end < blocks[i].start || blocks[j].end < blocks[j].start
  }

  function Decided(b: Block, cur: u16, rem: u16): Found {
    if Clip(b.end, cur, rem) == 0 then Refused else Found(b.handler, Clip(b.end, cur, rem))
  }

  lemma {:induction false} ScanOfDisjoint(blocks: seq<Block>, cur: u16, rem: u16, n: nat)
    requires Disjoint(blocks) && n <= |blocks|
    ensures (forall i :: 0 <= i < n ==> !Covers(blocks[i], cur)) ==> Scan(blocks, cur, rem, n) == NoHandler
    ensures forall i :: 0 <= i < n && Covers(blocks[i], cur) ==>
      Scan(blocks, cur, rem, n) == Decided(blocks[i], cur, rem)
  {
    if n > 0 {
      ScanOfDisjoint(blocks, cur, rem, n - 1);
    }
  }

  lemma {:induction false} FirstMatchDecides(blocks: seq<Block>, cur: u16, rem: u16)
    requires Disjoint(blocks)
    ensures (forall i :: 0 <= i < |blocks| ==> !Covers(blocks[i], cur)) ==>
      FirstMatch(blocks, cur, rem) == NoHandler
    ensures forall i :: 0 <= i < |blocks| && Covers(blocks[i], cur) ==>
      FirstMatch(blocks, cur, rem) == Decided(blocks[i], cur, rem)
  {
    if blocks != [] {
      FirstMatchDecides(blocks[1..], cur, rem);
      assert forall i :: 1 <= i < |blocks| ==> blocks[i] == blocks[1..][i - 1];
    }
  }

  /** Whether blocks overlap or not: a covering block that clips the count to zero refuses the request, and
      without such a block the last covering one decides. */
  lemma {:induction false} LastMatchDecides(blocks: seq<Block>, cur: u16, rem: u16, n: nat, i: nat)
    requires n <= |blocks| && i < n && Covers(blocks[i], cur)
    ensures Clip(blocks[i].end, cur, rem) == 0 ==> Scan(blocks, cur, rem, n) == Refused
    ensures (forall j :: 0 <= j < n && Covers(blocks[j], cur) ==> Clip(blocks[j].end, cur, rem) > 0)
            && (forall j :: i < j < n ==> !Covers(blocks[j], cur)) ==>
      Scan(blocks, cur, rem, n) == Found(blocks[i].handler, Clip(blocks[i].end, cur, rem))
  {
    hide Clip;
    if i < n - 1 {
      LastMatchDecides(blocks, cur, rem, n - 1, i);
    } else {
      ScanRefusedBy(blocks, cur, rem, n - 1);
    }
  }

  lemma {:induction false} ScanRefusedBy(blocks: seq<Block>, cur: u16, rem: u16, n: nat)
    requires n <= |blocks|
    ensures Scan(blocks, cur, rem, n).Refused? ==>
      exists i :: 0 <= i < n && Covers(blocks[i], cur) && Clip(blocks[i].end, cur, rem) == 0
  {
    if n > 0 {
      ScanRefusedBy(blocks, cur, rem, n - 1);
    }
  }

  /** On pairwise disjoint blocks the last-match scan is a first-match scan. */
  lemma ScanIsFirstMatch(blocks: seq<Block>, cur: u16, rem: u16)
    requires Disjoint(blocks)
    ensures Scan(blocks, cur, rem, |blocks|) == FirstMatch(blocks, cur, rem)
  {
    ScanOfDisjoint(blocks, cur, rem, |blocks|);
    FirstMatchDecides(blocks, cur, rem);
  }

  /** On pairwise disjoint blocks the order in which `init` pushed them does not matter. */
  lemma ScanIgnoresOrder(blocks: seq<Block>, blocks': seq<Block>, cur: u16, rem: u16)
    requires Disjoint(blocks) && Disjoint(blocks') && multiset(blocks) == multiset(blocks')
    ensures Scan(blocks, cur, rem, |blocks|) == Scan(blocks', cur, rem, |blocks'|)
  {
    ScanOfDisjoint(blocks, cur, rem, |blocks|);
    ScanOfDisjoint(blocks', cur, rem, |blocks'|);
    assert forall b :: b in blocks <==> b in multiset(blocks);
    assert forall b :: b in blocks' <==> b in multiset(blocks');
    if i :| 0 <= i < |blocks| && Covers(blocks[i], cur) {
      assert blocks[i] in blocks';
    } else if i :| 0 <= i < |blocks'| && Covers(blocks'[i], cur) {
      assert blocks'[i] in blocks;
    }
  }

  // ---- the clipped count ----

  /** When the remaining registers do not fit, the clipped count is the one that ends at the block
      end exactly when the remaining count happens to equal the position. */
  lemma ClipReachesBlockEnd(start: u16, end: u16, cur: u16, rem: u16)
    requires start <= cur <= end && cur + rem - 1 > end
    ensures Clip(end, cur, rem) == end - cur + 1 <==> rem == cur
  {
  }

  /** The handler stays inside the block (and gets any count at all) exactly when the remaining
      registers fit or their number lies between the position and the block end. */
  lemma ClipStaysInBlock(start: u16, end: u16, cur: u16, rem: u16)
    requires start <= cur <= end && rem > 0
    ensures 0 < Clip(end, cur, rem) <= end - cur + 1 <==> cur + rem - 1 <= end || cur <= rem <= end
  {
  }

  /** A handler that serves as many registers as it is given reports `given % 0x8000` of them, for
      the byte count has 16 bits. Below register 0x8000 it goes past the remaining registers exactly
      when those do not fit the block and are at most half its end (or, past the end, few enough
      for the 16-bit wrap-around to leave more than remain). */
  lemma ClipOvershoots(start: u16, end: u16, cur: u16, rem: u16)
    requires start <= cur <= end < 0x8000 && rem > 0
    ensures Clip(end, cur, rem) % 0x8000 > rem
      <==> cur + rem - 1 > end && (2 * rem <= end || (rem > end + 1 && 2 * rem < end + 0x8001))
  {
    var c := Clip(end, cur, rem);
    if cur + rem - 1 > end && rem > end + 1 {
      assert c == end - rem + 1 + 0x1_0000;
    }
  }

  // ---- lookup and plan ----

  function Lookup(t: Table, cur: u16, rem: u16): Found {
    if cur in t.handlers then Found(t.handlers[cur], rem) else Scan(t.blocks, cur, rem, |t.blocks|)
  }

  lemma {:induction false} ScanFindsBlock(blocks: seq<Block>, cur: u16, rem: u16, n: nat)
    requires n <= |blocks|
    ensures var f := Scan(blocks, cur, rem, n);
      f.Found? ==> exists i :: 0 <= i < n && Covers(blocks[i], cur) && f.handler == blocks[i].handler
                               && f.given == Clip(blocks[i].end, cur, rem) && f.given > 0
  {
    if n > 0 {
      ScanFindsBlock(blocks, cur, rem, n - 1);
    }
  }

  /** The segments of the registers `cur .. bound - 1`, were every handler to do what it reports.
      A segment that would run past the 16-bit address range ends the plan, incomplete. */
  function PlanFrom(t: Table, cur: u16, bound: nat): (p: Plan)
    requires TableValid(t) && bound - cur <= 0xFFFF
    ensures |p.stuck| <= 1 && (p.complete ==> p.stuck == [])
    decreases 0x1_0000 - cur
  {
    if cur >= bound then Plan([], true, [])
    else
      var f := Lookup(t, cur, bound - cur);
      if !f.Found? then Plan([], false, [])
      else
        LookupValid(t, cur, bound - cur);
        var n := Units(f.handler, f.given);
        if n == 0 || cur + n > 0xFFFF then Plan([], false, [Segment(f.handler, cur, f.given, 0)])
        else
          var rest := PlanFrom(t, cur + n, bound);
          Plan([Segment(f.handler, cur, f.given, n)] + rest.segs, rest.complete, rest.stuck)
  }

  /** One unfolding of a plan. */
  lemma PlanTurn(t: Table, cur: u16, bound: nat)
    requires TableValid(t) && bound - cur <= 0xFFFF
    ensures var p := PlanFrom(t, cur, bound);
      if cur >= bound then p == Plan([], true, [])
      else if p.segs == [] then !p.complete
      else
        && p.segs[0].start == cur && p.segs[0].len > 0 && cur + p.segs[0].len <= 0xFFFF
        && p == Plan([p.segs[0]] + PlanFrom(t, cur + p.segs[0].len, bound).segs,
                     PlanFrom(t, cur + p.segs[0].len, bound).complete,
                     PlanFrom(t, cur + p.segs[0].len, bound).stuck)
  {
  }

  /** A plan starts with the segment found at its position, unless that one reports no register or
      runs past the address range. */
  lemma PlanHead(t: Table, cur: u16, bound: nat)
    requires TableValid(t) && cur < bound && bound - cur <= 0xFFFF
    ensures var p, f := PlanFrom(t, cur, bound), Lookup(t, cur, bound - cur);
      if !f.Found? then p.segs == [] && p.stuck == []
      else
        && HandlerValid(f.handler)
        && var n := Units(f.handler, f.given);
           if n == 0 || cur + n > 0xFFFF then p.segs == [] && p.stuck == [Segment(f.handler, cur, f.given, 0)]
           else p.segs != [] && p.segs[0] == Segment(f.handler, cur, f.given, n) && p.segs[..1] == [p.segs[0]]
  {
    LookupValid(t, cur, bound - cur);
  }

  /** A handler that takes at least all remaining registers is the whole plan. */
  lemma WholePlan(t: Table, cur: u16, bound: nat, h: HandlerRef, given: u16)
    requires TableValid(t) && cur < bound <= cur + 0xFFFF && HandlerValid(h)
    requires Lookup(t, cur, bound - cur) == Found(h, given) && bound <= cur + Units(h, given) <= 0xFFFF
    ensures PlanFrom(t, cur, bound) == Plan([Segment(h, cur, given, Units(h, given))], true, [])
  {
    PlanTurn(t, cur + Units(h, given), bound);
  }

  lemma LookupValid(t: Table, cur: u16, rem: u16)
    requires TableValid(t)
    ensures var f := Lookup(t, cur, rem); f.Found? ==> HandlerValid(f.handler)
  {
    ScanFindsBlock(t.blocks, cur, rem, |t.blocks|);
  }

  function Done(segs: seq<Segment>): nat {
    if segs == [] then 0 else Done(segs[..|segs| - 1]) + segs[|segs| - 1].len
  }

  lemma {:induction false} DoneConcat(a: seq<Segment>, b: seq<Segment>)
    ensures Done(a + b) == Done(a) + Done(b)
  {
    if b == [] {
      assert a + b == a;
    } else {
      assert (a + b)[..|a + b| - 1] == a + b[..|b| - 1];
      DoneConcat(a, b[..|b| - 1]);
    }
  }

  /** Segment `i` of a request at `address` is the lookup at the sum of the lengths before it, is
      not empty, and starts below the bound. */
  ghost predicate SegmentOk(t: Table, address: u16, bound: nat, segs: seq<Segment>, i: nat)
    requires TableValid(t) && bound - address <= 0xFFFF && i < |segs|
  {
    var s := segs[i];
    && address + Done(segs[..i]) == s.start < bound
    && s.len > 0 && s.start + s.len <= 0xFFFF
    && Lookup(t, s.start, bound - s.start) == Found(s.handler, s.given)
    && HandlerValid(s.handler) && s.len == Units(s.handler, s.given)
  }

  lemma {:induction false} PlanIsConsecutive(t: Table, address: u16, bound: nat, i: nat)
    requires TableValid(t) && bound - address <= 0xFFFF
    requires i < |PlanFrom(t, address, bound).segs|
    ensures SegmentOk(t, address, bound, PlanFrom(t, address, bound).segs, i)
    decreases 0x1_0000 - address
  {
    hide PlanFrom, Lookup, Units;
    var p := PlanFrom(t, address, bound);
    PlanTurn(t, address, bound);
    if address < bound {
      PlanHead(t, address, bound);
    }
    if i == 0 {
      assert p.segs[..0] == [];
    } else {
      var rest := PlanFrom(t, address + p.segs[0].len, bound);
      PlanIsConsecutive(t, address + p.segs[0].len, bound, i - 1);
      assert p.segs[..i] == [p.segs[0]] + rest.segs[..i - 1];
      DoneConcat([p.segs[0]], rest.segs[..i - 1]);
      DoneOne(p.segs[0]);
      assert p.segs[i] == rest.segs[i - 1];
    }
  }

  lemma DoneOne(s: Segment)
    ensures Done([s]) == s.len
  {
    assert [s][..0] == [];
  }

  /** The plan is complete exactly when its segments reach the bound. */
  lemma {:induction false} PlanCompleteWhenCovered(t: Table, address: u16, bound: nat)
    requires TableValid(t) && bound - address <= 0xFFFF
    ensures var p := PlanFrom(t, address, bound);
      p.complete <==> address + Done(p.segs) >= bound
    decreases 0x1_0000 - address
  {
    var p := PlanFrom(t, address, bound);
    if p.segs != [] {
      var rest := PlanFrom(t, address + p.segs[0].len, bound);
      PlanCompleteWhenCovered(t, address + p.segs[0].len, bound);
      DoneConcat([p.segs[0]], rest.segs);
      DoneOne(p.segs[0]);
    }
  }

  /** A request that runs past position 65535 is never completed. */
  lemma {:induction false} BeyondRangeIncomplete(t: Table, address: u16, bound: nat)
    requires TableValid(t) && bound - address <= 0xFFFF < bound
    ensures !PlanFrom(t, address, bound).complete
    decreases 0x1_0000 - address
  {
    PlanTurn(t, address, bound);
    var p := PlanFrom(t, address, bound);
    if p.segs != [] {
      BeyondRangeIncomplete(t, address + p.segs[0].len, bound);
    }
  }

  /** Handlers that serve as many registers as they are given, or one. */
  predicate Elastic(h: HandlerRef) {
    match h
    case Bytes(b) => b.byteCount < 0 || b.byteCount == 2
    case Registers(r) => r.registerCount < 0 || r.registerCount == 1
  }

  predicate ElasticTable(t: Table) {
    && (forall a :: a in t.handlers ==> Elastic(t.handlers[a]))
    && (forall i :: 0 <= i < |t.blocks| ==> Elastic(t.blocks[i].handler))
  }

  /** The one segment that may go past the bound is the last one. */
  lemma {:induction false} LastSegmentDecides(t: Table, address: u16, bound: nat)
    requires TableValid(t) && bound - address <= 0xFFFF
    ensures var p := PlanFrom(t, address, bound);
      p.complete && p.segs != [] ==>
        var last := p.segs[|p.segs| - 1];
        address <= last.start < bound && address + Done(p.segs) == last.start + last.len >= bound
  {
    var p := PlanFrom(t, address, bound);
    if p.complete && p.segs != [] {
      PlanIsConsecutive(t, address, bound, |p.segs| - 1);
      PlanCompleteWhenCovered(t, address, bound);
    }
  }

  /** A table without blocks whose handlers take any count covers a request exactly or not at all. */
  lemma MapOnlyIsExact(t: Table, address: u16, bound: nat)
    requires TableValid(t) && ElasticTable(t) && t.blocks == [] && address <= bound <= address + 0xFFFF
    ensures var p := PlanFrom(t, address, bound);
      p.complete <==> address + Done(p.segs) == bound
  {
    var p := PlanFrom(t, address, bound);
    PlanCompleteWhenCovered(t, address, bound);
    LastSegmentDecides(t, address, bound);
    if p.segs != [] {
      PlanIsConsecutive(t, address, bound, |p.segs| - 1);
    }
  }

  /** The remaining registers do not fit the block of a handler that takes any count, and the count
      it is given instead is too large (see `ClipOvershoots`). */
  predicate BadBlock(b: Block, cur: u16, rem: int) {
    && b.handler.Bytes? && b.handler.bytes.byteCount < 0
    && cur + rem - 1 > b.end
    && (2 * rem <= b.end || (rem > b.end + 1 && 2 * rem < b.end + 0x8001))
  }

  ghost predicate BadClip(t: Table, cur: u16, rem: int) {
    cur !in t.handlers && exists i :: 0 <= i < |t.blocks| && Covers(t.blocks[i], cur) && BadBlock(t.blocks[i], cur, rem)
  }

  lemma BlockOvershoots(b: Block, cur: u16, rem: u16)
    requires HandlerValid(b.handler) && Elastic(b.handler) && Covers(b, cur) && rem > 0
    requires b.handler.Bytes? && b.end < 0x8000
    ensures Units(b.handler, Clip(b.end, cur, rem)) > rem <==> BadBlock(b, cur, rem)
  {
    ClipOvershoots(b.start, b.end, cur, rem);
    ElasticUnits(b.handler, Clip(b.end, cur, rem));
    hide Clip, Units;
  }

  lemma ElasticUnits(h: HandlerRef, count: u16)
    requires HandlerValid(h) && Elastic(h) && h.Bytes?
    ensures Units(h, count) == if h.bytes.byteCount < 0 then count % 0x8000 else 1
  {
  }

  /** Device handlers that take any count or one register, and disjoint blocks below register 0x8000,
      as all shipped slaves have them. */
  predicate DeviceBlocks(t: Table) {
    && TableValid(t) && ElasticTable(t) && Disjoint(t.blocks)
    && forall i :: 0 <= i < |t.blocks| ==> t.blocks[i].handler.Bytes? && t.blocks[i].end < 0x8000
  }

  /** A lookup that finds a handler hands over too much exactly when it clips badly. */
  lemma LookupOvershoots(t: Table, cur: u16, rem: u16)
    requires DeviceBlocks(t) && rem > 0
    requires Lookup(t, cur, rem).Found? && HandlerValid(Lookup(t, cur, rem).handler)
    ensures Units(Lookup(t, cur, rem).handler, Lookup(t, cur, rem).given) > rem <==> BadClip(t, cur, rem)
  {
    hide Scan, BadBlock, Units, Clip;
    if cur in t.handlers {
      assert Elastic(t.handlers[cur]);
      MapUnits(t.handlers[cur], rem);
    } else {
      ScanFindsBlock(t.blocks, cur, rem, |t.blocks|);
      var i :| 0 <= i < |t.blocks| && Covers(t.blocks[i], cur) && Lookup(t, cur, rem).handler == t.blocks[i].handler
        && Lookup(t, cur, rem).given == Clip(t.blocks[i].end, cur, rem);
      BlockOvershoots(t.blocks[i], cur, rem);
      assert forall j :: 0 <= j < |t.blocks| && Covers(t.blocks[j], cur) ==> j == i;
    }
  }

  lemma MapUnits(h: HandlerRef, count: u16)
    requires HandlerValid(h) && Elastic(h) && count > 0
    ensures Units(h, count) <= count
  {
  }

  /** Over device handlers and disjoint blocks below register 0x8000, a complete plan covers exactly
      the request, unless its last position is badly clipped: then it goes past it. */
  lemma ExactUnlessBadClip(t: Table, address: u16, bound: nat)
    requires DeviceBlocks(t) && bound - address <= 0xFFFF
    ensures var p := PlanFrom(t, address, bound);
      p.complete && p.segs != [] ==>
        var last := p.segs[|p.segs| - 1];
        address + Done(p.segs) > bound <==> BadClip(t, last.start, bound - last.start)
  {
    hide PlanFrom, Lookup, BadClip, DeviceBlocks;
    DeviceBlocksValid(t);
    var p := PlanFrom(t, address, bound);
    if p.complete && p.segs != [] {
      var last := p.segs[|p.segs| - 1];
      LastSegmentDecides(t, address, bound);
      PlanIsConsecutive(t, address, bound, |p.segs| - 1);
      LookupOvershoots(t, last.start, bound - last.start);
    }
  }

  lemma DeviceBlocksValid(t: Table)
    requires DeviceBlocks(t)
    ensures TableValid(t)
  {
  }

  /** No position of the request would be badly clipped, were the lookups to arrive there. */
  ghost predicate Unclipped(t: Table, address: u16, bound: nat) {
    forall p: u16, rem: u16 :: address <= p < bound && p + rem == bound ==> !BadClip(t, p, rem)
  }

  /** What the request alone tells: with no badly clipped position in it, a complete plan covers exactly
      the request. */
  lemma UnclippedIsExact(t: Table, address: u16, bound: nat)
    requires DeviceBlocks(t) && address <= bound <= address + 0xFFFF && Unclipped(t, address, bound)
    ensures var p := PlanFrom(t, address, bound);
      p.complete ==> address + Done(p.segs) == bound
  {
    hide PlanFrom, Lookup, BadClip, DeviceBlocks;
    DeviceBlocksValid(t);
    ExactUnlessBadClip(t, address, bound);
    LastSegmentDecides(t, address, bound);
    PlanCompleteWhenCovered(t, address, bound);
  }

  /** With its first position badly clipped, a complete plan is one segment and goes past the request. */
  lemma ClippedIsOverrun(t: Table, address: u16, bound: nat)
    requires DeviceBlocks(t) && address < bound <= address + 0xFFFF && BadClip(t, address, bound - address)
    ensures var p := PlanFrom(t, address, bound);
      p.complete ==> |p.segs| == 1 && address + Done(p.segs) > bound
  {
    hide PlanFrom, Lookup, BadClip, DeviceBlocks, Units;
    DeviceBlocksValid(t);
    var p := PlanFrom(t, address, bound);
    PlanTurn(t, address, bound);
    PlanHead(t, address, bound);
    if p.complete {
      LookupOvershoots(t, address, bound - address);
      PlanTurn(t, address + p.segs[0].len, bound);
      DoneOne(p.segs[0]);
    }
  }
}
