/** The IO board slave (src/I2C/IOBoardSlave.cpp): what it prefetches, and its handler table. The board
    constants are those of a header that is not part of this model; they are a parameter. */
module IOBoards {
  import opened Words
  import opened I2C
  import opened RegisterMapping
  import opened Converters
  import opened ByteHandlers
  import opened Dispatch
  import opened VirtualSlaves

  /** Byte addresses and lengths; those of the EEPROM are relative to `bufferSize`. */
  datatype Layout = Layout(
    versionStart: nat, versionLength: nat, ioCount: nat, ioStart: nat,
    dataStart: nat, dataLength: nat, maxPins: nat, bufferSize: nat, eepromSize: nat,
    funcStart: nat, nameStart: nat, nameLength: nat,
    permStart: nat, permLength: nat, sharedStart: nat, sharedLength: nat)

  // ---- the prefetch ----

  /** Sizes that fit `recvbuffer`, and whole registers inside the table. */
  predicate PrefetchFits(l: Layout, pins: nat, nbRegisters: nat) {
    && l.versionStart % 2 == 0 && l.ioCount % 2 == 0 && (l.bufferSize + l.funcStart) % 2 == 0
    && (l.bufferSize + l.nameStart) % 2 == 0 && l.nameLength % 2 == 0
    && l.versionLength <= 33 && l.nameLength <= 33 && pins <= 17
    && l.versionStart + l.versionLength + 1 <= 2 * nbRegisters
    && l.ioCount + 2 <= 2 * nbRegisters
    && l.bufferSize + l.funcStart + 2 * pins <= 2 * nbRegisters
    && l.bufferSize + l.nameStart + NamesLength(l, pins) <= 2 * nbRegisters
    && 1 <= nbRegisters < 0x8000
    && (l.versionLength % 2 == 1 ==> !Prefetched(l.(versionLength := l.versionLength - 1), pins, VersionTail(l)))
  }

  /** The bytes of the first `n` names. */
  function NamesLength(l: Layout, n: nat): nat {
    if n == 0 then 0 else NamesLength(l, n - 1) + l.nameLength
  }

  lemma {:induction false} NamesProduct(l: Layout, n: nat)
    ensures NamesLength(l, n) == n * l.nameLength
  {
    if n > 0 {
      NamesProduct(l, n - 1);
      assert n * l.nameLength == (n - 1) * l.nameLength + l.nameLength;
    }
  }

  lemma {:induction false} NamesGrow(l: Layout, i: nat, n: nat)
    requires i <= n && l.nameLength % 2 == 0
    ensures NamesLength(l, i) % 2 == 0 && NamesLength(l, i) <= NamesLength(l, n)
    decreases n, i
  {
    if i < n {
      NamesGrow(l, i, n - 1);
    } else if n > 0 {
      NamesGrow(l, n - 1, n - 1);
    }
  }

  /** The register with the odd last byte of the version. */
  function VersionTail(l: Layout): nat {
    (l.versionStart + l.versionLength) / 2
  }

  /** The registers of ID, version, pin count, pin functions and pin names. */
  predicate Prefetched(l: Layout, pins: nat, a: int) {
    || a == 0
    || l.versionStart <= 2 * a < l.versionStart + l.versionLength
    || l.ioCount <= 2 * a < l.ioCount + 2
    || l.bufferSize + l.funcStart <= 2 * a < l.bufferSize + l.funcStart + 2 * pins
    || l.bufferSize + l.nameStart <= 2 * a < l.bufferSize + l.nameStart + NamesLength(l, pins)
  }

  /** `now` is `was` with the `count` device bytes from `start` on fetched; an odd last byte gets a
      zero low half. */
  ghost predicate BlockFetched(now: seq<u16>, was: seq<u16>, mem: seq<u8>, start: nat, count: nat) {
    && |now| == |was| && 2 * |was| <= |mem|
    && forall a :: 0 <= a < |was| ==>
         now[a] == if !(start <= 2 * a < start + count) then was[a]
                   else if 2 * a + 1 < start + count then DeviceWord(mem, a)
                   else Word(mem[2 * a], 0)
  }

  lemma PackIsBlockFetched(was: seq<u16>, mem: seq<u8>, start: nat, count: nat)
    requires start % 2 == 0 && start + count + count % 2 <= 2 * |was| <= |mem|
    ensures BlockFetched(Splice(was, start / 2, Pack(mem[start..start + count])), was, mem, start, count)
  {
    var bytes := mem[start..start + count];
    forall i | 0 <= i < |Pack(bytes)|
      ensures Pack(bytes)[i] == if 2 * i + 1 < count then DeviceWord(mem, start / 2 + i)
                                else Word(mem[start + 2 * i], 0)
    {
    }
  }

  /** One block of bytes: address, transfer, and conversion after a successful read. */
  method FetchBlock(s: VirtualRTUSlave, buffer: array<u8>, i2cAddress: u16, count: u16) returns (ok: bool)
    requires s.Valid() && buffer !in s.comm.memory && buffer.Length == 34 && count <= 34
    requires i2cAddress % 2 == 0 && i2cAddress + count + count % 2 <= 2 * s.NbRegisters()
    modifies buffer, s.mapping.tabRegisters, s.comm`attempts
    ensures s.comm.memory[s.address][..] == old(s.comm.memory[s.address][..])
    ensures s.comm.attempts == old(s.comm.attempts) + [Attempt(s.address, i2cAddress, count)]
    ensures s.comm.working ==> ok
    ensures ok ==> buffer[..count] == s.comm.memory[s.address][i2cAddress..i2cAddress + count]
    ensures BlockFetched(s.mapping.tabRegisters[..], old(s.mapping.tabRegisters[..]), s.comm.memory[s.address][..],
                         i2cAddress, if ok then count else 0)
  {
    ghost var mem := s.comm.memory[s.address][..];
    buffer[0] := i2cAddress / 0x100;
    buffer[1] := i2cAddress % 0x100;
    assert BusAddress(buffer[..], 2) == i2cAddress;
    ok := s.comm.ReadBytes(s.address, buffer, 2, count);
    if ok {
      assert buffer[..count] == mem[i2cAddress..i2cAddress + count];
      PackIsBlockFetched(s.mapping.tabRegisters[..], mem, i2cAddress, count);
      WriteBeByteToMBReg(s.mapping.tabRegisters, i2cAddress / 2, buffer, count);
    }
  }

  /** The transfers of the first `n` names. */
  function NameTransfers(l: Layout, slave: u8, n: nat): (ts: seq<Attempt>)
    ensures |ts| == n && forall k :: 0 <= k < n ==> ts[k] == Attempt(slave, NameAt(l, k), l.nameLength)
  {
    if n == 0 then [] else NameTransfers(l, slave, n - 1) + [Attempt(slave, NameAt(l, n - 1), l.nameLength)]
  }

  /** All transfers of the prefetch, or those up to a pin count that cannot be read. */
  function Transfers(l: Layout, slave: u8, pins: nat, known: bool): seq<Attempt> {
    [Attempt(slave, 0, 2), Attempt(slave, l.versionStart, l.versionLength), Attempt(slave, l.ioCount, 2)]
    + if known then [Attempt(slave, l.bufferSize + l.funcStart, 2 * pins)] + NameTransfers(l, slave, pins) else []
  }

  /** Which transfers of the prefetch succeeded; the names are those of the first pins. */
  datatype Got = Got(id: bool, version: bool, count: bool, funcs: bool, names: seq<bool>)

  ghost predicate GotAll(got: Got, pins: nat) {
    && got.id && got.version && got.count && got.funcs
    && |got.names| == pins && forall i :: 0 <= i < pins ==> got.names[i]
  }

  function NameAt(l: Layout, i: nat): nat {
    l.bufferSize + l.nameStart + NamesLength(l, i)
  }

  ghost predicate GotName(l: Layout, names: seq<bool>, a: int) {
    exists i :: 0 <= i < |names| && names[i] && NameAt(l, i) <= 2 * a < NameAt(l, i) + l.nameLength
  }

  /** The registers of the successful transfers. */
  ghost predicate GotRegister(l: Layout, pins: nat, got: Got, a: int) {
    || (got.id && a == 0)
    || (got.version && l.versionStart <= 2 * a < l.versionStart + l.versionLength)
    || (got.count && l.ioCount <= 2 * a < l.ioCount + 2)
    || (got.funcs && l.bufferSize + l.funcStart <= 2 * a < l.bufferSize + l.funcStart + 2 * pins)
    || GotName(l, got.names, a)
  }

  /** The register with the odd last byte of the version, if that was transferred. */
  predicate IsTail(l: Layout, got: Got, a: int) {
    got.version && l.versionLength % 2 == 1 && a == VersionTail(l)
  }

  /** Every register of a successful transfer equals its device bytes (the odd last byte of a version with
      a zero low half), and every other register is as it was. */
  ghost predicate PrefetchedTable(l: Layout, pins: nat, got: Got, mem: seq<u8>, now: seq<u16>, was: seq<u16>) {
    && |now| == |was| && 2 * |was| <= |mem|
    && forall a :: 0 <= a < |was| ==>
         now[a] == if IsTail(l, got, a) then Word(mem[2 * a], 0)
                   else if GotRegister(l, pins, got, a) then DeviceWord(mem, a)
                   else was[a]
  }

  ghost function CleanFetched(l: Layout, pins: nat, got: Got, nbRegisters: nat, clean: iset<int>): iset<int> {
    iset a: int | (a in clean || (0 <= a < nbRegisters && GotRegister(l, pins, got, a))) && !IsTail(l, got, a)
  }

  /** `getSlaveInfo`, whatever transfers fail, for every pin count that fits its buffer: the registers of
      the transfers that succeeded equal the device, no other register changes. When the pin count cannot
      be read the source goes on with an undefined one; the model stops there. */
  method GetSlaveInfo(s: VirtualRTUSlave, l: Layout) returns (ghost got: Got)
    requires s.Valid() && l.ioCount < SPACE && s.CacheAgrees()
    requires PrefetchFits(l, s.comm.memory[s.address][l.ioCount], s.NbRegisters())
    modifies s.mapping.tabRegisters, s`clean, s.comm`attempts
    ensures var pins, was, now := s.comm.memory[s.address][l.ioCount], old(s.Contents()), s.Contents();
      && now.mem == was.mem && now.input == was.input && PrefetchedTable(l, pins, got, was.mem, now.regs, was.regs)
      && (s.comm.working ==> GotAll(got, pins))
    ensures !got.count ==> !got.funcs && got.names == []
    ensures s.comm.attempts
         == old(s.comm.attempts) + Transfers(l, s.address, s.comm.memory[s.address][l.ioCount], got.count)
    ensures s.CacheAgrees()
    ensures s.clean == CleanFetched(l, s.comm.memory[s.address][l.ioCount], got, s.NbRegisters(), old(s.clean))
  {
    hide PrefetchedTable, PrefetchFits, CleanFetched, Agrees, GotAll, Transfers;
    ghost var was := s.Contents();
    ghost var pins := s.comm.memory[s.address][l.ioCount];
    got := Prefetch(s, l);
    s.clean := CleanFetched(l, pins, got, s.NbRegisters(), s.clean);
    PrefetchAgrees(l, pins, got, s.Contents(), was, old(s.clean));
  }

  method Prefetch(s: VirtualRTUSlave, l: Layout) returns (ghost got: Got)
    requires s.Valid() && l.ioCount < SPACE
    requires PrefetchFits(l, s.comm.memory[s.address][l.ioCount], s.NbRegisters())
    modifies s.mapping.tabRegisters, s.comm`attempts
    ensures PrefetchedTable(l, s.comm.memory[s.address][l.ioCount], got, s.comm.memory[s.address][..],
                            s.mapping.tabRegisters[..], old(s.mapping.tabRegisters[..]))
    ensures s.comm.working ==> GotAll(got, s.comm.memory[s.address][l.ioCount])
    ensures !got.count ==> !got.funcs && got.names == []
    ensures s.comm.attempts
         == old(s.comm.attempts) + Transfers(l, s.address, s.comm.memory[s.address][l.ioCount], got.count)
  {
    hide BlockFetched, NamesFetched, PrefetchedTable, Prefetched, PrefetchFits, NamesLength;
    hide HoldingHandler, InputHandler;
    BlocksFit(l, s.comm.memory[s.address][l.ioCount], s.NbRegisters());
    var buffer := new u8[34];
    ghost var mem := s.comm.memory[s.address][..];
    ghost var r0 := s.mapping.tabRegisters[..];
    var id := FetchBlock(s, buffer, 0, 2);
    ghost var r1 := s.mapping.tabRegisters[..];
    var version := FetchBlock(s, buffer, l.versionStart, l.versionLength);
    ghost var r2 := s.mapping.tabRegisters[..];
    var count := FetchBlock(s, buffer, l.ioCount, 2);
    ghost var r3 := s.mapping.tabRegisters[..];
    ghost var first := s.comm.attempts;
    TransfersStart(old(s.comm.attempts), l, s.address, first);
    if !count {
      TransfersEnd(old(s.comm.attempts), l, s.address, mem[l.ioCount], false, first, first);
      got := Got(id, version, false, false, []);
      NothingFetched(l, r3, mem);
      PrefetchJoins(l, mem[l.ioCount], got, mem, [r0, r1, r2, r3, r3, r3]);
      return;
    }
    assert buffer[..2][0] == mem[l.ioCount];
    ghost var r4;
    got, r4 := FetchPins(s, buffer, l, id, version);
    TransfersEnd(old(s.comm.attempts), l, s.address, mem[l.ioCount], true, first, s.comm.attempts);
    PrefetchJoins(l, mem[l.ioCount], got, mem, [r0, r1, r2, r3, r4, s.mapping.tabRegisters[..]]);
  }

  /** Transfer by transfer: ID, version, pin count, functions, and then one name per pin. */
  lemma TransfersAre(l: Layout, slave: u8, pins: nat, k: nat)
    requires k < pins
    ensures var ts := Transfers(l, slave, pins, true);
      && |ts| == 4 + pins && ts[0] == Attempt(slave, 0, 2) && ts[1] == Attempt(slave, l.versionStart, l.versionLength)
      && ts[2] == Attempt(slave, l.ioCount, 2) && ts[3] == Attempt(slave, l.bufferSize + l.funcStart, 2 * pins)
      && ts[4 + k] == Attempt(slave, l.bufferSize + l.nameStart + k * l.nameLength, l.nameLength)
  {
    NamesProduct(l, k);
    assert Transfers(l, slave, pins, true)[4 + k] == NameTransfers(l, slave, pins)[k];
  }

  lemma TransfersStart(before: seq<Attempt>, l: Layout, slave: u8, now: seq<Attempt>)
    requires now == before + [Attempt(slave, 0, 2)] + [Attempt(slave, l.versionStart, l.versionLength)]
                    + [Attempt(slave, l.ioCount, 2)]
    ensures now == before + Transfers(l, slave, 0, false)
  {
  }

  lemma TransfersEnd(before: seq<Attempt>, l: Layout, slave: u8, pins: nat, known: bool, first: seq<Attempt>,
                     now: seq<Attempt>)
    requires first == before + Transfers(l, slave, 0, false)
    requires now == if !known then first
                    else first + [Attempt(slave, l.bufferSize + l.funcStart, 2 * pins)] + NameTransfers(l, slave, pins)
    ensures now == before + Transfers(l, slave, pins, known)
  {
  }

  /** The functions and the names, with the pin count in front of the buffer. */
  method FetchPins(s: VirtualRTUSlave, buffer: array<u8>, l: Layout, ghost id: bool, ghost version: bool)
    returns (ghost got: Got, ghost mid: seq<u16>)
    requires s.Valid() && buffer !in s.comm.memory && buffer.Length == 34
    requires PrefetchFits(l, buffer[0], s.NbRegisters()) && (s.comm.working ==> id && version)
    modifies buffer, s.mapping.tabRegisters, s.comm`attempts
    ensures var pins, mem := old(buffer[0]), s.comm.memory[s.address][..];
      && BlockFetched(mid, old(s.mapping.tabRegisters[..]), mem, l.bufferSize + l.funcStart,
                      if got.funcs then pins as int * 2 else 0)
      && NamesFetched(s.mapping.tabRegisters[..], mid, mem, l, got.names)
      && |got.names| == pins && (s.comm.working ==> GotAll(got, pins))
    ensures got.id == id && got.version == version && got.count
    ensures s.comm.attempts == old(s.comm.attempts)
      + [Attempt(s.address, l.bufferSize + l.funcStart, 2 * old(buffer[0]) as int)]
      + NameTransfers(l, s.address, old(buffer[0]))
    ensures s.comm.memory[s.address][..] == old(s.comm.memory[s.address][..])
  {
    hide BlockFetched, NamesFetched, Prefetched, PrefetchFits, NamesLength, HoldingHandler, InputHandler;
    var pins := buffer[0];
    BlocksFit(l, pins, s.NbRegisters());
    var funcs := FetchBlock(s, buffer, l.bufferSize + l.funcStart, pins * 2);
    mid := s.mapping.tabRegisters[..];
    ghost var names := FetchNames(s, buffer, l, pins);
    got := Got(id, version, true, funcs, names);
  }

  lemma PrefetchAgrees(l: Layout, pins: u8, got: Got, now: Snapshot, was: Snapshot, clean: iset<int>)
    requires PrefetchedTable(l, pins, got, was.mem, now.regs, was.regs) && now.mem == was.mem
    requires forall a :: a in clean ==> Agrees(was, a)
    ensures forall a :: a in CleanFetched(l, pins, got, |was.regs|, clean) ==> Agrees(now, a)
  {
    hide GotRegister, IsTail;
  }

  /** When every transfer succeeds, the prefetched registers are those of ID, version, pin count,
      functions and names. */
  lemma GotAllIsPrefetched(l: Layout, pins: nat, got: Got, a: int)
    requires GotAll(got, pins)
    ensures GotRegister(l, pins, got, a) <==> Prefetched(l, pins, a)
  {
    NamesCover(l, pins, a);
    hide NameAt;
    assert NameAt(l, 0) <= 2 * a < NameAt(l, pins) ==> GotName(l, got.names, a);
  }

  /** Register by register, after a prefetch without failures. */
  lemma PrefetchShows(l: Layout, pins: nat, got: Got, mem: seq<u8>, now: seq<u16>, was: seq<u16>, a: nat)
    requires PrefetchedTable(l, pins, got, mem, now, was) && GotAll(got, pins) && a < |was|
    requires l.versionStart % 2 == 0 && l.ioCount % 2 == 0 && (l.bufferSize + l.funcStart) % 2 == 0
    requires l.nameLength % 2 == 0 && (l.bufferSize + l.nameStart) % 2 == 0
    requires !(l.versionLength % 2 == 1 && a == VersionTail(l))
    ensures now[a] ==
      if || a == 0 || a == l.ioCount / 2
         || l.versionStart / 2 <= a < (l.versionStart + l.versionLength + 1) / 2
         || (l.bufferSize + l.funcStart) / 2 <= a < (l.bufferSize + l.funcStart) / 2 + pins
         || (l.bufferSize + l.nameStart) / 2 <= a < (l.bufferSize + l.nameStart) / 2 + pins * (l.nameLength / 2)
      then DeviceWord(mem, a) else was[a]
  {
    GotAllIsPrefetched(l, pins, got, a);
    NamesProduct(l, pins);
    HalfProduct(pins, l.nameLength);
    var names := pins * (l.nameLength / 2);
    hide GotRegister, NamesLength;
    assert !IsTail(l, got, a) && NamesLength(l, pins) == 2 * names;
  }

  lemma HalfProduct(n: nat, m: nat)
    requires m % 2 == 0
    ensures 2 * (n * (m / 2)) == n * m
  {
    assert m == 2 * (m / 2);
  }

  lemma {:induction false} NamesCover(l: Layout, n: nat, a: int)
    ensures NameAt(l, 0) == l.bufferSize + l.nameStart && NameAt(l, n) == l.bufferSize + l.nameStart + NamesLength(l, n)
    ensures NameAt(l, 0) <= 2 * a < NameAt(l, n)
       <==> exists i :: 0 <= i < n && NameAt(l, i) <= 2 * a < NameAt(l, i) + l.nameLength
  {
    if n > 0 {
      NamesCover(l, n - 1, a);
      assert NameAt(l, n) == NameAt(l, n - 1) + l.nameLength;
      if NameAt(l, n - 1) <= 2 * a < NameAt(l, n) {
        assert NameAt(l, n - 1) <= 2 * a < NameAt(l, n - 1) + l.nameLength;
        StartsFirst(l, n - 1);
      }
    }
  }

  lemma {:induction false} StartsFirst(l: Layout, n: nat)
    ensures NameAt(l, 0) <= NameAt(l, n)
  {
    if n > 0 {
      StartsFirst(l, n - 1);
    }
  }

  /** A successful transfer of a name is one of the names of the pins. */
  lemma GotNameInNames(l: Layout, pins: nat, names: seq<bool>, a: int)
    requires |names| <= pins && GotName(l, names, a)
    ensures l.bufferSize + l.nameStart <= 2 * a < l.bufferSize + l.nameStart + NamesLength(l, pins)
  {
    hide NamesLength;
    var i :| 0 <= i < |names| && names[i] && NameAt(l, i) <= 2 * a < NameAt(l, i) + l.nameLength;
    NamesCover(l, pins, a);
  }

  /** The steps of the prefetch. */
  ghost predicate Steps(l: Layout, pins: u8, got: Got, mem: seq<u8>, r: seq<seq<u16>>) {
    && |r| == 6
    && BlockFetched(r[1], r[0], mem, 0, if got.id then 2 else 0)
    && BlockFetched(r[2], r[1], mem, l.versionStart, if got.version then l.versionLength else 0)
    && BlockFetched(r[3], r[2], mem, l.ioCount, if got.count then 2 else 0)
    && BlockFetched(r[4], r[3], mem, l.bufferSize + l.funcStart, if got.funcs then pins as int * 2 else 0)
    && NamesFetched(r[5], r[4], mem, l, got.names)
  }

  lemma PrefetchJoins(l: Layout, pins: u8, got: Got, mem: seq<u8>, r: seq<seq<u16>>)
    requires Steps(l, pins, got, mem, r) && PrefetchFits(l, pins, |r[0]|) && |got.names| <= pins
    ensures PrefetchedTable(l, pins, got, mem, r[5], r[0])
  {
    hide PrefetchFits;
    PrefetchSizes(l, pins, |r[0]|);
    forall a | 0 <= a < |r[0]|
      ensures r[5][a] == if IsTail(l, got, a) then Word(mem[2 * a], 0)
                         else if GotRegister(l, pins, got, a) then DeviceWord(mem, a)
                         else r[0][a]
    {
      hide BlockFetched, NamesFetched;
      if IsTail(l, got, a) {
        TailAt(l, pins, got, mem, r, a);
      } else {
        RegisterAt(l, pins, got, mem, r, a);
      }
    }
  }

  lemma PrefetchSizes(l: Layout, pins: u8, nbRegisters: nat)
    requires PrefetchFits(l, pins, nbRegisters)
    ensures l.versionStart % 2 == 0 && l.ioCount % 2 == 0 && (l.bufferSize + l.funcStart) % 2 == 0
    ensures l.versionLength % 2 == 1 ==> !Prefetched(l.(versionLength := l.versionLength - 1), pins, VersionTail(l))
  {
  }

  lemma TailAt(l: Layout, pins: u8, got: Got, mem: seq<u8>, r: seq<seq<u16>>, a: nat)
    requires Steps(l, pins, got, mem, r) && a < |r[0]| && IsTail(l, got, a) && |got.names| <= pins
    requires l.versionStart % 2 == 0 && !Prefetched(l.(versionLength := l.versionLength - 1), pins, a)
    ensures r[5][a] == Word(mem[2 * a], 0)
  {
    NamesIgnoreVersion(l, pins);
    if GotName(l, got.names, a) {
      GotNameInNames(l, pins, got.names, a);
    }
    hide NamesLength, GotName;
    assert r[2][a] == Word(mem[2 * a], 0);
    assert r[3][a] == r[2][a] && r[4][a] == r[3][a] && r[5][a] == r[4][a];
  }

  lemma {:induction false} NamesIgnoreVersion(l: Layout, n: nat)
    requires l.versionLength > 0
    ensures NamesLength(l.(versionLength := l.versionLength - 1), n) == NamesLength(l, n)
  {
    if n > 0 {
      NamesIgnoreVersion(l, n - 1);
    }
  }

  lemma RegisterAt(l: Layout, pins: u8, got: Got, mem: seq<u8>, r: seq<seq<u16>>, a: nat)
    requires Steps(l, pins, got, mem, r) && a < |r[0]| && !IsTail(l, got, a)
    requires l.versionStart % 2 == 0 && l.ioCount % 2 == 0 && (l.bufferSize + l.funcStart) % 2 == 0
    ensures r[5][a] == if GotRegister(l, pins, got, a) then DeviceWord(mem, a) else r[0][a]
  {
    hide GotName;
    assert r[1][a] == if got.id && a == 0 then DeviceWord(mem, a) else r[0][a];
    assert r[2][a] == if got.version && l.versionStart <= 2 * a < l.versionStart + l.versionLength
                      then DeviceWord(mem, a) else r[1][a];
    assert r[3][a] == if got.count && l.ioCount <= 2 * a < l.ioCount + 2 then DeviceWord(mem, a) else r[2][a];
  }

  /** `now` is `was` with the names of the successful transfers fetched. */
  ghost predicate NamesFetched(now: seq<u16>, was: seq<u16>, mem: seq<u8>, l: Layout, names: seq<bool>) {
    && |now| == |was| && 2 * |was| <= |mem|
    && forall a :: 0 <= a < |was| ==> now[a] == if GotName(l, names, a) then DeviceWord(mem, a) else was[a]
  }

  method FetchNames(s: VirtualRTUSlave, buffer: array<u8>, l: Layout, pins: u8) returns (ghost names: seq<bool>)
    requires s.Valid() && buffer !in s.comm.memory && buffer.Length == 34
    requires PrefetchFits(l, pins, s.NbRegisters())
    modifies buffer, s.mapping.tabRegisters, s.comm`attempts
    ensures NamesFetched(s.mapping.tabRegisters[..], old(s.mapping.tabRegisters[..]), s.comm.memory[s.address][..],
                         l, names)
    ensures |names| == pins && (s.comm.working ==> forall i :: 0 <= i < pins ==> names[i])
    ensures s.comm.attempts == old(s.comm.attempts) + NameTransfers(l, s.address, pins)
    ensures s.comm.memory[s.address][..] == old(s.comm.memory[s.address][..])
  {
    hide NamesLength, NamesFetched;
    ghost var was, mem := s.mapping.tabRegisters[..], s.comm.memory[s.address][..];
    NothingFetched(l, was, mem);
    names := [];
    for i: int := 0 to pins
      invariant s.comm.memory[s.address][..] == mem
      invariant s.comm.attempts == old(s.comm.attempts) + NameTransfers(l, s.address, i)
      invariant |names| == i && (s.comm.working ==> forall k :: 0 <= k < i ==> names[k])
      invariant NamesFetched(s.mapping.tabRegisters[..], was, mem, l, names)
    {
      names := FetchName(s, buffer, l, i, pins, was, names);
    }
  }

  /** The name of pin `i`. */
  method FetchName(s: VirtualRTUSlave, buffer: array<u8>, l: Layout, i: nat, ghost pins: u8, ghost was: seq<u16>,
                   ghost names: seq<bool>)
    returns (ghost names': seq<bool>)
    requires s.Valid() && buffer !in s.comm.memory && buffer.Length == 34
    requires PrefetchFits(l, pins, s.NbRegisters()) && |names| == i < pins
    requires NamesFetched(s.mapping.tabRegisters[..], was, s.comm.memory[s.address][..], l, names)
    modifies buffer, s.mapping.tabRegisters, s.comm`attempts
    ensures s.comm.memory[s.address][..] == old(s.comm.memory[s.address][..])
    ensures NamesFetched(s.mapping.tabRegisters[..], was, s.comm.memory[s.address][..], l, names')
    ensures s.comm.attempts == old(s.comm.attempts) + [Attempt(s.address, NameAt(l, i), l.nameLength)]
    ensures |names'| == i + 1 && names'[..i] == names && (s.comm.working ==> names'[i])
  {
    hide NamesLength, BlockFetched, NamesFetched, Prefetched, PrefetchFits, HoldingHandler, InputHandler;
    ghost var mid, mem := s.mapping.tabRegisters[..], s.comm.memory[s.address][..];
    var at := NameAddress(l, i, pins, s.NbRegisters());
    var ok := FetchBlock(s, buffer, at, l.nameLength);
    names' := names + [ok];
    NamesStep(s.mapping.tabRegisters[..], mid, was, mem, l, names, ok);
  }

  lemma NamesStep(now: seq<u16>, mid: seq<u16>, was: seq<u16>, mem: seq<u8>, l: Layout, names: seq<bool>, ok: bool)
    requires NameAt(l, |names|) % 2 == 0 && l.nameLength % 2 == 0
    requires NamesFetched(mid, was, mem, l, names)
    requires BlockFetched(now, mid, mem, NameAt(l, |names|), if ok then l.nameLength else 0)
    ensures NamesFetched(now, was, mem, l, names + [ok])
  {
    var at := NameAt(l, |names|);
    forall a | 0 <= a < |was|
      ensures GotName(l, names + [ok], a) <==> GotName(l, names, a) || (ok && at <= 2 * a < at + l.nameLength)
    {
      GotNameSnoc(l, names, ok, a);
    }
    hide GotName, NameAt;
  }

  lemma GotNameSnoc(l: Layout, names: seq<bool>, ok: bool, a: int)
    ensures GotName(l, names + [ok], a) <==>
      GotName(l, names, a) || (ok && NameAt(l, |names|) <= 2 * a < NameAt(l, |names|) + l.nameLength)
  {
    hide NameAt;
    var longer := names + [ok];
    assert longer[|names|] == ok && forall i :: 0 <= i < |names| ==> longer[i] == names[i];
    if i :| 0 <= i < |names| && names[i] && NameAt(l, i) <= 2 * a < NameAt(l, i) + l.nameLength {
      assert longer[i];
    }
  }

  method NameAddress(l: Layout, i: nat, ghost pins: u8, ghost nbRegisters: nat) returns (at: u16)
    requires PrefetchFits(l, pins, nbRegisters) && i < pins
    ensures at == NameAt(l, i)
    ensures at % 2 == 0 && l.nameLength % 2 == 0 && l.nameLength <= 33 && at + l.nameLength <= 2 * nbRegisters
  {
    NamesFit(l, pins, nbRegisters);
    hide PrefetchFits;
    NameFits(l, i, pins);
    hide NamesLength;
    var offset := NameOffset(l, i);
    at := l.bufferSize + l.nameStart + offset;
  }

  lemma NameFits(l: Layout, i: nat, pins: nat)
    requires l.nameLength % 2 == 0 && i < pins
    ensures NamesLength(l, i) % 2 == 0 && NamesLength(l, i) + l.nameLength <= NamesLength(l, pins)
  {
    assert NamesLength(l, i + 1) == NamesLength(l, i) + l.nameLength;
    hide NamesLength;
    NamesGrow(l, i, pins);
    NamesGrow(l, i + 1, pins);
  }

  method NameOffset(l: Layout, i: nat) returns (offset: nat)
    ensures offset == NamesLength(l, i)
  {
    NamesProduct(l, i);
    offset := i * l.nameLength;
  }

  lemma NamesFit(l: Layout, pins: nat, nbRegisters: nat)
    requires PrefetchFits(l, pins, nbRegisters)
    ensures (l.bufferSize + l.nameStart) % 2 == 0 && l.nameLength % 2 == 0 && l.nameLength <= 33
    ensures l.bufferSize + l.nameStart + NamesLength(l, pins) <= 2 * nbRegisters < SPACE
  {
  }

  /** The bounds of the blocks before the names. */
  lemma BlocksFit(l: Layout, pins: nat, nbRegisters: nat)
    requires PrefetchFits(l, pins, nbRegisters)
    ensures 2 <= 2 * nbRegisters
    ensures l.versionStart % 2 == 0 && l.versionLength <= 33
    ensures l.versionStart + l.versionLength + l.versionLength % 2 <= 2 * nbRegisters && l.versionStart < SPACE
    ensures l.ioCount % 2 == 0 && l.ioCount + 2 <= 2 * nbRegisters
    ensures (l.bufferSize + l.funcStart) % 2 == 0 && l.bufferSize + l.funcStart < SPACE
    ensures pins * 2 <= 34 && l.bufferSize + l.funcStart + pins * 2 <= 2 * nbRegisters
  {
  }

  lemma NothingFetched(l: Layout, was: seq<u16>, mem: seq<u8>)
    requires 2 * |was| <= |mem|
    ensures NamesFetched(was, was, mem, l, []) && forall start :: BlockFetched(was, was, mem, start, 0)
  {
  }

  // ---- the handler table ----

  datatype BoardHandlers = BoardHandlers(readOnly: MultiByteHandler, version: MultiByteHandler,
                                         holding: MultiByteHandler, tmp: MultiByteHandler, perm: MultiByteHandler)

  /** The bounds that `DataHandler::checkWriteAccess` sets, of either data handler. */
  function RamRange(l: Layout): Range {
    Range(l.dataStart / 2, l.dataStart / 2 + l.maxPins / 2 - 1)
  }

  predicate BoardHandler(h: MultiByteHandler, comm: I2CComm, kind: Kind) {
    && h.Valid() && h.comm == comm && h.mode == 2 && h.byteCount < 0 && h.kind == kind
    && h.enableReadHolding && h.enableWriteSingle && h.enableWriteMultiple
  }

  predicate HandlersOk(l: Layout, hs: BoardHandlers, comm: I2CComm)
    requires l.versionLength <= 33
  {
    && BoardHandler(hs.readOnly, comm, ReadOnly)
    && BoardHandler(hs.version, comm, Version(l.versionStart / 2, l.versionLength / 2 + l.versionLength % 2))
    && BoardHandler(hs.holding, comm, Plain)
    && BoardHandler(hs.tmp, comm, Data(RamRange(l))) && BoardHandler(hs.perm, comm, Data(RamRange(l)))
  }

  function PermFirst(l: Layout): nat {
    (l.bufferSize + l.permStart) / 2
  }

  /** A block of `length` registers from `first` on, with the 16-bit bounds it is stored with. */
  function BlockAt(h: MultiByteHandler, first: int, length: int): Block {
    Block(Bytes(h), Wrap16(first), Wrap16(Wrap16(first) + length - 1))
  }

  function PermBlock(l: Layout, pins: u8, hs: BoardHandlers): Block {
    BlockAt(hs.perm, PermFirst(l), pins * (l.permLength / 2))
  }

  function BoardMap(l: Layout, hs: BoardHandlers): map<u16, HandlerRef> {
    map[Wrap16(0) := Bytes(hs.readOnly)][1 := Bytes(hs.readOnly)][Wrap16(l.versionStart / 2) := Bytes(hs.version)]
    [Wrap16(l.ioCount / 2) := Bytes(hs.readOnly)][Wrap16(l.ioStart / 2) := Bytes(hs.holding)]
    [Wrap16(l.ioStart / 2 + 1) := Bytes(hs.holding)][Wrap16(l.bufferSize / 2) := Bytes(hs.holding)]
  }

  function BoardBlocks(l: Layout, pins: u8, hs: BoardHandlers): seq<Block> {
    [BlockAt(hs.tmp, l.dataStart / 2, pins * (l.dataLength / 2)),
     BlockAt(hs.holding, l.bufferSize / 2 + l.funcStart / 2, pins),
     BlockAt(hs.holding, (l.bufferSize + l.nameStart) / 2, pins * (l.nameLength / 2)),
     PermBlock(l, pins, hs),
     BlockAt(hs.holding, (l.bufferSize + l.sharedStart) / 2, l.sharedLength)]
  }

  function BoardTable(l: Layout, pins: u8, hs: BoardHandlers): Table {
    Table(BoardMap(l, hs), BoardBlocks(l, pins, hs))
  }

  /** The table lies inside the registers of the board, its blocks are disjoint, and the permanent
      data has a block of its own behind the RAM data. */
  predicate BoardFits(l: Layout, pins: u8, hs: BoardHandlers, nbRegisters: nat) {
    var t := BoardTable(l, pins, hs);
    && (forall a :: a in t.handlers ==> a < nbRegisters)
    && (forall i :: 0 <= i < |t.blocks| ==> t.blocks[i].end < nbRegisters)
    && Disjoint(t.blocks)
    && (forall a :: a in t.handlers ==> !Covers(PermBlock(l, pins, hs), a))
    && RamRange(l).last < PermBlock(l, pins, hs).start
  }

  /** `IOBoard_Slave::init`: asks the board for its pin count, creates the handlers and enters them. */
  method InitBoard(comm: I2CComm, address: u8, l: Layout)
    returns (ok: bool, pins: u8, t: Table, hs: BoardHandlers)
    requires comm.Valid() && l.versionLength <= 33 && l.ioCount + 2 <= SPACE
    modifies comm`attempts
    ensures (comm.working ==> ok) && (!ok ==> t == Table(map[], []))
    ensures HandlersOk(l, hs, comm) && fresh({hs.readOnly, hs.version, hs.holding, hs.tmp, hs.perm})
    ensures ok ==>
      && pins == comm.memory[address][l.ioCount] && t == BoardTable(l, pins, hs)
      && hs.perm.range == Range(PermFirst(l), PermFirst(l) + pins * 2 - 1)
      && hs.tmp.range == Range(l.dataStart / 2, l.dataStart / 2 + pins * (l.dataLength / 2) - 1)
  {
    var buffer := new u8[4];
    buffer[0] := l.ioCount / 0x100;
    buffer[1] := l.ioCount % 0x100;
    assert BusAddress(buffer[..], 2) == l.ioCount;
    hide BoardTable;
    ok := comm.ReadBytes(address, buffer, 2, 2);
    pins := buffer[0];
    var unset := Range(0, -1);
    var units: u8 := l.versionLength / 2 + l.versionLength % 2;
    var holding := new MultiByteHandler(comm, 2, -1, Plain, false, unset);
    var readOnly := new MultiByteHandler(comm, 2, -1, ReadOnly, false, unset);
    var version := new MultiByteHandler(comm, 2, -1, Version(l.versionStart / 2, units), false, unset);
    var tmp := new MultiByteHandler(comm, 2, -1, Data(RamRange(l)), true,
      Range(l.dataStart / 2, l.dataStart / 2 + pins * (l.dataLength / 2) - 1));
    var perm := new MultiByteHandler(comm, 2, -1, Data(RamRange(l)), true,
      Range(PermFirst(l), PermFirst(l) + pins * 2 - 1));
    hs := BoardHandlers(readOnly, version, holding, tmp, perm);
    t := Table(map[], []);
    if ok {
      t := EnterHandlers(l, pins, hs);
    }
  }

  method EnterHandlers(l: Layout, pins: u8, hs: BoardHandlers) returns (t: Table)
    ensures t == BoardTable(l, pins, hs)
  {
    var handlers: map<u16, HandlerRef> := map[Wrap16(0) := Bytes(hs.readOnly)];
    handlers := handlers[1 := Bytes(hs.readOnly)];
    handlers := handlers[Wrap16(l.versionStart / 2) := Bytes(hs.version)];
    handlers := handlers[Wrap16(l.ioCount / 2) := Bytes(hs.readOnly)];
    handlers := handlers[Wrap16(l.ioStart / 2) := Bytes(hs.holding)];
    handlers := handlers[Wrap16(l.ioStart / 2 + 1) := Bytes(hs.holding)];
    handlers := handlers[Wrap16(l.bufferSize / 2) := Bytes(hs.holding)];
    var blocks := [BlockAt(hs.tmp, l.dataStart / 2, pins * (l.dataLength / 2))];
    blocks := blocks + [BlockAt(hs.holding, l.bufferSize / 2 + l.funcStart / 2, pins)];
    blocks := blocks + [BlockAt(hs.holding, (l.bufferSize + l.nameStart) / 2, pins * (l.nameLength / 2))];
    blocks := blocks + [BlockAt(hs.perm, PermFirst(l), pins * (l.permLength / 2))];
    blocks := blocks + [BlockAt(hs.holding, (l.bufferSize + l.sharedStart) / 2, l.sharedLength)];
    t := Table(handlers, blocks);
  }

  /** The board slave after construction and `init`. Without the pin count it has no handlers; with it,
      and on a layout that fits, it is a board. The registers of the transfers that succeeded are clean. */
  method NewIOBoard(comm: I2CComm, address: u8, l: Layout)
    returns (s: VirtualRTUSlave, ok: bool, pins: u8, hs: BoardHandlers, ghost got: Got)
    requires comm.Valid() && l.ioCount + 2 <= SPACE
    requires PrefetchFits(l, comm.memory[address][l.ioCount], l.bufferSize + l.eepromSize / 2)
    modifies comm`attempts
    ensures s.address == address && s.comm == comm && s.NbRegisters() == l.bufferSize + l.eepromSize / 2
    ensures comm.working ==> ok
    ensures !ok ==> s.holding == s.input == Table(map[], [])
    ensures ok ==>
      && pins == comm.memory[address][l.ioCount] && HandlersOk(l, hs, comm)
      && hs.perm.range == Range(PermFirst(l), PermFirst(l) + pins * 2 - 1)
      && hs.tmp.range == Range(l.dataStart / 2, l.dataStart / 2 + pins * (l.dataLength / 2) - 1)
      && (BoardFits(l, pins, hs, s.NbRegisters()) ==> IsBoard(s, l, pins, hs))
    ensures !ok || BoardFits(l, pins, hs, s.NbRegisters()) ==>
      && s.Valid() && s.CacheAgrees()
      && s.clean == CleanFetched(l, comm.memory[address][l.ioCount], got, s.NbRegisters(), iset{})
      && (comm.working ==> GotAll(got, comm.memory[address][l.ioCount]))
  {
    var mapping := new Mapping(l.bufferSize + l.eepromSize / 2, 0);
    var table;
    ok, pins, table, hs := InitBoard(comm, address, l);
    s := new VirtualRTUSlave(address, mapping, comm, table, Table(map[], []));
    got := Got(false, false, false, false, []);
    if ok && BoardFits(l, pins, hs, l.bufferSize + l.eepromSize / 2) {
      BoardIsValid(s, l, pins, hs);
    }
    if !ok || BoardFits(l, pins, hs, l.bufferSize + l.eepromSize / 2) {
      got := GetSlaveInfo(s, l);
    }
  }

  lemma BoardIsValid(s: VirtualRTUSlave, l: Layout, pins: u8, hs: BoardHandlers)
    requires s.comm.Valid() && s.mapping.Valid() && l.versionLength <= 33 && HandlersOk(l, hs, s.comm)
    requires BoardFits(l, pins, hs, s.NbRegisters())
    requires s.holding == BoardTable(l, pins, hs) && s.input == Table(map[], [])
    ensures IsBoard(s, l, pins, hs)
  {
    hide BoardFits;
    var t := BoardTable(l, pins, hs);
    forall i | 0 <= i < |t.blocks|
      ensures HoldingHandler(t.blocks[i].handler, t.blocks[i].end, s.comm, s.NbRegisters())
    {
      BlockEnd(l, pins, hs, s.NbRegisters(), i);
    }
    forall a | a in t.handlers
      ensures HoldingHandler(t.handlers[a], a, s.comm, s.NbRegisters())
    {
      KeyBound(l, pins, hs, s.NbRegisters(), a);
    }
  }

  lemma BlockEnd(l: Layout, pins: u8, hs: BoardHandlers, nbRegisters: nat, i: nat)
    requires BoardFits(l, pins, hs, nbRegisters) && i < |BoardTable(l, pins, hs).blocks|
    ensures BoardTable(l, pins, hs).blocks[i].end < nbRegisters
  {
  }

  lemma KeyBound(l: Layout, pins: u8, hs: BoardHandlers, nbRegisters: nat, a: u16)
    requires BoardFits(l, pins, hs, nbRegisters) && a in BoardTable(l, pins, hs).handlers
    ensures a < nbRegisters
  {
  }

  predicate IsBoard(s: VirtualRTUSlave, l: Layout, pins: u8, hs: BoardHandlers) {
    && s.Valid() && l.versionLength <= 33 && HandlersOk(l, hs, s.comm)
    && BoardFits(l, pins, hs, s.NbRegisters())
    && s.holding == BoardTable(l, pins, hs) && s.input == Table(map[], [])
  }

  /** A layout for 16 pins that meets the hypotheses: pin count at register 8, ports from register 10,
      functions from register 136. */
  const EXAMPLE_LAYOUT := Layout(4, 12, 16, 20, 32, 4, 16, 256, 512, 16, 64, 16, 320, 4, 384, 64)

  lemma ExampleLayoutFits(hs: BoardHandlers)
    ensures PrefetchFits(EXAMPLE_LAYOUT, 16, 512) && BoardFits(EXAMPLE_LAYOUT, 16, hs, 512)
  {
    NamesProduct(EXAMPLE_LAYOUT, 16);
    ExampleTable(hs);
  }

  lemma ExampleTable(hs: BoardHandlers)
    ensures BoardTable(EXAMPLE_LAYOUT, 16, hs).handlers
         == map[0 := Bytes(hs.readOnly), 1 := Bytes(hs.readOnly), 2 := Bytes(hs.version), 8 := Bytes(hs.readOnly),
                10 := Bytes(hs.holding), 11 := Bytes(hs.holding), 128 := Bytes(hs.holding)]
    ensures BoardTable(EXAMPLE_LAYOUT, 16, hs).blocks
         == [Block(Bytes(hs.tmp), 16, 47), Block(Bytes(hs.holding), 136, 151), Block(Bytes(hs.holding), 160, 287),
             Block(Bytes(hs.perm), 288, 319), Block(Bytes(hs.holding), 320, 383)]
  {
  }
}
