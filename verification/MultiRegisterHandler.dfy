/** `MultiRegisterHandler` (src/base/handler/MultiRegisterHandler.cpp): registers served from
    another register table. `SRegisterHandler` is the one with a fixed count of 1. */
module RegisterHandlers {
  import opened Words
  import opened RegisterMapping

  /** `dst` after a `memcpy` of `n` bytes from `src`, both starting at register `at`, on a
      little-endian host: an odd last byte replaces the low half of its register. */
  function CopyBytes(dst: seq<u16>, src: seq<u16>, at: nat, n: nat): (r: seq<u16>)
    requires at + n / 2 + n % 2 <= |dst| && at + n / 2 + n % 2 <= |src|
    ensures |r| == |dst|
  {
    seq(|dst|, i requires 0 <= i < |dst| =>
      if at <= i < at + n / 2 then src[i]
      else if i == at + n / 2 && n % 2 == 1 then Word(Hi(dst[i]), Lo(src[i]))
      else dst[i])
  }

  /** The handlers pass a register count where `memcpy` takes bytes. The copy brings over all `n`
      registers exactly when the ones it does not reach agree already: the upper half of the
      range, and for an odd `n` the high byte of the register in the middle. */
  lemma CopyBytesIsCompleteWhen(dst: seq<u16>, src: seq<u16>, at: nat, n: nat)
    requires at + n <= |dst| && at + n <= |src|
    ensures CopyBytes(dst, src, at, n)[at..at + n] == src[at..at + n]
      <==> && (forall i :: at + n / 2 + n % 2 <= i < at + n ==> dst[i] == src[i])
           && (n % 2 == 1 ==> Hi(dst[at + n / 2]) == Hi(src[at + n / 2]))
  {
    var r := CopyBytes(dst, src, at, n);
    if r[at..at + n] == src[at..at + n] {
      forall i | at <= i < at + n
        ensures r[i] == src[i]
      {
        assert r[at..at + n][i - at] == src[at..at + n][i - at];
      }
    }
  }

  /** Copying a table onto itself changes nothing. */
  lemma CopyBytesOntoItself(tab: seq<u16>, at: nat, n: nat)
    requires at + n / 2 + n % 2 <= |tab|
    ensures CopyBytes(tab, tab, at, n) == tab
  {
  }

  method MemCopy(dst: array<u16>, src: array<u16>, at: nat, n: nat)
    requires at + n / 2 + n % 2 <= dst.Length && at + n / 2 + n % 2 <= src.Length
    modifies dst
    ensures dst[..] == CopyBytes(old(dst[..]), old(src[..]), at, n)
  {
    for k := 0 to n
      invariant dst[..] == CopyBytes(old(dst[..]), old(src[..]), at, k)
      invariant dst != src ==> src[..] == old(src[..])
    {
      CopyBytesOntoItself(old(dst[..]), at, k);
      var i := at + k / 2;
      dst[i] := if k % 2 == 0 then Word(Hi(dst[i]), Lo(src[i])) else Word(Hi(src[i]), Lo(dst[i]));
    }
  }

  class MultiRegisterHandler {
    const store: Mapping
    /** Fixed number of registers per call; negative for as many as the request asks for. */
    const registerCount: int

    predicate Valid() {
      store.Valid() && registerCount <= 0x7FFF
    }

    constructor (store: Mapping, registerCount: int)
      requires store.Valid() && registerCount <= 0x7FFF
      ensures Valid() && this.store == store && this.registerCount == registerCount
    {
      this.store, this.registerCount := store, registerCount;
    }

    function Units(count: u16): u16
      requires Valid()
    {
      if registerCount < 0 then count else registerCount
    }

    predicate ReadGuard(fc: u8, address: u16, count: u16, nbRegisters: nat, nbInput: nat)
      requires Valid()
    {
      || (fc == FC_READ_INPUT_REGISTERS && address + Units(count) <= nbInput)
      || (fc == FC_READ_HOLDING_REGISTERS && address + Units(count) <= nbRegisters)
    }

    predicate WriteGuard(fc: u8, address: u16, count: u16, nbRegisters: nat)
      requires Valid()
    {
      fc == FC_WRITE_MULTIPLE_REGISTERS && address + Units(count) <= nbRegisters
    }

    /** The tables behind `store` must be as long as those of the request. */
    method HandleRead(p: Param) returns (ret: u16)
      requires Valid() && p.mapping.Valid()
      requires p.mapping.tabRegisters.Length <= store.tabRegisters.Length
      requires p.mapping.tabInput.Length <= store.tabInput.Length
      modifies p.mapping.tabRegisters, p.mapping.tabInput
      ensures var guard := ReadGuard(p.fc, p.address, p.count,
                                     p.mapping.tabRegisters.Length, p.mapping.tabInput.Length);
        && ret == (if guard then if registerCount < 0 then p.count else registerCount else 0)
        && (guard <==>
              || (p.fc == 4 && p.address + Units(p.count) <= p.mapping.tabInput.Length)
              || (p.fc == 3 && p.address + Units(p.count) <= p.mapping.tabRegisters.Length))
        && p.mapping.tabInput[..] == (if guard && p.fc == FC_READ_INPUT_REGISTERS
             then CopyBytes(old(p.mapping.tabInput[..]), old(store.tabInput[..]), p.address, ret)
             else old(p.mapping.tabInput[..]))
        && p.mapping.tabRegisters[..] == (if guard && p.fc == FC_READ_HOLDING_REGISTERS
             then CopyBytes(old(p.mapping.tabRegisters[..]), old(store.tabRegisters[..]), p.address, ret)
             else old(p.mapping.tabRegisters[..]))
    {
      var count := if registerCount < 0 then p.count else registerCount;
      if p.fc == FC_READ_INPUT_REGISTERS {
        if p.address + count > p.mapping.tabInput.Length {
          return 0;
        }
        MemCopy(p.mapping.tabInput, store.tabInput, p.address, count);
      } else if p.fc == FC_READ_HOLDING_REGISTERS {
        if p.address + count > p.mapping.tabRegisters.Length {
          return 0;
        }
        MemCopy(p.mapping.tabRegisters, store.tabRegisters, p.address, count);
      } else {
        return 0;
      }
      ret := count;
    }

    method CheckWrite(p: Param) returns (ret: u16)
      requires Valid()
      ensures ret == Units(p.count)
    {
      ret := if registerCount < 0 then p.count else registerCount;
    }

    /** A single-register write reports no register whatever the flags say. */
    method HandleWrite(p: Param) returns (ret: u16)
      requires Valid() && p.mapping.Valid()
      requires p.mapping.tabRegisters.Length <= store.tabRegisters.Length
      modifies store.tabRegisters
      ensures var guard := WriteGuard(p.fc, p.address, p.count, p.mapping.tabRegisters.Length);
        && ret == (if guard then Units(p.count) else 0)
        && store.tabRegisters[..] == if guard
             then CopyBytes(old(store.tabRegisters[..]), old(p.mapping.tabRegisters[..]), p.address, ret)
             else old(store.tabRegisters[..])
    {
      var count := if registerCount < 0 then p.count else registerCount;
      if p.fc != FC_WRITE_MULTIPLE_REGISTERS {
        return 0;
      }
      if p.address + count > p.mapping.tabRegisters.Length {
        return 0;
      }
      MemCopy(store.tabRegisters, p.mapping.tabRegisters, p.address, count);
      ret := count;
    }
  }

  /** Both passes of a write at one register handler. The check reports the registers without looking at
      the function code or at any table; exactly for function 6, and for a range past the table, the write
      then reports none, and the store is as it was. */
  method CheckThenWrite(h: MultiRegisterHandler, p: Param) returns (checked: u16, written: u16)
    requires h.Valid() && p.mapping.Valid()
    requires p.fc == FC_WRITE_SINGLE_REGISTER || p.fc == FC_WRITE_MULTIPLE_REGISTERS
    requires p.mapping.tabRegisters.Length <= h.store.tabRegisters.Length
    modifies h.store.tabRegisters
    ensures checked > 0 <==> h.registerCount > 0 || (h.registerCount < 0 && p.count > 0)
    ensures checked > 0 && written == 0 <==>
      && checked > 0
      && (p.fc == FC_WRITE_SINGLE_REGISTER || p.address + checked > p.mapping.tabRegisters.Length)
    ensures written == 0 ==> h.store.tabRegisters[..] == old(h.store.tabRegisters[..])
    ensures written != 0 ==> written == checked
  {
    checked := h.CheckWrite(p);
    written := h.HandleWrite(p);
  }
}
