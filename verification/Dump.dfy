/** The paged dump of device memory (src/webinterface/pages/I2C.ecpp:274-454). */
module Dumps {
  import opened Words
  import opened I2C

  /** One transfer of the dump: where it starts, in which address mode, and how many bytes. */
  datatype Transfer = Transfer(start: nat, mode: nat, count: nat)

  /** Within one row of 16, 1 to 16 bytes, and in 8-bit address mode wholly below 256. */
  predicate RowTransfer(t: Transfer) {
    && 1 <= t.count <= 16 && t.start / 16 == (t.start + t.count - 1) / 16
    && (t.mode == 1 || t.mode == 2) && (t.mode == 1 <==> t.start < 256)
    && (t.mode == 1 ==> t.start + t.count <= 256)
  }

  function Total(ts: seq<Transfer>): nat {
    if ts == [] then 0 else Total(ts[..|ts| - 1]) + ts[|ts| - 1].count
  }

  /** The transfers follow each other from `start` on. */
  ghost predicate FollowFrom(ts: seq<Transfer>, start: nat) {
    forall i :: 0 <= i < |ts| ==> RowTransfer(ts[i]) && ts[i].start == start + Total(ts[..i])
  }

  lemma FollowSnoc(ts: seq<Transfer>, start: nat, t: Transfer)
    requires FollowFrom(ts, start) && RowTransfer(t) && t.start == start + Total(ts)
    ensures FollowFrom(ts + [t], start) && Total(ts + [t]) == Total(ts) + t.count
  {
    assert (ts + [t])[..|ts|] == ts;
    forall i | 0 <= i < |ts|
      ensures (ts + [t])[i] == ts[i] && (ts + [t])[..i] == ts[..i]
    {
    }
  }

  /** The byte that a position is read from: 16 bits of it go into the register address. */
  function At(mem: seq<u8>, pos: nat): u8
    requires |mem| == SPACE
  {
    mem[Wrap16(pos)]
  }

  lemma AddressBytes(cur: nat)
    ensures Word(Wrap8(cur / 0x100), cur % 0x100) == Wrap16(cur)
  {
  }

  /** The device bytes of `n` positions from `start` on. */
  function Dumped(mem: seq<u8>, start: nat, n: nat): (cells: seq<u8>)
    requires |mem| == SPACE
    ensures |cells| == n && forall k :: 0 <= k < n ==> cells[k] == At(mem, start + k)
  {
    seq<u8>(n, k requires 0 <= k < n => At(mem, start + k))
  }

  lemma DumpedJoins(mem: seq<u8>, start: nat, n: nat, m: nat)
    requires |mem| == SPACE
    ensures Dumped(mem, start, n) + Dumped(mem, start + n, m) == Dumped(mem, start, n + m)
    ensures Dumped(mem, start, 0) == []
  {
  }

  /** The rest of the row, cut off behind `stop`. */
  function RowCount(cur: nat, stop: nat): nat
    requires cur <= stop
  {
    var count := 16 - cur % 16;
    if cur + count > stop then stop - cur + 1 else count
  }

  lemma RowEnds(cur: nat, stop: nat)
    requires cur <= stop
    ensures var count := RowCount(cur, stop);
      && RowTransfer(Transfer(cur, if cur < 256 then 1 else 2, count)) && 0 < count <= 16
      && cur + count <= stop + 1 && (cur + count == stop + 1 || (cur + count) % 16 == 0)
      && Wrap16(cur) + count <= SPACE
  {
    assert cur == cur / 16 * 16 + cur % 16;
  }

  /** The transfer at `cur`: up to the end of its row, and not past `stop`. */
  method FetchRow(comm: I2CComm, slave: u8, buffer: array<u8>, cur: nat, stop: nat)
    returns (ok: bool, mode: nat, count: nat)
    requires comm.Valid() && buffer !in comm.memory && buffer.Length == 16 && cur <= stop
    modifies buffer, comm`attempts
    ensures RowTransfer(Transfer(cur, mode, count))
    ensures 0 < count <= 16 && cur + count <= stop + 1 && (cur + count == stop + 1 || (cur + count) % 16 == 0)
    ensures comm.working ==> ok
    ensures ok ==> buffer[..count] == Dumped(comm.memory[slave][..], cur, count)
  {
    hide RowTransfer;
    if cur < 256 {
      buffer[0] := cur % 0x100;
      mode := 1;
    } else {
      buffer[0] := Wrap8(cur / 0x100);
      buffer[1] := cur % 0x100;
      mode := 2;
    }
    AddressBytes(cur);
    RowEnds(cur, stop);
    count := 16 - cur % 16;
    if cur + count > stop {
      count := stop - cur + 1;
    }
    hide RowCount, Wrap8;
    ghost var mem := comm.memory[slave][..];
    assert BusAddress(buffer[..], mode) == Wrap16(cur);
    ok := comm.ReadBytes(slave, buffer, mode, count);
    NoWrap(cur, count);
    hide Wrap16, BusAddress;
    assert comm.memory[slave][..] == mem;
  }

  lemma NoWrap(cur: nat, count: nat)
    requires Wrap16(cur) + count <= SPACE
    ensures forall p :: cur <= p < cur + count ==> Wrap16(p) == Wrap16(cur) + p - cur
  {
  }

  /** The empty cells before the first one. */
  method FillBegin(start: nat) returns (cur: nat)
    ensures cur == start
  {
    ghost var row := start / 16;
    cur := start / 16 * 16;
    while cur % 16 != start % 16
      invariant 16 * row <= cur <= start < 16 * row + 16 && cur % 16 == cur - 16 * row
      decreases start - cur
    {
      cur := cur + 1;
    }
  }

  /** The cells of one row. */
  method PrintRow(buffer: array<u8>, cur: nat, offset: nat, count: nat, printed: seq<u8>) returns (cells: seq<u8>)
    requires cur == offset && count <= buffer.Length
    ensures cells == printed + buffer[..count]
  {
    cells := printed;
    for i := 0 to count
      invariant cells == printed + buffer[..i]
    {
      cells := cells + [buffer[cur + i - offset]];
    }
  }

  /** `form_i2c_dump`. For every start and stop the cells printed are the device bytes at these
      positions, each once and in order; a transfer that fails ends the dump after whole rows. */
  method FormI2CDump(comm: I2CComm, slave: u8, start: int, stop: int)
    returns (cells: seq<u8>, ghost transfers: seq<Transfer>, ghost failed: bool)
    requires comm.Valid()
    modifies comm`attempts
    ensures start < 0 || stop < start ==> cells == []
    ensures 0 <= start <= stop ==>
      |cells| <= stop - start + 1 && cells == Dumped(comm.memory[slave][..], start, |cells|)
    ensures 0 <= start <= stop ==>
      forall k :: 0 <= k < |cells| ==> cells[k] == comm.memory[slave][(start + k) % 0x1_0000]
    ensures 0 <= start <= stop && comm.working ==> |cells| == stop - start + 1
    ensures 0 <= start <= stop ==>
      && FollowFrom(transfers, start) && |cells| == Total(transfers)
      && (!failed ==> |cells| == stop - start + 1)
  {
    cells, transfers, failed := [], [], false;
    if start < 0 || stop < 0 || stop - start < 0 {
      return;
    }
    cells, transfers, failed := DumpRows(comm, slave, start, stop);
  }

  method DumpRows(comm: I2CComm, slave: u8, start: nat, stop: nat)
    returns (cells: seq<u8>, ghost transfers: seq<Transfer>, ghost failed: bool)
    requires comm.Valid() && start <= stop
    modifies comm`attempts
    ensures FollowFrom(transfers, start) && |cells| == Total(transfers) <= stop - start + 1
    ensures !failed ==> |cells| == stop - start + 1
    ensures cells == Dumped(comm.memory[slave][..], start, |cells|)
    ensures comm.working ==> !failed
  {
    ghost var mem := comm.memory[slave][..];
    hide *;
    var cur := FillBegin(start);
    var buffer := new u8[16];
    var needNextData := true;
    var count, offset := 0, 0;
    cells, transfers, failed := [], [], false;
    FollowNothing(start);
    DumpedJoins(mem, start, 0, 0);
    while true
      invariant start <= cur <= stop && needNextData && !failed
      invariant cur == start + |cells| && |cells| == Total(transfers) && FollowFrom(transfers, start)
      invariant cells == Dumped(mem, start, |cells|)
      decreases stop - cur
    {
      if needNextData {
        needNextData := false;
        var ok, mode;
        ok, mode, count := FetchRow(comm, slave, buffer, cur, stop);
        offset := cur;
        if !ok {
          failed := true;
          return;
        }
        FollowSnoc(transfers, start, Transfer(cur, mode, count));
        transfers := transfers + [Transfer(cur, mode, count)];
      }
      DumpedJoins(mem, start, |cells|, count);
      cells := PrintRow(buffer, cur, offset, count, cells);
      cur := cur + count;
      if cur % 16 == 0 && cur <= stop {
        needNextData := true;
      }
      if !(cur <= stop) {
        break;
      }
    }
  }

  lemma FollowNothing(start: nat)
    ensures FollowFrom([], start) && Total([]) == 0
  {
  }
}
