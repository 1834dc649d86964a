/** The bus scanner (src/I2C/I2CScanner.cpp): per-address miss counters that decide which slaves
    are listed, and the sliding window they implement. */
module Scanners {
  import opened Words
  import opened SlaveLists

  const MAX_SCAN_FAIL: nat := 5
  /** An address is listed while it was found in one of this many scans. */
  const WINDOW: nat := MAX_SCAN_FAIL + 2
  const SLAVE_TYPE_I2C: u8 := 0x10

  /** The live list of one scan, and for each address whether both identification reads of
      `createSlavebyType` would answer with the board's ID. */
  datatype Scan = Scan(live: seq<bool>, board: seq<bool>)

  /** What the scanner holds about one address: its listed type and its counter. */
  datatype Cell = Cell(listed: Option<u8>, counter: u8)

  function TypeOf(board: bool, boardId: u8): u8 {
    if board then boardId else SLAVE_TYPE_I2C
  }

  function StepCell(c: Cell, live: bool, board: bool, boardId: u8): Cell {
    if live then Cell(if c.listed.Some? then c.listed else Some(TypeOf(board, boardId)), 0)
    else if c.listed.None? then c
    else Cell(if c.counter > MAX_SCAN_FAIL then None else c.listed, Wrap8(c.counter + 1))
  }

  ghost predicate Trace(history: seq<Scan>, n: nat) {
    forall i :: 0 <= i < |history| ==> |history[i].live| == |history[i].board| == n
  }

  function RunCell(history: seq<Scan>, n: nat, a: u8, boardId: u8): Cell
    requires Trace(history, n) && a < n
  {
    if history == [] then Cell(None, 0)
    else
      var last := history[|history| - 1];
      StepCell(RunCell(history[..|history| - 1], n, a, boardId), last.live[a], last.board[a], boardId)
  }

  /** `a` was found in one of the last `w` scans. */
  ghost predicate SeenWithin(history: seq<Scan>, n: nat, a: u8, w: nat)
    requires Trace(history, n) && a < n
  {
    exists i :: 0 <= i < |history| && i >= |history| - w && history[i].live[a]
  }

  lemma SeenWithinSnoc(history: seq<Scan>, n: nat, a: u8, w: nat)
    requires Trace(history, n) && a < n && history != [] && w > 0
    ensures var init := history[..|history| - 1];
      SeenWithin(history, n, a, w) <==> history[|history| - 1].live[a] || SeenWithin(init, n, a, w - 1)
  {
    var init := history[..|history| - 1];
    if SeenWithin(init, n, a, w - 1) {
      var i :| 0 <= i < |init| && i >= |init| - (w - 1) && init[i].live[a];
      assert history[i].live[a];
    }
    if SeenWithin(history, n, a, w) {
      var i :| 0 <= i < |history| && i >= |history| - w && history[i].live[a];
      assert i < |init| ==> init[i].live[a];
    }
  }

  /** The counter of a listed address is the number of scans since it was found: it is below `w`
      exactly when the address was seen within `w` scans. So an address is listed exactly when it was
      found in one of the last seven scans, and no counter ever passes seven. */
  lemma {:induction false} ListedIffSeen(history: seq<Scan>, n: nat, a: u8, boardId: u8)
    requires Trace(history, n) && a < n
    ensures var c := RunCell(history, n, a, boardId);
      && (c.listed.Some? <==> SeenWithin(history, n, a, 7))
      && c.counter <= 7 && (c.listed.Some? ==> c.counter <= 6)
      && forall w :: c.listed.Some? ==> (SeenWithin(history, n, a, w) <==> c.counter < w)
  {
    if history != [] {
      var init := history[..|history| - 1];
      ListedIffSeen(init, n, a, boardId);
      var c, c' := RunCell(init, n, a, boardId), RunCell(history, n, a, boardId);
      SeenWithinSnoc(history, n, a, WINDOW);
      forall w: nat | c'.listed.Some?
        ensures SeenWithin(history, n, a, w) <==> c'.counter < w
      {
        if w > 0 {
          SeenWithinSnoc(history, n, a, w);
        }
      }
      assert c.listed.Some? ==> (SeenWithin(init, n, a, WINDOW - 1) <==> c.counter < WINDOW - 1);
      assert SeenWithin(init, n, a, WINDOW - 1) ==> SeenWithin(init, n, a, WINDOW);
    }
  }

  /** An address found once and then missed is still listed after six scans and no more after seven. */
  lemma ListedForSix(history: seq<Scan>, n: nat, a: u8, boardId: u8, missed: nat)
    requires Trace(history, n) && a < n && missed < |history|
    requires history[|history| - 1 - missed].live[a]
    requires forall i :: |history| - missed <= i < |history| ==> !history[i].live[a]
    ensures RunCell(history, n, a, boardId).listed.Some? <==> missed <= 6
  {
    ListedIffSeen(history, n, a, boardId);
    if SeenWithin(history, n, a, 7) {
      var i :| 0 <= i < |history| && i >= |history| - 7 && history[i].live[a];
      assert i < |history| - missed;
    }
  }

  /** The type of a listed address comes from the scan `j` that found it after it was not listed, and
      it has been listed ever since. */
  ghost predicate ListedSince(history: seq<Scan>, n: nat, a: u8, j: nat)
    requires Trace(history, n) && a < n
  {
    && j < |history| && history[j].live[a] && !SeenWithin(history[..j], n, a, 7)
    && forall k :: j < k <= |history| ==> SeenWithin(history[..k], n, a, 7)
  }

  lemma {:induction false} TypeSinceListed(history: seq<Scan>, n: nat, a: u8, boardId: u8) returns (j: nat)
    requires Trace(history, n) && a < n && SeenWithin(history, n, a, 7)
    ensures ListedSince(history, n, a, j)
    ensures var listed := RunCell(history, n, a, boardId).listed;
      && listed.Some? && (listed.value == boardId <==> history[j].board[a] || boardId == 0x10)
      && (listed.value == 0x10 <==> !history[j].board[a] || boardId == 0x10)
  {
    var init := history[..|history| - 1];
    ListedIffSeen(history, n, a, boardId);
    ListedIffSeen(init, n, a, boardId);
    assert history[..|history|] == history;
    if SeenWithin(init, n, a, 7) {
      j := TypeSinceListed(init, n, a, boardId);
      assert init[..j] == history[..j];
      forall k | j < k <= |history|
        ensures SeenWithin(history[..k], n, a, 7)
      {
        assert k < |history| ==> init[..k] == history[..k];
      }
    } else {
      j := |history| - 1;
    }
  }

  class Scanner {
    const list: SlaveList
    /** `MAX_I2C_SLAVE_ADR`. */
    const maxAddress: u8
    const boardId: u8
    var counters: array<u8>
    /** The scans so far that the bus completed. */
    ghost var history: seq<Scan>

    ghost function CellOf(a: u8): Cell
      requires a < counters.Length
      reads this, list, counters
    {
      Cell(if a in list.slaves then Some(list.slaves[a].slaveType) else None, counters[a])
    }

    /** Counters and list are those of the history, as far as the scanner looks. */
    ghost predicate Valid()
      reads this, list, counters
    {
      && list.Valid() && counters.Length == maxAddress && Trace(history, maxAddress)
      && forall a :: 0 <= a < maxAddress ==> CellOf(a) == RunCell(history, maxAddress, a, boardId)
    }

    constructor (list: SlaveList, maxAddress: u8, boardId: u8)
      requires list.Valid() && forall a :: 0 <= a < maxAddress ==> a !in list.slaves
      ensures Valid() && this.list == list && this.maxAddress == maxAddress && this.boardId == boardId
      ensures history == [] && fresh(counters)
    {
      this.list, this.maxAddress, this.boardId := list, maxAddress, boardId;
      counters, history := new u8[maxAddress](_ => 0), [];
    }

    /** One turn of `thread_function` whose bus scan succeeded. */
    method Step(scan: Scan)
      requires Valid() && |scan.live| == |scan.board| == maxAddress
      modifies list, counters, this`history
      ensures Valid() && history == old(history) + [scan]
      ensures forall a :: maxAddress <= a < 0x100 ==> list.GetSlave(a) == old(list.GetSlave(a))
    {
      history := history + [scan];
      assert history[..|history| - 1] == old(history);
      hide StepCell;
      for a: int := 0 to maxAddress
        invariant list.Valid() && history == old(history) + [scan]
        invariant forall i :: 0 <= i < maxAddress ==>
          CellOf(i) == if i < a then StepCell(old(CellOf(i)), scan.live[i], scan.board[i], boardId)
                       else old(CellOf(i))
        invariant forall i :: maxAddress <= i < 0x100 ==> list.GetSlave(i) == old(list.GetSlave(i))
      {
        CheckAddress(a, scan.live[a], scan.board[a]);
      }
    }

    /** The turn for one address. */
    method CheckAddress(a: u8, live: bool, board: bool)
      requires list.Valid() && a < counters.Length
      modifies list, counters
      ensures list.Valid() && CellOf(a) == StepCell(old(CellOf(a)), live, board, boardId)
      ensures forall i :: 0 <= i < 0x100 && i != a ==> list.GetSlave(i) == old(list.GetSlave(i))
      ensures forall i :: 0 <= i < 0x100 && i < counters.Length && i != a ==> CellOf(i) == old(CellOf(i))
    {
      var slave := list.GetSlave(a);
      if live {
        counters[a] := 0;
        if slave.None? {
          var _ := list.AddSlave(CreateSlaveByType(a, board));
        }
      } else if slave.Some? {
        var count := counters[a];
        counters[a] := Wrap8(count + 1);
        if count > MAX_SCAN_FAIL {
          var _ := list.RemoveSlave(a);
        }
      }
    }

    function CreateSlaveByType(address: u8, board: bool): Slave {
      Slave(address, TypeOf(board, boardId))
    }

    /** Over every run of scans, starting with no listed slave: listed exactly when seen in the
        window, and no counter near the 8-bit limit. */
    method ScanAll(scans: seq<Scan>)
      requires Valid() && history == [] && Trace(scans, maxAddress)
      modifies list, counters, this`history
      ensures Valid() && history == scans
      ensures forall a :: 0 <= a < maxAddress ==>
        (list.GetSlave(a).Some? <==> SeenWithin(scans, maxAddress, a, 7)) && counters[a] <= 7
      ensures forall a :: maxAddress <= a < 0x100 ==> list.GetSlave(a) == old(list.GetSlave(a))
    {
      for i := 0 to |scans|
        invariant Valid() && history == scans[..i]
        invariant forall a :: maxAddress <= a < 0x100 ==> list.GetSlave(a) == old(list.GetSlave(a))
      {
        Step(scans[i]);
      }
      assert scans[..|scans|] == scans;
      forall a | 0 <= a < maxAddress
        ensures list.GetSlave(a).Some? <==> SeenWithin(scans, maxAddress, a, 7)
        ensures counters[a] <= 7
      {
        ListedIffSeen(scans, maxAddress, a, boardId);
        assert CellOf(a) == RunCell(scans, maxAddress, a, boardId);
      }
    }
  }
}
