/** The I2C master. `I2C_Comm` belongs to a library that is not part of this model; what the
    gateway uses of it is stated here as contracts. Every bus address has a byte memory that
    auto-increments from the register address sent first. */
module I2C {
  import opened Words

  const SPACE: nat := 0x1_0000

  /** The register address a transfer starts with: one byte, or two bytes high byte first. */
  function BusAddress(buffer: seq<u8>, mode: nat): u16
    requires (mode == 1 || mode == 2) && mode <= |buffer|
  {
    if mode == 1 then buffer[0] else Word(buffer[0], buffer[1])
  }

  /** `now` is `was` with `data` stored from `a` on: every byte of it when `all`. */
  ghost predicate Written(now: seq<u8>, was: seq<u8>, data: seq<u8>, a: nat, all: bool) {
    && |now| == |was| && a + |data| <= |was|
    && forall j :: 0 <= j < |was| ==>
         || (!(all && a <= j < a + |data|) && now[j] == was[j])
         || (a <= j < a + |data| && now[j] == data[j - a])
  }

  /** A read transfer of `count` bytes from a device address, whether it succeeds or not. */
  datatype Attempt = Attempt(slave: u8, address: nat, count: nat)

  class I2CComm {
    const memory: seq<array<u8>>
    /** When set, the bus opens and every transfer succeeds; otherwise any of them may fail. */
    const working: bool
    /** The read transfers attempted so far. */
    ghost var attempts: seq<Attempt>

    predicate Valid() {
      && |memory| == 0x100
      && (forall s :: 0 <= s < 0x100 ==> memory[s].Length == SPACE)
      && (forall s, t :: 0 <= s < t < 0x100 ==> memory[s] != memory[t])
    }

    /** A bus with 256 devices that hold `contents`. */
    constructor (contents: seq<seq<u8>>, working: bool)
      requires |contents| == 0x100 && forall s :: 0 <= s < 0x100 ==> |contents[s]| == SPACE
      ensures Valid() && this.working == working && attempts == []
      ensures forall s :: 0 <= s < 0x100 ==> fresh(memory[s]) && memory[s][..] == contents[s]
    {
      this.working, attempts := working, [];
      var devices: seq<array<u8>> := [];
      for k := 0 to 0x100
        invariant |devices| == k
        invariant forall s :: 0 <= s < k ==>
          fresh(devices[s]) && devices[s].Length == SPACE && devices[s][..] == contents[s]
        invariant forall s, t :: 0 <= s < t < k ==> devices[s] != devices[t]
      {
        var device := new u8[SPACE](i requires 0 <= i < SPACE => contents[k][i]);
        assert device[..] == contents[k];
        devices := devices + [device];
      }
      memory := devices;
    }

    /** Reads `count` bytes into the front of `buffer`, over the address that was sent. */
    method ReadBytes(slave: u8, buffer: array<u8>, mode: nat, count: nat) returns (ok: bool)
      requires Valid() && buffer !in memory
      requires (mode == 1 || mode == 2) && mode <= buffer.Length && count <= buffer.Length
      requires BusAddress(buffer[..], mode) + count <= SPACE
      modifies buffer, this`attempts
      ensures attempts == old(attempts) + [Attempt(slave, BusAddress(old(buffer[..]), mode), count)]
      ensures working ==> ok
      ensures ok ==> forall k :: 0 <= k < count ==>
        buffer[k] == memory[slave][BusAddress(old(buffer[..]), mode) + k]
    {
      ghost var sent := BusAddress(buffer[..], mode);
      attempts := attempts + [Attempt(slave, sent, count)];
      ok := *;
      if working {
        ok := true;
      }
      if ok {
        var a := if mode == 1 then buffer[0] else Word(buffer[0], buffer[1]);
        for k := 0 to count
          invariant forall i :: 0 <= i < k ==> buffer[i] == memory[slave][a + i]
          invariant attempts == old(attempts) + [Attempt(slave, a, count)]
        {
          buffer[k] := memory[slave][a + k];
        }
      }
    }

    /** Sends the address and then `count` data bytes. A transfer that fails may have stored any
        number of leading data bytes. */
    method WriteBytes(slave: u8, buffer: array<u8>, mode: nat, count: nat) returns (ok: bool)
      requires Valid() && buffer !in memory
      requires (mode == 1 || mode == 2) && mode + count <= buffer.Length
      requires BusAddress(buffer[..], mode) + count <= SPACE
      modifies memory[slave]
      ensures working ==> ok
      ensures Written(memory[slave][..], old(memory[slave][..]), buffer[mode..mode + count],
                      BusAddress(buffer[..], mode), ok)
    {
      ok := *;
      var sent: nat := count;
      if working {
        ok := true;
      } else if !ok {
        sent :| 0 <= sent <= count;
      }
      var a := if mode == 1 then buffer[0] else Word(buffer[0], buffer[1]);
      for k := 0 to sent
        invariant forall j :: 0 <= j < SPACE ==>
          memory[slave][j] == if a <= j < a + k then buffer[mode + j - a] else old(memory[slave][j])
      {
        memory[slave][a + k] := buffer[mode + k];
      }
    }
  }
}
