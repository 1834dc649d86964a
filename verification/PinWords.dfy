/** The port words of a pin action (src/webinterface/pages/I2C_IO_Board.ecpp:602-709): value bits in
    the high byte, mask bits in the low byte. */
module PinWords {
  import opened Words

  // ---- bits of unsigned numbers ----

  function Pow2(k: nat): (r: nat)
    ensures r > 0
  {
    if k == 0 then 1 else 2 * Pow2(k - 1)
  }

  predicate Bit(w: nat, k: nat) {
    if k == 0 then w % 2 == 1 else Bit(w / 2, k - 1)
  }

  /** The operator `|`. */
  function Or(a: nat, b: nat): nat {
    if a == 0 && b == 0 then 0
    else 2 * Or(a / 2, b / 2) + if a % 2 == 1 || b % 2 == 1 then 1 else 0
  }

  lemma {:induction false} OrBits(a: nat, b: nat, k: nat)
    ensures Bit(Or(a, b), k) <==> Bit(a, k) || Bit(b, k)
  {
    if k > 0 {
      OrBits(a / 2, b / 2, k - 1);
      assert a == b == 0 ==> Or(a, b) / 2 == Or(a / 2, b / 2);
    }
  }

  lemma {:induction false} OrBound(a: nat, b: nat, n: nat)
    requires a < Pow2(n) && b < Pow2(n)
    ensures Or(a, b) < Pow2(n)
  {
    if n > 0 {
      OrBound(a / 2, b / 2, n - 1);
    }
  }

  lemma {:induction false} ShiftBits(p: nat, k: nat)
    ensures Bit(Pow2(p), k) <==> p == k
  {
    if p > 0 && k > 0 {
      ShiftBits(p - 1, k - 1);
    } else if p == 0 && k > 0 {
      NoBits(k - 1);
    }
  }

  lemma {:induction false} NoBits(k: nat)
    ensures !Bit(0, k)
  {
    if k > 0 {
      NoBits(k - 1);
    }
  }

  /** Numbers with the same bits are the same number. */
  lemma {:induction false} SameBits(a: nat, b: nat)
    requires forall k: nat :: Bit(a, k) <==> Bit(b, k)
    ensures a == b
  {
    assert Bit(a, 0) <==> Bit(b, 0);
    if a > 0 || b > 0 {
      forall k: nat
        ensures Bit(a / 2, k) <==> Bit(b / 2, k)
      {
        assert Bit(a, k + 1) <==> Bit(b, k + 1);
      }
      SameBits(a / 2, b / 2);
    }
  }

  function LowBits(w: nat, m: nat): nat {
    if m == 0 then 0 else 2 * LowBits(w / 2, m - 1) + w % 2
  }

  function HighBits(w: nat, m: nat): nat {
    if m == 0 then w else HighBits(w / 2, m - 1)
  }

  /** The bits of a number are its `m` low bits and then those above. */
  lemma {:induction false} SplitBits(w: nat, m: nat, k: nat)
    ensures Bit(LowBits(w, m), k) <==> k < m && Bit(w, k)
    ensures Bit(HighBits(w, m), k) <==> Bit(w, k + m)
  {
    if m == 0 {
      NoBits(k);
    } else {
      SplitBits(w / 2, m - 1, k);
      if k > 0 {
        SplitBits(w / 2, m - 1, k - 1);
        assert LowBits(w, m) / 2 == LowBits(w / 2, m - 1);
      }
    }
  }

  lemma {:induction false} SplitIsDivision(w: nat, m: nat)
    ensures LowBits(w, m) < Pow2(m) && w == HighBits(w, m) * Pow2(m) + LowBits(w, m)
  {
    if m > 0 {
      SplitIsDivision(w / 2, m - 1);
      var h, p := HighBits(w / 2, m - 1), Pow2(m - 1);
      assert h * (2 * p) == 2 * (h * p);
    }
  }

  lemma BytesOfWord(w: u16)
    ensures LowBits(w, 8) == Lo(w) && HighBits(w, 8) == Hi(w)
  {
    SplitIsDivision(w, 8);
    assert Pow2(4) == 16;
    assert Pow2(8) == 0x100;
  }

  // ---- the port words ----

  /** The function codes that matter here; their values belong to a header that is not part of this
      model. */
  datatype Codes = Codes(pinSwitch: u8, pinToggle: u8, pinPulse: u8)

  function PinOf(entry: u16): u8 {
    Lo(entry)
  }

  predicate Acts(codes: Codes, entry: u16) {
    var func := Hi(entry);
    func == codes.pinToggle || func == codes.pinSwitch || func == codes.pinPulse
  }

  /** `pin` is requested by one of the entries with a code that acts. */
  ghost predicate Requested(codes: Codes, entries: seq<u16>, pin: nat) {
    exists i :: 0 <= i < |entries| && PinOf(entries[i]) == pin && Acts(codes, entries[i])
  }

  predicate IsSwitch(codes: Codes, pinFunction: map<u8, u8>, pin: u8) {
    pin in pinFunction && pinFunction[pin] == codes.pinSwitch
  }

  /** Pin `k` of a port: its value bit is set exactly when the pin was requested, its mask bit exactly
      when it was requested or is configured as a switch. */
  ghost predicate PinOk(codes: Codes, pinFunction: map<u8, u8>, entries: seq<u16>, w: nat, port: u8, k: nat) {
    && (Bit(w, 8 + k) <==> Requested(codes, entries, 8 * port + k))
    && (Bit(w, k) <==> Requested(codes, entries, 8 * port + k)
                       || (8 * port + k < 0x100 && IsSwitch(codes, pinFunction, 8 * port + k)))
  }

  /** All eight pins of a port. */
  ghost predicate PortOk(codes: Codes, pinFunction: map<u8, u8>, entries: seq<u16>, w: nat, port: u8) {
    forall k :: 0 <= k < 8 ==> PinOk(codes, pinFunction, entries, w, port, k)
  }

  /** The entries of the pin map that a loop in key order has reached before `pin`. */
  function Below(pinFunction: map<u8, u8>, pin: int): map<u8, u8> {
    map p | p in pinFunction && p < pin :: pinFunction[p]
  }

  function WithSwitch(codes: Codes, pinFunction: map<u8, u8>, pin: u8, w: nat, port: u8): nat {
    if IsSwitch(codes, pinFunction, pin) && pin / 8 == port then Or(w, Pow2(pin % 8)) else w
  }

  function WithEntry(codes: Codes, entry: u16, w: nat, port: u8): nat {
    if Acts(codes, entry) && PinOf(entry) / 8 == port
    then Or(w, Or(Pow2(PinOf(entry) % 8 + 8), Pow2(PinOf(entry) % 8))) else w
  }

  lemma SwitchStep(codes: Codes, pinFunction: map<u8, u8>, w: nat, pin: u8, port: u8)
    requires PortOk(codes, Below(pinFunction, pin), [], w, port)
    ensures PortOk(codes, Below(pinFunction, pin + 1), [], WithSwitch(codes, pinFunction, pin, w, port), port)
  {
    var reached, now := Below(pinFunction, pin + 1), WithSwitch(codes, pinFunction, pin, w, port);
    forall k | 0 <= k < 8
      ensures PinOk(codes, reached, [], now, port, k)
    {
      hide Bit, Or, Pow2;
      assert PinOk(codes, Below(pinFunction, pin), [], w, port, k);
      OrBits(w, Pow2(pin % 8), k);
      OrBits(w, Pow2(pin % 8), 8 + k);
      ShiftBits(pin % 8, k);
      ShiftBits(pin % 8, 8 + k);
      assert pin == pin / 8 * 8 + pin % 8;
    }
  }

  lemma EntryStep(codes: Codes, pinFunction: map<u8, u8>, entries: seq<u16>, i: nat, w: nat, port: u8)
    requires i < |entries| && PortOk(codes, pinFunction, entries[..i], w, port)
    ensures PortOk(codes, pinFunction, entries[..i + 1], WithEntry(codes, entries[i], w, port), port)
  {
    var pin := PinOf(entries[i]);
    var reached, now := entries[..i + 1], WithEntry(codes, entries[i], w, port);
    forall k | 0 <= k < 8
      ensures PinOk(codes, pinFunction, reached, now, port, k)
    {
      hide Bit, Or, Pow2, Acts, PinOf, IsSwitch, Requested;
      assert PinOk(codes, pinFunction, entries[..i], w, port, k);
      EntryBits(w, pin % 8, k);
      EntryBits(w, pin % 8, 8 + k);
      RequestedSnoc(codes, entries, i, 8 * port + k);
      assert pin == pin / 8 * 8 + pin % 8;
    }
  }

  lemma EntryBits(w: nat, p: nat, k: nat)
    ensures Bit(Or(w, Or(Pow2(p + 8), Pow2(p))), k) <==> Bit(w, k) || k == p || k == p + 8
  {
    hide Bit, Or, Pow2;
    OrBits(w, Or(Pow2(p + 8), Pow2(p)), k);
    OrBits(Pow2(p + 8), Pow2(p), k);
    ShiftBits(p, k);
    ShiftBits(p + 8, k);
  }

  lemma RequestedSnoc(codes: Codes, entries: seq<u16>, i: nat, pin: nat)
    requires i < |entries|
    ensures Requested(codes, entries[..i + 1], pin) <==>
      Requested(codes, entries[..i], pin) || (PinOf(entries[i]) == pin && Acts(codes, entries[i]))
  {
    if j :| 0 <= j < i && PinOf(entries[..i][j]) == pin && Acts(codes, entries[..i][j]) {
      assert entries[..i + 1][j] == entries[..i][j];
    }
    assert entries[..i + 1][i] == entries[i];
  }

  /** The masks of a pin stay within 16 bits. */
  lemma MaskBounds(w: u16, p: nat)
    requires p < 8
    ensures Or(w, Pow2(p)) <= 0xFFFF && Or(w, Or(Pow2(p + 8), Pow2(p))) <= 0xFFFF
  {
    assert Pow2(8) == 0x100 && Pow2(16) == 0x1_0000 by {
      assert Pow2(4) == 16;
      assert Pow2(12) == 16 * Pow2(8);
    }
    PowersGrow(p, 15);
    PowersGrow(p + 8, 15);
    OrBound(w, Pow2(p), 16);
    OrBound(Pow2(p + 8), Pow2(p), 16);
    OrBound(w, Or(Pow2(p + 8), Pow2(p)), 16);
  }

  lemma {:induction false} PowersGrow(j: nat, k: nat)
    requires j <= k
    ensures Pow2(j) <= Pow2(k)
    decreases k - j
  {
    if j < k {
      PowersGrow(j + 1, k);
    }
  }

  /** The two loops over the port words. */
  method PortWords(codes: Codes, pinFunction: map<u8, u8>, entries: seq<u16>, portCount: u8)
    returns (ports: array<u16>)
    ensures fresh(ports) && ports.Length == portCount
    ensures forall port :: 0 <= port < portCount ==> PortOk(codes, pinFunction, entries, ports[port], port)
  {
    ports := new u16[portCount](_ => 0);
    forall port | 0 <= port < portCount
      ensures PortOk(codes, Below(pinFunction, 0), [], 0, port)
    {
      forall k | 0 <= k < 8
        ensures PinOk(codes, Below(pinFunction, 0), [], 0, port, k)
      {
        NoBits(k);
        NoBits(8 + k);
      }
    }
    hide PortOk, Or, Pow2;
    for pin: int := 0 to 0x100
      invariant forall port :: 0 <= port < portCount ==>
        PortOk(codes, Below(pinFunction, pin), [], ports[port], port)
    {
      MaskBounds(0, pin % 8);
      forall port | 0 <= port < portCount
        ensures PortOk(codes, Below(pinFunction, pin + 1), [], WithSwitch(codes, pinFunction, pin, ports[port], port), port)
      {
        SwitchStep(codes, pinFunction, ports[port], pin, port);
      }
      if pin in pinFunction && pin / 8 < portCount {
        if pinFunction[pin] == codes.pinSwitch {
          MaskBounds(ports[pin / 8], pin % 8);
          ports[pin / 8] := Or(ports[pin / 8], Pow2(pin % 8));
        }
      }
    }
    assert Below(pinFunction, 0x100) == pinFunction && entries[..0] == [];
    for i := 0 to |entries|
      invariant forall port :: 0 <= port < portCount ==>
        PortOk(codes, pinFunction, entries[..i], ports[port], port)
    {
      forall port | 0 <= port < portCount
        ensures PortOk(codes, pinFunction, entries[..i + 1], WithEntry(codes, entries[i], ports[port], port), port)
      {
        EntryStep(codes, pinFunction, entries, i, ports[port], port);
      }
      var port, pin, func := Lo(entries[i]) / 8, Lo(entries[i]) % 8, Hi(entries[i]);
      if func == codes.pinToggle || func == codes.pinSwitch || func == codes.pinPulse {
        if port < portCount {
          MaskBounds(ports[port], pin);
          ports[port] := Or(ports[port], Or(Pow2(pin + 8), Pow2(pin)));
        }
      }
    }
    assert entries[..|entries|] == entries;
  }

  /** The bits by name: a pin is the low byte of an entry, its code the high byte. The value bit is set
      exactly by an entry that switches, toggles or pulses the pin, and the mask bit by the same entries or
      for a pin that is configured as a switch. */
  lemma PortBits(codes: Codes, pinFunction: map<u8, u8>, entries: seq<u16>, w: nat, port: u8, k: nat, pin: nat)
    requires PortOk(codes, pinFunction, entries, w, port) && k < 8 && pin == 8 * port + k
    ensures Bit(w, 8 + k) <==>
      exists i ::
        && 0 <= i < |entries| && entries[i] % 0x100 == pin
        && (entries[i] / 0x100 == codes.pinSwitch || entries[i] / 0x100 == codes.pinToggle
            || entries[i] / 0x100 == codes.pinPulse)
    ensures Bit(w, k) <==>
      || Bit(w, 8 + k)
      || exists p :: p in pinFunction && p as int == pin && pinFunction[p] == codes.pinSwitch
  {
    hide Bit;
    assert PinOk(codes, pinFunction, entries, w, port, k);
  }

  /** The value byte of a port word is contained in its mask byte. */
  lemma ValueWithinMask(codes: Codes, pinFunction: map<u8, u8>, entries: seq<u16>, w: u16, port: u8)
    requires PortOk(codes, pinFunction, entries, w, port)
    ensures Or(Lo(w), Hi(w)) == Lo(w)
  {
    BytesOfWord(w);
    BytesOfWord(Hi(w));
    hide Bit, Or, Requested, IsSwitch, LowBits, HighBits, Pow2;
    forall k: nat
      ensures Bit(Or(Lo(w), Hi(w)), k) <==> Bit(Lo(w), k)
    {
      OrBits(Lo(w), Hi(w), k);
      SplitBits(w, 8, k);
      if k < 8 {
        assert PinOk(codes, pinFunction, entries, w, port, k);
      } else {
        SplitBits(Hi(w), 8, k);
      }
    }
    SameBits(Or(Lo(w), Hi(w)), Lo(w));
  }

  /** The data bytes of the action: for each port the value byte and then the mask byte. */
  method ActionBytes(ports: array<u16>) returns (bytes: seq<u8>)
    ensures bytes == Unpack(ports[..]) && |bytes| == 2 * ports.Length
    ensures forall p :: 0 <= p < ports.Length ==>
      bytes[2 * p] == ports[p] / 0x100 && bytes[2 * p + 1] == ports[p] % 0x100
  {
    bytes := [];
    for p := 0 to ports.Length
      invariant bytes == Unpack(ports[..p])
    {
      ghost var before := bytes;
      bytes := bytes + [ports[p] / 0x100, ports[p] % 0x100];
      assert forall j :: 0 <= j < 2 * p ==> Unpack(ports[..p + 1])[j] == Unpack(ports[..p])[j];
    }
    assert ports[..ports.Length] == ports[..];
  }
}
