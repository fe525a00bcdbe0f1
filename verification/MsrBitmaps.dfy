/** src/vmm/msr_bitmaps.c: the bit array that says which MSR accesses leave the guest. */
module MsrBitmaps {
  import opened Bits
  import opened Memory

  const MAX_LOW_MSR: Dword := 0x1FFF
  const MIN_HIGH_MSR: Dword := 0xC000_0000
  const MAX_HIGH_MSR: Dword := 0xC000_1FFF
  const BITMAP_FOR_HIGH_MSRS: nat := 1024
  const BITMAP_FOR_WRMSR: nat := 2048
  const BITMAPS_BYTES: nat := 4096

  datatype Access = ReadMsr | WriteMsr

  predicate ValidMsr(msr: Dword) {
    msr <= MAX_LOW_MSR || MIN_HIGH_MSR <= msr <= MAX_HIGH_MSR
  }

  // ----- What the processor looks up: sections 24.6.9 and 25.1.3 -----

  /** The four kilobyte bitmaps follow one another: read low, read high, write low, write high. */
  function Quadrant(access: Access, msr: Dword): (quadrant: nat)
    ensures quadrant < 4
  {
    (if access == WriteMsr then 2 else 0) + (if msr >= MIN_HIGH_MSR then 1 else 0)
  }

  function BitNumber(access: Access, msr: Dword): (bit: nat)
    ensures bit < 8 * BITMAPS_BYTES
  {
    Quadrant(access, msr) * 8192 + msr % 8192
  }

  predicate Exits(ram: Ram, bitmaps: nat, access: Access, msr: Dword)
    requires bitmaps + BITMAPS_BYTES <= |ram|
  {
    !ValidMsr(msr) || Bit(ram[bitmaps + BitNumber(access, msr) / 8], BitNumber(access, msr) % 8)
  }

  /** The same lookup by the addresses of the manual: MSRs outside both ranges always exit. */
  lemma LookupByManual(ram: Ram, bitmaps: nat, access: Access, msr: Dword)
    requires bitmaps + 0x1000 <= |ram|
    ensures Exits(ram, bitmaps, access, msr) <==>
      if msr < 0x2000 then
        Bit(ram[bitmaps + (if access == ReadMsr then 0 else 0x800) + msr / 8], msr % 8)
      else if 0xC000_0000 <= msr < 0xC000_2000 then
        Bit(ram[bitmaps + (if access == ReadMsr then 0x400 else 0xC00) + (msr - 0xC000_0000) / 8], msr % 8)
      else true
  {
    hide Bit;
    if ValidMsr(msr) {
      OffsetInQuadrant(msr);
      BytesOfBits(Quadrant(access, msr), msr % 8192);
    }
  }

  /** `ram` with one bit of the page set. */
  function BitSet(ram: Ram, bitmaps: nat, bit: nat): (after: Ram)
    requires bitmaps + BITMAPS_BYTES <= |ram| && bit < 8 * BITMAPS_BYTES
    ensures |after| == |ram|
  {
    var a := bitmaps + bit / 8;
    OrByte(ram[a], bit % 8);
    ram[a := Or(ram[a], Pow2(bit % 8))]
  }

  lemma OrByte(b: Byte, k: nat)
    requires k < 8
    ensures Or(b, Pow2(k)) < 0x100
  {
    assert Pow2(8) == 0x100;
    PowerGrows(k, 8);
    OrBound(b, Pow2(k), 8);
  }

  lemma {:induction false} PowerGrows(a: nat, b: nat)
    requires a < b
    ensures Pow2(a) < Pow2(b)
  {
    if a + 1 < b { PowerGrows(a, b - 1); }
  }

  lemma AndSeven(x: nat)
    ensures And(x, 7) == x % 8
  {
    var half, quarter := x / 2, x / 2 / 2;
    assert And(quarter / 2, 0) == 0;
    assert And(quarter, 1) == quarter % 2;
    assert And(half, 3) == half % 2 + 2 * (quarter % 2);
    assert And(x, 7) == x % 2 + 2 * And(half, 3);
  }

  method MonitorRdmsr(ram: array<Byte>, bitmaps: nat, msr: Dword) returns (panicked: bool)
    requires bitmaps + BITMAPS_BYTES <= ram.Length
    modifies ram
    ensures panicked <==> !ValidMsr(msr)
    ensures ram[..] == if panicked then old(ram[..])
                       else BitSet(old(ram[..]), bitmaps, BitNumber(ReadMsr, msr))
  {
    if !(msr <= MAX_LOW_MSR || (MIN_HIGH_MSR <= msr && msr <= MAX_HIGH_MSR)) {
      return true;
    }
    var msrIndex := if msr <= MAX_LOW_MSR then msr / 8 else (msr - 0xC000_0000) / 8 + BITMAP_FOR_HIGH_MSRS;
    BitPlace(ReadMsr, msr, msrIndex);
    OrByte(ram[bitmaps + msrIndex], msr % 8);
    ram[bitmaps + msrIndex] := Or(ram[bitmaps + msrIndex], Pow2(And(msr, 7)));
    panicked := false;
  }

  method MonitorWrmsr(ram: array<Byte>, bitmaps: nat, msr: Dword) returns (panicked: bool)
    requires bitmaps + BITMAPS_BYTES <= ram.Length
    modifies ram
    ensures panicked <==> !ValidMsr(msr)
    ensures ram[..] == if panicked then old(ram[..])
                       else BitSet(old(ram[..]), bitmaps, BitNumber(WriteMsr, msr))
  {
    if !(msr <= MAX_LOW_MSR || (MIN_HIGH_MSR <= msr && msr <= MAX_HIGH_MSR)) {
      return true;
    }
    var msrIndex := if msr <= MAX_LOW_MSR then msr / 8 + BITMAP_FOR_WRMSR
                    else (msr - 0xC000_0000) / 8 + BITMAP_FOR_WRMSR + BITMAP_FOR_HIGH_MSRS;
    BitPlace(WriteMsr, msr, msrIndex);
    OrByte(ram[bitmaps + msrIndex], msr % 8);
    ram[bitmaps + msrIndex] := Or(ram[bitmaps + msrIndex], Pow2(And(msr, 7)));
    panicked := false;
  }

  /** The byte index and shift of the source find the bit of the manual. */
  lemma BitPlace(access: Access, msr: Dword, index: nat)
    requires ValidMsr(msr)
    requires index == (if msr <= MAX_LOW_MSR then msr / 8 else (msr - 0xC000_0000) / 8 + BITMAP_FOR_HIGH_MSRS)
                      + (if access == WriteMsr then BITMAP_FOR_WRMSR else 0)
    ensures index == BitNumber(access, msr) / 8 < BITMAPS_BYTES
    ensures And(msr, 7) == msr % 8 == BitNumber(access, msr) % 8
  {
    hide And;
    AndSeven(msr);
    OffsetInQuadrant(msr);
    BytesOfBits(Quadrant(access, msr), msr % 8192);
  }

  lemma OffsetInQuadrant(msr: Dword)
    requires ValidMsr(msr)
    ensures msr % 8192 == if msr <= MAX_LOW_MSR then msr else msr - 0xC000_0000
    ensures msr % 8192 % 8 == msr % 8
  {
    if msr > MAX_LOW_MSR {
      Peel(msr - 0xC000_0000, 8192, 0x6_0000);
    }
  }

  lemma BytesOfBits(quadrant: nat, offset: nat)
    ensures (quadrant * 8192 + offset) / 8 == quadrant * 1024 + offset / 8
    ensures (quadrant * 8192 + offset) % 8 == offset % 8
  {
    Peel(offset % 8, 8, quadrant * 1024 + offset / 8);
  }

  // ----- The page refines a set of (access, MSR) pairs -----

  /** Distinct pairs have distinct bits. */
  lemma BitNumberIsInjective(access: Access, msr: Dword, access': Access, msr': Dword)
    requires ValidMsr(msr) && ValidMsr(msr')
    requires BitNumber(access, msr) == BitNumber(access', msr')
    ensures access == access' && msr == msr'
  {
  }

  /** Setting one bit changes the answer for that bit alone. */
  lemma BitAfterSet(ram: Ram, bitmaps: nat, bit: nat, other: nat)
    requires bitmaps + BITMAPS_BYTES <= |ram| && bit < 8 * BITMAPS_BYTES && other < 8 * BITMAPS_BYTES
    ensures Bit(BitSet(ram, bitmaps, bit)[bitmaps + other / 8], other % 8)
            <==> Bit(ram[bitmaps + other / 8], other % 8) || other == bit
  {
    hide Bit, Or, Pow2;
    if other / 8 == bit / 8 {
      OrBit(ram[bitmaps + other / 8], Pow2(bit % 8), other % 8);
      BitOfPow2(bit % 8, other % 8);
    }
  }

  lemma ExitsAfterMonitor(ram: Ram, bitmaps: nat, access: Access, msr: Dword, access': Access, msr': Dword)
    requires bitmaps + BITMAPS_BYTES <= |ram|
    requires ValidMsr(msr) && ValidMsr(msr')
    ensures Exits(BitSet(ram, bitmaps, BitNumber(access, msr)), bitmaps, access', msr')
            <==> Exits(ram, bitmaps, access', msr') || (access', msr') == (access, msr)
  {
    hide BitNumber, BitSet;
    BitAfterSet(ram, bitmaps, BitNumber(access, msr), BitNumber(access', msr'));
    if BitNumber(access, msr) == BitNumber(access', msr') {
      BitNumberIsInjective(access, msr, access', msr');
    }
  }

  /** A call of one of the two functions. */
  datatype Call = Call(access: Access, msr: Dword)

  function AfterCalls(ram: Ram, bitmaps: nat, calls: seq<Call>): (after: Ram)
    requires bitmaps + BITMAPS_BYTES <= |ram|
    ensures |after| == |ram|
  {
    if calls == [] then ram
    else
      var c := calls[|calls| - 1];
      BitSet(AfterCalls(ram, bitmaps, calls[..|calls| - 1]), bitmaps, BitNumber(c.access, c.msr))
  }

  /** Over a zeroed page, an access leaves the guest exactly when it was asked for. */
  lemma {:induction false} BitmapRefinesSet(ram: Ram, bitmaps: nat, calls: seq<Call>, access: Access, msr: Dword)
    requires bitmaps + BITMAPS_BYTES <= |ram|
    requires forall x :: bitmaps <= x < bitmaps + BITMAPS_BYTES ==> ram[x] == 0
    requires forall c :: c in calls ==> ValidMsr(c.msr)
    requires ValidMsr(msr)
    ensures Exits(AfterCalls(ram, bitmaps, calls), bitmaps, access, msr) <==> Call(access, msr) in calls
  {
    if calls == [] {
      ZeroBit(BitNumber(access, msr) % 8);
    } else {
      var earlier, c := calls[..|calls| - 1], calls[|calls| - 1];
      assert calls == earlier + [c];
      hide Exits, BitNumber, BitSet;
      BitmapRefinesSet(ram, bitmaps, earlier, access, msr);
      ExitsAfterMonitor(AfterCalls(ram, bitmaps, earlier), bitmaps, c.access, c.msr, access, msr);
    }
  }

  /** The order of two calls does not matter, and repeating one has no effect. */
  lemma CallsCommute(ram: Ram, bitmaps: nat, a: nat, b: nat)
    requires bitmaps + BITMAPS_BYTES <= |ram| && a < 8 * BITMAPS_BYTES && b < 8 * BITMAPS_BYTES
    ensures BitSet(BitSet(ram, bitmaps, a), bitmaps, b) == BitSet(BitSet(ram, bitmaps, b), bitmaps, a)
    ensures BitSet(BitSet(ram, bitmaps, a), bitmaps, a) == BitSet(ram, bitmaps, a)
  {
    hide Or, Pow2;
    OrCommutes(ram[bitmaps + a / 8], Pow2(a % 8), Pow2(b % 8));
    OrRepeats(ram[bitmaps + a / 8], Pow2(a % 8));
  }

  lemma OrCommutes(x: nat, p: nat, q: nat)
    ensures Or(Or(x, p), q) == Or(Or(x, q), p)
  {
    OrBits(x, p); OrBits(x, q);
    OrBits(Or(x, p), q); OrBits(Or(x, q), p);
    SameBits(Or(Or(x, p), q), Or(Or(x, q), p));
  }

  lemma OrRepeats(x: nat, p: nat)
    ensures Or(Or(x, p), p) == Or(x, p)
  {
    OrBits(x, p); OrBits(Or(x, p), p);
    SameBits(Or(Or(x, p), p), Or(x, p));
  }
}
