/**
 src/bios/switch_modes.asm: from long mode down to real mode for one call, and back up, with the
 control-register order of section 9.8.5 and pushes and pops of three widths.
 */
module ModeSwitch {
  import opened Bits
  import opened Memory

  // Selectors of src/boot/gdt.asm and flags of src/boot/macros.asm.
  const IA32E_CODE_SEGMENT: nat := 8
  const IA32_CODE_SEGMENT: nat := 24
  const REAL_MODE_CODE_SEGMENT: nat := 32
  const IA32E_PAGING_BASE: nat := 0x11_0000

  // The flags the code sets and clears, and the rest of each register.
  datatype Cr0 = Cr0(pe: bool, pg: bool, others: nat)
  datatype Cr4 = Cr4(pae: bool, others: nat)
  datatype Efer = Efer(lme: bool, lma: bool, others: nat)

  /** How the current code segment is decoded. */
  datatype Code = Code64 | Code32 | Code16 | RealCode

  /** Code in the relocated block below 64 KiB. */
  type Label = x: int | 0 <= x < 0x1_0000

  datatype CpuState = CpuState(ram: Ram, code: Code, cr0: Cr0, cr3: nat, cr4: Cr4, efer: Efer,
                               rsp: nat, rip: nat, rdi: Qword, rsi: Qword, rbp: Qword)

  function Width(code: Code): nat {
    match code
    case Code64 => 8
    case Code32 => 4
    case Code16 => 2
    case RealCode => 2
  }

  /** The `w`-byte value at `a`. */
  function WordAt(ram: Ram, a: nat, w: nat): nat
    requires a + w <= |ram|
  {
    Le(ram[a..a + w])
  }

  /** A register whose low part is replaced. */
  function LowSet(r: Qword, v: nat, size: nat): Qword
    requires size == 0x1_0000 || size == 0x1_0000_0000
    requires v < size
  {
    if size == 0x1_0000 then r / 0x1_0000 * 0x1_0000 + v else r / 0x1_0000_0000 * 0x1_0000_0000 + v
  }

  lemma LowOfLowSet(r: Qword, v: nat, size: nat)
    requires size == 0x1_0000 || size == 0x1_0000_0000
    requires v < size
    ensures LowSet(r, v, size) % size == v
  {
  }

  // ----- Transitions the processor refuses -----

  predicate Cr0Allowed(s: CpuState, v: Cr0) {
    && (v.pg ==> v.pe)
    && (v.pg && !s.cr0.pg && s.efer.lme ==> s.cr4.pae && s.code != Code64)
    && (!v.pg && s.efer.lma ==> s.code != Code64)
  }

  predicate Cr4Allowed(s: CpuState, v: Cr4) {
    s.efer.lma ==> v.pae
  }

  predicate EferAllowed(s: CpuState, v: Efer) {
    s.cr0.pg ==> v.lme == s.efer.lme
  }

  function CodeOf(selector: nat): Code {
    if selector == IA32E_CODE_SEGMENT then Code64
    else if selector == IA32_CODE_SEGMENT then Code32
    else Code16
  }

  predicate FarAllowed(s: CpuState, selector: nat) {
    && s.cr0.pe
    && selector in {IA32E_CODE_SEGMENT, IA32_CODE_SEGMENT, REAL_MODE_CODE_SEGMENT}
    && (CodeOf(selector) == Code64 ==> s.efer.lma)
  }

  // ----- The order of the three writes that turn long mode on or off -----

  datatype Write = WritePaging | WriteLongMode | WritePae

  predicate WriteAllowed(s: CpuState, w: Write, on: bool) {
    match w
    case WritePaging => Cr0Allowed(s, s.cr0.(pg := on))
    case WriteLongMode => EferAllowed(s, s.efer.(lme := on))
    case WritePae => Cr4Allowed(s, s.cr4.(pae := on))
  }

  function AfterWrite(s: CpuState, w: Write, on: bool): CpuState {
    match w
    case WritePaging => s.(cr0 := s.cr0.(pg := on), efer := s.efer.(lma := on && s.efer.lme))
    case WriteLongMode => s.(efer := s.efer.(lme := on))
    case WritePae => s.(cr4 := s.cr4.(pae := on))
  }

  predicate OrderAllowed(s: CpuState, order: seq<Write>, on: bool)
    decreases |order|
  {
    order != [] ==> WriteAllowed(s, order[0], on) && OrderAllowed(AfterWrite(s, order[0], on), order[1..], on)
  }

  function AfterOrder(s: CpuState, order: seq<Write>, on: bool): CpuState
    decreases |order|
  {
    if order == [] then s else AfterOrder(AfterWrite(s, order[0], on), order[1..], on)
  }

  /** The orders of the code: lines 109-120 and lines 64-80. */
  const LEAVING_ORDER: seq<Write> := [WritePaging, WriteLongMode, WritePae]
  const ENTERING_ORDER: seq<Write> := [WritePae, WriteLongMode, WritePaging]

  /** All three writes, each once. */
  predicate AllWrites(order: seq<Write>) {
    |order| == 3 && order[0] != order[1] && order[1] != order[2] && order[0] != order[2]
  }

  lemma OrderOfThree(s: CpuState, order: seq<Write>, on: bool)
    requires AllWrites(order)
    ensures var s1 := AfterWrite(s, order[0], on); var s2 := AfterWrite(s1, order[1], on);
      && (OrderAllowed(s, order, on) <==>
            WriteAllowed(s, order[0], on) && WriteAllowed(s1, order[1], on) && WriteAllowed(s2, order[2], on))
      && AfterOrder(s, order, on) == AfterWrite(s2, order[2], on)
  {
    var rest, last := order[1..], order[2..];
    assert rest[1..] == last && last[1..] == [] && rest[0] == order[1] && last[0] == order[2];
    var s1 := AfterWrite(s, order[0], on);
    var s2 := AfterWrite(s1, order[1], on);
    assert OrderAllowed(s2, last, on) == WriteAllowed(s2, order[2], on);
    assert AfterOrder(s2, last, on) == AfterWrite(s2, order[2], on);
    assert OrderAllowed(s1, rest, on) == (WriteAllowed(s1, order[1], on) && OrderAllowed(s2, last, on));
  }

  /** Long mode is left, from compatibility code, exactly by the orders that start with paging. */
  lemma LeavingOrders(s: CpuState, order: seq<Write>)
    requires s.cr0.pe && s.cr0.pg && s.cr4.pae && s.efer.lme && s.efer.lma
    requires AllWrites(order)
    ensures OrderAllowed(s, order, false) <==> s.code != Code64 && order[0] == WritePaging
    ensures OrderAllowed(s, order, false) ==>
              AfterOrder(s, order, false) ==
              s.(cr0 := s.cr0.(pg := false), cr4 := s.cr4.(pae := false), efer := s.efer.(lme := false, lma := false))
  {
    OrderOfThree(s, order, false);
  }

  /** It is entered, from 32-bit code, exactly by the orders that end with paging. */
  lemma EnteringOrders(s: CpuState, order: seq<Write>)
    requires s.cr0.pe && !s.cr0.pg && !s.cr4.pae && !s.efer.lme && !s.efer.lma && s.code != Code64
    requires AllWrites(order)
    ensures OrderAllowed(s, order, true) <==> order[2] == WritePaging
    ensures OrderAllowed(s, order, true) ==>
              AfterOrder(s, order, true) ==
              s.(cr0 := s.cr0.(pg := true), cr4 := s.cr4.(pae := true), efer := s.efer.(lme := true, lma := true))
  {
    OrderOfThree(s, order, true);
  }

  /** The code addresses the routine jumps, calls and returns to, after relocation. */
  datatype Labels = Labels(
    longToProtected: Label, compatibilityMode: Label, afterLong: Label,
    protectedToReal: Label, protectedRealMode: Label, realMode: Label, afterProtected: Label,
    afterCallback: Label,
    realToProtected: Label, protectedMode: Label, afterReal: Label,
    protectedToLong: Label, longMode: Label, afterUp: Label)

  /** The callback returns as it was called, in the same mode, above its own frame. */
  ghost predicate PreservesCaller(before: CpuState, after: CpuState) {
    before.rsp + 10 <= |before.ram| ==>
      && |after.ram| == |before.ram|
      && after.code == before.code && after.cr0 == before.cr0 && after.cr3 == before.cr3
      && after.cr4 == before.cr4 && after.efer == before.efer && after.rbp == before.rbp
      && after.rip == WordAt(before.ram, before.rsp, 2)
      && after.rsp == before.rsp + 2
      && Same(before.ram, after.ram, before.rsp + 2, before.rsp + 10)
  }

  class Cpu {
    const ram: array<Byte>
    var code: Code
    var cr0: Cr0
    var cr3: nat
    var cr4: Cr4
    var efer: Efer
    var rsp: nat
    var rip: nat
    var rdi: Qword
    var rsi: Qword
    var rbp: Qword
    // Some transition was one the processor refuses.
    var faulted: bool

    constructor (s: CpuState, memory: array<Byte>)
      ensures ram == memory && !faulted
    {
      ram := memory;
      code, cr0, cr3, cr4, efer := s.code, s.cr0, s.cr3, s.cr4, s.efer;
      rsp, rip, rdi, rsi, rbp := s.rsp, s.rip, s.rdi, s.rsi, s.rbp;
      faulted := false;
    }

    function State(): CpuState
      reads this, ram
    {
      CpuState(ram[..], code, cr0, cr3, cr4, efer, rsp, rip, rdi, rsi, rbp)
    }

    // ----- Instructions -----

    /** The processor keeps EFER.LMA equal to paging under EFER.LME. */
    method MovCr0(v: Cr0)
      modifies this`cr0, this`efer, this`faulted
      ensures faulted == (old(faulted) || !Cr0Allowed(old(State()), v))
      ensures cr0 == v && efer == old(efer).(lma := v.pg && old(efer).lme)
    {
      faulted := faulted || !Cr0Allowed(State(), v);
      cr0 := v;
      efer := efer.(lma := v.pg && efer.lme);
    }

    method MovCr4(v: Cr4)
      modifies this`cr4, this`faulted
      ensures faulted == (old(faulted) || !Cr4Allowed(old(State()), v))
      ensures cr4 == v
    {
      faulted := faulted || !Cr4Allowed(State(), v);
      cr4 := v;
    }

    method WrmsrEfer(v: Efer)
      modifies this`efer, this`faulted
      ensures faulted == (old(faulted) || !EferAllowed(old(State()), v))
      ensures efer == v
    {
      faulted := faulted || !EferAllowed(State(), v);
      efer := v;
    }

    /** `jmp selector:target` in protected mode, or the far return that pops both. */
    method FarTransfer(selector: nat, target: nat)
      modifies this`code, this`rip, this`faulted
      ensures faulted == (old(faulted) || !FarAllowed(old(State()), selector))
      ensures code == CodeOf(selector) && rip == target
    {
      faulted := faulted || !FarAllowed(State(), selector);
      code, rip := CodeOf(selector), target;
    }

    /** `jmp 0:target` once protection is off. */
    method FarJumpReal(target: nat)
      modifies this`code, this`rip, this`faulted
      ensures faulted == (old(faulted) || cr0.pe)
      ensures code == RealCode && rip == target
    {
      faulted := faulted || cr0.pe;
      code, rip := RealCode, target;
    }

    /** A push at the operand width of the current code segment. */
    method Push(v: nat)
      requires Width(code) <= rsp <= ram.Length && v < Pow256(Width(code))
      modifies this`rsp, ram
      ensures rsp == old(rsp) - Width(code)
      ensures WordAt(ram[..], rsp, Width(code)) == v
      ensures SameOutside(old(ram[..]), ram[..], rsp, old(rsp))
    {
      var w := Width(code);
      LeOfToLe(v, w);
      WriteBytes(ram, rsp - w, ToLe(v, w));
      assert ram[..][rsp - w..rsp] == ToLe(v, w);
      rsp := rsp - w;
    }

    method Pop() returns (v: nat)
      requires rsp + Width(code) <= ram.Length
      modifies this`rsp
      ensures v == WordAt(ram[..], old(rsp), Width(code)) < Pow256(Width(code))
      ensures rsp == old(rsp) + Width(code)
    {
      v := WordAt(ram[..], rsp, Width(code));
      rsp := rsp + Width(code);
    }

    method Call(target: nat, returnAddress: Label)
      requires Width(code) <= rsp <= ram.Length
      modifies this`rsp, this`rip, ram
      ensures rsp == old(rsp) - Width(code) && rip == target
      ensures WordAt(ram[..], rsp, Width(code)) == returnAddress
      ensures SameOutside(old(ram[..]), ram[..], rsp, old(rsp))
    {
      LabelFits(code);
      Push(returnAddress);
      rip := target;
    }

    /** `ret extra` */
    method Ret(extra: nat)
      requires rsp + Width(code) + extra <= ram.Length
      modifies this`rsp, this`rip
      ensures rip == WordAt(ram[..], old(rsp), Width(code))
      ensures rsp == old(rsp) + Width(code) + extra
    {
      rip := Pop();
      rsp := rsp + extra;
    }

    // ----- The four switches -----

    /** Lines 97-122: the return address is the low half of an 8-byte frame. */
    method LongToProtected(compatibilityMode: Label, ghost back: Label)
      requires code == Code64 && cr0.pe && cr0.pg && cr4.pae && efer.lme && efer.lma && !faulted
      requires 16 <= rsp && rsp + 8 <= ram.Length
      requires WordAt(ram[..], rsp, 8) == back
      modifies this`code, this`cr0, this`cr4, this`efer, this`rsp, this`rip, this`faulted, ram
      ensures !faulted && code == Code32 && rip == back && rsp == old(rsp) + 8
      ensures cr0 == old(cr0).(pg := false)
      ensures cr4 == old(cr4).(pae := false)
      ensures efer == old(efer).(lme := false, lma := false)
      ensures SameOutside(old(ram[..]), ram[..], old(rsp) - 16, old(rsp))
    {
      hide WordAt;
      ghost var start := ram[..];
      EnterCompatibilityMode(compatibilityMode);
      SameWord(start, ram[..], rsp, 8);
      LeavingOrders(State(), LEAVING_ORDER);
      DisableLongMode();
      LowHalf(ram[..], rsp, 4, back);
      Ret(4);
    }

    /** Lines 109-120: the three writes in the order of the code, refused or not. */
    method DisableLongMode()
      modifies this`cr0, this`cr4, this`efer, this`faulted
      ensures State() == AfterOrder(old(State()), LEAVING_ORDER, false)
      ensures faulted == (old(faulted) || !OrderAllowed(old(State()), LEAVING_ORDER, false))
    {
      OrderOfThree(State(), LEAVING_ORDER, false);
      MovCr0(cr0.(pg := false));
      WrmsrEfer(efer.(lme := false));
      MovCr4(cr4.(pae := false));
    }

    /** Lines 100-102: a far return to what has just been pushed. */
    method EnterCompatibilityMode(compatibilityMode: Label)
      requires code == Code64 && cr0.pe && !faulted
      requires 16 <= rsp <= ram.Length
      modifies this`code, this`rsp, this`rip, this`faulted, ram
      ensures !faulted && code == Code32 && rip == compatibilityMode && rsp == old(rsp)
      ensures SameOutside(old(ram[..]), ram[..], rsp - 16, rsp)
    {
      hide WordAt;
      assert Pow256(8) >= 0x1_0000 by { LabelFits(Code64); }
      Push(IA32_CODE_SEGMENT);
      ghost var selected := ram[..];
      Push(compatibilityMode);
      SameWord(selected, ram[..], rsp + 8, 8);
      var target := Pop();
      var selector := Pop();
      FarTransfer(selector, target);
    }

    /** Lines 129-150. */
    method ProtectedToReal(protectedRealMode: Label, realMode: Label, ghost back: Label)
      requires code == Code32 && cr0.pe && !cr0.pg && !faulted
      requires rsp + 4 <= ram.Length && WordAt(ram[..], rsp, 4) == back
      modifies this`code, this`cr0, this`efer, this`rsp, this`rip, this`faulted
      ensures !faulted && code == RealCode && rip == back && rsp == old(rsp) + 4
      ensures cr0 == old(cr0).(pe := false)
      ensures efer == old(efer).(lma := false)
    {
      hide WordAt;
      FarTransfer(REAL_MODE_CODE_SEGMENT, protectedRealMode);
      MovCr0(cr0.(pe := false));
      FarJumpReal(realMode);
      LowHalf(ram[..], rsp, 2, back);
      Ret(2);
    }

    /** Lines 28-46: the two-byte frame is popped and pushed again as four bytes. */
    method RealToProtected(protectedMode: Label, ghost back: Label)
      requires code == RealCode && !cr0.pg && !faulted
      requires 2 <= rsp && rsp + 2 <= ram.Length && WordAt(ram[..], rsp, 2) == back
      modifies this`code, this`cr0, this`efer, this`rsp, this`rip, this`rdi, this`faulted, ram
      ensures !faulted && code == Code32 && rip == back && rsp == old(rsp) + 2
      ensures cr0 == old(cr0).(pe := true)
      ensures efer == old(efer).(lma := false)
      ensures rdi == back
      ensures SameOutside(old(ram[..]), ram[..], old(rsp) - 2, old(rsp) + 2)
    {
      hide WordAt, LowSet;
      WordSizes();
      assert Pow256(2) == 0x1_0000;
      var di := Pop();
      rdi := LowSet(rdi, di, 0x1_0000);
      LowOfLowSet(old(rdi), di, 0x1_0000);
      MovCr0(cr0.(pe := true));
      FarTransfer(IA32_CODE_SEGMENT, protectedMode);
      rdi := rdi % 0x1_0000;
      Push(rdi);
      Ret(0);
    }

    /** Lines 54-90: the four-byte frame is popped and pushed again as eight bytes. */
    method ProtectedToLong(longMode: Label, ghost back: Label)
      requires code == Code32 && cr0.pe && !faulted
      requires 4 <= rsp && rsp + 4 <= ram.Length && WordAt(ram[..], rsp, 4) == back
      modifies this`code, this`cr0, this`cr3, this`cr4, this`efer, this`rsp, this`rip, this`rsi, this`faulted, ram
      ensures !faulted && code == Code64 && rip == back && rsp == old(rsp) + 4
      ensures cr0 == old(cr0).(pg := true)
      ensures cr3 == IA32E_PAGING_BASE
      ensures cr4 == old(cr4).(pae := true)
      ensures efer == old(efer).(lme := true, lma := true)
      ensures rsi == back
      ensures SameOutside(old(ram[..]), ram[..], old(rsp) - 4, old(rsp) + 4)
    {
      hide WordAt, LowSet, Cr0Allowed, Cr4Allowed, EferAllowed, FarAllowed, AfterOrder;
      var esi := PopLow();
      rsi := LowSet(rsi, esi, 0x1_0000_0000);
      LowOfLowSet(old(rsi), esi, 0x1_0000_0000);
      EnableLongMode();
      FarTransferToLong(longMode);
      rsi := rsi % 0x1_0000_0000;
      assert Pow256(8) >= 0x1_0000_0000 by { WordSizes(); }
      Push(rsi);
      Ret(0);
    }

    method PopLow() returns (v: Dword)
      requires code == Code32 && rsp + 4 <= ram.Length
      modifies this`rsp
      ensures v == WordAt(ram[..], old(rsp), 4) && rsp == old(rsp) + 4
    {
      WordSizes();
      v := Pop();
    }

    /** Lines 59-80, in the order section 9.8.5 asks for; paging goes first in case it is on. */
    method EnableLongMode()
      requires code == Code32 && cr0.pe && !faulted
      ensures State() == AfterOrder(old(State().(cr0 := cr0.(pg := false), cr3 := IA32E_PAGING_BASE,
                                                 efer := efer.(lma := false))), ENTERING_ORDER, true)
      modifies this`cr0, this`cr3, this`cr4, this`efer, this`faulted
      ensures !faulted
      ensures cr0 == old(cr0).(pg := true)
      ensures cr3 == IA32E_PAGING_BASE
      ensures cr4 == old(cr4).(pae := true)
      ensures efer == old(efer).(lme := true, lma := true)
    {
      MovCr0(cr0.(pg := false));
      OrderOfThree(State().(cr3 := IA32E_PAGING_BASE), ENTERING_ORDER, true);
      MovCr4(cr4.(pae := true));
      cr3 := IA32E_PAGING_BASE;
      WrmsrEfer(efer.(lme := true));
      MovCr0(cr0.(pg := true));
    }

    method FarTransferToLong(longMode: Label)
      requires cr0.pe && efer.lma && !faulted
      modifies this`code, this`rip, this`faulted
      ensures !faulted && code == Code64 && rip == longMode
    {
      FarTransfer(IA32E_CODE_SEGMENT, longMode);
    }

    // ----- The call: lines 6-20 -----

    /** `call di`: the callback runs to its return. */
    method CallBack(callback: CpuState -> CpuState, afterCallback: Label) returns (ghost entry: CpuState)
      requires forall s :: PreservesCaller(s, callback(s))
      requires code == RealCode && 2 <= rsp && rsp + 8 <= ram.Length
      modifies this`code, this`cr0, this`cr3, this`cr4, this`efer, this`rsp, this`rip, this`rdi, this`rsi, this`rbp, ram
      ensures entry.rip == old(rdi) % 0x1_0000 && entry.code == RealCode
      ensures entry.rsp == old(rsp) - 2 && entry.cr0 == old(cr0)
      ensures rip == afterCallback && rsp == old(rsp)
      ensures code == old(code) && cr0 == old(cr0) && cr3 == old(cr3) && cr4 == old(cr4) && efer == old(efer)
      ensures rbp == old(rbp)
      ensures entry.rdi == old(rdi) && entry.rsi == old(rsi) && entry.rbp == old(rbp)
      ensures |entry.ram| == ram.Length && SameOutside(old(ram[..]), entry.ram, old(rsp) - 2, old(rsp))
      ensures ram[..] == callback(entry).ram && rdi == callback(entry).rdi && rsi == callback(entry).rsi
      ensures forall x :: old(rsp) <= x < old(rsp) + 8 ==> ram[x] == old(ram[x])
    {
      hide WordAt, Width;
      assert Width(RealCode) == 2 by { RealWidth(); }
      Call(rdi % 0x1_0000, afterCallback);
      var s := State();
      entry := s;
      assert PreservesCaller(s, callback(s));
      Become(callback(s));
    }

    method Become(after: CpuState)
      requires |after.ram| == ram.Length
      modifies this`code, this`cr0, this`cr3, this`cr4, this`efer, this`rsp, this`rip, this`rdi, this`rsi, this`rbp, ram
      ensures State() == after
    {
      WriteBytes(ram, 0, after.ram);
      WholeStored(old(ram[..]), after.ram);
      code, cr0, cr3, cr4, efer := after.code, after.cr0, after.cr3, after.cr4, after.efer;
      rsp, rip, rdi, rsi, rbp := after.rsp, after.rip, after.rdi, after.rsi, after.rbp;
    }

    /**
     From any stack below 64 KiB the callback runs in real mode at the address in `di`, and control
     comes back in long mode, with the stack balanced and the control registers as they were.
     */
    method CallRealModeFunction(callback: CpuState -> CpuState, l: Labels, ghost back: Qword)
      returns (ghost entry: CpuState)
      requires forall s :: PreservesCaller(s, callback(s))
      requires code == Code64 && cr0.pe && cr0.pg && cr4.pae && efer.lme && efer.lma && !faulted
      requires 24 <= rsp && rsp + 8 <= 0x1_0000 <= ram.Length
      requires WordAt(ram[..], rsp, 8) == back
      modifies this, ram
      ensures !faulted
      ensures entry.code == RealCode && !entry.cr0.pe && entry.rip == old(rdi) % 0x1_0000
      ensures entry.rdi == old(rdi) && entry.rsi == old(rsi) && entry.rbp == old(rbp)
      ensures |entry.ram| == |callback(entry).ram| == ram.Length
      ensures SameOutside(old(ram[..]), entry.ram, old(rsp) - 24, old(rsp))
      ensures SameOutside(callback(entry).ram, ram[..], old(rsp) - 24, old(rsp))
      ensures code == Code64 && rip == back && rsp == old(rsp) + 8 && rbp == old(rbp)
      ensures rdi == l.afterReal && rsi == l.afterUp
      ensures cr0 == old(cr0) && cr4 == old(cr4) && efer == old(efer) && cr3 == IA32E_PAGING_BASE
    {
      hide WordAt;
      ghost var start := ram[..];
      GoDown(l);
      entry := CallBack(callback, l.afterCallback);
      GoUp(l);
      SameWord(start, ram[..], rsp, 8);
      Ret(0);
    }

    /** Lines 6-10: two switches down. */
    method GoDown(l: Labels)
      requires code == Code64 && cr0.pe && cr0.pg && cr4.pae && efer.lme && efer.lma && !faulted
      requires 24 <= rsp <= ram.Length
      modifies this`code, this`cr0, this`cr4, this`efer, this`rsp, this`rip, this`faulted, ram
      ensures !faulted && code == RealCode && rsp == old(rsp)
      ensures cr0 == old(cr0).(pe := false, pg := false)
      ensures cr4 == old(cr4).(pae := false)
      ensures efer == old(efer).(lme := false, lma := false)
      ensures SameOutside(old(ram[..]), ram[..], rsp - 24, rsp)
    {
      hide WordAt;
      Call(l.longToProtected, l.afterLong);
      LongToProtected(l.compatibilityMode, l.afterLong);
      Call(l.protectedToReal, l.afterProtected);
      ProtectedToReal(l.protectedRealMode, l.realMode, l.afterProtected);
    }

    /** Lines 14-18: two switches up. */
    method GoUp(l: Labels)
      requires code == RealCode && !cr0.pg && !faulted
      requires 24 <= rsp <= ram.Length
      modifies this`code, this`cr0, this`cr3, this`cr4, this`efer, this`rsp, this`rip, this`rdi, this`rsi,
               this`faulted, ram
      ensures !faulted && code == Code64 && rsp == old(rsp)
      ensures cr0 == old(cr0).(pe := true, pg := true)
      ensures cr3 == IA32E_PAGING_BASE
      ensures cr4 == old(cr4).(pae := true)
      ensures efer == old(efer).(lme := true, lma := true)
      ensures rdi == l.afterReal && rsi == l.afterUp
      ensures SameOutside(old(ram[..]), ram[..], rsp - 24, rsp)
    {
      hide WordAt;
      Call(l.realToProtected, l.afterReal);
      RealToProtected(l.protectedMode, l.afterReal);
      Call(l.protectedToLong, l.afterUp);
      ProtectedToLong(l.longMode, l.afterUp);
    }
  }

  lemma WholeStored(before: Ram, after: Ram)
    requires |before| == |after|
    ensures Stored(before, 0, after) == after
  {
  }

  lemma RealWidth()
    ensures Width(RealCode) == 2
  {
  }

  lemma LabelFits(code: Code)
    ensures Pow256(Width(code)) >= 0x1_0000
  {
    assert Pow256(2) == 0x1_0000;
    WordSizes();
  }

  lemma SameWord(before: Ram, after: Ram, a: nat, w: nat)
    requires |before| == |after| && a + w <= |before|
    requires Same(before, after, a, a + w)
    ensures WordAt(after, a, w) == WordAt(before, a, w)
  {
    assert after[a..a + w] == before[a..a + w];
  }

  /** A small value reads the same at half the width. */
  lemma LowHalf(ram: Ram, a: nat, half: nat, v: Label)
    requires a + 2 * half <= |ram| && half >= 2
    requires WordAt(ram, a, 2 * half) == v
    ensures WordAt(ram, a, half) == v
  {
    var low, high := ram[a..a + half], ram[a + half..a + 2 * half];
    assert ram[a..a + 2 * half] == low + high;
    LeSplit(low, high);
    HalfPower(half);
    if Le(high) > 0 {
      MultipleGrows(Pow256(half), Le(high));
      assert false;
    }
  }

  lemma {:induction false} HalfPower(half: nat)
    requires half >= 2
    ensures Pow256(half) >= 0x1_0000
  {
    if half == 2 {
      assert Pow256(2) == 0x1_0000;
    } else {
      HalfPower(half - 1);
    }
  }
}
