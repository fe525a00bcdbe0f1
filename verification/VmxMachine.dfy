/**
 The processor state the hypervisor works on, and the VMX instructions of
 include/hardware/vmx.h with their conditions in chapter 30 of the manual.
 */
module VmxMachine {
  import opened Bits
  import opened Memory

  // ----- Layout: src/vmm/initialize_host.c:7, include/vmm/vmm.h:10-48, include/guest/syscalls.h:4 -----

  const CPU_DATA: Qword := 0x100_0000
  const VMXON_REGION: Qword := CPU_DATA
  const VMCS_REGION: Qword := CPU_DATA + 0x1000
  const EPTS: Qword := CPU_DATA + 0x2000
  const MSR_BITMAPS: Qword := EPTS + 0x80_6000
  const GUEST_STATE: Qword := MSR_BITMAPS + 0x1000
  // Where the guest is launched with its stack; the pages above, up to the SSDT, are named its stack.
  const GUEST_STACK: Qword := GUEST_STATE + 0x1000
  const SSDT: Qword := GUEST_STATE + 0x9000
  const CPU_DATA_POINTER: Qword := SSDT + 0x1000
  // The memory that holds the structures.
  const RAM_BYTES: nat := CPU_DATA_POINTER + 8

  // ----- Registers in the order of the saved structure -----

  type Registers = r: seq<Qword> | |r| == 17 witness seq(17, _ => 0)

  const RAX: nat := 0
  const RBX: nat := 1
  const RCX: nat := 2
  const RDX: nat := 3
  const RSI: nat := 4
  const RDI: nat := 5
  const RBP: nat := 6
  const R8: nat := 7
  const R9: nat := 8
  const R10: nat := 9
  const R11: nat := 10
  const R12: nat := 11
  const R13: nat := 12
  const R14: nat := 13
  const R15: nat := 14
  const RSP: nat := 15
  const RIP: nat := 16

  // ----- VMCS field encodings -----

  const VMCS_GUEST_PHYSICAL_ADDRESS: nat := 0x2400
  const VMCS_VM_EXIT_REASON: nat := 0x4402
  const VMCS_VM_EXIT_INSTRUCTION_LEN: nat := 0x440c
  const VMCS_VM_INSTRUCTION_ERROR: nat := 0x4400
  const VMCS_GUEST_RSP: nat := 0x681c
  const VMCS_GUEST_RIP: nat := 0x681e
  const VMCS_HOST_CR3: nat := 0x6c02
  const VMCS_HOST_FS_BASE: nat := 0x6c06
  const VMCS_HOST_RSP: nat := 0x6c14
  const VMCS_HOST_RIP: nat := 0x6c16

  // ----- VMX state -----

  datatype Mode = Off | Root | NonRoot

  /** Section 24.1: a VMCS is clear after VMCLEAR and launched after a successful VMLAUNCH. */
  datatype LaunchState = Unknown | Clear | Launched

  datatype Vmx = Vmx(mode: Mode, region: Qword, current: Qword, launch: map<Qword, LaunchState>)

  const NO_VMCS: Qword := 0xFFFF_FFFF_FFFF_FFFF

  datatype VmxResult = VmSuccess | VmFailInvalid | VmFailValid

  /** Panicked: the `hlt` loop. Faulted: an exception with no handler installed. */
  datatype Status = Running | Panicked | Faulted

  class Machine {
    const ram: array<Byte>
    // Whether the processor supports SMX operation.
    const smx: bool
    var gpr: Registers
    var rflags: Qword
    var cr0: Qword
    var cr3: Qword
    var cr4: Qword
    var dr7: Qword
    var msrs: map<Dword, Qword>
    var vmx: Vmx
    var vmcs: map<nat, Qword>
    var fsBase: Qword
    var status: Status
    // Some VMX instruction ran outside the conditions of section 24.1.
    var misused: bool

    constructor (memory: array<Byte>, supportsSmx: bool, pageTables: Qword)
      ensures ram == memory && smx == supportsSmx && cr3 == pageTables
      ensures vmx.mode == Off && status == Running && !misused
    {
      ram, smx := memory, supportsSmx;
      gpr, rflags := seq(17, _ => 0), 2;
      cr0, cr3, cr4, dr7, msrs, vmcs, fsBase := 0, pageTables, 0, 0, map[], map[], 0;
      vmx := Vmx(Off, 0, NO_VMCS, map[]);
      status, misused := Running, false;
    }
  }

  function FieldOf(vmcs: map<nat, Qword>, field: nat): Qword {
    if field in vmcs then vmcs[field] else 0
  }

  function MsrOf(msrs: map<Dword, Qword>, msr: Dword): Qword {
    if msr in msrs then msrs[msr] else 0
  }

  predicate VmcsAccessible(vmx: Vmx) {
    vmx.mode == Root && vmx.current != NO_VMCS
  }

  function LaunchOf(vmx: Vmx, region: Qword): LaunchState {
    if region in vmx.launch then vmx.launch[region] else Unknown
  }

  predicate Aligned(region: Qword) {
    region % 0x1000 == 0
  }

  // ----- Results: section 30.2 and the flag tests of the wrappers -----

  const CARRY_FLAG: nat := 1
  const ZERO_FLAG: nat := 0x40
  // All flags but CF, PF, AF, ZF, SF and OF.
  const OTHER_FLAGS: nat := 0xFFFF_FFFF_FFFF_F72A

  /** Section 30.2: the flags after VMsucceed, VMfailInvalid or VMfailValid. */
  function FlagsOf(flags: Qword, r: VmxResult): nat {
    var kept := And(flags, OTHER_FLAGS);
    match r
    case VmSuccess => kept
    case VmFailInvalid => Or(kept, CARRY_FLAG)
    case VmFailValid => Or(kept, ZERO_FLAG)
  }

  /** What each wrapper makes of the flags its instruction leaves. */
  function Decoded(flags: nat): VmxResult {
    if And(flags, CARRY_FLAG) != 0 then VmFailInvalid
    else if And(flags, ZERO_FLAG) != 0 then VmFailValid
    else VmSuccess
  }

  /** VMfail: valid or invalid, by whether there is a VMCS to record the error in. */
  function VmFail(vmx: Vmx): VmxResult {
    if VmcsAccessible(vmx) then VmFailValid else VmFailInvalid
  }

  lemma TestOfFlag(flags: nat, k: nat)
    ensures And(flags, Pow2(k)) != 0 <==> Bit(flags, k)
  {
    AndBit(flags, Pow2(k), k);
    BitOfPow2(k, k);
    if Bit(flags, k) {
      ZeroBit(k);
    } else {
      forall i: nat ensures Bit(And(flags, Pow2(k)), i) <==> Bit(0, i) {
        AndBit(flags, Pow2(k), i);
        BitOfPow2(k, i);
        ZeroBit(i);
      }
      SameBits(And(flags, Pow2(k)), 0);
    }
  }

  lemma OtherFlagsLeaveResults(flags: Qword)
    ensures !Bit(And(flags, OTHER_FLAGS), 0) && !Bit(And(flags, OTHER_FLAGS), 6)
  {
    AndBit(flags, OTHER_FLAGS, 0);
    AndBit(flags, OTHER_FLAGS, 6);
    var upper: nat := OTHER_FLAGS / 2 / 2 / 2;
    assert Bit(upper, 3) == Bit(upper / 2, 2) == Bit(upper / 2 / 2, 1) == Bit(upper / 2 / 2 / 2, 0);
    assert Bit(OTHER_FLAGS, 6) == Bit(upper, 3);
  }

  lemma FlagsFit(flags: Qword, r: VmxResult)
    ensures FlagsOf(flags, r) < 0x1_0000_0000_0000_0000
  {
    hide And, Or, Pow2;
    QwordBits();
    AndBound(flags, OTHER_FLAGS, 64);
    OrBound(And(flags, OTHER_FLAGS), CARRY_FLAG, 64);
    OrBound(And(flags, OTHER_FLAGS), ZERO_FLAG, 64);
  }

  /** The wrappers' flag tests recover the result, whatever the flags were before. */
  lemma DecodedIsResult(flags: Qword, r: VmxResult)
    ensures Decoded(FlagsOf(flags, r)) == r
  {
    hide Bit, And, Or;
    assert Pow2(0) == CARRY_FLAG && Pow2(6) == ZERO_FLAG;
    OtherFlagsLeaveResults(flags);
    var kept, after := And(flags, OTHER_FLAGS), FlagsOf(flags, r);
    var flag := if r == VmFailInvalid then 0 else 6;
    OrBit(kept, Pow2(flag), 0);
    OrBit(kept, Pow2(flag), 6);
    BitOfPow2(flag, 0);
    BitOfPow2(flag, 6);
    TestOfFlag(after, 0);
    TestOfFlag(after, 6);
  }

  // ----- The instructions -----

  const MSR_IA32_FEATURE_CONTROL: Dword := 0x3a
  const MSR_IA32_VMX_BASIC: Dword := 0x480
  const MSR_IA32_VMX_CR0_FIXED0: Dword := 0x486
  const MSR_IA32_VMX_CR0_FIXED1: Dword := 0x487
  const MSR_IA32_VMX_CR4_FIXED0: Dword := 0x488
  const MSR_IA32_VMX_CR4_FIXED1: Dword := 0x489

  /** Appendices A.7 and A.8: bits set in `fixed0` must be one, bits clear in `fixed1` zero. */
  predicate ControlRegisterLegal(cr: nat, fixed0: nat, fixed1: nat) {
    And(cr, fixed0) == fixed0 && And(cr, fixed1) == cr
  }

  /** The conditions of VMXON outside SMX operation that raise an exception when broken. */
  predicate VmxonAllowed(cr0: Qword, cr4: Qword, msrs: map<Dword, Qword>) {
    && ControlRegisterLegal(cr0, MsrOf(msrs, MSR_IA32_VMX_CR0_FIXED0), MsrOf(msrs, MSR_IA32_VMX_CR0_FIXED1))
    && ControlRegisterLegal(cr4, MsrOf(msrs, MSR_IA32_VMX_CR4_FIXED0), MsrOf(msrs, MSR_IA32_VMX_CR4_FIXED1))
    && Bit(cr4, 13)
    && Bit(MsrOf(msrs, MSR_IA32_FEATURE_CONTROL), 0)
    && Bit(MsrOf(msrs, MSR_IA32_FEATURE_CONTROL), 2)
  }

  /** The VMCS revision identifier: bits 30:0 of IA32_VMX_BASIC. */
  function Revision(msrs: map<Dword, Qword>): Dword {
    MsrOf(msrs, MSR_IA32_VMX_BASIC) % 0x8000_0000
  }

  /** The flags an instruction leaves. */
  method SetResult(m: Machine, r: VmxResult)
    modifies m`rflags
    ensures m.rflags == FlagsOf(old(m.rflags), r)
  {
    FlagsFit(m.rflags, r);
    m.rflags := FlagsOf(m.rflags, r);
  }

  /** `pushf; pop flags` and the two tests. */
  method ReadResult(m: Machine, ghost before: Qword, ghost expected: VmxResult) returns (r: VmxResult)
    requires m.rflags == FlagsOf(before, expected)
    ensures r == expected
  {
    DecodedIsResult(before, expected);
    if And(m.rflags, CARRY_FLAG) != 0 {
      return VmFailInvalid;
    }
    if And(m.rflags, ZERO_FLAG) != 0 {
      return VmFailValid;
    }
    r := VmSuccess;
  }

  predicate VmxonSucceeds(m: Machine, region: Qword)
    requires region + 4 <= m.ram.Length
    reads m, m.ram
  {
    && VmxonAllowed(m.cr0, m.cr4, m.msrs)
    && m.vmx.mode == Off
    && Aligned(region)
    && DwordAt(m.ram[..], region) == Revision(m.msrs)
  }

  /** The instruction; after a fault nothing reads the flags. */
  method VmxonInstruction(m: Machine, region: Qword)
    requires region + 4 <= m.ram.Length
    modifies m`vmx, m`status, m`rflags
    ensures m.status == if VmxonAllowed(m.cr0, m.cr4, m.msrs) then old(m.status) else Faulted
    ensures m.rflags == FlagsOf(old(m.rflags), if old(VmxonSucceeds(m, region)) then VmSuccess else VmFail(old(m.vmx)))
    ensures m.vmx == if old(VmxonSucceeds(m, region))
                     then old(m.vmx).(mode := Root, region := region, current := NO_VMCS) else old(m.vmx)
  {
    hide FlagsOf;
    if !VmxonAllowed(m.cr0, m.cr4, m.msrs) {
      m.status := Faulted;
      SetResult(m, VmFail(m.vmx));
    } else if m.vmx.mode != Off || !Aligned(region) || DwordAt(m.ram[..], region) != Revision(m.msrs) {
      SetResult(m, VmFail(m.vmx));
    } else {
      m.vmx := m.vmx.(mode := Root, region := region, current := NO_VMCS);
      SetResult(m, VmSuccess);
    }
  }

  method Vmxon(m: Machine, region: Qword) returns (r: VmxResult)
    requires region + 4 <= m.ram.Length
    modifies m`vmx, m`status, m`rflags
    ensures m.status == if VmxonAllowed(m.cr0, m.cr4, m.msrs) then old(m.status) else Faulted
    ensures r != VmSuccess ==> r == VmFail(old(m.vmx))
    ensures r == VmSuccess <==>
      && VmxonAllowed(m.cr0, m.cr4, m.msrs)
      && old(m.vmx.mode) == Off
      && Aligned(region)
      && DwordAt(m.ram[..], region) == Revision(m.msrs)
    ensures m.vmx == if r == VmSuccess then old(m.vmx).(mode := Root, region := region, current := NO_VMCS)
                     else old(m.vmx)
  {
    hide FlagsOf;
    ghost var expected := if VmxonSucceeds(m, region) then VmSuccess else VmFail(m.vmx);
    VmxonInstruction(m, region);
    r := ReadResult(m, old(m.rflags), expected);
  }

  method VmclearInstruction(m: Machine, region: Qword)
    modifies m`vmx, m`misused, m`rflags
    ensures m.misused == (old(m.misused) || old(m.vmx.mode) != Root)
    ensures var ok := old(m.vmx.mode) == Root && Aligned(region) && region != old(m.vmx.region);
      && m.rflags == FlagsOf(old(m.rflags), if ok then VmSuccess else VmFail(old(m.vmx)))
      && m.vmx == if !ok then old(m.vmx) else
                    old(m.vmx).(launch := old(m.vmx.launch)[region := Clear],
                                current := if old(m.vmx.current) == region then NO_VMCS else old(m.vmx.current))
  {
    hide FlagsOf;
    if m.vmx.mode != Root {
      m.misused := true;
      SetResult(m, VmFail(m.vmx));
    } else if !Aligned(region) || region == m.vmx.region {
      SetResult(m, VmFail(m.vmx));
    } else {
      m.vmx := m.vmx.(launch := m.vmx.launch[region := Clear],
                      current := if m.vmx.current == region then NO_VMCS else m.vmx.current);
      SetResult(m, VmSuccess);
    }
  }

  method Vmclear(m: Machine, region: Qword) returns (r: VmxResult)
    modifies m`vmx, m`misused, m`rflags
    ensures m.misused == (old(m.misused) || old(m.vmx.mode) != Root)
    ensures r != VmSuccess ==> r == VmFail(old(m.vmx))
    ensures r == VmSuccess <==> old(m.vmx.mode) == Root && Aligned(region) && region != old(m.vmx.region)
    ensures m.vmx == if r != VmSuccess then old(m.vmx) else
                       old(m.vmx).(launch := old(m.vmx.launch)[region := Clear],
                                   current := if old(m.vmx.current) == region then NO_VMCS else old(m.vmx.current))
  {
    hide FlagsOf;
    ghost var ok := m.vmx.mode == Root && Aligned(region) && region != m.vmx.region;
    VmclearInstruction(m, region);
    r := ReadResult(m, old(m.rflags), if ok then VmSuccess else VmFail(old(m.vmx)));
  }

  method VmptrldInstruction(m: Machine, region: Qword)
    requires region + 4 <= m.ram.Length
    modifies m`vmx, m`misused, m`rflags
    ensures m.misused == (old(m.misused) || old(m.vmx.mode) != Root)
    ensures var ok := old(m.vmx.mode) == Root && Aligned(region) && region != old(m.vmx.region)
                      && DwordAt(m.ram[..], region) == Revision(m.msrs);
      && m.rflags == FlagsOf(old(m.rflags), if ok then VmSuccess else VmFail(old(m.vmx)))
      && m.vmx == if ok then old(m.vmx).(current := region) else old(m.vmx)
  {
    hide FlagsOf;
    if m.vmx.mode != Root {
      m.misused := true;
      SetResult(m, VmFail(m.vmx));
    } else if !Aligned(region) || region == m.vmx.region || DwordAt(m.ram[..], region) != Revision(m.msrs) {
      SetResult(m, VmFail(m.vmx));
    } else {
      m.vmx := m.vmx.(current := region);
      SetResult(m, VmSuccess);
    }
  }

  method Vmptrld(m: Machine, region: Qword) returns (r: VmxResult)
    requires region + 4 <= m.ram.Length
    modifies m`vmx, m`misused, m`rflags
    ensures m.misused == (old(m.misused) || old(m.vmx.mode) != Root)
    ensures r != VmSuccess ==> r == VmFail(old(m.vmx))
    ensures r == VmSuccess <==> old(m.vmx.mode) == Root && Aligned(region) && region != old(m.vmx.region)
                                && DwordAt(m.ram[..], region) == Revision(m.msrs)
    ensures m.vmx == if r != VmSuccess then old(m.vmx) else old(m.vmx).(current := region)
  {
    hide FlagsOf;
    ghost var ok := m.vmx.mode == Root && Aligned(region) && region != m.vmx.region
                    && DwordAt(m.ram[..], region) == Revision(m.msrs);
    VmptrldInstruction(m, region);
    r := ReadResult(m, old(m.rflags), if ok then VmSuccess else VmFail(old(m.vmx)));
  }

  method Vmread(m: Machine, field: nat) returns (value: Qword)
    modifies m`misused
    ensures m.misused == (old(m.misused) || !VmcsAccessible(m.vmx))
    ensures VmcsAccessible(m.vmx) ==> value == FieldOf(m.vmcs, field)
  {
    m.misused := m.misused || !VmcsAccessible(m.vmx);
    value := if VmcsAccessible(m.vmx) then FieldOf(m.vmcs, field) else 0;
  }

  method Vmwrite(m: Machine, field: nat, value: Qword)
    modifies m`misused, m`vmcs
    ensures m.misused == (old(m.misused) || !VmcsAccessible(m.vmx))
    ensures m.vmcs == if VmcsAccessible(m.vmx) then old(m.vmcs)[field := value] else old(m.vmcs)
  {
    if VmcsAccessible(m.vmx) {
      m.vmcs := m.vmcs[field := value];
    } else {
      m.misused := true;
    }
  }

  /** Loading the guest state: the processor leaves root operation. */
  predicate Entered(before: Vmx, after: Vmx) {
    after == before.(mode := NonRoot, launch := before.launch[before.current := Launched])
  }

  predicate LaunchSucceeds(vmx: Vmx, checksPass: bool) {
    VmcsAccessible(vmx) && checksPass && LaunchOf(vmx, vmx.current) == Clear
  }

  /**
   `checksPass`: the checks on control, host and guest fields of sections 26.2 and 26.3, whose
   fields this model does not hold. A processor that has entered the guest does not go on to the
   next instruction.
   */
  method VmlaunchInstruction(m: Machine, checksPass: bool) returns (entered: bool)
    modifies m`vmx, m`misused, m`gpr, m`rflags
    ensures m.misused == (old(m.misused) || !VmcsAccessible(old(m.vmx))
                          || LaunchOf(old(m.vmx), old(m.vmx.current)) != Clear)
    ensures entered <==> LaunchSucceeds(old(m.vmx), checksPass)
    ensures if entered then
              && Entered(old(m.vmx), m.vmx)
              && m.gpr == old(m.gpr)[RSP := FieldOf(m.vmcs, VMCS_GUEST_RSP)][RIP := FieldOf(m.vmcs, VMCS_GUEST_RIP)]
            else
              && m.vmx == old(m.vmx) && m.gpr == old(m.gpr)
              && m.rflags == FlagsOf(old(m.rflags), VmFail(old(m.vmx)))
  {
    hide FlagsOf;
    m.misused := m.misused || !VmcsAccessible(m.vmx) || LaunchOf(m.vmx, m.vmx.current) != Clear;
    if !LaunchSucceeds(m.vmx, checksPass) {
      SetResult(m, VmFail(m.vmx));
      return false;
    }
    m.vmx := m.vmx.(mode := NonRoot, launch := m.vmx.launch[m.vmx.current := Launched]);
    m.gpr := m.gpr[RSP := FieldOf(m.vmcs, VMCS_GUEST_RSP)][RIP := FieldOf(m.vmcs, VMCS_GUEST_RIP)];
    entered := true;
  }

  /** Success: the guest runs, and the caller does not. */
  method Vmlaunch(m: Machine, checksPass: bool) returns (r: VmxResult)
    modifies m`vmx, m`misused, m`gpr, m`rflags
    ensures m.misused == (old(m.misused) || !VmcsAccessible(old(m.vmx))
                          || LaunchOf(old(m.vmx), old(m.vmx.current)) != Clear)
    ensures r != VmSuccess ==> r == VmFail(old(m.vmx))
    ensures r == VmSuccess <==> LaunchSucceeds(old(m.vmx), checksPass)
    ensures if r == VmSuccess then
              && Entered(old(m.vmx), m.vmx)
              && m.gpr == old(m.gpr)[RSP := FieldOf(m.vmcs, VMCS_GUEST_RSP)][RIP := FieldOf(m.vmcs, VMCS_GUEST_RIP)]
            else m.vmx == old(m.vmx) && m.gpr == old(m.gpr)
  {
    hide FlagsOf;
    var entered := VmlaunchInstruction(m, checksPass);
    if entered {
      return VmSuccess;
    }
    r := ReadResult(m, old(m.rflags), VmFail(old(m.vmx)));
  }

  method VmresumeInstruction(m: Machine) returns (entered: bool)
    modifies m`vmx, m`misused, m`gpr, m`rflags
    ensures m.misused == (old(m.misused) || !VmcsAccessible(old(m.vmx))
                          || LaunchOf(old(m.vmx), old(m.vmx.current)) != Launched)
    ensures entered <==> VmcsAccessible(old(m.vmx)) && LaunchOf(old(m.vmx), old(m.vmx.current)) == Launched
    ensures if entered then
              && m.vmx == old(m.vmx).(mode := NonRoot)
              && m.gpr == old(m.gpr)[RSP := FieldOf(m.vmcs, VMCS_GUEST_RSP)][RIP := FieldOf(m.vmcs, VMCS_GUEST_RIP)]
            else
              && m.vmx == old(m.vmx) && m.gpr == old(m.gpr)
              && m.rflags == FlagsOf(old(m.rflags), VmFail(old(m.vmx)))
  {
    hide FlagsOf;
    if !VmcsAccessible(m.vmx) || LaunchOf(m.vmx, m.vmx.current) != Launched {
      m.misused := true;
      SetResult(m, VmFail(m.vmx));
      return false;
    }
    m.vmx := m.vmx.(mode := NonRoot);
    m.gpr := m.gpr[RSP := FieldOf(m.vmcs, VMCS_GUEST_RSP)][RIP := FieldOf(m.vmcs, VMCS_GUEST_RIP)];
    entered := true;
  }

  method Vmresume(m: Machine) returns (r: VmxResult)
    modifies m`vmx, m`misused, m`gpr, m`rflags
    ensures m.misused == (old(m.misused) || !VmcsAccessible(old(m.vmx))
                          || LaunchOf(old(m.vmx), old(m.vmx.current)) != Launched)
    ensures r != VmSuccess ==> r == VmFail(old(m.vmx))
    ensures r == VmSuccess <==> VmcsAccessible(old(m.vmx))
                                && LaunchOf(old(m.vmx), old(m.vmx.current)) == Launched
    ensures if r == VmSuccess then
              && m.vmx == old(m.vmx).(mode := NonRoot)
              && m.gpr == old(m.gpr)[RSP := FieldOf(m.vmcs, VMCS_GUEST_RSP)][RIP := FieldOf(m.vmcs, VMCS_GUEST_RIP)]
            else m.vmx == old(m.vmx) && m.gpr == old(m.gpr)
  {
    hide FlagsOf;
    var entered := VmresumeInstruction(m);
    if entered {
      return VmSuccess;
    }
    r := ReadResult(m, old(m.rflags), VmFail(old(m.vmx)));
  }
}
