/**
 src/vmm/initialize_host.c and the start-up half of src/vmm/vmm.c: into VMX root operation, the
 VMCS, the tables, the read hook, and into the guest.
 */
module HostBoot {
  import opened Bits
  import opened Memory
  import opened EptEntries
  import opened EptHardware
  import opened ExtendedPaging
  import opened NestedTranslation
  import BootPaging
  import opened VmxMachine
  import opened MsrBitmaps
  import opened VmExits
  import opened GuestRuns
  import opened Syscalls

  const CR0_NE_ENABLE: nat := 0x20
  const CR4_VMX_ENABLE: nat := 0x2000

  // ----- Legal control registers -----

  lemma LegalIsBetweenMasks(cr: nat, fixed0: nat, fixed1: nat)
    ensures ControlRegisterLegal(cr, fixed0, fixed1) <==> Within(fixed0, cr) && Within(cr, fixed1)
  {
    AndBits(cr, fixed0);
    AndBits(cr, fixed1);
    if Within(fixed0, cr) && Within(cr, fixed1) {
      SameBits(And(cr, fixed0), fixed0);
      SameBits(And(cr, fixed1), cr);
    }
  }

  function Masked(cr: nat, enable: nat, fixed0: nat, fixed1: nat): nat {
    And(Or(Or(cr, enable), fixed0), fixed1)
  }

  /** The written value is legal exactly when the two masks do not contradict each other. */
  lemma MaskedIsLegal(cr: nat, enable: nat, fixed0: nat, fixed1: nat)
    ensures ControlRegisterLegal(Masked(cr, enable, fixed0, fixed1), fixed0, fixed1) <==> Within(fixed0, fixed1)
  {
    LegalIsBetweenMasks(Masked(cr, enable, fixed0, fixed1), fixed0, fixed1);
    OrBits(cr, enable);
    OrBits(Or(cr, enable), fixed0);
    AndBits(Or(Or(cr, enable), fixed0), fixed1);
  }

  lemma MaskedKeepsFreeBits(cr: nat, enable: nat, fixed0: nat, fixed1: nat, i: nat)
    ensures Bit(Masked(cr, enable, fixed0, fixed1), i)
       <==> (Bit(cr, i) || Bit(enable, i) || Bit(fixed0, i)) && Bit(fixed1, i)
  {
    OrBit(cr, enable, i);
    OrBit(Or(cr, enable), fixed0, i);
    AndBit(Or(Or(cr, enable), fixed0), fixed1, i);
  }

  lemma MaskedFits(cr: Qword, enable: Qword, fixed0: Qword, fixed1: Qword)
    ensures Masked(cr, enable, fixed0, fixed1) < 0x1_0000_0000_0000_0000
  {
    QwordBits();
    OrBound(cr, enable, 64);
    OrBound(Or(cr, enable), fixed0, 64);
    AndBound(Or(Or(cr, enable), fixed0), fixed1, 64);
  }

  // ----- Legal control fields: appendices A.3 to A.5 -----

  /** The capability MSR the processor consults, either side of bit 55 of IA32_VMX_BASIC. */
  function Capability(msrs: map<Dword, Qword>, msr: Dword, trueMsr: Dword): Qword {
    if Bit(MsrOf(msrs, MSR_IA32_VMX_BASIC), 55) then MsrOf(msrs, trueMsr) else MsrOf(msrs, msr)
  }

  function MustBeOne(capability: Qword): Dword {
    capability % 0x1_0000_0000
  }

  function MayBeOne(capability: Qword): Dword {
    capability / 0x1_0000_0000
  }

  ghost predicate LegalControl(value: nat, capability: Qword) {
    Within(MustBeOne(capability), value) && Within(value, MayBeOne(capability))
  }

  /** What the code writes is legal exactly when a legal value with the requested bits exists. */
  lemma ControlLegalIff(capability: Qword, requested: nat)
    ensures LegalControl(Or(And(MustBeOne(capability), MayBeOne(capability)), requested), capability)
       <==> Within(MustBeOne(capability), MayBeOne(capability)) && Within(requested, MayBeOne(capability))
  {
    var one, may := MustBeOne(capability), MayBeOne(capability);
    AndBits(one, may);
    OrBits(And(one, may), requested);
  }

  method GetDefaultBits(m: Machine, defaultBitsMsr: Dword, trueDefaultBitsMsr: Dword) returns (bits: Dword)
    ensures var msr := if Bit(MsrOf(m.msrs, MSR_IA32_VMX_BASIC), 55) then trueDefaultBitsMsr else defaultBitsMsr;
      bits == And(MsrOf(m.msrs, msr) % 0x1_0000_0000, MsrOf(m.msrs, msr) / 0x1_0000_0000)
  {
    var default1 := MsrOf(m.msrs, defaultBitsMsr) % 0x1_0000_0000;
    var default0 := MsrOf(m.msrs, defaultBitsMsr) / 0x1_0000_0000;
    if Bit(MsrOf(m.msrs, MSR_IA32_VMX_BASIC), 55) {
      default1 := MsrOf(m.msrs, trueDefaultBitsMsr) % 0x1_0000_0000;
      default0 := MsrOf(m.msrs, trueDefaultBitsMsr) / 0x1_0000_0000;
    }
    QwordBits();
    AndBound(default1, default0, 32);
    bits := And(default1, default0);
  }

  // ----- Into VMX root operation: src/vmm/vmm.c:86-127 -----

  const FEATURE_CONTROL_LOCK_BIT: nat := 0
  const FEATURE_CONTROL_VMXON_INSIDE_SMX: nat := 1
  const FEATURE_CONTROL_VMXON_OUTSIDE_SMX: nat := 2

  /** An `int` widened to 64 bits. */
  function SignExtended(x: Dword): Qword {
    if x < 0x8000_0000 then x else x + 0xFFFF_FFFF_0000_0000
  }

  /** What becomes of the machine, by the capability and feature-control MSRs it starts with. */
  ghost predicate FixedBitsConsistent(msrs: map<Dword, Qword>) {
    && Within(MsrOf(msrs, MSR_IA32_VMX_CR0_FIXED0), MsrOf(msrs, MSR_IA32_VMX_CR0_FIXED1))
    && Within(MsrOf(msrs, MSR_IA32_VMX_CR4_FIXED0), MsrOf(msrs, MSR_IA32_VMX_CR4_FIXED1))
    && Bit(MsrOf(msrs, MSR_IA32_VMX_CR4_FIXED1), 13)
  }

  ghost function EntryStatus(msrs: map<Dword, Qword>, smx: bool): Status {
    var feature := MsrOf(msrs, MSR_IA32_FEATURE_CONTROL);
    if Bit(feature, FEATURE_CONTROL_LOCK_BIT) && !Bit(feature, FEATURE_CONTROL_VMXON_INSIDE_SMX)
       && !Bit(feature, FEATURE_CONTROL_VMXON_OUTSIDE_SMX) then Panicked
    else if Bit(feature, FEATURE_CONTROL_LOCK_BIT) && !Bit(feature, FEATURE_CONTROL_VMXON_OUTSIDE_SMX) then Faulted
    else if !Bit(feature, FEATURE_CONTROL_LOCK_BIT) && !smx then Faulted
    else if !FixedBitsConsistent(msrs) then Faulted
    else Running
  }

  lemma FeatureBits(x: Dword, high: nat, i: nat)
    requires i < 32
    ensures Bit(x + 0x1_0000_0000 * high, i) <==> Bit(x, i)
  {
    hide Bit;
    QwordBits();
    LowBit(x, high, 32, i);
  }

  /** The feature MSR as written: locked, with both kinds of VMXON enabled, its other low bits kept. */
  ghost predicate LockedWithVmxon(value: Qword, feature: nat) {
    && value == SignExtended(value % 0x1_0000_0000)
    && forall i: nat | i < 32 :: Bit(value, i) <==> i <= FEATURE_CONTROL_VMXON_OUTSIDE_SMX || Bit(feature, i)
  }

  lemma LockedFeatures(feature: Dword, high: nat)
    ensures Or(feature, 7) < 0x1_0000_0000
    ensures LockedWithVmxon(SignExtended(Or(feature, 7)), feature + 0x1_0000_0000 * high)
  {
    hide Bit, Or;
    QwordBits();
    OrBound(feature, 7, 32);
    var x := Or(feature, 7);
    var upper := if x < 0x8000_0000 then 0 else 0xFFFF_FFFF;
    forall i: nat | i < 32
      ensures Bit(SignExtended(x), i) <==> i <= 2 || Bit(feature + 0x1_0000_0000 * high, i)
    {
      OrBit(feature, 7, i);
      SevenBits(i);
      FeatureBits(x, upper, i);
      FeatureBits(feature, high, i);
    }
  }

  lemma SevenBits(i: nat)
    ensures Bit(7, i) <==> i <= 2
  {
    if i > 2 {
      assert Bit(7, i) == Bit(3, i - 1) == Bit(1, i - 2) == Bit(0, i - 3);
      ZeroBit(i - 3);
    } else {
      assert Bit(7, 0) && Bit(3, 0) && Bit(1, 0);
    }
  }

  method ConfigureControlRegisters(m: Machine)
    modifies m`cr0, m`cr4
    ensures m.cr0 == Masked(old(m.cr0), CR0_NE_ENABLE, MsrOf(m.msrs, MSR_IA32_VMX_CR0_FIXED0),
                            MsrOf(m.msrs, MSR_IA32_VMX_CR0_FIXED1))
    ensures m.cr4 == Masked(old(m.cr4), CR4_VMX_ENABLE, MsrOf(m.msrs, MSR_IA32_VMX_CR4_FIXED0),
                            MsrOf(m.msrs, MSR_IA32_VMX_CR4_FIXED1))
    ensures Bit(m.cr0, 5) <==> Bit(MsrOf(m.msrs, MSR_IA32_VMX_CR0_FIXED1), 5)
    ensures Bit(m.cr4, 13) <==> Bit(MsrOf(m.msrs, MSR_IA32_VMX_CR4_FIXED1), 13)
  {
    hide Bit, And, Or;
    EnableBits();
    MaskedKeepsFreeBits(m.cr0, CR0_NE_ENABLE,
                        MsrOf(m.msrs, MSR_IA32_VMX_CR0_FIXED0), MsrOf(m.msrs, MSR_IA32_VMX_CR0_FIXED1), 5);
    MaskedKeepsFreeBits(m.cr4, CR4_VMX_ENABLE,
                        MsrOf(m.msrs, MSR_IA32_VMX_CR4_FIXED0), MsrOf(m.msrs, MSR_IA32_VMX_CR4_FIXED1), 13);
    var cr0Fixed0, cr0Fixed1 := MsrOf(m.msrs, MSR_IA32_VMX_CR0_FIXED0), MsrOf(m.msrs, MSR_IA32_VMX_CR0_FIXED1);
    var cr4Fixed0, cr4Fixed1 := MsrOf(m.msrs, MSR_IA32_VMX_CR4_FIXED0), MsrOf(m.msrs, MSR_IA32_VMX_CR4_FIXED1);
    MaskedFits(m.cr0, CR0_NE_ENABLE, cr0Fixed0, cr0Fixed1);
    MaskedFits(m.cr4, CR4_VMX_ENABLE, cr4Fixed0, cr4Fixed1);
    m.cr0 := And(Or(Or(m.cr0, CR0_NE_ENABLE), cr0Fixed0), cr0Fixed1);
    m.cr4 := And(Or(Or(m.cr4, CR4_VMX_ENABLE), cr4Fixed0), cr4Fixed1);
  }

  /**
   Panics unless VMXON is enabled or can still be. Section 23.7: a processor without SMX operation
   raises an exception when the bit for VMXON inside it is set.
   */
  method ConfigureFeatureControl(m: Machine)
    modifies m`msrs, m`status
    ensures var feature := old(MsrOf(m.msrs, MSR_IA32_FEATURE_CONTROL));
      if Bit(feature, FEATURE_CONTROL_LOCK_BIT) then
        && m.msrs == old(m.msrs)
        && m.status == if Bit(feature, FEATURE_CONTROL_VMXON_INSIDE_SMX)
                          || Bit(feature, FEATURE_CONTROL_VMXON_OUTSIDE_SMX) then old(m.status) else Panicked
      else if !m.smx then
        m.msrs == old(m.msrs) && m.status == Faulted
      else
        && m.status == old(m.status)
        && m.msrs == old(m.msrs)[MSR_IA32_FEATURE_CONTROL := MsrOf(m.msrs, MSR_IA32_FEATURE_CONTROL)]
        && LockedWithVmxon(MsrOf(m.msrs, MSR_IA32_FEATURE_CONTROL), feature)
  {
    hide Bit, Or;
    var featureControl: Dword := MsrOf(m.msrs, MSR_IA32_FEATURE_CONTROL) % 0x1_0000_0000;
    ghost var high := MsrOf(m.msrs, MSR_IA32_FEATURE_CONTROL) / 0x1_0000_0000;
    FeatureBits(featureControl, high, 0);
    FeatureBits(featureControl, high, 1);
    FeatureBits(featureControl, high, 2);
    if Bit(featureControl, FEATURE_CONTROL_LOCK_BIT) {
      if Bit(featureControl, FEATURE_CONTROL_VMXON_INSIDE_SMX) {
      } else if Bit(featureControl, FEATURE_CONTROL_VMXON_OUTSIDE_SMX) {
      } else {
        m.status := Panicked;
      }
    } else if !m.smx {
      m.status := Faulted;
    } else {
      LockedFeatures(featureControl, high);
      var v := SignExtended(Or(featureControl, 7));
      m.msrs := m.msrs[MSR_IA32_FEATURE_CONTROL := v];
    }
  }

  const MSR_IA32_DEBUGCTL: Dword := 0x1d9

  /** Appendix A.1: bit 31 of IA32_VMX_BASIC is always zero. */
  predicate PlainRevision(msrs: map<Dword, Qword>) {
    MsrOf(msrs, MSR_IA32_VMX_BASIC) % 0x1_0000_0000 < 0x8000_0000
  }

  method ConfigureDebugControl(m: Machine)
    modifies m`msrs, m`dr7
    ensures m.dr7 == old(m.dr7) % 0x1_0000_0000
    ensures forall msr: Dword :: msr != MSR_IA32_DEBUGCTL ==> MsrOf(m.msrs, msr) == old(MsrOf(m.msrs, msr))
    ensures MsrOf(m.msrs, MSR_IA32_DEBUGCTL) == And(old(MsrOf(m.msrs, MSR_IA32_DEBUGCTL)), 0xffc3)
  {
    hide And;
    QwordBits();
    AndBound(MsrOf(m.msrs, MSR_IA32_DEBUGCTL), 0xffc3, 64);
    m.msrs := m.msrs[MSR_IA32_DEBUGCTL := And(MsrOf(m.msrs, MSR_IA32_DEBUGCTL), 0xffc3)];
    m.dr7 := m.dr7 % 0x1_0000_0000;
  }

  lemma PlainRevisionWord(basic: Qword)
    requires basic % 0x1_0000_0000 < 0x8000_0000
    ensures basic % 0x1_0000_0000 == basic % 0x8000_0000
  {
    Peel(basic % 0x1_0000_0000, 0x8000_0000, 2 * (basic / 0x1_0000_0000));
  }

  /** Both regions start with the revision identifier. */
  method WriteRevisions(m: Machine)
    requires RAM_BYTES <= m.ram.Length
    requires PlainRevision(m.msrs)
    modifies m.ram
    ensures DwordAt(m.ram[..], VMXON_REGION) == DwordAt(m.ram[..], VMCS_REGION) == Revision(m.msrs)
    ensures SameOutside(old(m.ram[..]), m.ram[..], VMXON_REGION, EPTS)
  {
    var basic: Dword := MsrOf(m.msrs, MSR_IA32_VMX_BASIC) % 0x1_0000_0000;
    hide DwordAt;
    PlainRevisionWord(MsrOf(m.msrs, MSR_IA32_VMX_BASIC));
    WriteDword(m.ram, VMXON_REGION, basic);
    ghost var first := m.ram[..];
    WriteDword(m.ram, VMCS_REGION, basic);
    SameDword(first, m.ram[..], VMXON_REGION);
  }

  /** Root operation with a clear, current VMCS. */
  ghost predicate RootReady(vmx: Vmx) {
    && vmx.mode == Root
    && vmx.region == VMXON_REGION
    && vmx.current == VMCS_REGION
    && LaunchOf(vmx, VMCS_REGION) == Clear
  }

  /** The value of each result in C. */
  function ErrorCode(r: VmxResult): nat {
    match r
    case VmSuccess => 0
    case VmFailInvalid => 1
    case VmFailValid => 2
  }

  /** `!x` */
  function LogicalNot(x: nat): nat {
    if x == 0 then 1 else 0
  }

  /**
   `ASSERT(f() == VM_SUCCESS)`: the macro leaves its argument bare, so the negation binds to the
   call alone. The test is right all the same.
   */
  method Assert(m: Machine, r: VmxResult)
    modifies m`status
    ensures m.status == if r == VmSuccess then old(m.status) else Panicked
  {
    if LogicalNot(ErrorCode(r)) == ErrorCode(VmSuccess) {
      m.status := Panicked;
    }
  }

  /** VMXON, VMCLEAR and VMPTRLD, each asserted; once VMXON is allowed no assertion fails. */
  method StartVmx(m: Machine)
    requires m.status == Running && m.vmx.mode == Off && !m.misused
    requires RAM_BYTES <= m.ram.Length
    requires DwordAt(m.ram[..], VMXON_REGION) == DwordAt(m.ram[..], VMCS_REGION) == Revision(m.msrs)
    modifies m`status, m`vmx, m`misused, m`rflags
    ensures m.status == if VmxonAllowed(m.cr0, m.cr4, m.msrs) then Running else Faulted
    ensures !m.misused
    ensures m.status == Running ==> RootReady(m.vmx)
  {
    hide VmxonAllowed, DwordAt;
    var r := Vmxon(m, VMXON_REGION);
    if m.status != Running {
      return;
    }
    Assert(m, r);
    if m.status != Running {
      return;
    }
    r := Vmclear(m, VMCS_REGION);
    Assert(m, r);
    if m.status != Running {
      return;
    }
    r := Vmptrld(m, VMCS_REGION);
    Assert(m, r);
  }

  /** What start-up leaves in the MSRs, but for the fixed bits of the control registers. */
  ghost predicate MsrsAfterStart(before: map<Dword, Qword>, after: map<Dword, Qword>) {
    && (forall msr: Dword :: msr != MSR_IA32_FEATURE_CONTROL && msr != MSR_IA32_DEBUGCTL ==>
          MsrOf(after, msr) == MsrOf(before, msr))
    && MsrOf(after, MSR_IA32_DEBUGCTL) == And(MsrOf(before, MSR_IA32_DEBUGCTL), 0xffc3)
    && (if Bit(MsrOf(before, MSR_IA32_FEATURE_CONTROL), FEATURE_CONTROL_LOCK_BIT)
        then MsrOf(after, MSR_IA32_FEATURE_CONTROL) == MsrOf(before, MSR_IA32_FEATURE_CONTROL)
        else LockedWithVmxon(MsrOf(after, MSR_IA32_FEATURE_CONTROL), MsrOf(before, MSR_IA32_FEATURE_CONTROL)))
  }

  /** Both control registers as the code masks them. */
  ghost predicate ControlRegistersAfterStart(cr0: Qword, cr4: Qword, cr0': Qword, cr4': Qword,
                                             msrs: map<Dword, Qword>)
  {
    && cr0' == Masked(cr0, CR0_NE_ENABLE, MsrOf(msrs, MSR_IA32_VMX_CR0_FIXED0), MsrOf(msrs, MSR_IA32_VMX_CR0_FIXED1))
    && cr4' == Masked(cr4, CR4_VMX_ENABLE, MsrOf(msrs, MSR_IA32_VMX_CR4_FIXED0), MsrOf(msrs, MSR_IA32_VMX_CR4_FIXED1))
  }

  method EnterVmxRoot(m: Machine)
    requires m.status == Running && m.vmx.mode == Off && !m.misused
    requires RAM_BYTES <= m.ram.Length
    requires PlainRevision(m.msrs)
    modifies m`cr0, m`cr4, m`dr7, m`msrs, m`status, m`vmx, m`misused, m`rflags, m.ram
    ensures m.status == EntryStatus(old(m.msrs), m.smx)
    ensures !m.misused
    ensures m.status == Running ==> RootReady(m.vmx)
    ensures m.status == Running ==> VmxonAllowed(m.cr0, m.cr4, m.msrs)
    ensures m.status == Running ==> m.dr7 == old(m.dr7) % 0x1_0000_0000
    ensures m.status == Running ==> MsrsAfterStart(old(m.msrs), m.msrs)
    ensures ControlRegistersAfterStart(old(m.cr0), old(m.cr4), m.cr0, m.cr4, old(m.msrs))
    ensures forall msr: Dword :: msr != MSR_IA32_FEATURE_CONTROL && msr != MSR_IA32_DEBUGCTL ==>
              MsrOf(m.msrs, msr) == MsrOf(old(m.msrs), msr)
    ensures SameOutside(old(m.ram[..]), m.ram[..], VMXON_REGION, EPTS)
  {
    hide Bit, And, Or, DwordAt, ControlRegisterLegal, Within, VmxonAllowed, Masked, FixedBitsConsistent, RootReady;
    ghost var start := m.msrs;
    ghost var cr0, cr4 := m.cr0, m.cr4;
    ConfigureControlRegisters(m);
    ConfigureFeatureControl(m);
    if m.status != Running {
      return;
    }
    ConfigureDebugControl(m);
    WriteRevisions(m);
    VmxonAllowedIff(start, cr0, cr4, m.cr0, m.cr4, m.msrs);

    StartVmx(m);
  }

  lemma VmxonAllowedIff(start: map<Dword, Qword>, cr0: nat, cr4: nat, cr0': Qword, cr4': Qword, msrs: map<Dword, Qword>)
    requires cr0' == Masked(cr0, CR0_NE_ENABLE,
                            MsrOf(start, MSR_IA32_VMX_CR0_FIXED0), MsrOf(start, MSR_IA32_VMX_CR0_FIXED1))
    requires cr4' == Masked(cr4, CR4_VMX_ENABLE,
                            MsrOf(start, MSR_IA32_VMX_CR4_FIXED0), MsrOf(start, MSR_IA32_VMX_CR4_FIXED1))
    requires forall msr: Dword :: msr != MSR_IA32_FEATURE_CONTROL && msr != MSR_IA32_DEBUGCTL ==>
               MsrOf(msrs, msr) == MsrOf(start, msr)
    requires Bit(MsrOf(msrs, MSR_IA32_FEATURE_CONTROL), 0)
    ensures VmxonAllowed(cr0', cr4', msrs) <==>
            FixedBitsConsistent(start) && Bit(MsrOf(msrs, MSR_IA32_FEATURE_CONTROL), 2)
  {
    hide Bit, And, Or, ControlRegisterLegal, Within, Masked;
    MaskedIsLegal(cr0, CR0_NE_ENABLE, MsrOf(start, MSR_IA32_VMX_CR0_FIXED0), MsrOf(start, MSR_IA32_VMX_CR0_FIXED1));
    MaskedIsLegal(cr4, CR4_VMX_ENABLE, MsrOf(start, MSR_IA32_VMX_CR4_FIXED0), MsrOf(start, MSR_IA32_VMX_CR4_FIXED1));
    MaskedKeepsFreeBits(cr4, CR4_VMX_ENABLE,
                        MsrOf(start, MSR_IA32_VMX_CR4_FIXED0), MsrOf(start, MSR_IA32_VMX_CR4_FIXED1), 13);
    EnableBits();
  }

  lemma EnableBits()
    ensures Bit(CR0_NE_ENABLE, 5) && Bit(CR4_VMX_ENABLE, 13)
  {
    assert Pow2(5) == 0x20;
    assert Pow2(13) == 0x2000;
    BitOfPow2(5, 5);
    BitOfPow2(13, 13);
  }

  // ----- The VMCS: src/vmm/vmm.c:129-248 -----

  const VMCS_PIN_BASED_VM_EXEC_CONTROL: nat := 0x4000
  const VMCS_CPU_BASED_VM_EXEC_CONTROL: nat := 0x4002
  const VMCS_VM_EXIT_CONTROLS: nat := 0x400c
  const VMCS_VM_ENTRY_CONTROLS: nat := 0x4012
  const VMCS_SECONDARY_VM_EXEC_CONTROL: nat := 0x401e
  const VMCS_MSR_BITMAP: nat := 0x2004
  const VMCS_EPT_POINTER: nat := 0x201a
  const VMCS_GUEST_CR0: nat := 0x6800
  const VMCS_GUEST_CR3: nat := 0x6802
  const VMCS_GUEST_CR4: nat := 0x6804
  const VMCS_GUEST_DR7: nat := 0x681a
  const VMCS_HOST_CR0: nat := 0x6c00
  const VMCS_HOST_CR4: nat := 0x6c04

  const MSR_IA32_VMX_PINBASED_CTLS: Dword := 0x481
  const MSR_IA32_VMX_PROCBASED_CTLS: Dword := 0x482
  const MSR_IA32_VMX_EXIT_CTLS: Dword := 0x483
  const MSR_IA32_VMX_ENTRY_CTLS: Dword := 0x484
  const MSR_IA32_VMX_PROCBASED_CTLS2: Dword := 0x48b
  const MSR_IA32_VMX_TRUE_PINBASED_CTLS: Dword := 0x48d
  const MSR_IA32_VMX_TRUE_PROCBASED_CTLS: Dword := 0x48e
  const MSR_IA32_VMX_TRUE_EXIT_CTLS: Dword := 0x48f
  const MSR_IA32_VMX_TRUE_ENTRY_CTLS: Dword := 0x490

  // CPU_BASED_HLT_EXITING, CPU_BASED_ACTIVATE_MSR_BITMAP, CPU_BASED_ACTIVATE_SECONDARY_CONTROLS.
  const REQUESTED_PRIMARY: Dword := 0x80 + 0x1000_0000 + 0x8000_0000
  // CPU_BASED_CTL2_ENABLE_EPT, CPU_BASED_CTL2_UNRESTRICTED_GUEST.
  const REQUESTED_SECONDARY: Dword := 0x2 + 0x80
  // VM_EXIT_IA32E_MODE and VM_ENTRY_IA32E_MODE.
  const REQUESTED_LONG_MODE: Dword := 0x200

  const STACK_TOP: Qword := 0x7BFF

  /** The places of the requested bits: tables 24-6 and 24-7 of the manual. */
  const HLT_EXITING: nat := 7
  const USE_MSR_BITMAPS: nat := 28
  const ACTIVATE_SECONDARY: nat := 31
  const ENABLE_EPT: nat := 1
  const UNRESTRICTED_GUEST: nat := 7
  const IA32E_MODE: nat := 9

  predicate UsesMsrBitmaps(vmcs: map<nat, Qword>) {
    Bit(FieldOf(vmcs, VMCS_CPU_BASED_VM_EXEC_CONTROL), USE_MSR_BITMAPS)
  }

  predicate UsesEpt(vmcs: map<nat, Qword>) {
    && Bit(FieldOf(vmcs, VMCS_CPU_BASED_VM_EXEC_CONTROL), ACTIVATE_SECONDARY)
    && Bit(FieldOf(vmcs, VMCS_SECONDARY_VM_EXEC_CONTROL), ENABLE_EPT)
  }

  /** The guest runs with what the hypervisor relies on turned on. */
  predicate ControlsOn(vmcs: map<nat, Qword>) {
    && UsesMsrBitmaps(vmcs)
    && UsesEpt(vmcs)
    && Bit(FieldOf(vmcs, VMCS_CPU_BASED_VM_EXEC_CONTROL), HLT_EXITING)
    && Bit(FieldOf(vmcs, VMCS_SECONDARY_VM_EXEC_CONTROL), UNRESTRICTED_GUEST)
    && Bit(FieldOf(vmcs, VMCS_VM_EXIT_CONTROLS), IA32E_MODE)
    && Bit(FieldOf(vmcs, VMCS_VM_ENTRY_CONTROLS), IA32E_MODE)
  }

  lemma RequestedBits()
    ensures Bit(REQUESTED_PRIMARY, HLT_EXITING) && Bit(REQUESTED_PRIMARY, USE_MSR_BITMAPS)
    ensures Bit(REQUESTED_PRIMARY, ACTIVATE_SECONDARY)
    ensures Bit(REQUESTED_SECONDARY, ENABLE_EPT) && Bit(REQUESTED_SECONDARY, UNRESTRICTED_GUEST)
    ensures Bit(REQUESTED_LONG_MODE, IA32E_MODE)
  {
    hide Bit;
    PowersOfRequests();
    BitIsQuotient(REQUESTED_PRIMARY, HLT_EXITING);
    BitIsQuotient(REQUESTED_PRIMARY, USE_MSR_BITMAPS);
    BitIsQuotient(REQUESTED_PRIMARY, ACTIVATE_SECONDARY);
    BitIsQuotient(REQUESTED_SECONDARY, ENABLE_EPT);
    BitIsQuotient(REQUESTED_SECONDARY, UNRESTRICTED_GUEST);
    BitIsQuotient(REQUESTED_LONG_MODE, IA32E_MODE);
  }

  lemma PowersOfRequests()
    ensures Pow2(1) == 2 && Pow2(7) == 0x80 && Pow2(9) == 0x200
    ensures Pow2(28) == 0x1000_0000 && Pow2(31) == 0x8000_0000
  {
    assert Pow2(8) == 0x100;
    assert Pow2(16) == 0x1_0000;
    assert Pow2(24) == 0x100_0000;
  }

  /** Setting the requested controls turns everything on. */
  lemma RequestedAreOn(vmcs: map<nat, Qword>, msrs: map<Dword, Qword>)
    requires ControlsSet(vmcs, msrs)
    ensures ControlsOn(vmcs)
  {
    hide Bit, LegalControl, Capability;
    RequestedBits();
  }

  /** The field holds the requested bits, and is legal exactly when any such value is. */
  ghost predicate ControlSet(vmcs: map<nat, Qword>, field: nat, capability: Qword, requested: nat) {
    && Within(requested, FieldOf(vmcs, field))
    && (LegalControl(FieldOf(vmcs, field), capability) <==>
          Within(MustBeOne(capability), MayBeOne(capability)) && Within(requested, MayBeOne(capability)))
  }

  // The capabilities that bound the five control fields.

  function PinCapability(msrs: map<Dword, Qword>): Qword {
    Capability(msrs, MSR_IA32_VMX_PINBASED_CTLS, MSR_IA32_VMX_TRUE_PINBASED_CTLS)
  }

  function PrimaryCapability(msrs: map<Dword, Qword>): Qword {
    Capability(msrs, MSR_IA32_VMX_PROCBASED_CTLS, MSR_IA32_VMX_TRUE_PROCBASED_CTLS)
  }

  /** There is one capability MSR alone for the secondary controls. */
  function SecondaryCapability(msrs: map<Dword, Qword>): Qword {
    MsrOf(msrs, MSR_IA32_VMX_PROCBASED_CTLS2)
  }

  function ExitCapability(msrs: map<Dword, Qword>): Qword {
    Capability(msrs, MSR_IA32_VMX_EXIT_CTLS, MSR_IA32_VMX_TRUE_EXIT_CTLS)
  }

  function EntryCapability(msrs: map<Dword, Qword>): Qword {
    Capability(msrs, MSR_IA32_VMX_ENTRY_CTLS, MSR_IA32_VMX_TRUE_ENTRY_CTLS)
  }

  ghost predicate ControlsSet(vmcs: map<nat, Qword>, msrs: map<Dword, Qword>) {
    && ControlSet(vmcs, VMCS_PIN_BASED_VM_EXEC_CONTROL, PinCapability(msrs), 0)
    && ControlSet(vmcs, VMCS_CPU_BASED_VM_EXEC_CONTROL, PrimaryCapability(msrs), REQUESTED_PRIMARY)
    && ControlSet(vmcs, VMCS_SECONDARY_VM_EXEC_CONTROL, SecondaryCapability(msrs), REQUESTED_SECONDARY)
    && ControlSet(vmcs, VMCS_VM_EXIT_CONTROLS, ExitCapability(msrs), REQUESTED_LONG_MODE)
    && ControlSet(vmcs, VMCS_VM_ENTRY_CONTROLS, EntryCapability(msrs), REQUESTED_LONG_MODE)
  }

  /** `vmwrite(field, get_default_bits(msr, true_msr) | requested)` */
  method WriteControl(m: Machine, field: nat, msr: Dword, trueMsr: Dword, requested: Dword)
    requires VmcsAccessible(m.vmx)
    modifies m`misused, m`vmcs
    ensures m.misused == old(m.misused)
    ensures m.vmcs == old(m.vmcs)[field := FieldOf(m.vmcs, field)]
    ensures ControlSet(m.vmcs, field, Capability(m.msrs, msr, trueMsr), requested)
  {
    hide Bit;
    var defaultBits := GetDefaultBits(m, msr, trueMsr);
    QwordBits();
    OrBound(defaultBits, requested, 32);
    Vmwrite(m, field, Or(defaultBits, requested));
    ControlLegalIff(Capability(m.msrs, msr, trueMsr), requested);
    OrBits(defaultBits, requested);
  }

  method WriteControls(m: Machine)
    requires VmcsAccessible(m.vmx)
    modifies m`misused, m`vmcs
    ensures m.misused == old(m.misused)
    ensures ControlsSet(m.vmcs, m.msrs)
  {
    hide ControlSet;
    ghost var c := m.msrs;
    WriteControl(m, VMCS_PIN_BASED_VM_EXEC_CONTROL, MSR_IA32_VMX_PINBASED_CTLS, MSR_IA32_VMX_TRUE_PINBASED_CTLS, 0);
    ghost var v1 := m.vmcs;
    WriteControl(m, VMCS_CPU_BASED_VM_EXEC_CONTROL, MSR_IA32_VMX_PROCBASED_CTLS, MSR_IA32_VMX_TRUE_PROCBASED_CTLS,
                 REQUESTED_PRIMARY);
    ghost var v2 := m.vmcs;
    WriteControl(m, VMCS_SECONDARY_VM_EXEC_CONTROL, MSR_IA32_VMX_PROCBASED_CTLS2, MSR_IA32_VMX_PROCBASED_CTLS2,
                 REQUESTED_SECONDARY);
    ghost var v3 := m.vmcs;
    WriteControl(m, VMCS_VM_EXIT_CONTROLS, MSR_IA32_VMX_EXIT_CTLS, MSR_IA32_VMX_TRUE_EXIT_CTLS, REQUESTED_LONG_MODE);
    ghost var v4 := m.vmcs;
    WriteControl(m, VMCS_VM_ENTRY_CONTROLS, MSR_IA32_VMX_ENTRY_CTLS, MSR_IA32_VMX_TRUE_ENTRY_CTLS, REQUESTED_LONG_MODE);
    ControlKept(v1, m.vmcs, VMCS_PIN_BASED_VM_EXEC_CONTROL, PinCapability(c), 0);
    ControlKept(v2, m.vmcs, VMCS_CPU_BASED_VM_EXEC_CONTROL, PrimaryCapability(c), REQUESTED_PRIMARY);
    ControlKept(v3, m.vmcs, VMCS_SECONDARY_VM_EXEC_CONTROL, SecondaryCapability(c), REQUESTED_SECONDARY);
    ControlKept(v4, m.vmcs, VMCS_VM_EXIT_CONTROLS, ExitCapability(c), REQUESTED_LONG_MODE);
  }

  lemma ControlKept(before: map<nat, Qword>, after: map<nat, Qword>, field: nat, capability: Qword, requested: nat)
    requires ControlSet(before, field, capability, requested)
    requires FieldOf(after, field) == FieldOf(before, field)
    ensures ControlSet(after, field, capability, requested)
  {
    hide Within, LegalControl;
  }

  lemma ControlsKept(before: map<nat, Qword>, after: map<nat, Qword>, msrs: map<Dword, Qword>)
    requires ControlsSet(before, msrs)
    requires forall f :: 0x4000 <= f < 0x4020 ==> FieldOf(after, f) == FieldOf(before, f)
    ensures ControlsSet(after, msrs)
  {
    hide ControlSet;
    ControlKept(before, after, VMCS_PIN_BASED_VM_EXEC_CONTROL, PinCapability(msrs), 0);
    ControlKept(before, after, VMCS_CPU_BASED_VM_EXEC_CONTROL, PrimaryCapability(msrs), REQUESTED_PRIMARY);
    ControlKept(before, after, VMCS_SECONDARY_VM_EXEC_CONTROL, SecondaryCapability(msrs), REQUESTED_SECONDARY);
    ControlKept(before, after, VMCS_VM_EXIT_CONTROLS, ExitCapability(msrs), REQUESTED_LONG_MODE);
    ControlKept(before, after, VMCS_VM_ENTRY_CONTROLS, EntryCapability(msrs), REQUESTED_LONG_MODE);
  }

  ghost predicate HostFieldsSet(m: Machine, vmexitWrapper: Qword)
    reads m
  {
    && FieldOf(m.vmcs, VMCS_HOST_CR0) == m.cr0
    && FieldOf(m.vmcs, VMCS_HOST_CR4) == m.cr4
    && FieldOf(m.vmcs, VMCS_HOST_CR3) == m.cr3
    && FieldOf(m.vmcs, VMCS_HOST_RIP) == vmexitWrapper
    && FieldOf(m.vmcs, VMCS_HOST_RSP) == STACK_TOP
    && FieldOf(m.vmcs, VMCS_HOST_FS_BASE) == GUEST_STATE
  }

  ghost predicate GuestFieldsSet(m: Machine, kmain: Qword)
    reads m
  {
    && FieldOf(m.vmcs, VMCS_GUEST_CR0) == m.cr0
    && FieldOf(m.vmcs, VMCS_GUEST_CR3) == m.cr3
    && FieldOf(m.vmcs, VMCS_GUEST_CR4) == m.cr4
    && FieldOf(m.vmcs, VMCS_GUEST_DR7) == m.dr7
    && FieldOf(m.vmcs, VMCS_GUEST_RIP) == kmain
    && FieldOf(m.vmcs, VMCS_GUEST_RSP) == GUEST_STACK
  }

  const GUEST_FIELDS: nat := 0x6800
  const HOST_FIELDS: nat := 0x6c00
  const FIELDS_END: nat := 0x7000

  /** The fields encoded outside [first, end) have the values they had. */
  ghost predicate OtherFieldsKept(before: map<nat, Qword>, after: map<nat, Qword>, first: nat, end: nat) {
    forall f: nat :: !(first <= f < end) ==> FieldOf(after, f) == FieldOf(before, f)
  }

  method WriteHostFields(m: Machine, vmexitWrapper: Qword)
    requires VmcsAccessible(m.vmx)
    modifies m`misused, m`vmcs
    ensures m.misused == old(m.misused)
    ensures HostFieldsSet(m, vmexitWrapper)
    ensures OtherFieldsKept(old(m.vmcs), m.vmcs, HOST_FIELDS, FIELDS_END)
  {
    WriteHostControlRegisters(m);
    Vmwrite(m, VMCS_HOST_RIP, vmexitWrapper);
    Vmwrite(m, VMCS_HOST_RSP, STACK_TOP);
    Vmwrite(m, VMCS_HOST_FS_BASE, GUEST_STATE);
  }

  method WriteHostControlRegisters(m: Machine)
    requires VmcsAccessible(m.vmx)
    modifies m`misused, m`vmcs
    ensures m.misused == old(m.misused)
    ensures FieldOf(m.vmcs, VMCS_HOST_CR0) == m.cr0
    ensures FieldOf(m.vmcs, VMCS_HOST_CR4) == m.cr4
    ensures FieldOf(m.vmcs, VMCS_HOST_CR3) == m.cr3
    ensures OtherFieldsKept(old(m.vmcs), m.vmcs, HOST_FIELDS, FIELDS_END)
  {
    Vmwrite(m, VMCS_HOST_CR0, m.cr0);
    Vmwrite(m, VMCS_HOST_CR4, m.cr4);
    Vmwrite(m, VMCS_HOST_CR3, m.cr3);
  }

  method WriteGuestFields(m: Machine, kmain: Qword)
    requires VmcsAccessible(m.vmx)
    modifies m`misused, m`vmcs
    ensures m.misused == old(m.misused)
    ensures GuestFieldsSet(m, kmain)
    ensures OtherFieldsKept(old(m.vmcs), m.vmcs, GUEST_FIELDS, HOST_FIELDS)
  {
    WriteGuestControlRegisters(m);
    Vmwrite(m, VMCS_GUEST_DR7, m.dr7);
    Vmwrite(m, VMCS_GUEST_RIP, kmain);
    Vmwrite(m, VMCS_GUEST_RSP, GUEST_STACK);
  }

  method WriteGuestControlRegisters(m: Machine)
    requires VmcsAccessible(m.vmx)
    modifies m`misused, m`vmcs
    ensures m.misused == old(m.misused)
    ensures FieldOf(m.vmcs, VMCS_GUEST_CR0) == m.cr0
    ensures FieldOf(m.vmcs, VMCS_GUEST_CR3) == m.cr3
    ensures FieldOf(m.vmcs, VMCS_GUEST_CR4) == m.cr4
    ensures OtherFieldsKept(old(m.vmcs), m.vmcs, GUEST_FIELDS, HOST_FIELDS)
  {
    Vmwrite(m, VMCS_GUEST_CR0, m.cr0);
    Vmwrite(m, VMCS_GUEST_CR3, m.cr3);
    Vmwrite(m, VMCS_GUEST_CR4, m.cr4);
  }

  /** Controls, host and guest state: lines 130-239. */
  method WriteStateFields(m: Machine, vmexitWrapper: Qword, kmain: Qword)
    requires VmcsAccessible(m.vmx)
    modifies m`misused, m`vmcs
    ensures m.misused == old(m.misused)
    ensures ControlsSet(m.vmcs, m.msrs)
    ensures HostFieldsSet(m, vmexitWrapper) && GuestFieldsSet(m, kmain)
  {
    hide ControlsSet;
    WriteControls(m);
    ghost var controls := m.vmcs;
    WriteHostFields(m, vmexitWrapper);
    WriteGuestFields(m, kmain);
    ControlsKept(controls, m.vmcs, m.msrs);
  }

  method ConfigureVmcs(m: Machine, vmexitWrapper: Qword, kmain: Qword)
    requires VmcsAccessible(m.vmx)
    requires RAM_BYTES <= m.ram.Length
    requires Zeroed(m.ram[..], EPTS, EPTS + TABLES_BYTES)
    modifies m`misused, m`vmcs, m.ram
    ensures m.misused == old(m.misused)
    ensures ControlsSet(m.vmcs, m.msrs)
    ensures HostFieldsSet(m, vmexitWrapper) && GuestFieldsSet(m, kmain)
    ensures FieldOf(m.vmcs, VMCS_MSR_BITMAP) == MSR_BITMAPS
    ensures FieldOf(m.vmcs, VMCS_EPT_POINTER) == EptPointer(EPTS)
    ensures Installed(m.ram[..], EPTS, DefaultFlags())
    ensures SameOutside(old(m.ram[..]), m.ram[..], EPTS, EPTS + TABLES_BYTES)
  {
    hide ControlsSet, Installed, Zeroed, EptPointer;
    WriteStateFields(m, vmexitWrapper, kmain);
    ghost var controls := m.vmcs;
    Vmwrite(m, VMCS_MSR_BITMAP, MSR_BITMAPS);
    var eptp := InitializeExtendedPageTables(m.ram, EPTS);
    Vmwrite(m, VMCS_EPT_POINTER, eptp);
    ControlsKept(controls, m.vmcs, m.msrs);
  }

  // ----- The hooked page and the launch: src/vmm/initialize_host.c:96-109, src/vmm/vmm.c:293-297 -----

  method InitializeSsdt(m: Machine, printACrab: Qword)
    requires RAM_BYTES <= m.ram.Length
    modifies m.ram
    ensures m.ram[..] == StoredQword(old(m.ram[..]), EntryAddress(42), printACrab)
  {
    SetSyscallHandler(m.ram, 42, printACrab);
  }

  method InitializeReadHook(m: Machine)
    requires RAM_BYTES <= m.ram.Length
    requires Installed(m.ram[..], EPTS, DefaultFlags())
    modifies m.ram
    ensures Installed(m.ram[..], EPTS, HookedFlags(SSDT_PAGE))
    ensures SameOutside(old(m.ram[..]), m.ram[..], EPTS, EPTS + TABLES_BYTES)
  {
    hide Installed, Updated, DefaultFlags;
    var panicked := UpdateGpaAccessRights(m.ram, EPTS, SSDT, HOOK_FLAGS);
    InstalledAfterUpdate(old(m.ram[..]), m.ram[..], EPTS, DefaultFlags(), SSDT, HOOK_FLAGS);
    UpdateStaysInTablesIff(old(m.ram[..]), m.ram[..], EPTS, SSDT, HOOK_FLAGS);
  }

  /** `error` is what the failing path reads for its message. */
  method LaunchVm(m: Machine, checksPass: bool) returns (error: Qword)
    requires m.status == Running && !m.misused && RootReady(m.vmx)
    modifies m`vmx, m`misused, m`gpr, m`status, m`rflags
    ensures !m.misused
    ensures m.status == if checksPass then Running else Panicked
    ensures !checksPass ==> error == FieldOf(m.vmcs, VMCS_VM_INSTRUCTION_ERROR)
    ensures checksPass ==>
      && Entered(old(m.vmx), m.vmx)
      && m.gpr == old(m.gpr)[RSP := FieldOf(m.vmcs, VMCS_GUEST_RSP)][RIP := FieldOf(m.vmcs, VMCS_GUEST_RIP)]
  {
    var r := Vmlaunch(m, checksPass);
    error := 0;
    if r != VmSuccess {
      error := Vmread(m, VMCS_VM_INSTRUCTION_ERROR);
      m.status := Panicked;
    }
  }

  // ----- The whole start: src/vmm/initialize_host.c:26-48 -----

  lemma BitmapOfZeros(ram: Ram)
    requires RAM_BYTES <= |ram|
    requires Zeroed(ram, MSR_BITMAPS, MSR_BITMAPS + BITMAPS_BYTES)
    ensures BitmapIs(ram, false)
  {
    hide Bit;
    forall access, msr: Dword | ValidMsr(msr)
      ensures !Exits(ram, MSR_BITMAPS, access, msr)
    {
      assert BitNumber(access, msr) / 8 < BITMAPS_BYTES;
      ZeroBit(BitNumber(access, msr) % 8);
    }
  }

  lemma ZeroEntry(ram: Ram, k: nat)
    requires RAM_BYTES <= |ram| && k < SSDT_SIZE
    requires Zeroed(ram, SSDT, SSDT + PAGE_SIZE)
    ensures QwordAt(ram, EntryAddress(k)) == 0
  {
    ZeroQword(ram, EntryAddress(k));
  }

  /** The memory the guest starts with: the VMM's structures in place, one syscall registered. */
  ghost predicate HostReady(ram: Ram, printACrab: Qword) {
    && RAM_BYTES <= |ram|
    && Installed(ram, EPTS, HookedFlags(SSDT_PAGE))
    && QwordAt(ram, CPU_DATA_POINTER) == CPU_DATA
    && BitmapIs(ram, false)
    && GuestTables(ram)
    && forall k :: 0 <= k < SSDT_SIZE ==> QwordAt(ram, EntryAddress(k)) == if k == 42 then printACrab else NULL
  }

  /** The structures built in order, over zeroed memory. */
  method BuildStructures(m: Machine, vmexitWrapper: Qword, kmain: Qword, printACrab: Qword)
    requires RootReady(m.vmx) && RAM_BYTES <= m.ram.Length
    requires QwordAt(m.ram[..], CPU_DATA_POINTER) == CPU_DATA
    requires Zeroed(m.ram[..], EPTS, CPU_DATA_POINTER) && GuestTables(m.ram[..])
    modifies m`misused, m`vmcs, m.ram
    ensures m.misused == old(m.misused)
    ensures ControlsSet(m.vmcs, m.msrs)
    ensures HostFieldsSet(m, vmexitWrapper) && GuestFieldsSet(m, kmain)
    ensures FieldOf(m.vmcs, VMCS_MSR_BITMAP) == MSR_BITMAPS
    ensures FieldOf(m.vmcs, VMCS_EPT_POINTER) == EptPointer(EPTS)
    ensures HostReady(m.ram[..], printACrab)
    ensures SameOutside(old(m.ram[..]), m.ram[..], EPTS, CPU_DATA_POINTER)
  {
    hide ControlsSet, Installed, EptPointer, QwordAt, BitmapIs, HookedFlags, DefaultFlags, RootReady, GuestTables;
    ghost var start := m.ram[..];
    assert VmcsAccessible(m.vmx) by { RootIsAccessible(m.vmx); }
    ConfigureVmcs(m, vmexitWrapper, kmain);
    ghost var configured := m.ram[..];
    InitializeSsdt(m, printACrab);
    ghost var filled := m.ram[..];
    InstalledFrame(configured, filled, EPTS, DefaultFlags());
    InitializeReadHook(m);
    StructuresBuilt(start, configured, filled, m.ram[..], printACrab);
  }

  lemma RootIsAccessible(vmx: Vmx)
    requires RootReady(vmx)
    ensures VmcsAccessible(vmx)
  {
  }

  lemma StructuresBuilt(start: Ram, configured: Ram, filled: Ram, hooked: Ram, printACrab: Qword)
    requires RAM_BYTES <= |start| == |configured| == |filled| == |hooked|
    requires QwordAt(start, CPU_DATA_POINTER) == CPU_DATA
    requires Zeroed(start, EPTS, CPU_DATA_POINTER) && GuestTables(start)
    requires SameOutside(start, configured, EPTS, EPTS + TABLES_BYTES)
    requires filled == StoredQword(configured, EntryAddress(42), printACrab)
    requires SameOutside(filled, hooked, EPTS, EPTS + TABLES_BYTES)
    requires Installed(hooked, EPTS, HookedFlags(SSDT_PAGE))
    ensures HostReady(hooked, printACrab)
  {
    hide Installed, QwordAt, BitmapIs, HookedFlags, GuestTables;
    SameQword(start, hooked, CPU_DATA_POINTER);
    GuestTablesFrame(start, hooked);
    BitmapOfZeros(hooked);
    forall k | 0 <= k < SSDT_SIZE
      ensures QwordAt(hooked, EntryAddress(k)) == if k == 42 then printACrab else NULL
    {
      ZeroEntry(configured, k);
      OtherEntriesKept(configured, 42, printACrab, k);
      SameQword(filled, hooked, EntryAddress(k));
    }
  }

  ghost function StartStatus(msrs: map<Dword, Qword>, smx: bool, checksPass: bool): Status {
    if EntryStatus(msrs, smx) != Running then EntryStatus(msrs, smx) else if checksPass then Running else Panicked
  }

  /** The guest is about to run its first instruction under legal controls. */
  ghost predicate GuestStarted(m: Machine, vmexitWrapper: Qword, kmain: Qword, printACrab: Qword)
    reads m, m.ram
  {
    && GuestRunning(m)
    && HostReady(m.ram[..], printACrab)
    && m.gpr[RIP] == kmain && m.gpr[RSP] == GUEST_STACK
    && HostFieldsSet(m, vmexitWrapper) && GuestFieldsSet(m, kmain)
    && FieldOf(m.vmcs, VMCS_MSR_BITMAP) == MSR_BITMAPS
    && FieldOf(m.vmcs, VMCS_EPT_POINTER) == EptPointer(EPTS)
    && ControlsSet(m.vmcs, m.msrs) && ControlsOn(m.vmcs)
    && VmxonAllowed(m.cr0, m.cr4, m.msrs)
  }

  /**
   From the reset state to the guest's first instruction. The start succeeds exactly when the
   feature-control and fixed-bit MSRs allow it and the processor's entry checks pass; otherwise
   the machine has panicked, or VMXON has faulted.
   */
  method InitializeHost(m: Machine, vmexitWrapper: Qword, kmain: Qword, printACrab: Qword, checksPass: bool)
    requires m.status == Running && m.vmx.mode == Off && !m.misused
    requires RAM_BYTES <= m.ram.Length
    requires Zeroed(m.ram[..], CPU_DATA, CPU_DATA_POINTER + 8) && GuestTables(m.ram[..])
    requires PlainRevision(m.msrs)
    modifies m, m.ram
    ensures !m.misused
    ensures m.status == StartStatus(old(m.msrs), m.smx, checksPass)
    ensures SameOutside(old(m.ram[..]), m.ram[..], CPU_DATA, CPU_DATA_POINTER + 8)
    ensures m.status == Running ==> GuestStarted(m, vmexitWrapper, kmain, printACrab)
    ensures m.status == Running ==> MsrsAfterStart(old(m.msrs), m.msrs)
    ensures ControlRegistersAfterStart(old(m.cr0), old(m.cr4), m.cr0, m.cr4, old(m.msrs))
    ensures m.status == Running ==> m.dr7 == old(m.dr7) % 0x1_0000_0000
    ensures m.cr3 == old(m.cr3)
  {
    hide ControlsSet, Installed, EptPointer, QwordAt, BitmapIs, EntryStatus, VmxonAllowed, HookedFlags, GuestTables,
         ControlsOn, MsrsAfterStart, ControlRegistersAfterStart;
    ghost var start := m.ram[..];
    WriteQword(m.ram, CPU_DATA_POINTER, CPU_DATA);
    ghost var pointed := m.ram[..];
    EnterVmxRoot(m);
    if m.status != Running {
      return;
    }
    SameQword(pointed, m.ram[..], CPU_DATA_POINTER);
    GuestTablesFrame(start, m.ram[..]);
    BuildStructures(m, vmexitWrapper, kmain, printACrab);
    RequestedAreOn(m.vmcs, m.msrs);
    var error := LaunchVm(m, checksPass);
  }

  /** The machine a run starts with. */
  ghost function StateOf(m: Machine): Vm
    reads m, m.ram
  {
    Vm(m.ram[..], m.gpr, m.msrs, m.status)
  }

  /** The state the boot code leaves satisfies what every run preserves. */
  lemma BootEstablishesInvariant(s: Vm, printACrab: Qword)
    requires HostReady(s.ram, printACrab)
    ensures Invariant(s, s.ram, false)
  {
    hide Installed, BitmapIs, QwordAt, HookedFlags, GuestTables;
  }

  /** Firmware that locks VMXON to SMX operation passes the code's test and then faults. */
  lemma LockedInsideSmxFaults(msrs: map<Dword, Qword>, smx: bool)
    requires MsrOf(msrs, MSR_IA32_FEATURE_CONTROL) == 3
    ensures EntryStatus(msrs, smx) == Faulted
  {
    assert Bit(3, 0) && Bit(3, 1);
    assert !Bit(3, 2) by { assert !Bit(1, 1) by { ZeroBit(0); } }
  }

  /**
   Without SMX operation an unlocked feature MSR makes the code fault, whatever else it holds: the
   code asks for a bit that such a processor refuses, though VMXON needs another.
   */
  lemma UnlockedWithoutSmxFaults(msrs: map<Dword, Qword>)
    requires !Bit(MsrOf(msrs, MSR_IA32_FEATURE_CONTROL), FEATURE_CONTROL_LOCK_BIT)
    ensures EntryStatus(msrs, false) == Faulted
  {
  }

  /**
   Both sets of tables together, from the loop in assembly to the read hook in C: every linear
   address below 4 GiB reaches itself, except those in the SSDT's page, which are misconfigured.
   */
  lemma NestedTranslationAfterBoot(booted: Ram, p: Platform, printACrab: Qword, la: nat)
    requires p.Valid()
    requires HostReady(booted, printACrab)
    requires la < MAPPED_BYTES
    ensures NestedWalk(booted, p.cap, EptPointer(EPTS), BootPaging.IA32E_PAGING_BASE, la) ==
            if SSDT <= la < SSDT + PAGE_SIZE then EptFault(la, Misconfigured)
            else Translated(la, ALL_RIGHTS, false)
  {
    hide Installed, QwordAt, BitmapIs, GuestTables, NestedWalk, HookedFlags, EptPointer;
    NestedIdentityButHooked(booted, p.cap, EPTS, SSDT_PAGE, la);
    WindowIsPage(la);
  }
}
