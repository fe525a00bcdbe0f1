/**
 Whole runs of the virtual machine: any sequence of guest instructions and VM exits after the
 hypervisor has installed its read hook.
 */
module GuestRuns {
  import opened Bits
  import opened Memory
  import opened EptEntries
  import opened EptHardware
  import opened ExtendedPaging
  import opened NestedTranslation
  import BootPaging
  import opened VmxMachine
  import opened MsrBitmaps
  import opened VmExits

  const SSDT_PAGE: nat := SSDT / PAGE_SIZE

  datatype Vm = Vm(ram: Ram, regs: Registers, msrs: map<Dword, Qword>, status: Status)

  datatype Kind = Read | Write | Execute

  /**
   A guest instruction; `regs` are the registers it leaves, `length` its length if it exits. `Mark`
   is the processor's: it sets the accessed or dirty flag of an entry that a linear access used.
   */
  datatype Event =
    | Compute(regs: Registers)
    | Load(kind: Kind, gpa: Qword, regs: Registers, length: Qword)
    | Store(gpa: Qword, data: seq<Byte>, regs: Registers, length: Qword)
    | Rdmsr(regs: Registers, length: Qword)
    | Wrmsr(value: Qword, regs: Registers, length: Qword)
    | Trap(exit: Exit)
    | Mark(slot: nat, flag: nat)

  /** The processor and hypervisor parameters of a run. */
  datatype Platform = Platform(cap: Capabilities, hook: Qword) {
    ghost predicate Valid() {
      cap.Valid() && EPTS + TABLES_BYTES <= Pow2(cap.physicalWidth)
    }
  }

  predicate Permits(r: EptResult, kind: Kind) {
    r.Mapped? && match kind
                 case Read => r.rights.read
                 case Write => r.rights.write
                 case Execute => r.rights.execute
  }

  /** The exit a refused guest-physical access causes. */
  function Refusal(r: EptResult, gpa: Qword, length: Qword): Exit {
    Exit(if r.Misconfigured? then EXIT_REASON_EPT_MISCONFIG else EXIT_REASON_EPT_VIOLATION, length, gpa)
  }

  /**
   The assumption on guest stores: they do not reach the page tables that host and guest share, the
   VMXON and VMCS regions, the extended page tables, the MSR bitmaps or the pointer behind the SSDT.
   They may reach the saved registers, whose page the guest's stack grows into. `TablesAreWritable`
   says why the first must be assumed.
   */
  predicate AvoidsVmm(hpa: nat, size: nat) {
    && (hpa + size <= BootPaging.IA32E_PAGING_BASE || BootPaging.TABLES_END <= hpa)
    && (hpa + size <= CPU_DATA || GUEST_STATE <= hpa)
    && (hpa + size <= CPU_DATA_POINTER || CPU_DATA_POINTER + 8 <= hpa)
  }

  /** A push with `depth` bytes on the launched guest's stack reaches the VMM exactly past one page. */
  lemma StackOfOnePage(depth: nat)
    requires 8 <= depth <= GUEST_STACK - CPU_DATA
    ensures AvoidsVmm(GUEST_STACK - depth, 8) <==> depth <= PAGE_SIZE
  {
  }

  /** What a store leaves; bytes beyond the installed memory are lost. */
  function GuestStored(ram: Ram, hpa: nat, data: seq<Byte>): (after: Ram)
    ensures |after| == |ram|
  {
    if hpa + |data| <= |ram| then Stored(ram, hpa, data)
    else if hpa < |ram| then Stored(ram, hpa, data[..|ram| - hpa])
    else ram
  }

  lemma GuestStoredFrame(ram: Ram, hpa: nat, data: seq<Byte>)
    ensures SameOutside(ram, GuestStored(ram, hpa, data), hpa, hpa + |data|)
  {
  }

  function Msr(regs: Registers): Dword {
    regs[RCX] % 0x1_0000_0000
  }

  ghost predicate Exited(s: Vm, exit: Exit, hook: Qword, s': Vm)
    requires RAM_BYTES <= |s.ram|
  {
    && |s'.ram| == |s.ram|
    && ExitEffect(s.ram, s.regs, exit, hook, s'.ram, s'.regs, s'.status)
    && s'.msrs == s.msrs
  }

  /** One step of the machine. A stopped machine stays as it is. */
  ghost predicate Step(s: Vm, e: Event, p: Platform, s': Vm)
    requires RAM_BYTES <= |s.ram|
  {
    if s.status != Running then s' == s
    else match e
      case Compute(regs) => s' == s.(regs := regs)
      case Load(kind, gpa, regs, length) =>
        var r := EptWalk(s.ram, p.cap, EptPointer(EPTS), gpa);
        && kind != Write
        && (if Permits(r, kind) then s' == s.(regs := regs) else Exited(s, Refusal(r, gpa, length), p.hook, s'))
      case Store(gpa, data, regs, length) =>
        var r := EptWalk(s.ram, p.cap, EptPointer(EPTS), gpa);
        && 0 < |data| <= PAGE_SIZE - gpa % PAGE_SIZE
        && (if Permits(r, Write) then
              && AvoidsVmm(r.hpa, |data|)
              && s' == s.(ram := GuestStored(s.ram, r.hpa, data), regs := regs)
            else Exited(s, Refusal(r, gpa, length), p.hook, s'))
      case Rdmsr(regs, length) =>
        if Exits(s.ram, MSR_BITMAPS, ReadMsr, Msr(s.regs))
        then Exited(s, Exit(EXIT_REASON_MSR_READ, length, 0), p.hook, s')
        else s' == s.(regs := regs)
      case Wrmsr(value, regs, length) =>
        if Exits(s.ram, MSR_BITMAPS, WriteMsr, Msr(s.regs))
        then Exited(s, Exit(EXIT_REASON_MSR_WRITE, length, 0), p.hook, s')
        else s' == s.(regs := regs, msrs := s.msrs[Msr(s.regs) := value])
      case Trap(exit) => Exited(s, exit, p.hook, s')
      case Mark(slot, flag) =>
        && UsedEntry(slot) && MarkFlag(flag)
        && slot + 8 <= |s.ram|
        && s' == s.(ram := MarkedRam(s.ram, slot, flag))
  }

  // ----- The invariant -----

  predicate ProtectedMsr(access: Access, msr: Dword) {
    access == WriteMsr && (msr == MSR_IA32_SYSENTER_EIP || msr == MSR_IA32_LSTAR)
  }

  /** Exactly the accesses the hypervisor was asked to trap leave the guest. */
  ghost predicate BitmapIs(ram: Ram, protecting: bool)
    requires RAM_BYTES <= |ram|
  {
    forall access, msr: Dword :: ValidMsr(msr) ==>
      (Exits(ram, MSR_BITMAPS, access, msr) <==> protecting && ProtectedMsr(access, msr))
  }

  ghost predicate Invariant(s: Vm, ssdt: Ram, protecting: bool) {
    && RAM_BYTES <= |s.ram| == |ssdt|
    && Installed(s.ram, EPTS, HookedFlags(SSDT_PAGE))
    && QwordAt(s.ram, CPU_DATA_POINTER) == CPU_DATA
    && Same(ssdt, s.ram, SSDT, SSDT + PAGE_SIZE)
    && BitmapIs(s.ram, protecting)
    && GuestTables(s.ram)
  }

  /** A vmcall the hypervisor answers by protecting the syscall MSRs. */
  predicate Protects(s: Vm, e: Event) {
    && s.status == Running
    && e.Trap?
    && BasicReason(e.exit) == EXIT_REASON_VMCALL
    && s.regs[RDI] == PROTECT_SYSCALL
  }

  lemma BitmapFrame(before: Ram, after: Ram, protecting: bool)
    requires RAM_BYTES <= |before| == |after|
    requires BitmapIs(before, protecting)
    requires Same(before, after, MSR_BITMAPS, MSR_BITMAPS + BITMAPS_BYTES)
    ensures BitmapIs(after, protecting)
  {
    hide Bit, BitNumber;
    forall access, msr: Dword | ValidMsr(msr)
      ensures Exits(after, MSR_BITMAPS, access, msr) <==> Exits(before, MSR_BITMAPS, access, msr)
    {
      assert BitNumber(access, msr) / 8 < BITMAPS_BYTES;
    }
  }

  /** Memory that differs only outside the VMM's structures and the SSDT keeps the invariant. */
  lemma InvariantFrame(s: Vm, s': Vm, ssdt: Ram, protecting: bool)
    requires Invariant(s, ssdt, protecting)
    requires |s.ram| == |s'.ram|
    requires Same(s.ram, s'.ram, CPU_DATA, GUEST_STATE)
    requires Same(s.ram, s'.ram, SSDT, SSDT + PAGE_SIZE)
    requires Same(s.ram, s'.ram, CPU_DATA_POINTER, CPU_DATA_POINTER + 8)
    requires GuestTables(s'.ram)
    ensures Invariant(s', ssdt, protecting)
  {
    hide Installed, QwordAt, BitmapIs, HookedFlags, GuestTables;
    InstalledFrame(s.ram, s'.ram, EPTS, HookedFlags(SSDT_PAGE));
    SameQword(s.ram, s'.ram, CPU_DATA_POINTER);
    BitmapFrame(s.ram, s'.ram, protecting);
  }

  /** The addresses whose walk is misconfigured are those the handler's window test accepts. */
  lemma MisconfiguredExactlyInWindow(s: Vm, ssdt: Ram, protecting: bool, p: Platform, gpa: nat)
    requires Invariant(s, ssdt, protecting) && p.Valid()
    ensures EptWalk(s.ram, p.cap, EptPointer(EPTS), gpa) == Misconfigured <==> InSsdtWindow(gpa)
  {
    hide Installed, QwordAt, BitmapIs, HookedFlags, EptWalk, EptPointer, Lookup, GuestTables;
    WalkRefinesMap(s.ram, p.cap, EPTS, HookedFlags(SSDT_PAGE), gpa);
    LookupOfHooked(p.cap, SSDT_PAGE, gpa);
    WindowIsPage(gpa);
  }

  lemma WindowIsPage(gpa: nat)
    ensures InSsdtWindow(gpa) <==> gpa / PAGE_SIZE == SSDT_PAGE
  {
  }

  // ----- One step -----

  lemma StoreKeepsInvariant(s: Vm, s': Vm, ssdt: Ram, protecting: bool, p: Platform, gpa: nat, data: seq<Byte>)
    requires Invariant(s, ssdt, protecting) && p.Valid()
    requires 0 < |data| <= PAGE_SIZE - gpa % PAGE_SIZE
    requires Permits(EptWalk(s.ram, p.cap, EptPointer(EPTS), gpa), Write)
    requires var r := EptWalk(s.ram, p.cap, EptPointer(EPTS), gpa);
      AvoidsVmm(r.hpa, |data|) && s'.ram == GuestStored(s.ram, r.hpa, data)
    ensures Invariant(s', ssdt, protecting)
  {
    hide Installed, QwordAt, BitmapIs, HookedFlags, EptWalk, EptPointer, Lookup, GuestTables, GuestStored;
    WalkRefinesMap(s.ram, p.cap, EPTS, HookedFlags(SSDT_PAGE), gpa);
    LookupOfHooked(p.cap, SSDT_PAGE, gpa);
    GuestStoredFrame(s.ram, gpa, data);
    GuestTablesFrame(s.ram, s'.ram);
    InvariantFrame(s, s', ssdt, protecting);
  }

  lemma BitmapAfterProtect(ram: Ram, protecting: bool)
    requires RAM_BYTES <= |ram|
    requires BitmapIs(ram, protecting)
    ensures BitmapIs(BitSet(BitSet(ram, MSR_BITMAPS, BitNumber(WriteMsr, MSR_IA32_SYSENTER_EIP)),
                            MSR_BITMAPS, BitNumber(WriteMsr, MSR_IA32_LSTAR)), true)
  {
    hide Exits, BitSet, BitNumber;
    var first := BitSet(ram, MSR_BITMAPS, BitNumber(WriteMsr, MSR_IA32_SYSENTER_EIP));
    forall access, msr: Dword | ValidMsr(msr)
      ensures Exits(BitSet(first, MSR_BITMAPS, BitNumber(WriteMsr, MSR_IA32_LSTAR)), MSR_BITMAPS, access, msr)
              <==> ProtectedMsr(access, msr)
    {
      ExitsAfterMonitor(ram, MSR_BITMAPS, WriteMsr, MSR_IA32_SYSENTER_EIP, access, msr);
      ExitsAfterMonitor(first, MSR_BITMAPS, WriteMsr, MSR_IA32_LSTAR, access, msr);
    }
  }

  /** The memory as the handler leaves it, before the registers are written back. */
  lemma ProtectedKeepsInvariant(s: Vm, ssdt: Ram, protecting: bool, exit: Exit)
    requires Invariant(s, ssdt, protecting)
    ensures Invariant(s.(ram := Protected(s.ram, s.regs, exit)), ssdt,
                      protecting || (BasicReason(exit) == EXIT_REASON_VMCALL && s.regs[RDI] == PROTECT_SYSCALL))
  {
    hide Installed, QwordAt, BitmapIs, HookedFlags, BitNumber, GuestTables;
    var after := Protected(s.ram, s.regs, exit);
    if BasicReason(exit) == EXIT_REASON_VMCALL && s.regs[RDI] == PROTECT_SYSCALL {
      BitmapAfterProtect(s.ram, protecting);
      InstalledFrame(s.ram, after, EPTS, HookedFlags(SSDT_PAGE));
      SameQword(s.ram, after, CPU_DATA_POINTER);
      GuestTablesFrame(s.ram, after);
    }
  }

  lemma ExitKeepsInvariant(s: Vm, exit: Exit, hook: Qword, s': Vm, ssdt: Ram, protecting: bool)
    requires Invariant(s, ssdt, protecting)
    requires Exited(s, exit, hook, s')
    ensures Invariant(s', ssdt,
                      protecting || (BasicReason(exit) == EXIT_REASON_VMCALL && s.regs[RDI] == PROTECT_SYSCALL))
  {
    hide Invariant, Protected, RegistersAfter, RegistersAt, SsdtRead;
    assert |s.ram| >= RAM_BYTES by { InvariantSize(s, ssdt, protecting); }
    if Handled(s.regs, exit) {
      var middle := s.(ram := Protected(s.ram, s.regs, exit));
      ProtectedKeepsInvariant(s, ssdt, protecting, exit);
      TablesKept(middle, s', ssdt,
        protecting || (BasicReason(exit) == EXIT_REASON_VMCALL && s.regs[RDI] == PROTECT_SYSCALL));
      InvariantFrame(middle, s', ssdt,
        protecting || (BasicReason(exit) == EXIT_REASON_VMCALL && s.regs[RDI] == PROTECT_SYSCALL));
    } else {
      TablesKept(s, s', ssdt, protecting);
      InvariantFrame(s, s', ssdt, protecting);
    }
  }

  lemma TablesKept(s: Vm, s': Vm, ssdt: Ram, protecting: bool)
    requires Invariant(s, ssdt, protecting) && |s.ram| == |s'.ram|
    requires SameOutside(s.ram, s'.ram, GUEST_STATE, GUEST_STATE + REGISTERS_BYTES)
    ensures GuestTables(s'.ram)
  {
    hide Installed, QwordAt, BitmapIs, HookedFlags, GuestTables;
    GuestTablesFrame(s.ram, s'.ram);
  }

  lemma MarkKeepsInvariant(s: Vm, s': Vm, ssdt: Ram, protecting: bool, slot: nat, flag: nat)
    requires Invariant(s, ssdt, protecting)
    requires UsedEntry(slot) && MarkFlag(flag) && slot + 8 <= |s.ram|
    requires s'.ram == MarkedRam(s.ram, slot, flag)
    ensures Invariant(s', ssdt, protecting)
  {
    hide Installed, QwordAt, BitmapIs, HookedFlags, GuestTables, MarkFlag, MarkedRam;
    UsedIsAligned(slot);
    MarkedSize(s.ram, slot, flag);
    MarkKeepsTables(s.ram, slot, flag);
    InvariantFrame(s, s', ssdt, protecting);
  }

  lemma InvariantSize(s: Vm, ssdt: Ram, protecting: bool)
    requires Invariant(s, ssdt, protecting)
    ensures RAM_BYTES <= |s.ram| == |ssdt|
  {
    hide Installed, QwordAt, BitmapIs, GuestTables;
  }

  /** Every step keeps the tables, the SSDT and the bitmaps, but for the protection it asks for. */
  lemma StepKeepsInvariant(s: Vm, e: Event, p: Platform, s': Vm, ssdt: Ram, protecting: bool)
    requires p.Valid() && Invariant(s, ssdt, protecting)
    requires RAM_BYTES <= |s.ram| && Step(s, e, p, s')
    ensures Invariant(s', ssdt, protecting || Protects(s, e))
  {
    hide Invariant, Exited, EptWalk, EptPointer, Exits, Permits, AvoidsVmm, UsedEntry, MarkFlag, MarkedRam,
         GuestStored;
    if s.status == Running {
      match e
      case Compute(_) => SameMemory(s, s', ssdt, protecting);
      case Load(kind, gpa, regs, length) =>
        var r := EptWalk(s.ram, p.cap, EptPointer(EPTS), gpa);
        if Permits(r, kind) {
          SameMemory(s, s', ssdt, protecting);
        } else {
          ExitKeepsInvariant(s, Refusal(r, gpa, length), p.hook, s', ssdt, protecting);
        }
      case Store(gpa, data, regs, length) =>
        var r := EptWalk(s.ram, p.cap, EptPointer(EPTS), gpa);
        if Permits(r, Write) {
          StoreKeepsInvariant(s, s', ssdt, protecting, p, gpa, data);
        } else {
          ExitKeepsInvariant(s, Refusal(r, gpa, length), p.hook, s', ssdt, protecting);
        }
      case Rdmsr(regs, length) =>
        if Exits(s.ram, MSR_BITMAPS, ReadMsr, Msr(s.regs)) {
          ExitKeepsInvariant(s, Exit(EXIT_REASON_MSR_READ, length, 0), p.hook, s', ssdt, protecting);
        } else {
          SameMemory(s, s', ssdt, protecting);
        }
      case Wrmsr(value, regs, length) =>
        if Exits(s.ram, MSR_BITMAPS, WriteMsr, Msr(s.regs)) {
          ExitKeepsInvariant(s, Exit(EXIT_REASON_MSR_WRITE, length, 0), p.hook, s', ssdt, protecting);
        } else {
          SameMemory(s, s', ssdt, protecting);
        }
      case Trap(exit) => ExitKeepsInvariant(s, exit, p.hook, s', ssdt, protecting);
      case Mark(slot, flag) => MarkKeepsInvariant(s, s', ssdt, protecting, slot, flag);
    }
  }

  lemma SameMemory(s: Vm, s': Vm, ssdt: Ram, protecting: bool)
    requires Invariant(s, ssdt, protecting) && s'.ram == s.ram
    ensures Invariant(s', ssdt, protecting)
  {
    hide Installed, BitmapIs, QwordAt, GuestTables;
  }

  lemma StepKeepsMsrs(s: Vm, e: Event, p: Platform, s': Vm, msr: Dword)
    requires RAM_BYTES <= |s.ram| && BitmapIs(s.ram, true) && Step(s, e, p, s')
    requires ProtectedMsr(WriteMsr, msr)
    ensures MsrOf(s'.msrs, msr) == MsrOf(s.msrs, msr)
  {
    hide Exits, ExitEffect, EptWalk, MarkedRam, GuestStored;
    assert ValidMsr(msr);
  }

  // ----- What a step does to the guest -----

  /**
   A running machine goes on, unless it traps for a reason the hypervisor does not answer. By
   appendix C the answered ones are HLT, RDMSR, WRMSR, EPT violation, EPT misconfiguration and, with
   the one known request, VMCALL.
   */
  lemma StepRunsIff(s: Vm, e: Event, p: Platform, s': Vm)
    requires RAM_BYTES <= |s.ram| && s.status == Running && Step(s, e, p, s')
    ensures s'.status == Running <==>
      (e.Trap? ==>
         || e.exit.reason % 0x1_0000 in {12, 31, 32, 48, 49}
         || (e.exit.reason % 0x1_0000 == 18 && s.regs[RDI] == 0))
  {
    hide RegistersBecome, SameOutside, EptWalk, EptPointer, Exits, Permits, AvoidsVmm, MarkedRam, GuestStored,
         RegistersAfter, SsdtRead, Protected;
  }

  /** An answered trap outside the hooked page skips one instruction and changes nothing else the guest sees. */
  lemma TrapSkipsInstruction(s: Vm, exit: Exit, p: Platform, s': Vm, r: nat)
    requires RAM_BYTES <= |s.ram| && s.status == Running && Step(s, Trap(exit), p, s') && s'.status == Running
    requires exit.reason % 0x1_0000 == EXIT_REASON_EPT_MISCONFIG ==> !(SSDT <= exit.gpa < SSDT + 0x1000)
    requires r < 17
    ensures s'.regs[r] == if r == RIP then (s.regs[RIP] + exit.length) % 0x1_0000_0000_0000_0000 else s.regs[r]
    ensures s'.msrs == s.msrs && |s'.ram| == |s.ram|
    ensures exit.reason % 0x1_0000 != EXIT_REASON_VMCALL ==>
              SameOutside(s.ram, s'.ram, GUEST_STATE, GUEST_STATE + REGISTERS_BYTES)
  {
    hide RegistersAt, SsdtRead;
  }

  /** A refused load or fetch in entry `number` of the hooked page: what the guest finds in its registers. */
  lemma HookedLoadEffect(s: Vm, ssdt: Ram, protecting: bool, p: Platform, e: Event, s': Vm,
                         number: nat, offset: nat, r: nat)
    requires Invariant(s, ssdt, protecting) && p.Valid()
    requires s.status == Running && e.Load?
    requires number < 512 && offset < 8 && e.gpa == SSDT + 8 * number + offset
    requires RAM_BYTES <= |s.ram| && Step(s, e, p, s') && r < 17
    ensures s'.status == Running && s'.msrs == s.msrs
    ensures s'.regs[r] ==
      if r == RAX then p.hook
      else if r == RSI then QwordAt(s.ram, e.gpa)
      else if r == RDI then number
      else if r == RIP then Sum64(s.regs[RIP], e.length)
      else s.regs[r]
  {
    hide Invariant, EptWalk, EptPointer, QwordAt, RegistersAt;
    MisconfiguredExactlyInWindow(s, ssdt, protecting, p, e.gpa);
    Peel(8 * number + offset, 0x1000, 0x1812);
  }

  /**
   A write of an MSR: protected, the instruction is skipped and the MSR keeps its value; otherwise it
   takes the value written. No other MSR changes.
   */
  lemma MsrWriteEffect(s: Vm, protecting: bool, p: Platform, e: Event, s': Vm, msr: Dword)
    requires RAM_BYTES <= |s.ram| && BitmapIs(s.ram, protecting)
    requires s.status == Running && e.Wrmsr? && Step(s, e, p, s')
    requires ValidMsr(Msr(s.regs))
    ensures var refused := protecting && (Msr(s.regs) == 0xC000_0082 || Msr(s.regs) == 0x176);
      && s'.status == Running
      && MsrOf(s'.msrs, msr) == (if msr == Msr(s.regs) && !refused then e.value else MsrOf(s.msrs, msr))
      && s'.regs == (if refused then s.regs[RIP := Sum64(s.regs[RIP], e.length)] else e.regs)
  {
    hide Exits, RegistersAt;
    assert ProtectedMsr(WriteMsr, Msr(s.regs)) <==> (Msr(s.regs) == 0xC000_0082 || Msr(s.regs) == 0x176);
  }

  /** A store the tables let through leaves its bytes in memory and changes no others. */
  lemma StoreEffect(s: Vm, ssdt: Ram, protecting: bool, p: Platform, e: Event, s': Vm)
    requires Invariant(s, ssdt, protecting) && p.Valid()
    requires s.status == Running && e.Store? && RAM_BYTES <= |s.ram| && Step(s, e, p, s')
    requires e.gpa + |e.data| <= |s.ram| && e.gpa < MAPPED_BYTES && !InSsdtWindow(e.gpa)
    ensures |s'.ram| == |s.ram| && s'.status == Running && s'.regs == e.regs && s'.msrs == s.msrs
    ensures s'.ram[e.gpa..e.gpa + |e.data|] == e.data
    ensures SameOutside(s.ram, s'.ram, e.gpa, e.gpa + |e.data|)
  {
    hide Installed, QwordAt, BitmapIs, HookedFlags, EptWalk, EptPointer, Lookup, GuestTables, AvoidsVmm;
    WalkRefinesMap(s.ram, p.cap, EPTS, HookedFlags(SSDT_PAGE), e.gpa);
    LookupOfHooked(p.cap, SSDT_PAGE, e.gpa);
    WindowIsPage(e.gpa);
  }

  // ----- Whole runs -----

  ghost predicate Run(states: seq<Vm>, events: seq<Event>, p: Platform) {
    && |states| == |events| + 1
    && (forall i :: 0 <= i < |states| ==> RAM_BYTES <= |states[i].ram|)
    && forall i :: 0 <= i < |events| ==> Step(states[i], events[i], p, states[i + 1])
  }

  /** Some step before `n` was a protecting vmcall. */
  predicate ProtectedBefore(states: seq<Vm>, events: seq<Event>, n: nat)
    requires n <= |events| <= |states|
  {
    exists i :: 0 <= i < n && Protects(states[i], events[i])
  }

  /**
   Over every run: the translation, the hooked page's bytes and the VMM's pointer never change,
   and an MSR access leaves the guest exactly if it writes a protected MSR after a protecting
   vmcall.
   */
  lemma {:induction false} RunKeepsInvariant(states: seq<Vm>, events: seq<Event>, p: Platform, ssdt: Ram, n: nat)
    requires p.Valid() && Run(states, events, p) && n <= |events|
    requires Invariant(states[0], ssdt, false)
    ensures Invariant(states[n], ssdt, ProtectedBefore(states, events, n))
  {
    hide Invariant, Step, Protects;
    if n > 0 {
      RunKeepsInvariant(states, events, p, ssdt, n - 1);
      var before := ProtectedBefore(states, events, n - 1);
      StepKeepsInvariant(states[n - 1], events[n - 1], p, states[n], ssdt, before);
      assert ProtectedBefore(states, events, n) == (before || Protects(states[n - 1], events[n - 1]));
    }
  }

  /** Once a protecting vmcall has been handled, the two syscall MSRs keep their values for good. */
  lemma {:induction false} SyscallMsrsProtected(states: seq<Vm>, events: seq<Event>, p: Platform, ssdt: Ram,
                                                early: nat, late: nat, msr: Dword)
    requires p.Valid() && Run(states, events, p) && early <= late <= |events|
    requires Invariant(states[0], ssdt, false)
    requires ProtectedBefore(states, events, early)
    requires msr == 0xC000_0082 || msr == 0x176 // IA32_LSTAR and IA32_SYSENTER_EIP
    ensures MsrOf(states[late].msrs, msr) == MsrOf(states[early].msrs, msr)
    decreases late
  {
    hide Invariant, Step, Protects, BitmapIs;
    if early < late {
      SyscallMsrsProtected(states, events, p, ssdt, early, late - 1, msr);
      RunKeepsInvariant(states, events, p, ssdt, late - 1);
      assert ProtectedBefore(states, events, late - 1) by {
        var i :| 0 <= i < early && Protects(states[i], events[i]);
      }
      BitmapOf(states[late - 1], ssdt, true);
      StepKeepsMsrs(states[late - 1], events[late - 1], p, states[late], msr);
    }
  }

  lemma BitmapOf(s: Vm, ssdt: Ram, protecting: bool)
    requires Invariant(s, ssdt, protecting)
    ensures RAM_BYTES <= |s.ram| && BitmapIs(s.ram, protecting)
  {
    hide Installed, QwordAt, BitmapIs, GuestTables;
  }

  /** No run changes an entry of the SSDT. */
  lemma SsdtNeverChanges(states: seq<Vm>, events: seq<Event>, p: Platform, n: nat, k: nat)
    requires p.Valid() && Run(states, events, p) && n <= |events| && k < 512
    requires Invariant(states[0], states[0].ram, false)
    ensures |states[n].ram| == |states[0].ram|
    ensures QwordAt(states[n].ram, SSDT + 8 * k) == QwordAt(states[0].ram, SSDT + 8 * k)
  {
    hide Step, Installed, BitmapIs, QwordAt, ProtectedBefore, GuestTables;
    RunKeepsInvariant(states, events, p, states[0].ram, n);
    SameQword(states[0].ram, states[n].ram, SSDT + 8 * k);
  }

  /**
   At every point of every run each linear address below 4 GiB translates, for the guest, to itself
   unless it lies in the SSDT, where the walk is misconfigured.
   */
  lemma NestedTranslationInEveryRun(states: seq<Vm>, events: seq<Event>, p: Platform, ssdt: Ram, n: nat, la: nat)
    requires p.Valid() && Run(states, events, p) && n <= |events|
    requires Invariant(states[0], ssdt, false)
    requires la < MAPPED_BYTES
    ensures NestedWalk(states[n].ram, p.cap, EptPointer(EPTS), BootPaging.IA32E_PAGING_BASE, la) ==
            if 0x181_2000 <= la < 0x181_3000 then EptFault(la, Misconfigured) else Translated(la, ALL_RIGHTS, false)
  {
    hide Step, ProtectedBefore, Installed, QwordAt, BitmapIs, GuestTables, NestedWalk, HookedFlags, EptPointer;
    RunKeepsInvariant(states, events, p, ssdt, n);
    NestedIdentityButHooked(states[n].ram, p.cap, EPTS, SSDT_PAGE, la);
    WindowIsPage(la);
  }

  /**
   At every point of every run the hypervisor's own accesses below 4 GiB, which its handlers make
   through the same tables but without the EPT, reach the address they name.
   */
  lemma HostTranslationInEveryRun(states: seq<Vm>, events: seq<Event>, p: Platform, ssdt: Ram, n: nat, la: nat)
    requires p.Valid() && Run(states, events, p) && n <= |events|
    requires Invariant(states[0], ssdt, false)
    requires la < MAPPED_BYTES
    ensures HostWalk(states[n].ram, p.cap, BootPaging.IA32E_PAGING_BASE, la) == Translated(la, ALL_RIGHTS, false)
  {
    hide Step, ProtectedBefore, Installed, QwordAt, BitmapIs, GuestTables, HostWalk, HookedFlags;
    RunKeepsInvariant(states, events, p, ssdt, n);
    HostIdentity(states[n].ram, p.cap, la);
  }

  /**
   The EPT lets the guest write the tables that the hypervisor translates with, so the assumption on
   stores excludes what the code does not. `NestedTranslation.HostFollowsDirectory` says when such a
   store leaves an access of the hypervisor where it was.
   */
  lemma TablesAreWritable(s: Vm, ssdt: Ram, protecting: bool, p: Platform, place: nat)
    requires Invariant(s, ssdt, protecting) && p.Valid()
    requires UsedEntry(place)
    ensures EptWalk(s.ram, p.cap, EptPointer(EPTS), place) == Mapped(place, ALL_RIGHTS, WRITEBACK)
    ensures !AvoidsVmm(place, 8)
  {
    hide Installed, QwordAt, BitmapIs, GuestTables, HookedFlags, EptPointer, EptWalk, Lookup;
    WalkRefinesMap(s.ram, p.cap, EPTS, HookedFlags(SSDT_PAGE), place);
    LookupOfHooked(p.cap, SSDT_PAGE, place);
  }

  // ----- What a store to the directory entry of the MSR bitmaps would do -----

  const BITMAPS_ENTRY: nat := 0x11_2060

  /** The hypervisor's access to the MSR bitmaps after a store of `q` to their directory entry. */
  function Redirected(ram: Ram, cap: Capabilities, q: Qword): LinearResult
    requires RAM_BYTES <= |ram|
  {
    HostWalk(StoredQword(ram, BITMAPS_ENTRY, q), cap, BootPaging.IA32E_PAGING_BASE, MSR_BITMAPS)
  }

  lemma RedirectedByEntry(ram: Ram, cap: Capabilities, q: Qword)
    requires GuestTables(ram) && cap.Valid() && RAM_BYTES <= |ram|
    ensures GuestEntryFaults(q, 2, cap) ==> Redirected(ram, cap, q) == PageFault
    ensures !GuestEntryFaults(q, 2, cap) && Leaf(q, 2) ==>
              Redirected(ram, cap, q) ==
              Translated(PageBase(q, 0x20_0000) + 0x8000, Rights(true, q / 2 % 2 == 1, true), false)
  {
    hide GuestTables, HostWalk, LeadsHome, GuestEntryFaults, Leaf, PageBase;
    assert Slot(BootPaging.PD_BASE, MSR_BITMAPS / 0x20_0000) == BITMAPS_ENTRY;
    HostFollowsDirectory(ram, StoredQword(ram, BITMAPS_ENTRY, q), cap, MSR_BITMAPS, q);
  }

  /** Naming page zero, the entry makes the hypervisor miss the bitmaps. */
  lemma BitmapsMissed(ram: Ram, cap: Capabilities)
    requires GuestTables(ram) && cap.Valid() && RAM_BYTES <= |ram|
    ensures Redirected(ram, cap, 0x83) == Translated(0x8000, ALL_RIGHTS, false)
  {
    hide GuestTables, Redirected, Pow2;
    WidthCoversPages(cap.physicalWidth);
    RedirectedByEntry(ram, cap, 0x83);
  }

  /** Cleared, it makes the hypervisor fault. */
  lemma BitmapsUnmapped(ram: Ram, cap: Capabilities)
    requires GuestTables(ram) && cap.Valid() && RAM_BYTES <= |ram|
    ensures Redirected(ram, cap, 0) == PageFault
  {
    hide GuestTables, Redirected, Pow2;
    RedirectedByEntry(ram, cap, 0);
  }

  /** Naming the bitmaps' own page read-only, it forbids the handler's store. */
  lemma BitmapsReadOnly(ram: Ram, cap: Capabilities)
    requires GuestTables(ram) && cap.Valid() && RAM_BYTES <= |ram|
    ensures Redirected(ram, cap, 0x180_0081) == Translated(MSR_BITMAPS, Rights(true, false, true), false)
  {
    hide GuestTables, Redirected, Pow2;
    WidthCoversPages(cap.physicalWidth);
    RedirectedByEntry(ram, cap, 0x180_0081);
  }

  /**
   At every point of every run the machine is running exactly if each trap so far had a reason that
   the hypervisor answers. Refused accesses and trapped MSR instructions never stop it.
   */
  lemma {:induction false} StillRunningIff(states: seq<Vm>, events: seq<Event>, p: Platform, n: nat)
    requires Run(states, events, p) && n <= |events|
    requires states[0].status == Running
    ensures states[n].status == Running <==>
      forall i :: 0 <= i < n && events[i].Trap? ==>
        || events[i].exit.reason % 0x1_0000 in {12, 31, 32, 48, 49}
        || (events[i].exit.reason % 0x1_0000 == 18 && states[i].regs[RDI] == 0)
  {
    hide Step;
    if n > 0 {
      StillRunningIff(states, events, p, n - 1);
      if states[n - 1].status == Running {
        StepRunsIff(states[n - 1], events[n - 1], p, states[n]);
      } else {
        StoppedForGood(states, events, p, n - 1, n);
      }
    }
  }

  /** A stopped machine never runs again. */
  lemma {:induction false} StoppedForGood(states: seq<Vm>, events: seq<Event>, p: Platform, early: nat, late: nat)
    requires Run(states, events, p) && early <= late <= |events|
    requires states[early].status != Running
    ensures states[late] == states[early]
    decreases late
  {
    hide Exited, EptWalk, Exits, MarkedRam, GuestStored;
    if early < late {
      StoppedForGood(states, events, p, early, late - 1);
      assert Step(states[late - 1], events[late - 1], p, states[late]);
    }
  }
}
