/**
 src/vmm/wrappers.asm, src/vmm/vmexit.c and vmexit_handler of src/vmm/vmm.c: what happens
 between a VM exit and the guest's next instruction.
 */
module VmExits {
  import opened Bits
  import opened Memory
  import opened VmxMachine
  import opened MsrBitmaps

  const EXIT_REASON_HLT: nat := 12
  const EXIT_REASON_VMCALL: nat := 18
  const EXIT_REASON_MSR_READ: nat := 31
  const EXIT_REASON_MSR_WRITE: nat := 32
  const EXIT_REASON_EPT_VIOLATION: nat := 48
  const EXIT_REASON_EPT_MISCONFIG: nat := 49

  const PROTECT_SYSCALL: Qword := 0
  const MSR_IA32_SYSENTER_EIP: Dword := 0x176
  const MSR_IA32_LSTAR: Dword := 0xC000_0082

  const PAGE: nat := 0x1000
  const REGISTERS_BYTES: nat := 136

  datatype HandlerStatus = HandlerSuccess | HandlerFailure

  // ----- The saved registers -----

  function RegisterSlot(at: nat, i: nat): nat {
    at + 8 * i
  }

  function RegistersAt(ram: Ram, at: nat): Registers
    requires at + REGISTERS_BYTES <= |ram|
  {
    seq(17, i requires 0 <= i < 17 => QwordAt(ram, RegisterSlot(at, i)))
  }

  lemma RegisterStored(before: Ram, after: Ram, at: nat, k: nat, v: Qword)
    requires k < 17 && |before| == |after| && at + REGISTERS_BYTES <= |before|
    requires SameOutside(before, after, RegisterSlot(at, k), RegisterSlot(at, k) + 8)
    requires QwordAt(after, RegisterSlot(at, k)) == v
    ensures RegistersAt(after, at) == RegistersAt(before, at)[k := v]
  {
    hide QwordAt;
    forall i | 0 <= i < 17 && i != k
      ensures QwordAt(after, RegisterSlot(at, i)) == QwordAt(before, RegisterSlot(at, i))
    {
      SameQword(before, after, RegisterSlot(at, i));
    }
  }

  /** `guest_state->registers.<k> = v` */
  method StoreRegister(ram: array<Byte>, at: nat, k: nat, v: Qword)
    requires k < 17 && at + REGISTERS_BYTES <= ram.Length
    modifies ram
    ensures RegistersAt(ram[..], at) == old(RegistersAt(ram[..], at))[k := v]
    ensures SameOutside(old(ram[..]), ram[..], at, at + REGISTERS_BYTES)
  {
    WriteQword(ram, RegisterSlot(at, k), v);
    RegisterStored(old(ram[..]), ram[..], at, k, v);
  }

  // ----- What an exit does to the guest's registers -----

  datatype Exit = Exit(reason: Qword, length: Qword, gpa: Qword)

  function BasicReason(exit: Exit): nat {
    exit.reason % 0x1_0000
  }

  predicate InSsdtWindow(gpa: nat) {
    SSDT <= gpa < SSDT + PAGE
  }

  /** Past the instruction that left the guest. */
  function Skipped(g: Registers, exit: Exit): Registers {
    g[RIP := (g[RIP] + exit.length) % 0x1_0000_0000_0000_0000]
  }

  /** The exits the hypervisor answers; every other one stops the machine. */
  predicate Handled(g: Registers, exit: Exit) {
    || BasicReason(exit) in {EXIT_REASON_HLT, EXIT_REASON_MSR_READ, EXIT_REASON_MSR_WRITE,
                             EXIT_REASON_EPT_VIOLATION, EXIT_REASON_EPT_MISCONFIG}
    || (BasicReason(exit) == EXIT_REASON_VMCALL && g[RDI] == PROTECT_SYSCALL)
  }

  /** The exit qualification is not looked at: reads, writes and fetches are treated alike. */
  predicate HookedAccess(exit: Exit) {
    BasicReason(exit) == EXIT_REASON_EPT_MISCONFIG && InSsdtWindow(exit.gpa)
  }

  /** The guest's registers when it runs on; `entry` is what a read of the hooked address would give. */
  function RegistersAfter(g: Registers, exit: Exit, entry: Qword, hook: Qword): Registers {
    if HookedAccess(exit) then
      Skipped(g, exit)[RDI := exit.gpa % PAGE / 8][RSI := entry][RAX := hook]
    else Skipped(g, exit)
  }

  /**
   An exit gives back every register but the instruction pointer, which moves past one
   instruction; any refused access to the hooked page, be it a read, a write or a fetch, also
   replaces rax, rdi and rsi, and nothing else does.
   */
  lemma ExitTransparency(g: Registers, exit: Exit, entry: Qword, hook: Qword, r: nat)
    requires r < 17
    ensures RegistersAfter(g, exit, entry, hook)[RIP] == (g[RIP] + exit.length) % 0x1_0000_0000_0000_0000
    ensures r != RIP && (HookedAccess(exit) ==> r !in {RAX, RDI, RSI}) ==>
              RegistersAfter(g, exit, entry, hook)[r] == g[r]
    ensures HookedAccess(exit) ==>
              && RegistersAfter(g, exit, entry, hook)[RAX] == hook
              && RegistersAfter(g, exit, entry, hook)[RSI] == entry
              && SSDT + 8 * RegistersAfter(g, exit, entry, hook)[RDI] <= exit.gpa
                 < SSDT + 8 * RegistersAfter(g, exit, entry, hook)[RDI] + 8
  {
    if HookedAccess(exit) {
      Peel(exit.gpa - SSDT, 0x1000, 0x1812);
    }
  }

  /** The memory with the MSR bits set that the exit asks for. */
  function Protected(ram: Ram, g: Registers, exit: Exit): (after: Ram)
    requires RAM_BYTES <= |ram|
    ensures |after| == |ram|
  {
    if BasicReason(exit) == EXIT_REASON_VMCALL && g[RDI] == PROTECT_SYSCALL then
      BitSet(BitSet(ram, MSR_BITMAPS, BitNumber(WriteMsr, MSR_IA32_SYSENTER_EIP)),
             MSR_BITMAPS, BitNumber(WriteMsr, MSR_IA32_LSTAR))
    else ram
  }

  // ----- The handlers -----

  // Offsets of the members of guest_cpu_state_t and cpu_data_t.
  const STATE_SSDT: nat := 0x9000
  const STATE_CPU_DATA: nat := 0xA000
  const CPU_MSR_BITMAPS: nat := 0x80_8000

  /** A handler may use the VMCS of this exit and finds its structures where they were built. */
  ghost predicate ExitRecorded(m: Machine, guestState: Qword, exit: Exit)
    reads m, m.ram
  {
    && VmcsAccessible(m.vmx)
    && FieldOf(m.vmcs, VMCS_VM_EXIT_REASON) == exit.reason
    && FieldOf(m.vmcs, VMCS_VM_EXIT_INSTRUCTION_LEN) == exit.length
    && FieldOf(m.vmcs, VMCS_GUEST_PHYSICAL_ADDRESS) == exit.gpa
    && FieldOf(m.vmcs, VMCS_HOST_FS_BASE) == guestState == GUEST_STATE
    && m.ram.Length >= RAM_BYTES
    && QwordAt(m.ram[..], CPU_DATA_POINTER) == CPU_DATA
  }

  /** The saved registers become `g`; outside them the memory is that of `expected`. */
  ghost predicate RegistersBecome(expected: Ram, after: Ram, g: Registers) {
    && RAM_BYTES <= |expected| == |after|
    && RegistersAt(after, GUEST_STATE) == g
    && SameOutside(expected, after, GUEST_STATE, GUEST_STATE + REGISTERS_BYTES)
  }

  function Sum64(a: int, b: int): Qword {
    (a + b) % 0x1_0000_0000_0000_0000
  }

  /** `guest_state->registers.rip += vmread(VMCS_VM_EXIT_INSTRUCTION_LEN)` */
  method SkipInstruction(m: Machine, guestState: Qword, ghost exit: Exit)
    requires ExitRecorded(m, guestState, exit)
    modifies m`misused, m.ram
    ensures m.misused == old(m.misused)
    ensures RegistersBecome(old(m.ram[..]), m.ram[..], Skipped(old(RegistersAt(m.ram[..], GUEST_STATE)), exit))
  {
    hide QwordAt;
    var length := Vmread(m, VMCS_VM_EXIT_INSTRUCTION_LEN);
    var rip := RegistersAt(m.ram[..], guestState)[RIP];
    StoreRegister(m.ram, guestState, RIP, Sum64(rip, length));
  }

  method HaltHandler(m: Machine, guestState: Qword, ghost exit: Exit) returns (status: HandlerStatus)
    requires ExitRecorded(m, guestState, exit)
    modifies m`misused, m.ram
    ensures status == HandlerSuccess && m.misused == old(m.misused)
    ensures RegistersBecome(old(m.ram[..]), m.ram[..], Skipped(old(RegistersAt(m.ram[..], GUEST_STATE)), exit))
  {
    SkipInstruction(m, guestState, exit);
    status := HandlerSuccess;
  }

  method RdmsrHandler(m: Machine, guestState: Qword, ghost exit: Exit) returns (status: HandlerStatus)
    requires ExitRecorded(m, guestState, exit)
    modifies m`misused, m.ram
    ensures status == HandlerSuccess && m.misused == old(m.misused)
    ensures RegistersBecome(old(m.ram[..]), m.ram[..], Skipped(old(RegistersAt(m.ram[..], GUEST_STATE)), exit))
  {
    SkipInstruction(m, guestState, exit);
    status := HandlerSuccess;
  }

  method WrmsrHandler(m: Machine, guestState: Qword, ghost exit: Exit) returns (status: HandlerStatus)
    requires ExitRecorded(m, guestState, exit)
    modifies m`misused, m.ram
    ensures status == HandlerSuccess && m.misused == old(m.misused)
    ensures RegistersBecome(old(m.ram[..]), m.ram[..], Skipped(old(RegistersAt(m.ram[..], GUEST_STATE)), exit))
  {
    SkipInstruction(m, guestState, exit);
    status := HandlerSuccess;
  }

  method EptViolationHandler(m: Machine, guestState: Qword, ghost exit: Exit) returns (status: HandlerStatus)
    requires ExitRecorded(m, guestState, exit)
    modifies m`misused, m.ram
    ensures status == HandlerSuccess && m.misused == old(m.misused)
    ensures RegistersBecome(old(m.ram[..]), m.ram[..], Skipped(old(RegistersAt(m.ram[..], GUEST_STATE)), exit))
  {
    SkipInstruction(m, guestState, exit);
    var physicalAddress := Vmread(m, VMCS_GUEST_PHYSICAL_ADDRESS);
    status := HandlerSuccess;
  }

  function AlignDown(address: Qword): Qword {
    address / 0x1000 * 0x1000
  }

  /** What the host reads at an address in the hooked page. */
  function SsdtRead(ram: Ram, exit: Exit): Qword
    requires RAM_BYTES <= |ram|
  {
    if InSsdtWindow(exit.gpa) then QwordAt(ram, exit.gpa) else 0
  }

  /** `hook` is the address of `ssdt_hook`. */
  method EptMisconfigHandler(m: Machine, guestState: Qword, hook: Qword, ghost exit: Exit)
    returns (status: HandlerStatus)
    requires ExitRecorded(m, guestState, exit)
    requires BasicReason(exit) == EXIT_REASON_EPT_MISCONFIG
    modifies m`misused, m.ram
    ensures status == HandlerSuccess && m.misused == old(m.misused)
    ensures RegistersBecome(old(m.ram[..]), m.ram[..],
      RegistersAfter(old(RegistersAt(m.ram[..], GUEST_STATE)), exit, SsdtRead(old(m.ram[..]), exit), hook))
  {
    hide QwordAt;
    SkipInstruction(m, guestState, exit);
    var physicalAddress := Vmread(m, VMCS_GUEST_PHYSICAL_ADDRESS);
    var ssdt := guestState + STATE_SSDT;
    if ssdt <= physicalAddress && physicalAddress < ssdt + 0x1000 {
      ghost var skipped := m.ram[..];
      SameQword(old(m.ram[..]), skipped, physicalAddress);
      StoreRegister(m.ram, guestState, RDI, (physicalAddress - AlignDown(physicalAddress)) / 8);
      SameQword(skipped, m.ram[..], physicalAddress);
      StoreRegister(m.ram, guestState, RSI, QwordAt(m.ram[..], physicalAddress));
      StoreRegister(m.ram, guestState, RAX, hook);
    }
    status := HandlerSuccess;
  }

  method VmcallHandler(m: Machine, guestState: Qword, ghost exit: Exit) returns (status: HandlerStatus)
    requires ExitRecorded(m, guestState, exit)
    requires BasicReason(exit) == EXIT_REASON_VMCALL
    modifies m`misused, m.ram
    ensures m.misused == old(m.misused)
    ensures status == HandlerSuccess <==> old(RegistersAt(m.ram[..], GUEST_STATE))[RDI] == PROTECT_SYSCALL
    ensures RegistersBecome(Protected(old(m.ram[..]), old(RegistersAt(m.ram[..], GUEST_STATE)), exit), m.ram[..],
                            Skipped(old(RegistersAt(m.ram[..], GUEST_STATE)), exit))
  {
    hide QwordAt, BitNumber;
    ghost var before := m.ram[..];
    SkipInstruction(m, guestState, exit);
    ghost var skipped := m.ram[..];
    if RegistersAt(m.ram[..], guestState)[RDI] != PROTECT_SYSCALL {
      return HandlerFailure;
    }
    SameQword(before, skipped, CPU_DATA_POINTER);
    var cpuData := QwordAt(m.ram[..], guestState + STATE_CPU_DATA);
    var bitmaps := cpuData + CPU_MSR_BITMAPS;
    var panicked := MonitorWrmsr(m.ram, bitmaps, MSR_IA32_SYSENTER_EIP);
    panicked := MonitorWrmsr(m.ram, bitmaps, MSR_IA32_LSTAR);
    BitmapLeavesRegisters(skipped, m.ram[..]);
    status := HandlerSuccess;
  }

  lemma BitmapLeavesRegisters(before: Ram, after: Ram)
    requires RAM_BYTES <= |before| == |after|
    requires Same(before, after, GUEST_STATE, GUEST_STATE + REGISTERS_BYTES)
    ensures RegistersAt(after, GUEST_STATE) == RegistersAt(before, GUEST_STATE)
  {
    hide QwordAt;
    forall i | 0 <= i < 17
      ensures QwordAt(after, RegisterSlot(GUEST_STATE, i)) == QwordAt(before, RegisterSlot(GUEST_STATE, i))
    {
      SameQword(before, after, RegisterSlot(GUEST_STATE, i));
    }
  }

  // ----- Dispatch: src/vmm/vmm.c:251-291 -----

  method VmexitHandler(m: Machine, hook: Qword, ghost exit: Exit)
    requires ExitRecorded(m, GUEST_STATE, exit)
    modifies m`misused, m`status, m.ram
    ensures m.misused == old(m.misused)
    ensures m.status == if Handled(old(RegistersAt(m.ram[..], GUEST_STATE)), exit) then old(m.status) else Panicked
    ensures var g := old(RegistersAt(m.ram[..], GUEST_STATE)); Handled(g, exit) ==>
      RegistersBecome(Protected(old(m.ram[..]), g, exit), m.ram[..],
                      RegistersAfter(g, exit, SsdtRead(old(m.ram[..]), exit), hook))
    ensures !Handled(old(RegistersAt(m.ram[..], GUEST_STATE)), exit) ==>
      SameOutside(old(m.ram[..]), m.ram[..], GUEST_STATE, GUEST_STATE + REGISTERS_BYTES)
  {
    hide QwordAt, RegistersAt, Protected, SsdtRead;
    var status := HandlerFailure;
    var guestState := Vmread(m, VMCS_HOST_FS_BASE);
    var exitReason := Vmread(m, VMCS_VM_EXIT_REASON);
    NothingProtected(m.ram[..], exit);

    match exitReason % 0x1_0000 {
      case EXIT_REASON_HLT => status := HaltHandler(m, guestState, exit);
      case EXIT_REASON_MSR_READ => status := RdmsrHandler(m, guestState, exit);
      case EXIT_REASON_MSR_WRITE => status := WrmsrHandler(m, guestState, exit);
      case EXIT_REASON_EPT_VIOLATION => status := EptViolationHandler(m, guestState, exit);
      case EXIT_REASON_EPT_MISCONFIG => status := EptMisconfigHandler(m, guestState, hook, exit);
      case EXIT_REASON_VMCALL => status := VmcallHandler(m, guestState, exit);
      case _ =>
        m.status := Panicked;
        return;
    }
    if status == HandlerFailure {
      m.status := Panicked;
    }
  }

  lemma NothingProtected(ram: Ram, exit: Exit)
    requires RAM_BYTES <= |ram|
    ensures BasicReason(exit) != EXIT_REASON_VMCALL ==>
      forall g: Registers :: Protected(ram, g, exit) == ram
    ensures forall g: Registers :: g[RDI] != PROTECT_SYSCALL ==> Protected(ram, g, exit) == ram
  {
  }

  // ----- The wrapper: src/vmm/wrappers.asm -----

  ghost predicate SavedUpTo(ram: Ram, at: nat, g: Registers, n: nat)
    requires at + REGISTERS_BYTES <= |ram|
  {
    forall i :: 0 <= i < n && i < 17 ==> QwordAt(ram, RegisterSlot(at, i)) == g[i]
  }

  lemma NoneSaved(ram: Ram, g: Registers)
    requires RAM_BYTES <= |ram|
    ensures SavedUpTo(ram, GUEST_STATE, g, 0)
  {
  }

  lemma AllSaved(ram: Ram, g: Registers)
    requires RAM_BYTES <= |ram|
    requires SavedUpTo(ram, GUEST_STATE, g, 17)
    ensures RegistersAt(ram, GUEST_STATE) == g
  {
    hide QwordAt;
  }

  lemma NoneLoaded(gpr: Registers, g: Registers)
    ensures LoadedUpTo(gpr, g, 0)
  {
  }

  /** `mov [fs:offset], v` */
  method Save(m: Machine, offset: nat, v: Qword, ghost g: Registers, ghost n: nat)
    requires m.fsBase == GUEST_STATE && RAM_BYTES <= m.ram.Length
    requires n < 17 && offset == 8 * n && v == g[n]
    requires SavedUpTo(m.ram[..], GUEST_STATE, g, n)
    modifies m.ram
    ensures SavedUpTo(m.ram[..], GUEST_STATE, g, n + 1)
    ensures SameOutside(old(m.ram[..]), m.ram[..], GUEST_STATE, GUEST_STATE + REGISTERS_BYTES)
  {
    hide QwordAt;
    WriteQword(m.ram, m.fsBase + offset, v);
    assert RegisterSlot(GUEST_STATE, n) == m.fsBase + offset;
    forall i | 0 <= i < n
      ensures QwordAt(m.ram[..], RegisterSlot(GUEST_STATE, i)) == old(QwordAt(m.ram[..], RegisterSlot(GUEST_STATE, i)))
    {
      SameQword(old(m.ram[..]), m.ram[..], RegisterSlot(GUEST_STATE, i));
    }
  }

  /** The general registers below `n` hold what is saved for them. */
  ghost predicate LoadedUpTo(gpr: Registers, g: Registers, n: nat) {
    forall i :: 0 <= i < n && i < 17 ==> gpr[i] == g[i]
  }

  /** `mov r, [fs:offset]` */
  method Reload(m: Machine, offset: nat, r: nat)
    requires m.fsBase == GUEST_STATE && RAM_BYTES <= m.ram.Length
    requires r < 15 && offset == 8 * r
    requires LoadedUpTo(m.gpr, RegistersAt(m.ram[..], GUEST_STATE), r)
    modifies m`gpr
    ensures LoadedUpTo(m.gpr, RegistersAt(m.ram[..], GUEST_STATE), r + 1)
  {
    hide QwordAt;
    assert RegisterSlot(GUEST_STATE, r) == m.fsBase + offset;
    m.gpr := m.gpr[r := QwordAt(m.ram[..], m.fsBase + offset)];
  }

  method SaveGuest(m: Machine, ghost g: Registers)
    requires m.fsBase == GUEST_STATE && RAM_BYTES <= m.ram.Length
    requires VmcsAccessible(m.vmx)
    requires LoadedUpTo(m.gpr, g, 15)
    requires FieldOf(m.vmcs, VMCS_GUEST_RSP) == g[RSP] && FieldOf(m.vmcs, VMCS_GUEST_RIP) == g[RIP]
    modifies m`gpr, m`misused, m.ram
    ensures m.misused == old(m.misused)
    ensures RegistersBecome(old(m.ram[..]), m.ram[..], g)
  {
    hide QwordAt, RegistersAt, SavedUpTo;
    NoneSaved(m.ram[..], g);
    Save(m, 0x00, m.gpr[RAX], g, 0);
    Save(m, 0x08, m.gpr[RBX], g, 1);
    Save(m, 0x10, m.gpr[RCX], g, 2);
    Save(m, 0x18, m.gpr[RDX], g, 3);
    Save(m, 0x20, m.gpr[RSI], g, 4);
    Save(m, 0x28, m.gpr[RDI], g, 5);
    Save(m, 0x30, m.gpr[RBP], g, 6);
    Save(m, 0x38, m.gpr[R8], g, 7);
    Save(m, 0x40, m.gpr[R9], g, 8);
    Save(m, 0x48, m.gpr[R10], g, 9);
    Save(m, 0x50, m.gpr[R11], g, 10);
    Save(m, 0x58, m.gpr[R12], g, 11);
    Save(m, 0x60, m.gpr[R13], g, 12);
    Save(m, 0x68, m.gpr[R14], g, 13);
    Save(m, 0x70, m.gpr[R15], g, 14);
    SaveStackAndInstructionPointers(m, g);
    AllSaved(m.ram[..], g);
  }

  method SaveStackAndInstructionPointers(m: Machine, ghost g: Registers)
    requires m.fsBase == GUEST_STATE && RAM_BYTES <= m.ram.Length
    requires VmcsAccessible(m.vmx)
    requires FieldOf(m.vmcs, VMCS_GUEST_RSP) == g[RSP] && FieldOf(m.vmcs, VMCS_GUEST_RIP) == g[RIP]
    requires SavedUpTo(m.ram[..], GUEST_STATE, g, 15)
    modifies m`gpr, m`misused, m.ram
    ensures m.misused == old(m.misused)
    ensures SavedUpTo(m.ram[..], GUEST_STATE, g, 17)
    ensures SameOutside(old(m.ram[..]), m.ram[..], GUEST_STATE, GUEST_STATE + REGISTERS_BYTES)
  {
    hide SavedUpTo;
    m.gpr := m.gpr[RAX := VMCS_GUEST_RSP];
    var rsp := Vmread(m, m.gpr[RAX]);
    m.gpr := m.gpr[RBX := rsp];
    Save(m, 0x78, m.gpr[RBX], g, 15);

    m.gpr := m.gpr[RAX := VMCS_GUEST_RIP];
    var rip := Vmread(m, m.gpr[RAX]);
    m.gpr := m.gpr[RBX := rip];
    Save(m, 0x80, m.gpr[RBX], g, 16);
  }

  method RestoreStackAndInstructionPointers(m: Machine)
    requires m.fsBase == GUEST_STATE && RAM_BYTES <= m.ram.Length
    requires VmcsAccessible(m.vmx)
    modifies m`gpr, m`misused, m`vmcs
    ensures m.misused == old(m.misused)
    ensures m.vmcs == old(m.vmcs)[VMCS_GUEST_RSP := RegistersAt(m.ram[..], GUEST_STATE)[RSP]]
                                 [VMCS_GUEST_RIP := RegistersAt(m.ram[..], GUEST_STATE)[RIP]]
  {
    hide QwordAt;
    assert RegisterSlot(GUEST_STATE, 15) == m.fsBase + 0x78 && RegisterSlot(GUEST_STATE, 16) == m.fsBase + 0x80;
    m.gpr := m.gpr[RBX := QwordAt(m.ram[..], m.fsBase + 0x78)];
    m.gpr := m.gpr[RAX := VMCS_GUEST_RSP];
    Vmwrite(m, m.gpr[RAX], m.gpr[RBX]);

    m.gpr := m.gpr[RBX := QwordAt(m.ram[..], m.fsBase + 0x80)];
    m.gpr := m.gpr[RAX := VMCS_GUEST_RIP];
    Vmwrite(m, m.gpr[RAX], m.gpr[RBX]);
  }

  method RestoreGuest(m: Machine)
    requires m.fsBase == GUEST_STATE && RAM_BYTES <= m.ram.Length
    requires VmcsAccessible(m.vmx)
    modifies m`gpr, m`misused, m`vmcs
    ensures m.misused == old(m.misused)
    ensures LoadedUpTo(m.gpr, RegistersAt(m.ram[..], GUEST_STATE), 15)
    ensures m.vmcs == old(m.vmcs)[VMCS_GUEST_RSP := RegistersAt(m.ram[..], GUEST_STATE)[RSP]]
                                 [VMCS_GUEST_RIP := RegistersAt(m.ram[..], GUEST_STATE)[RIP]]
  {
    hide LoadedUpTo, RegistersAt;
    RestoreStackAndInstructionPointers(m);
    NoneLoaded(m.gpr, RegistersAt(m.ram[..], GUEST_STATE));
    Reload(m, 0x00, RAX);
    Reload(m, 0x08, RBX);
    Reload(m, 0x10, RCX);
    Reload(m, 0x18, RDX);
    Reload(m, 0x20, RSI);
    Reload(m, 0x28, RDI);
    Reload(m, 0x30, RBP);
    Reload(m, 0x38, R8);
    Reload(m, 0x40, R9);
    Reload(m, 0x48, R10);
    Reload(m, 0x50, R11);
    Reload(m, 0x58, R12);
    Reload(m, 0x60, R13);
    Reload(m, 0x68, R14);
    Reload(m, 0x70, R15);
  }

  // ----- A whole exit: out of the guest, through the wrapper, and back -----

  /** The guest runs under a launched VMCS whose host fields lead to the wrapper's structures. */
  ghost predicate GuestRunning(m: Machine)
    reads m, m.ram
  {
    && m.status == Running
    && m.vmx.mode == NonRoot
    && m.vmx.current == VMCS_REGION
    && LaunchOf(m.vmx, VMCS_REGION) == Launched
    && FieldOf(m.vmcs, VMCS_HOST_FS_BASE) == GUEST_STATE
    && m.ram.Length >= RAM_BYTES
    && QwordAt(m.ram[..], CPU_DATA_POINTER) == CPU_DATA
  }

  /** The fields an exit writes, by the processor or by the wrapper. */
  const EXIT_FIELDS: set<nat> :=
    {VMCS_GUEST_RSP, VMCS_GUEST_RIP, VMCS_VM_EXIT_REASON, VMCS_VM_EXIT_INSTRUCTION_LEN, VMCS_GUEST_PHYSICAL_ADDRESS}

  /** The processor's part: section 27.2 for the recorded fields, section 27.5 for the host's. */
  method HardwareExit(m: Machine, exit: Exit)
    requires GuestRunning(m)
    modifies m`vmx, m`vmcs, m`gpr, m`rflags, m`fsBase
    ensures ExitRecorded(m, GUEST_STATE, exit) && m.fsBase == GUEST_STATE
    ensures m.vmx == old(m.vmx).(mode := Root)
    ensures LoadedUpTo(m.gpr, old(m.gpr), 15)
    ensures FieldOf(m.vmcs, VMCS_GUEST_RSP) == old(m.gpr)[RSP]
    ensures FieldOf(m.vmcs, VMCS_GUEST_RIP) == old(m.gpr)[RIP]
    ensures forall f :: f !in EXIT_FIELDS ==> FieldOf(m.vmcs, f) == old(FieldOf(m.vmcs, f))
  {
    hide QwordAt;
    m.vmcs := m.vmcs[VMCS_GUEST_RSP := m.gpr[RSP]][VMCS_GUEST_RIP := m.gpr[RIP]]
                    [VMCS_VM_EXIT_REASON := exit.reason]
                    [VMCS_VM_EXIT_INSTRUCTION_LEN := exit.length]
                    [VMCS_GUEST_PHYSICAL_ADDRESS := exit.gpa];
    m.vmx := m.vmx.(mode := Root);
    m.fsBase := FieldOf(m.vmcs, VMCS_HOST_FS_BASE);
    m.rflags := 2;
    m.gpr := m.gpr[RSP := FieldOf(m.vmcs, VMCS_HOST_RSP)][RIP := FieldOf(m.vmcs, VMCS_HOST_RIP)];
  }

  /**
   `__vmexit_wrapper` from its first instruction to the guest's next one. `clobbered` is whatever
   the compiled handler leaves in the registers.
   */
  method VmexitWrapper(m: Machine, hook: Qword, clobbered: Registers, ghost exit: Exit, ghost g: Registers)
    requires ExitRecorded(m, GUEST_STATE, exit) && m.fsBase == GUEST_STATE
    requires m.status == Running
    requires m.vmx.current == VMCS_REGION && LaunchOf(m.vmx, VMCS_REGION) == Launched
    requires LoadedUpTo(m.gpr, g, 15)
    requires FieldOf(m.vmcs, VMCS_GUEST_RSP) == g[RSP] && FieldOf(m.vmcs, VMCS_GUEST_RIP) == g[RIP]
    modifies m`gpr, m`rflags, m`misused, m`status, m`vmx, m`vmcs, m.ram
    ensures m.misused == old(m.misused)
    ensures m.status == if Handled(g, exit) then Running else Panicked
    ensures m.vmx == if Handled(g, exit) then old(m.vmx).(mode := NonRoot) else old(m.vmx)
    ensures forall f :: f !in {VMCS_GUEST_RSP, VMCS_GUEST_RIP} ==>
              FieldOf(m.vmcs, f) == old(FieldOf(m.vmcs, f))
    ensures Handled(g, exit) ==>
              var g' := RegistersAfter(g, exit, SsdtRead(old(m.ram[..]), exit), hook);
              m.gpr == g' && RegistersBecome(Protected(old(m.ram[..]), g, exit), m.ram[..], g')
    ensures !Handled(g, exit) ==>
              SameOutside(old(m.ram[..]), m.ram[..], GUEST_STATE, GUEST_STATE + REGISTERS_BYTES)
  {
    hide QwordAt, RegistersAt, Protected, SsdtRead, Handled, RegistersAfter;
    ghost var start := m.ram[..];
    SaveGuest(m, g);
    ghost var saved := m.ram[..];
    SavingKeepsRest(start, saved, g, exit);
    VmexitHandler(m, hook, exit);
    if m.status != Running {
      return;
    }
    m.gpr := clobbered;
    RestoreGuest(m);
    var entered := VmresumeInstruction(m);
    assert m.gpr == RegistersAt(m.ram[..], GUEST_STATE);
    ProtectedFrame(start, saved, g, exit);
  }

  /** Saving the registers changes neither what the handler reads of the hooked page nor the VMM's pointers. */
  lemma SavingKeepsRest(start: Ram, saved: Ram, g: Registers, exit: Exit)
    requires RegistersBecome(start, saved, g)
    ensures QwordAt(saved, CPU_DATA_POINTER) == QwordAt(start, CPU_DATA_POINTER)
    ensures SsdtRead(saved, exit) == SsdtRead(start, exit)
  {
    hide QwordAt;
    SameQword(start, saved, CPU_DATA_POINTER);
    if InSsdtWindow(exit.gpa) {
      SameQword(start, saved, exit.gpa);
    }
  }

  lemma ProtectedFrame(start: Ram, saved: Ram, g: Registers, exit: Exit)
    requires RAM_BYTES <= |start| == |saved|
    requires SameOutside(start, saved, GUEST_STATE, GUEST_STATE + REGISTERS_BYTES)
    ensures SameOutside(Protected(start, g, exit), Protected(saved, g, exit),
                        GUEST_STATE, GUEST_STATE + REGISTERS_BYTES)
  {
    hide BitNumber;
  }

  /** What one exit does to the memory, the guest's registers and the machine's status. */
  ghost predicate ExitEffect(ram: Ram, g: Registers, exit: Exit, hook: Qword,
                             ram': Ram, g': Registers, status': Status)
    requires RAM_BYTES <= |ram| == |ram'|
  {
    if Handled(g, exit) then
      && status' == Running
      && g' == RegistersAfter(g, exit, SsdtRead(ram, exit), hook)
      && RegistersBecome(Protected(ram, g, exit), ram', g')
    else
      && status' == Panicked
      && SameOutside(ram, ram', GUEST_STATE, GUEST_STATE + REGISTERS_BYTES)
  }

  /** One VM exit, from the guest instruction that causes it to the next guest instruction. */
  method VmExit(m: Machine, exit: Exit, hook: Qword, clobbered: Registers)
    requires GuestRunning(m)
    modifies m, m.ram
    ensures ExitEffect(old(m.ram[..]), old(m.gpr), exit, hook, m.ram[..], m.gpr, m.status)
    ensures m.misused == old(m.misused) && m.msrs == old(m.msrs)
    ensures m.vmx == if Handled(old(m.gpr), exit) then old(m.vmx) else old(m.vmx).(mode := Root)
    ensures Handled(old(m.gpr), exit) ==> GuestRunning(m)
    ensures forall f :: f !in EXIT_FIELDS ==> FieldOf(m.vmcs, f) == old(FieldOf(m.vmcs, f))
  {
    hide QwordAt, RegistersAt, SsdtRead, RegistersAfter, Handled, Protected;
    ghost var g, start := m.gpr, m.ram[..];
    HardwareExit(m, exit);
    VmexitWrapper(m, hook, clobbered, exit, g);
    if m.status == Running {
      PointerKept(start, m.ram[..], g, exit);
    }
  }

  lemma PointerKept(start: Ram, after: Ram, g: Registers, exit: Exit)
    requires RAM_BYTES <= |start| == |after|
    requires SameOutside(Protected(start, g, exit), after, GUEST_STATE, GUEST_STATE + REGISTERS_BYTES)
    ensures QwordAt(after, CPU_DATA_POINTER) == QwordAt(start, CPU_DATA_POINTER)
  {
    hide QwordAt, BitNumber;
    SameQword(start, after, CPU_DATA_POINTER);
  }
}
