/**
 The machine as a whole: it boots, runs the guest, and answers exits. Its runs are runs of the
 step relation, and no VMX instruction in them is out of place.
 */
module MachineRuns {
  import opened Bits
  import opened Memory
  import EptEntries
  import opened EptHardware
  import opened ExtendedPaging
  import opened NestedTranslation
  import BootPaging
  import opened VmxMachine
  import opened MsrBitmaps
  import opened VmExits
  import opened GuestRuns
  import opened HostBoot
  import opened Syscalls

  /** Guest and exits run under the tables and bitmaps the VMCS points to. */
  ghost predicate Ready(m: Machine)
    reads m, m.ram
  {
    && RAM_BYTES <= m.ram.Length
    && (m.status == Running ==>
          && GuestRunning(m)
          && FieldOf(m.vmcs, VMCS_EPT_POINTER) == EptPointer(EPTS)
          && FieldOf(m.vmcs, VMCS_MSR_BITMAP) == MSR_BITMAPS
          && ControlsOn(m.vmcs))
  }

  /** The fields that neither the processor nor the wrapper writes at an exit. */
  ghost predicate FieldsKept(before: map<nat, Qword>, after: map<nat, Qword>) {
    forall f :: f !in EXIT_FIELDS ==> FieldOf(after, f) == FieldOf(before, f)
  }

  lemma ReadyKept(before: map<nat, Qword>, after: map<nat, Qword>)
    requires FieldsKept(before, after)
    ensures FieldOf(after, VMCS_EPT_POINTER) == FieldOf(before, VMCS_EPT_POINTER)
    ensures FieldOf(after, VMCS_MSR_BITMAP) == FieldOf(before, VMCS_MSR_BITMAP)
    ensures FieldOf(after, VMCS_HOST_CR3) == FieldOf(before, VMCS_HOST_CR3)
    ensures FieldOf(after, VMCS_GUEST_CR3) == FieldOf(before, VMCS_GUEST_CR3)
    ensures ControlsOn(before) ==> ControlsOn(after)
  {
    hide Bit;
  }

  /** A guest-physical access, under the controls and the EPT that the VMCS selects. */
  function GuestAccess(vmcs: map<nat, Qword>, ram: Ram, cap: Capabilities, gpa: nat): EptResult {
    if UsesEpt(vmcs) then EptWalk(ram, cap, FieldOf(vmcs, VMCS_EPT_POINTER), gpa)
    else Mapped(gpa, ALL_RIGHTS, EptEntries.WRITEBACK)
  }

  /** Without MSR bitmaps every access exits. */
  predicate MsrExits(vmcs: map<nat, Qword>, ram: Ram, access: Access, msr: Dword)
    requires FieldOf(vmcs, VMCS_MSR_BITMAP) + BITMAPS_BYTES <= |ram|
  {
    UsesMsrBitmaps(vmcs) ==> Exits(ram, FieldOf(vmcs, VMCS_MSR_BITMAP), access, msr)
  }

  /** What is assumed of the guest: well-formed accesses, and stores that avoid the VMM. */
  predicate Feasible(s: Vm, e: Event, p: Platform) {
    match e
    case Load(kind, _, _, _) => kind != Write
    case Store(gpa, data, _, _) =>
      var r := EptWalk(s.ram, p.cap, EptPointer(EPTS), gpa);
      && 0 < |data| <= PAGE_SIZE - gpa % PAGE_SIZE
      && (Permits(r, Write) ==> AvoidsVmm(r.hpa, |data|))
    case Mark(slot, flag) => UsedEntry(slot) && MarkFlag(flag) && slot + 8 <= |s.ram|
    case _ => true
  }

  /**
   The launched guest may use a page of stack: every push onto it is allowed by the tables and by
   the assumption on stores, although the page is that of the saved registers.
   */
  lemma PushIsFeasible(s: Vm, ssdt: Ram, protecting: bool, p: Platform, depth: nat, data: seq<Byte>,
                       regs: Registers, length: Qword)
    requires Invariant(s, ssdt, protecting) && p.Valid()
    requires 8 <= depth <= PAGE_SIZE && |data| == 8
    ensures Permits(EptWalk(s.ram, p.cap, EptPointer(EPTS), GUEST_STACK - depth), Write)
    ensures Feasible(s, Store(GUEST_STACK - depth, data, regs, length), p)
  {
    hide Installed, QwordAt, BitmapIs, GuestTables, HookedFlags, EptPointer, EptWalk, Lookup;
    WalkRefinesMap(s.ram, p.cap, EPTS, HookedFlags(SSDT_PAGE), GUEST_STACK - depth);
    LookupOfHooked(p.cap, SSDT_PAGE, GUEST_STACK - depth);
    StackOfOnePage(depth);
  }

  /** One exit of the machine object is one exit of the step relation. */
  method TakeExit(m: Machine, exit: Exit, p: Platform, clobbered: Registers)
    requires m.status == Running && Ready(m)
    modifies m, m.ram
    ensures Exited(old(StateOf(m)), exit, p.hook, StateOf(m))
    ensures Ready(m) && m.misused == old(m.misused) && FieldsKept(old(m.vmcs), m.vmcs)
  {
    hide ExitEffect, QwordAt, EptPointer, ControlsOn;
    VmExit(m, exit, p.hook, clobbered);
    ReadyKept(old(m.vmcs), m.vmcs);
    ExitStatus(old(m.ram[..]), old(m.gpr), exit, p.hook, m.ram[..], m.gpr, m.status);
  }

  lemma ExitStatus(ram: Ram, g: Registers, exit: Exit, hook: Qword, ram': Ram, g': Registers, status': Status)
    requires RAM_BYTES <= |ram| == |ram'|
    requires ExitEffect(ram, g, exit, hook, ram', g', status')
    ensures status' == if Handled(g, exit) then Running else Panicked
  {
  }

  method Execute(m: Machine, e: Event, p: Platform, clobbered: Registers)
    requires p.Valid() && Ready(m)
    requires m.status == Running ==> Feasible(StateOf(m), e, p)
    modifies m, m.ram
    ensures Step(old(StateOf(m)), e, p, StateOf(m))
    ensures Ready(m) && m.misused == old(m.misused) && FieldsKept(old(m.vmcs), m.vmcs)
  {
    hide Exited, QwordAt, EptWalk, EptPointer, Exits, Msr, MarkedRam, UsedEntry, MarkFlag,
         GuestStored, Bit;
    if m.status != Running {
      return;
    }
    match e
    case Compute(regs) =>
      m.gpr := regs;
    case Load(kind, gpa, regs, length) =>
      var r := GuestAccess(m.vmcs, m.ram[..], p.cap, gpa);
      if Permits(r, kind) {
        m.gpr := regs;
      } else {
        TakeExit(m, Refusal(r, gpa, length), p, clobbered);
      }
    case Store(gpa, data, regs, length) =>
      var r := GuestAccess(m.vmcs, m.ram[..], p.cap, gpa);
      if Permits(r, Write) {
        StoreData(m, r, data, regs);
      } else {
        TakeExit(m, Refusal(r, gpa, length), p, clobbered);
      }
    case Rdmsr(regs, length) =>
      if MsrExits(m.vmcs, m.ram[..], ReadMsr, Msr(m.gpr)) {
        TakeExit(m, Exit(EXIT_REASON_MSR_READ, length, 0), p, clobbered);
      } else {
        m.gpr := regs;
      }
    case Wrmsr(value, regs, length) =>
      if MsrExits(m.vmcs, m.ram[..], WriteMsr, Msr(m.gpr)) {
        TakeExit(m, Exit(EXIT_REASON_MSR_WRITE, length, 0), p, clobbered);
      } else {
        m.msrs := m.msrs[Msr(m.gpr) := value];
        m.gpr := regs;
      }
    case Trap(exit) =>
      TakeExit(m, exit, p, clobbered);
    case Mark(slot, flag) =>
      MarkEntry(m, slot, flag);
  }

  /** The processor sets a flag in a paging-structure entry. */
  method MarkEntry(m: Machine, slot: nat, flag: nat)
    requires m.status == Running && Ready(m)
    requires UsedEntry(slot) && MarkFlag(flag) && slot + 8 <= m.ram.Length
    modifies m.ram
    ensures m.ram[..] == MarkedRam(old(m.ram[..]), slot, flag)
    ensures Ready(m)
  {
    hide QwordAt, EptPointer, Flagged, MarkFlag;
    WriteQword(m.ram, slot, Flagged(QwordAt(m.ram[..], slot), flag));
    SameQword(old(m.ram[..]), m.ram[..], CPU_DATA_POINTER);
  }

  /** A store that the tables let through. */
  method StoreData(m: Machine, r: EptResult, data: seq<Byte>, regs: Registers)
    requires m.status == Running && Ready(m) && r.Mapped?
    requires AvoidsVmm(r.hpa, |data|)
    modifies m`gpr, m.ram
    ensures m.ram[..] == GuestStored(old(m.ram[..]), r.hpa, data) && m.gpr == regs
    ensures Ready(m)
  {
    hide QwordAt, EptPointer;
    if r.hpa + |data| <= m.ram.Length {
      WriteBytes(m.ram, r.hpa, data);
    } else if r.hpa < m.ram.Length {
      WriteBytes(m.ram, r.hpa, data[..m.ram.Length - r.hpa]);
    }
    GuestStoredFrame(old(m.ram[..]), r.hpa, data);
    SameQword(old(m.ram[..]), m.ram[..], CPU_DATA_POINTER);
    m.gpr := regs;
  }

  /** The event can happen in this state: a stopped machine takes any and stays as it is. */
  predicate Possible(s: Vm, e: Event, p: Platform) {
    s.status != Running || Feasible(s, e, p)
  }

  /**
   When each event has its turn: `turns[i]` steps have been taken before event `i`, which is then
   taken as the next step if it is possible in the state reached, and left out otherwise.
   */
  ghost predicate Turns(events: seq<Event>, states: seq<Vm>, executed: seq<Event>, turns: seq<nat>, p: Platform) {
    && |states| == |executed| + 1
    && |turns| == |events| + 1
    && turns[0] == 0 && turns[|events|] == |executed|
    && (forall i :: 0 <= i <= |events| ==> turns[i] <= |executed|)
    && forall i :: 0 <= i < |events| ==> TakesTurn(events[i], states, executed, turns[i], turns[i + 1], p)
  }

  ghost predicate TakesTurn(e: Event, states: seq<Vm>, executed: seq<Event>, now: nat, next: nat, p: Platform)
    requires now <= |executed| < |states|
  {
    if Possible(states[now], e, p) then next == now + 1 && now < |executed| && executed[now] == e
    else next == now
  }

  lemma TurnsGrow(events: seq<Event>, states: seq<Vm>, executed: seq<Event>, turns: seq<nat>, p: Platform,
                  next: Event, after: Vm)
    requires Turns(events, states, executed, turns, p)
    requires Possible(states[|executed|], next, p)
    ensures Turns(events + [next], states + [after], executed + [next], turns + [|executed| + 1], p)
  {
    hide Possible;
    var longer, turns' := events + [next], turns + [|executed| + 1];
    forall i | 0 <= i < |longer|
      ensures TakesTurn(longer[i], states + [after], executed + [next], turns'[i], turns'[i + 1], p)
    {
      if i < |events| {
        assert TakesTurn(events[i], states, executed, turns[i], turns[i + 1], p);
      }
    }
  }

  lemma TurnsSkip(events: seq<Event>, states: seq<Vm>, executed: seq<Event>, turns: seq<nat>, p: Platform, next: Event)
    requires Turns(events, states, executed, turns, p)
    requires !Possible(states[|executed|], next, p)
    ensures Turns(events + [next], states, executed, turns + [|executed|], p)
  {
    hide Possible;
    var longer, turns' := events + [next], turns + [|executed|];
    forall i | 0 <= i < |longer|
      ensures TakesTurn(longer[i], states, executed, turns'[i], turns'[i + 1], p)
    {
      if i < |events| {
        assert TakesTurn(events[i], states, executed, turns[i], turns[i + 1], p);
      }
    }
  }

  /** If every event is possible when its turn comes, the run is made of exactly the given events. */
  lemma AllEventsTaken(events: seq<Event>, states: seq<Vm>, executed: seq<Event>, turns: seq<nat>, p: Platform)
    requires Turns(events, states, executed, turns, p)
    requires forall i :: 0 <= i < |events| ==> Possible(states[turns[i]], events[i], p)
    ensures executed == events
  {
    hide Possible;
    TurnsInStep(events, states, executed, turns, p, |events|);
    forall i | 0 <= i < |events| ensures executed[i] == events[i] {
      TurnsInStep(events, states, executed, turns, p, i);
      assert TakesTurn(events[i], states, executed, turns[i], turns[i + 1], p);
    }
  }

  lemma {:induction false} TurnsInStep(events: seq<Event>, states: seq<Vm>, executed: seq<Event>, turns: seq<nat>,
                                       p: Platform, n: nat)
    requires Turns(events, states, executed, turns, p) && n <= |events|
    requires forall i :: 0 <= i < |events| ==> Possible(states[turns[i]], events[i], p)
    ensures turns[n] == n
  {
    hide Possible;
    if n > 0 {
      TurnsInStep(events, states, executed, turns, p, n - 1);
      assert TakesTurn(events[n - 1], states, executed, turns[n - 1], turns[n], p);
    }
  }

  /**
   Any sequence of guest events. Those that break the assumption on the guest are left out, and no
   others; these make up a run of the step relation, which the machine follows without ever
   misusing a VMX instruction.
   */
  method RunMachine(m: Machine, events: seq<Event>, p: Platform, clobbered: Registers)
    returns (ghost states: seq<Vm>, ghost executed: seq<Event>, ghost turns: seq<nat>)
    requires p.Valid() && Ready(m)
    modifies m, m.ram
    ensures Run(states, executed, p) && Turns(events, states, executed, turns, p)
    ensures states[0] == old(StateOf(m)) && states[|executed|] == StateOf(m)
    ensures Ready(m) && m.misused == old(m.misused) && FieldsKept(old(m.vmcs), m.vmcs)
  {
    hide Step, Feasible, EptPointer, QwordAt, Possible, TakesTurn, ControlsOn;
    states, executed, turns := [StateOf(m)], [], [0];
    for i := 0 to |events|
      invariant Run(states, executed, p) && Turns(events[..i], states, executed, turns, p)
      invariant states[0] == old(StateOf(m)) && states[|executed|] == StateOf(m)
      invariant Ready(m) && m.misused == old(m.misused) && FieldsKept(old(m.vmcs), m.vmcs)
    {
      var e := events[i];
      assert events[..i + 1] == events[..i] + [e];
      var possible := PossibleNow(m.ram[..], m.gpr, m.msrs, m.status, e, p);
      if possible {
        FeasibleIfRunning(StateOf(m), e, p);
        Execute(m, e, p, clobbered);
        RunExtends(states, executed, p, e, StateOf(m));
        TurnsGrow(events[..i], states, executed, turns, p, e, StateOf(m));
        states, executed, turns := states + [StateOf(m)], executed + [e], turns + [|executed| + 1];
      } else {
        TurnsSkip(events[..i], states, executed, turns, p, e);
        turns := turns + [|executed|];
      }
    }
    assert events[..|events|] == events;
  }

  predicate PossibleNow(ram: Ram, gpr: Registers, msrs: map<Dword, Qword>, status: Status, e: Event, p: Platform) {
    Possible(Vm(ram, gpr, msrs, status), e, p)
  }

  lemma FeasibleIfRunning(s: Vm, e: Event, p: Platform)
    requires Possible(s, e, p)
    ensures s.status == Running ==> Feasible(s, e, p)
  {
  }

  lemma RunExtends(states: seq<Vm>, executed: seq<Event>, p: Platform, e: Event, next: Vm)
    requires Run(states, executed, p)
    requires RAM_BYTES <= |next.ram| && Step(states[|executed|], e, p, next)
    ensures Run(states + [next], executed + [e], p)
  {
    hide Step;
    var longer, events := states + [next], executed + [e];
    forall i | 0 <= i < |events| ensures Step(longer[i], events[i], p, longer[i + 1]) {
      if i < |executed| {
        assert Step(states[i], executed[i], p, states[i + 1]);
      }
    }
  }

  /** The whole life of the machine, from reset through any guest. */
  method BootAndRun(m: Machine, vmexitWrapper: Qword, kmain: Qword, printACrab: Qword, checksPass: bool,
                    events: seq<Event>, p: Platform, clobbered: Registers)
    returns (ghost states: seq<Vm>, ghost executed: seq<Event>, ghost turns: seq<nat>)
    requires m.status == Running && m.vmx.mode == Off && !m.misused
    requires RAM_BYTES <= m.ram.Length
    requires Zeroed(m.ram[..], CPU_DATA, CPU_DATA_POINTER + 8)
    requires GuestTables(m.ram[..]) && m.cr3 == BootPaging.IA32E_PAGING_BASE
    requires PlainRevision(m.msrs)
    requires p.Valid()
    modifies m, m.ram
    ensures !m.misused
    ensures Run(states, executed, p) && Turns(events, states, executed, turns, p)
    ensures states[|executed|] == StateOf(m)
    ensures states[0].status == StartStatus(old(m.msrs), m.smx, checksPass)
    ensures states[0].status == Running ==>
              && HostReady(states[0].ram, printACrab) && Invariant(states[0], states[0].ram, false)
              && MsrsAfterStart(old(m.msrs), states[0].msrs)
              && states[0].regs[RIP] == kmain && states[0].regs[RSP] == GUEST_STACK
              && FieldOf(m.vmcs, VMCS_HOST_RIP) == vmexitWrapper && FieldOf(m.vmcs, VMCS_HOST_RSP) == STACK_TOP
              && FieldOf(m.vmcs, VMCS_HOST_CR3) == BootPaging.IA32E_PAGING_BASE
              && FieldOf(m.vmcs, VMCS_GUEST_CR3) == BootPaging.IA32E_PAGING_BASE
              && FieldOf(m.vmcs, VMCS_GUEST_DR7) == old(m.dr7) % 0x1_0000_0000
              && ControlRegistersAfterStart(old(m.cr0), old(m.cr4), FieldOf(m.vmcs, VMCS_GUEST_CR0),
                                            FieldOf(m.vmcs, VMCS_GUEST_CR4), old(m.msrs))
              && ControlRegistersAfterStart(old(m.cr0), old(m.cr4), FieldOf(m.vmcs, VMCS_HOST_CR0),
                                            FieldOf(m.vmcs, VMCS_HOST_CR4), old(m.msrs))
  {
    hide Zeroed, PlainRevision, HostReady, ControlsSet, Invariant, Run, StartStatus, VmxonAllowed, EptPointer, QwordAt,
         GuestTables, ControlsOn, MsrsAfterStart, ControlRegistersAfterStart, Turns;
    InitializeHost(m, vmexitWrapper, kmain, printACrab, checksPass);
    if m.status == Running {
      BootEstablishesInvariant(StateOf(m), printACrab);
    }
    states, executed, turns := RunMachine(m, events, p, clobbered);
  }

  /**
   The life of the machine from the assembly loop on: one memory, paged by the 32-bit code, booted
   by the hypervisor and run by any guest. At every point of the run each linear address below
   4 GiB translates to itself under the CR3 of the launched guest, unless it lies in the SSDT, and
   under the host's.
   */
  method PageBootAndRun(cpu: BootPaging.Cpu32, m: Machine, returnTo: Dword, afterRoot: Dword, afterPointers: Dword,
                        afterDirectories: Dword, vmexitWrapper: Qword, kmain: Qword, printACrab: Qword,
                        checksPass: bool, events: seq<Event>, p: Platform, clobbered: Registers)
    returns (ghost states: seq<Vm>, ghost executed: seq<Event>, ghost turns: seq<nat>)
    requires cpu.ram == m.ram && RAM_BYTES <= m.ram.Length
    requires BootPaging.StackHolds(cpu.ram[..], cpu.esp, [returnTo])
    requires 40 <= cpu.esp && cpu.esp + 4 <= CPU_DATA
    requires BootPaging.TABLES_END <= cpu.esp - 40 || cpu.esp + 4 <= BootPaging.IA32E_PAGING_BASE
    requires m.status == Running && m.vmx.mode == Off && !m.misused
    requires Zeroed(m.ram[..], CPU_DATA, CPU_DATA_POINTER + 8)
    requires PlainRevision(m.msrs)
    requires p.Valid()
    modifies cpu, m, m.ram
    ensures !m.misused
    ensures Run(states, executed, p) && Turns(events, states, executed, turns, p)
    ensures states[|executed|] == StateOf(m)
    ensures states[0].status == StartStatus(old(m.msrs), m.smx, checksPass)
    ensures states[0].status == Running ==>
              && states[0].regs[RIP] == kmain && states[0].regs[RSP] == GUEST_STACK
              && forall n, la :: 0 <= n <= |executed| && 0 <= la < MAPPED_BYTES ==>
                   TranslatesToItself(states[n].ram, p.cap, FieldOf(m.vmcs, VMCS_GUEST_CR3),
                                      FieldOf(m.vmcs, VMCS_HOST_CR3), la)
  {
    hide Zeroed, PlainRevision, Invariant, Run, StartStatus, EptPointer, QwordAt, GuestTables, HostReady,
         BootPaging.IdentityMap, BootPaging.StackHolds, TranslatesToItself, MsrsAfterStart,
         ControlRegistersAfterStart, Turns;
    cpu.SetupPml4Map(returnTo, afterRoot, afterPointers, afterDirectories);
    ghost var paged := m.ram[..];
    StillZeroed(old(m.ram[..]), paged, old(cpu.esp));
    FreshTablesAreGuestTables(paged, paged);
    m.cr3 := BootPaging.IA32E_PAGING_BASE;
    states, executed, turns := BootAndRun(m, vmexitWrapper, kmain, printACrab, checksPass, events, p, clobbered);
    RunLength(states, executed, p);
    if states[0].status == Running {
      forall n, la | 0 <= n <= |executed| && 0 <= la < MAPPED_BYTES
        ensures TranslatesToItself(states[n].ram, p.cap, FieldOf(m.vmcs, VMCS_GUEST_CR3),
                                   FieldOf(m.vmcs, VMCS_HOST_CR3), la)
      {
        TranslationInEveryRun(states, executed, p, n, la);
      }
    }
  }

  /** What both sets of tables together make of a linear address: for the guest, and for the host. */
  ghost predicate TranslatesToItself(ram: Ram, cap: Capabilities, guestCr3: Qword, hostCr3: Qword, la: nat) {
    && NestedWalk(ram, cap, EptPointer(EPTS), guestCr3, la) ==
       (if 0x181_2000 <= la < 0x181_3000 then EptFault(la, Misconfigured) else Translated(la, ALL_RIGHTS, false))
    && HostWalk(ram, cap, hostCr3, la) == Translated(la, ALL_RIGHTS, false)
  }

  lemma TranslationInEveryRun(states: seq<Vm>, events: seq<Event>, p: Platform, n: nat, la: nat)
    requires p.Valid() && Run(states, events, p) && n <= |events|
    requires Invariant(states[0], states[0].ram, false)
    requires la < MAPPED_BYTES
    ensures TranslatesToItself(states[n].ram, p.cap, BootPaging.IA32E_PAGING_BASE, BootPaging.IA32E_PAGING_BASE, la)
  {
    hide Step, Invariant, NestedWalk, HostWalk, EptPointer;
    NestedTranslationInEveryRun(states, events, p, states[0].ram, n, la);
    HostTranslationInEveryRun(states, events, p, states[0].ram, n, la);
  }

  lemma RunLength(states: seq<Vm>, events: seq<Event>, p: Platform)
    requires Run(states, events, p)
    ensures |states| == |events| + 1
  {
    hide Step;
  }

  lemma StillZeroed(before: Ram, after: Ram, esp: nat)
    requires |before| == |after| && 40 <= esp && esp + 4 <= CPU_DATA
    requires Zeroed(before, CPU_DATA, CPU_DATA_POINTER + 8)
    requires BootPaging.KeptOutside(before, after, BootPaging.IA32E_PAGING_BASE, BootPaging.TABLES_END, esp - 40, esp)
    ensures Zeroed(after, CPU_DATA, CPU_DATA_POINTER + 8)
  {
  }

  /**
   At every point of every run from the boot state, the table is hooked and holds what was
   registered before launch, so dispatching syscall 42 runs the hook and then the crab printer.
   */
  lemma RegisteredSyscallInEveryRun(states: seq<Vm>, events: seq<Event>, p: Platform, printACrab: Qword, n: nat)
    requires p.Valid() && Run(states, events, p) && n <= |events|
    requires HostReady(states[0].ram, printACrab)
    requires p.hook != NULL
    ensures RAM_BYTES <= |states[n].ram| && Installed(states[n].ram, EPTS, SsdtFlags(true))
    ensures var entry := QwordAt(states[n].ram, EntryAddress(42));
      HandlerRun(DispatchOutcome(true, 42, entry, p.hook, states[n].regs), p.hook) == Called(printACrab, 42, printACrab)
  {
    hide Step, Installed, BitmapIs, QwordAt, HandlerRun, DispatchOutcome, ProtectedBefore, GuestTables;
    BootEstablishesInvariant(states[0], printACrab);
    RunKeepsInvariant(states, events, p, states[0].ram, n);
    SsdtNeverChanges(states, events, p, n, 42);
    HookedOutcome(42, printACrab, p.hook, states[n].regs);
  }

  lemma HookedOutcome(number: nat, entry: Qword, hook: Qword, g: Registers)
    requires number < SSDT_SIZE && hook != NULL
    ensures HandlerRun(DispatchOutcome(true, number, entry, hook, g), hook) == Called(entry, number, entry)
  {
  }

  /**
   The machine, booted and run through any guest: if it has not stopped, a dispatch of syscall 42
   runs the hook and then the crab printer registered before launch. It has not stopped exactly if
   every trap was answered.
   */
  method RunAndDispatch(m: Machine, events: seq<Event>, p: Platform, printACrab: Qword, length: Qword,
                        clobbered: Registers)
    returns (d: Dispatch, ghost states: seq<Vm>, ghost executed: seq<Event>, ghost turns: seq<nat>)
    requires p.Valid() && p.hook != NULL && Ready(m)
    requires HostReady(m.ram[..], printACrab)
    modifies m, m.ram
    ensures m.misused == old(m.misused)
    ensures Run(states, executed, p) && Turns(events, states, executed, turns, p)
    ensures states[0] == old(StateOf(m)) && m.status == states[|executed|].status
    ensures m.status == Running ==> HandlerRun(d, p.hook) == Called(printACrab, 42, printACrab)
  {
    hide HostReady, Installed, QwordAt, HandlerRun, DispatchOutcome, Run, Turns, ControlsOn;
    states, executed, turns := RunMachine(m, events, p, clobbered);
    d := NoHandler;
    if m.status == Running {
      RegisteredSyscallInEveryRun(states, executed, p, printACrab, |executed|);
      d := DispatchHandler(m, p, 42, length, clobbered, true);
    }
  }
}
