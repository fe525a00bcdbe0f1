# A verified model of the Hyper-C hypervisor

Hyper-C is a native Intel VMX hypervisor. It boots from 32-bit assembly, builds a guest page map
and extended page tables (EPT), enters VMX root operation, hooks one page of guest memory (the
system service dispatch table, SSDT), launches a guest and answers its VM exits. This project
models those routines in Dafny and proves what they are for. All section numbers are those of
volume 3 of the Intel software developer's manual.

One physical memory, a byte array, holds everything: the tables are qwords in it, read back by
hardware walks written from the manual; the saved guest registers, the MSR bitmaps and the SSDT
are bytes of it. C and assembly routines are methods that change that memory in place, each proved
against functions and predicates about it; lemmas then speak about those, up to whole runs.

| file | what it holds |
|---|---|
| Bits, Memory | words, bits, OR and AND; little-endian memory |
| EptEntry, EptHardware, ExtendedPaging | bit-fields of an EPT entry; the processor's walk; `src/vmm/ept.c` |
| BootPaging, NestedTranslation | the assembly table loop; guest walk with every access translated by the EPT |
| MsrBitmaps | the 4 KiB MSR bit array against the processor's lookup |
| VmxMachine, VmExits | VMX instructions and their conditions; wrapper, dispatch and handlers of an exit |
| GuestRuns, MachineRuns | any sequence of guest events and exits; the machine object follows it |
| HostBoot, Syscalls | start-up, legal controls, read hook; dispatch through the hooked table |
| ModeSwitch | long, protected, real, protected, long mode around one callback |
| Strings, Numbers, Formatter | string loops, number rendering, `vsprintf` and the logger |

The main results: nested translation is the identity below 4 GiB and fails exactly on the SSDT page
once it is hooked (`HostBoot.NestedTranslationAfterBoot`), and stays so from the assembly loop that
builds the tables to every point of every run (`MachineRuns.PageBootAndRun`), while the hypervisor's
own accesses reach what they name (`GuestRuns.NestedTranslationInEveryRun`,
`GuestRuns.HostTranslationInEveryRun`); the four-level walk refines a map from page numbers to flags
after any updates (`ExtendedPaging.WalkAfterUpdates`); in every run both sets of tables, the SSDT
and the bitmaps keep their meaning (`GuestRuns.RunKeepsInvariant`), the syscall MSRs are frozen
after a protecting vmcall (`GuestRuns.SyscallMsrsProtected`) and the machine runs on exactly while
every trap is one the hypervisor answers (`GuestRuns.StillRunningIff`); the machine object takes
exactly the possible events of any given sequence and misuses no VMX instruction
(`MachineRuns.RunMachine`, `MachineRuns.BootAndRun`); an exit is transparent to the guest
(`VmExits.VmExit`, `VmExits.ExitTransparency`); the mode switch balances three stack widths
(`ModeSwitch.Cpu.CallRealModeFunction`); formatting writes exactly its meaning, and rendering can be
parsed back (`Formatter.Console.Vsprintf`, `Numbers.ParseOfRender`).

Some properties hold only under a condition, which is proved exact:

- The read hook is transparent for exactly the registered syscalls, those whose entry is not NULL.
  For a NULL entry the trapped read yields the hook's address, so the NULL test of `dispatch_handler`
  passes and the hook calls address zero (`Syscalls.HookTransparentIffRegistered`).
- `enter_vmx_root` accepts firmware that locked VMXON to SMX operation only, although VMXON then
  faults outside SMX; the failing MSR value is 3 (`HostBoot.LockedInsideSmxFaults`). On a processor
  without SMX it faults for every unlocked feature-control MSR, because it asks for the SMX bit too
  (`HostBoot.UnlockedWithoutSmxFaults`). Start-up succeeds exactly under `HostBoot.EntryStatus`.
- The hypervisor and the guest translate with the same page tables (`src/vmm/vmm.c:156` and `:184`),
  and the EPT lets the guest write them (`GuestRuns.TablesAreWritable`). After a store of any qword
  to a directory entry, an access of the hypervisor still reaches its own address with all rights
  exactly if the entry is valid, writable and leads there, as a large page or through a page table
  (`NestedTranslation.HostFollowsDirectory`). With 0x83, 0 and 0x1800081 stored at 0x112060 the MSR
  bitmaps are missed, fault, and are read-only (`GuestRuns.BitmapsMissed`, `GuestRuns.BitmapsUnmapped`,
  `GuestRuns.BitmapsReadOnly`). The whole-run results therefore assume that guest stores leave these
  tables alone.
- `update_gpa_access_rights` stays inside the tables exactly below 4 GiB; above, it rewrites a qword
  behind them (`ExtendedPaging.UpdateStaysInTablesIff`).

Assumptions, all from the code's own use of the machine:

- The memory at 0x01000000 starts zeroed; the code sets only named fields and selected entries.
- Host and guest run under the tables that `setup_pml4_map` built at 0x110000, from start-up on.
- Guest stores do not reach those page tables, the VMXON and VMCS regions, the EPT, the MSR bitmaps
  or the pointer behind the SSDT (`GuestRuns.AvoidsVmm`), nor the hypervisor's image, its descriptor
  tables and its stack below 0x7C00, which this model does not hold as memory. At start-up that stack
  is the one below 0x120000, above the page tables; the boot loader's own lies below 0x1000000. Stores to the saved
  registers and to the SSDT are modelled, and so are the accessed and dirty flags the processor sets.
  The guest starts with its stack at the low end of `stack_top`, so it grows into the page of the
  saved registers and may use all of it (`MachineRuns.PushIsFeasible`), but no more: below lie the
  MSR bitmaps (`GuestRuns.StackOfOnePage`).
- The logger's messages fit its buffers, 0x100 bytes for the text and 0x400 for the line
  (`Formatter.FitsLog`), whenever they are formatted at all; the code does not check.
- The installed memory reaches past the VMM's structures (0x1813008); no more is required.
- A walk that would read a paging structure beyond installed memory reads zero there
  (`EptHardware.Load`).
- The exit instruction length is any value the processor supplies.
- The physical-address width is 36 to 52 bits and covers the tables; bit 31 of IA32_VMX_BASIC is
  zero, as appendix A.1 says; the processor is not in SMX operation, whether or not it supports it.
- The unparenthesised argument of the `ASSERT` macro (`include/lib/log.h:22-26`) still makes the
  three VMX assertions panic on every failure, because success is zero. The assertion on the pin
  controls (`src/vmm/vmm.c:134`) can never fire for the same reason and is not used as a fact.

## Model

| member | source | states |
|---|---|---|
| EptEntries.PackOfUnpack | include/vmm/ept.h:15-36 | every qword is the packing of the bit-fields read from it |
| EptEntries.UnpackOfPack | include/vmm/ept.h:15-36 | the twenty bit-fields survive packing into a qword |
| ExtendedPaging.PositionsOfFields | include/vmm/ept.h:16-26 | the bit positions of section 28.3.2 find the fields of the C structure |
| ExtendedPaging.PositionsOfNamedBits | include/vmm/ept.h:22-36 | the manual finds bits 8 to 10 and the named ones from 57 on in the fields of the C structure |
| ExtendedPaging.PositionsOfAddress | include/vmm/ept.h:26-27 | the manual's 40 address bits are the structure's 36 and its 4 must-be-zero bits |
| ExtendedPaging.ProcessorReads | src/vmm/ept.c:58-74 | what the processor reads in an entry the setters made: address, rights, memory type, no large page |
| ExtendedPaging.ProcessorReadsRest | src/vmm/ept.c:61-74 | the other copied flags stand in bits 9, 10, 57, 58, 60, 61 and 63, and the accessed bit is clear |
| ExtendedPaging.SetEntryAddress | src/vmm/ept.c:58-60 | only the address field of one entry changes |
| ExtendedPaging.SetEntryFlags | src/vmm/ept.c:61-74 | the twelve copied fields of one entry change; address, accessed bit and padding stay |
| ExtendedPaging.FillTable | src/vmm/ept.c:31-47 | each table loop gives entry k the address of page k and the flags, and touches nothing else |
| ExtendedPaging.InitializeExtendedPageTables | src/vmm/ept.c:10-50 | over zeroed memory the four flat arrays become an identity map of 4 GiB with default rights and nothing above |
| ExtendedPaging.UpdateGpaAccessRights | src/vmm/ept.c:52-56 | panics exactly on a misaligned address; otherwise changes the flags of the entry the unbounded index names, and nothing else |
| ExtendedPaging.UpdateStaysInTablesIff | src/vmm/ept.c:52-56 | below 4 GiB an update stays in the tables; above, it leaves all of them alone and rewrites the qword that far behind them |
| ExtendedPaging.InstalledAfterUpdate | src/vmm/ept.c:52-56 | one update changes the abstract map at one page |
| ExtendedPaging.InstalledFrame | include/vmm/ept.h:74-79 | memory changes outside the structure leave the translation as it was |
| ExtendedPaging.FlatIndices | src/vmm/ept.c:32-45 | the flat arrays `pds` and `pts`, cut in 512-entry sub-tables, meet the walk's indices |
| ExtendedPaging.WalkRefinesMap | src/vmm/ept.c:10-50 | the four-level walk of any address equals a lookup by page number |
| ExtendedPaging.WalkAfterUpdates | src/vmm/ept.c:10-56 | after any sequence of updates an access meets its own address with its page's last flags; nothing from 4 GiB up is present |
| BootPaging.EntryIsSum | src/boot/paging.asm:15-19 | on aligned addresses the OR of address and flags is their sum, and it fits 32 bits |
| BootPaging.Cpu32.StoreQwordLittle | src/boot/macros.asm:48-54 | one zero-extended qword stored little-endian; ebx and the stack pointer restored |
| BootPaging.Cpu32.SetupEntries | src/boot/paging.asm:13-21 | the loop fills `ecx` entries with a 32-bit wrapping address, for any positive count |
| BootPaging.Cpu32.CreateTables | src/boot/paging.asm:11-23 | all registers restored, control back at the caller, nothing but the entries and 36 stack bytes written |
| BootPaging.Cpu32.SetupPml4Map | src/boot/paging.asm:27-53 | the three calls leave an identity map of 4 GiB in 2 MiB pages and nothing else but 40 stack bytes |
| NestedTranslation.NestedWalkRefinesMap | src/boot/paging.asm:27-51 | guest walk, each structure access translated by the EPT, then EPT walk of the result: the address itself with its page's flags, whatever accessed and dirty flags are set, and for supervisor mode only |
| NestedTranslation.NestedIdentity | src/vmm/ept.c:26-47 | before the hook every linear address below 4 GiB translates to itself with full supervisor rights, R/W and U/S bits of the guest tables included |
| NestedTranslation.NestedIdentityButHooked | src/vmm/initialize_host.c:101-109 | with one page hooked translation fails exactly for its addresses |
| NestedTranslation.LookupOfHooked | src/vmm/initialize_host.c:102-108 | write without read is a misconfiguration for that page and for no other |
| NestedTranslation.FreshTablesAreGuestTables | src/boot/paging.asm:27-51 | as long as the bytes the assembly loop wrote are kept, the tables are those that every later result starts from |
| NestedTranslation.MarkKeepsTables | src/boot/paging.asm:27-51 | accessed and dirty flags set in any entry leave the tables what they are |
| NestedTranslation.HostIdentity | src/vmm/vmm.c:156 | without the EPT, under the host's CR3, the hypervisor's accesses below 4 GiB reach what they name |
| NestedTranslation.HostFollowsDirectory | src/vmm/vmm.c:156-184 | with one directory entry replaced by any qword, the hypervisor's accesses fault or go where it leads; they keep their address and all rights exactly if the entry leads there |
| HostBoot.NestedTranslationAfterBoot | src/vmm/initialize_host.c:26-48 | with the host ready, after the read hook: identity below 4 GiB, misconfigured exactly on the SSDT page |
| MsrBitmaps.MonitorRdmsr | src/vmm/msr_bitmaps.c:12-23 | panics exactly on an invalid MSR; otherwise sets the processor's read bit for it |
| MsrBitmaps.MonitorWrmsr | src/vmm/msr_bitmaps.c:25-38 | panics exactly on an invalid MSR; otherwise sets the processor's write bit for it |
| MsrBitmaps.BitPlace | src/vmm/msr_bitmaps.c:19-22 | byte index and shift of the code find the bit of section 24.6.9, inside the page |
| MsrBitmaps.BitNumberIsInjective | src/vmm/msr_bitmaps.c:32-37 | distinct pairs of access and MSR never share a bit |
| MsrBitmaps.ExitsAfterMonitor | src/vmm/msr_bitmaps.c:22-37 | one call changes the processor's answer for its own pair alone |
| MsrBitmaps.LookupByManual | src/vmm/msr_bitmaps.c:12-38 | the processor's answer by the byte and bit addresses of section 24.6.9; MSRs outside both ranges always exit |
| MsrBitmaps.BitmapRefinesSet | src/vmm/msr_bitmaps.c:12-38 | after any calls over a zeroed page an access exits exactly if it was asked for |
| MsrBitmaps.CallsCommute | src/vmm/msr_bitmaps.c:22-37 | calls commute and repeating one has no effect |
| VmxMachine.Vmxon | include/hardware/vmx.h:8-18 | faults, fails or enters root operation, exactly by the conditions of VMXON |
| VmxMachine.Vmclear | include/hardware/vmx.h:24-33 | success condition and effect on launch state and current VMCS |
| VmxMachine.Vmptrld | include/hardware/vmx.h:35-44 | success condition, with the revision identifier in memory |
| VmxMachine.Vmread | include/hardware/vmx.h:46-52 | the field's value when a VMCS is accessible; otherwise misuse is recorded |
| VmxMachine.Vmwrite | include/hardware/vmx.h:58-60 | the field's new value when a VMCS is accessible; otherwise misuse is recorded |
| VmxMachine.Vmlaunch | include/hardware/vmx.h:62-71 | enters the guest exactly from a clear current VMCS that passes the checks; otherwise fails, misuse recorded |
| VmxMachine.Vmresume | include/hardware/vmx.h:73-82 | enters the guest exactly from a launched current VMCS |
| VmxMachine.DecodedIsResult | include/hardware/vmx.h:12-16 | the two flag tests recover the result from the flags the instruction leaves, whatever they were before |
| VmxMachine.ReadResult | include/hardware/vmx.h:10-16 | the wrapper's `pushf` and tests return the result that is in the flags |
| VmxMachine.VmlaunchInstruction | include/hardware/vmx.h:62-64 | enters the guest, or leaves the failure in the flags and goes on |
| VmxMachine.VmresumeInstruction | src/vmm/wrappers.asm:64 | enters the guest exactly from a launched current VMCS, or leaves the failure in the flags |
| VmExits.HaltHandler | src/vmm/vmexit.c:12-16 | skips one instruction, modulo 2^64, and changes nothing else |
| VmExits.RdmsrHandler | src/vmm/vmexit.c:18-23 | skips one instruction and changes nothing else |
| VmExits.WrmsrHandler | src/vmm/vmexit.c:25-30 | skips one instruction: the MSR keeps its value |
| VmExits.EptViolationHandler | src/vmm/vmexit.c:32-37 | skips one instruction and changes nothing else |
| VmExits.EptMisconfigHandler | src/vmm/vmexit.c:39-55 | in the SSDT window rdi, rsi and rax become entry number, entry and hook, whatever kind of access was refused; elsewhere only rip moves |
| VmExits.VmcallHandler | src/vmm/vmexit.c:57-73 | succeeds exactly for PROTECET_SYSCALL, and then sets the two write bits in the bitmaps it finds through the saved pointer |
| VmExits.VmexitHandler | src/vmm/vmm.c:251-291 | six reasons answered, every other one and every failure panics |
| VmExits.SaveGuest | src/vmm/wrappers.asm:11-35 | the seventeen slots hold the guest's registers, although rax and rbx are reused on the way |
| VmExits.RestoreGuest | src/vmm/wrappers.asm:39-61 | registers and VMCS fields become what is saved, whatever the handler left in them |
| VmExits.VmexitWrapper | src/vmm/wrappers.asm:11-64 | vmresume only after a successful handler, with the registers the handler decided |
| VmExits.VmExit | src/vmm/wrappers.asm:11-64 | one whole exit: exact registers, memory, status and VMX state after it, no instruction misused |
| VmExits.ExitTransparency | src/vmm/vmexit.c:12-73 | rip moves by one instruction; only a refused access to the hooked page changes another register, and then exactly rax, rdi, rsi |
| GuestRuns.MisconfiguredExactlyInWindow | src/vmm/vmexit.c:43 | the misconfigured addresses are exactly those the handler's window test accepts |
| GuestRuns.StepKeepsInvariant | src/vmm/vmexit.c:12-73 | every guest event and exit, stores to the guest's stack and the saved registers included, keeps both sets of tables, the SSDT bytes and the bitmaps' meaning |
| GuestRuns.RunKeepsInvariant | src/vmm/vmexit.c:57-73 | in every run an MSR access exits exactly if it writes a protected MSR after a protecting vmcall |
| GuestRuns.SyscallMsrsProtected | src/vmm/vmexit.c:25-73 | after a protecting vmcall IA32_LSTAR and IA32_SYSENTER_EIP keep their values for the rest of every run |
| GuestRuns.SsdtNeverChanges | src/vmm/initialize_host.c:101-109 | no run changes an SSDT entry |
| GuestRuns.NestedTranslationInEveryRun | src/vmm/initialize_host.c:101-109 | at every point of every run: identity below 4 GiB, misconfigured exactly on the SSDT page |
| GuestRuns.HostTranslationInEveryRun | src/vmm/vmm.c:156 | at every point of every run the hypervisor's own accesses reach the addresses they name |
| GuestRuns.TablesAreWritable | src/vmm/ept.c:26-47 | the EPT lets the guest store to every entry of the tables the hypervisor translates with |
| GuestRuns.BitmapsMissed | src/vmm/vmm.c:156-184 | a store to one directory entry that makes the hypervisor miss the MSR bitmaps |
| GuestRuns.BitmapsUnmapped | src/vmm/vmm.c:156-184 | a store that makes its access to them fault |
| GuestRuns.BitmapsReadOnly | src/vmm/vmm.c:156-184 | a store that takes their writability away |
| GuestRuns.StackOfOnePage | src/vmm/vmm.c:188 | a push of the launched guest reaches the hypervisor's structures exactly below one page of stack |
| GuestRuns.StoppedForGood | include/lib/log.h:12-17 | a panicked machine never runs again |
| GuestRuns.StepRunsIff | src/vmm/vmm.c:260-291 | a running machine goes on except after a trap whose basic reason is none of 12, 31, 32, 48, 49, nor 18 with a zero rdi |
| GuestRuns.StillRunningIff | src/vmm/vmm.c:260-291 | in every run the machine is running exactly if every trap so far was of those |
| GuestRuns.TrapSkipsInstruction | src/vmm/vmexit.c:12-73 | an answered trap outside the hooked page moves rip by one instruction, modulo 2^64, and changes no other register, no MSR and, but for the vmcall, no memory the guest reads |
| GuestRuns.HookedLoadEffect | src/vmm/vmexit.c:39-55 | a refused load of entry n: hook, n and the entry in rax, rdi and rsi, the instruction skipped, nothing else |
| GuestRuns.MsrWriteEffect | src/vmm/vmexit.c:25-30 | a written MSR takes the value, unless it is IA32_LSTAR or IA32_SYSENTER_EIP under protection: then only rip moves |
| GuestRuns.StoreEffect | src/vmm/ept.c:26-47 | a store outside the hooked page leaves its bytes where it names them, and changes no others |
| MachineRuns.Execute | src/vmm/vmm.c:251-291 | the machine object performs each guest event as one step of the step relation |
| MachineRuns.RunMachine | src/vmm/wrappers.asm:11-64 | the events taken are exactly those possible in the state their turn comes in, in order; the history is a run of them, no VMX instruction in it is misused, and the VMCS fields no exit writes are kept |
| MachineRuns.AllEventsTaken | src/vmm/wrappers.asm:11-64 | if every event is possible when its turn comes, the run is made of exactly the given events |
| MachineRuns.BootAndRun | src/vmm/initialize_host.c:26-48 | from reset through the given guest events: no misuse, and a run that starts at the guest's entry point and stack with the host ready, in the invariant, and with the control registers and MSRs start-up promises |
| MachineRuns.PageBootAndRun | src/boot/entrypoint.asm:41-55 | one memory from the assembly loop through boot and the given guest events: at every point every address below 4 GiB translates to itself, under the launched guest's CR3 but for the SSDT page, and under the host's |
| MachineRuns.PushIsFeasible | src/vmm/vmm.c:188 | every push of the launched guest onto its first page of stack is an event of the runs spoken of |
| MachineRuns.RegisteredSyscallInEveryRun | src/vmm/initialize_host.c:96-109 | at every point of every run from a booted host, dispatching syscall 42 goes through the hook to the crab printer |
| MachineRuns.RunAndDispatch | src/guest/syscalls.c:38-49 | after the given events on a booted host, dispatching syscall 42 on the machine runs the hook and then the crab printer, unless a trap has stopped it |
| HostBoot.MaskedIsLegal | src/vmm/vmm.c:88-89 | CR0 and CR4 as written lie between their fixed masks exactly if the masks are consistent |
| HostBoot.MaskedKeepsFreeBits | src/vmm/vmm.c:88-89 | bit by bit, what becomes of a control register |
| HostBoot.ControlLegalIff | src/vmm/vmm.c:299-309 | the value written to a control field is legal exactly if some legal value has the requested bits |
| HostBoot.GetDefaultBits | src/vmm/vmm.c:299-309 | takes the bits from the capability MSR that bit 55 of IA32_VMX_BASIC selects |
| HostBoot.WriteControls | src/vmm/vmm.c:133-151 | all five control fields hold their requested bits and are legal whenever that is possible |
| HostBoot.RequestedAreOn | src/vmm/vmm.c:139-151 | HLT exiting, MSR bitmaps, secondary controls, EPT, unrestricted guest and IA-32e mode are on |
| HostBoot.ConfigureControlRegisters | src/vmm/vmm.c:88-89 | CR0 and CR4 become the masked values the two lemmas above speak of; NE and VMXE are set wherever the masks allow them |
| HostBoot.ConfigureFeatureControl | src/vmm/vmm.c:91-112 | an unlocked MSR is locked with both kinds of VMXON enabled and its other low bits kept, or the write faults without SMX; a locked one stays, and panics exactly if it enables neither |
| HostBoot.WriteRevisions | src/vmm/vmm.c:119-120 | both regions start with the identifier VMXON and VMPTRLD compare, and nothing outside them changes |
| HostBoot.StartVmx | src/vmm/vmm.c:122-124 | once VMXON is allowed no assertion fails; root operation with a clear current VMCS, no instruction misused |
| HostBoot.Assert | include/lib/log.h:22-26 | although the negation binds to the call alone, panics exactly if the asserted VMX instruction did not succeed |
| HostBoot.EnterVmxRoot | src/vmm/vmm.c:86-127 | panics, faults or reaches root operation with a clear current VMCS, exactly by the feature-control and fixed-bit MSRs and SMX support; the upper half of DR7 is cleared |
| HostBoot.LockedInsideSmxFaults | src/vmm/vmm.c:92-97 | the accepted feature-control value for which VMXON faults |
| HostBoot.UnlockedWithoutSmxFaults | src/vmm/vmm.c:101-108 | without SMX every unlocked feature-control MSR makes the write fault |
| HostBoot.ConfigureVmcs | src/vmm/vmm.c:129-249 | controls, host and guest control registers, stacks and entry points, bitmap and EPT pointers, and the tables behind them |
| HostBoot.InitializeSsdt | src/vmm/initialize_host.c:96-99 | entry 42 of the table, and no other byte, is written |
| HostBoot.InitializeReadHook | src/vmm/initialize_host.c:101-109 | the SSDT page becomes write-only in the EPT and no other page changes |
| HostBoot.LaunchVm | src/vmm/vmm.c:293-315 | launches a clear VMCS; if that fails, returns the instruction error read from the still current VMCS and panics |
| HostBoot.InitializeHost | src/vmm/initialize_host.c:26-48 | the start succeeds exactly under the stated conditions, with every structure in place, the guest at its entry point and stack, exact control registers, DR7 and MSRs, and nothing else written |
| Syscalls.SetSyscallHandler | src/guest/syscalls.c:51-57 | one qword stored; number 512 passes the bound and lands behind the table |
| Syscalls.TrappedReadRecoversEntry | src/vmm/vmexit.c:43-49 | a trapped read of entry n leaves n in rdi, the entry in rsi and the hook in rax |
| Syscalls.DispatchHandler | src/guest/syscalls.c:38-49 | hooked or not, the target called and the registers it finds, through one load for the NULL test and another for the call, each of which may exit |
| Syscalls.HookTransparentIffRegistered | src/vmm/hooks.c:6-9 | for every entry and hook, hooked dispatch runs the handler of unhooked dispatch exactly if the entry is not NULL |
| ModeSwitch.Cpu.LongToProtected | src/bios/switch_modes.asm:97-122 | an 8-byte frame is consumed by a 4-byte return with `ret 4`; paging, LME and PAE go in the allowed order |
| ModeSwitch.Cpu.ProtectedToReal | src/bios/switch_modes.asm:129-150 | a 4-byte frame is consumed by a 2-byte return with `ret 2`; protection goes after paging |
| ModeSwitch.Cpu.RealToProtected | src/bios/switch_modes.asm:28-46 | a 2-byte frame is popped and pushed again as four bytes |
| ModeSwitch.Cpu.ProtectedToLong | src/bios/switch_modes.asm:54-90 | a 4-byte frame is popped and pushed again as eight bytes; PAE, CR3, LME, then paging |
| ModeSwitch.Cpu.GoDown | src/bios/switch_modes.asm:6-10 | two calls down to real mode, stack balanced, 24 bytes below it used |
| ModeSwitch.Cpu.GoUp | src/bios/switch_modes.asm:14-18 | two calls up to long mode, stack balanced, 24 bytes below it used |
| ModeSwitch.Cpu.CallBack | src/bios/switch_modes.asm:13 | the callback runs: entered at `di` in real mode with a 2-byte return address and unchanged registers and memory, its memory and registers are those found at the line after the call |
| ModeSwitch.Cpu.CallRealModeFunction | src/bios/switch_modes.asm:6-20 | for every low stack and every mode-preserving callback: called at `di` in real mode on the caller's memory, back in long mode at the caller with the memory the callback left but for 24 stack bytes, stack and control registers as before, no refused transition |
| ModeSwitch.LeavingOrders | src/bios/switch_modes.asm:109-120 | of the six orders of the three writes exactly those that start with paging, outside 64-bit code, leave long mode without a refusal, and all to the same state |
| ModeSwitch.EnteringOrders | src/bios/switch_modes.asm:59-80 | exactly the orders that end with paging enter it without a refusal, and all to the same state |
| ModeSwitch.Cpu.DisableLongMode | src/bios/switch_modes.asm:109-120 | performs the three writes in the order of the code, refused exactly if that order is |
| ModeSwitch.Cpu.EnableLongMode | src/bios/switch_modes.asm:59-80 | performs the three writes in the order of the code, with CR3 in between, and none is refused |
| Strings.StrCpy | src/lib/utils.c:16-21 | the text and its terminator, and nothing else, are written |
| Strings.StrLen | src/lib/utils.c:23-29 | the length up to the first terminator |
| Strings.GetNumberStart | src/lib/utils.c:49-56 | the first character that is not a zero digit |
| Numbers.AddSign | src/lib/print.c:11-16 | the sign is written and the magnitude, as 32 unsigned bits, is left |
| Numbers.AddNumberPrefix | src/lib/print.c:9-30 | sign and base prefix, and the magnitude left to render |
| Numbers.FillDigits | src/lib/print.c:41-45 | all 64 digits, most significant first |
| Numbers.PaddedIsZerosAndDigits | src/lib/print.c:41-50 | the fixed-width digits are zeros followed by the plain digits |
| Numbers.SprintInteger | src/lib/print.c:32-51 | exactly the rendering and a terminator are written |
| Numbers.DigitsShape | src/lib/utils.c:48-56 | no leading zero but in "0" itself |
| Numbers.ParseOfRender | src/lib/print.c:9-51 | a parser that insists on the prefix and on valid digits gives the number back, modulo 2^32 in unsigned mode |
| Numbers.RenderIsInjective | src/lib/print.c:9-51 | distinct numbers render differently |
| Formatter.FlagIsSticky | src/lib/print.c:118-126 | the unsigned flag is set at the end exactly if it was set or some `%u` or `%U` was met |
| Formatter.FormatOfConcatenation | src/lib/print.c:67-132 | a format means the concatenation of its parts' meanings, unsigned throughout after the first `%u` or `%U` |
| Formatter.IntegerMeaning | src/lib/print.c:93-126 | the number is read back in base 10 after `%d`, 16 after `%x`, `%p` and `%u`, 2 after `%b` and `%U`, as unsigned once `%u` or `%U` was met |
| Formatter.TextMeaning | src/lib/print.c:80-130 | `%c` and `%s` stand for their argument, an unknown directive for nothing |
| Formatter.OwnLines | src/lib/print.c:80-130 | which line each directive logs, at which levels |
| Formatter.LineReads | src/lib/log.c:34 | a log line, as its reader sees it |
| Formatter.QuietFormat | src/lib/print.c:80-130 | a format without `%c` and unknown directives logs nothing |
| Formatter.LogFormatMeaning | src/lib/log.c:34 | the logger's own format contains no trigger and yields the log line |
| Formatter.Console.PrintCharacter | src/lib/print.c:80-85 | one character written, one debug line logged |
| Formatter.Console.PrintString | src/lib/print.c:87-91 | the argument up to its terminator is written |
| Formatter.Console.PrintInteger | src/lib/print.c:93-112 | the rendering in the given base is written |
| Formatter.Console.PrintUnknown | src/lib/print.c:128-130 | nothing written, one error line logged |
| Formatter.Console.PrintDirective | src/lib/print.c:77-131 | each directive writes its piece and logs its line |
| Formatter.Console.Vsprintf | src/lib/print.c:61-135 | for every format buffer, read up to its terminator, whose text matches the arguments: exactly its meaning and a terminator are written, exactly its log lines sent, and the flag is set at the end exactly if some `%u` or `%U` was met; terminates through the logger |
| Formatter.Console.LogLog | src/lib/log.c:19-39 | below the minimum level nothing, whatever the message; otherwise the formatted line; terminates through the formatter |
| Formatter.Console.SetLogLevel | src/lib/log.c:14-17 | the minimum level from now on |

## Left out

- VmxMachine.Vmlaunch: the checks of chapter 26 on host, guest and control fields are one parameter, because most of the fields they read are straight-line constants this model does not hold.
- VmxMachine.VmlaunchInstruction: the same parameter stands for the same checks.
- VmxMachine.Vmresume: entry checks are taken to pass on a launched VMCS, because only rsp and rip change between entries.
- VmxMachine.VmresumeInstruction: the same holds of the instruction.
- HostBoot.ConfigureVmcs: segment, descriptor-table, SYSENTER, RFLAGS and debug-control fields are not modelled; the source writes the guest IDTR limit where the GDTR limit is meant (`src/vmm/vmm.c:239`), so nothing is claimed of either.
- ExtendedPaging.FillTable: the three table loops of the source are one method, because they differ in table, count, address and flags alone.
- ModeSwitch.Cpu.CallRealModeFunction: data-segment selectors, the interrupt flag and the IDT register are not modelled; control registers are the flags the code touches and the rest.
- Formatter.Console.Vsprintf: arguments are values, so a `%s` argument that overlaps the destination is not captured; a format ending in a lone `%` reads past its end in C and is excluded.
- Numbers.SprintInteger: INT_MIN in signed mode overflows in C and is excluded; the digit buffer has the 65 cells the source writes, one more than it declares.
- The host's own stack below 0x7C00, which the handlers use as scratch, and the text of log messages in handlers.
- `*physical_address` at the last seven bytes of the SSDT page reads on into the pointer behind it, as in the source; dispatch never asks for such an address.
- `initialize_bios`, `load_mbr`, `read_disk`, `real_mode_smile` and the serial driver: foreign calls and port output. The mode switch keeps an abstract callback.
- TLB and EPT caching, INVEPT, interrupts, SMM and other processors: the code does not handle them.
- `strcmp`, `memcpy` and `memset`: nothing in the modelled routines uses them.
- SYSENTER and SYSCALL entry code, GRUB headers, linker script and build files.
