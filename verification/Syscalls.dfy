/** src/guest/syscalls.c and src/vmm/hooks.c: the table the read hook interposes on. */
module Syscalls {
  import opened Bits
  import opened Memory
  import opened EptEntries
  import opened EptHardware
  import opened ExtendedPaging
  import opened NestedTranslation
  import opened VmxMachine
  import opened VmExits
  import opened GuestRuns

  const SSDT_SIZE: nat := 512
  const NULL: Qword := 0

  function EntryAddress(number: nat): nat {
    SSDT + 8 * number
  }

  /** Number 512 passes the bound and lands on the pointer behind the table. */
  method SetSyscallHandler(ram: array<Byte>, number: Dword, handler: Qword)
    requires RAM_BYTES <= ram.Length
    modifies ram
    ensures ram[..] == if number > SSDT_SIZE then old(ram[..])
                       else StoredQword(old(ram[..]), EntryAddress(number), handler)
  {
    if number > SSDT_SIZE {
      return;
    }
    WriteQword(ram, EntryAddress(number), handler);
  }

  /** A table entry after setting another. */
  lemma OtherEntriesKept(ram: Ram, number: nat, handler: Qword, other: nat)
    requires RAM_BYTES <= |ram| && number < SSDT_SIZE && other < SSDT_SIZE
    ensures QwordAt(StoredQword(ram, EntryAddress(number), handler), EntryAddress(other))
         == if other == number then handler else QwordAt(ram, EntryAddress(other))
  {
    var after := StoredQword(ram, EntryAddress(number), handler);
    if other != number {
      SameQword(ram, after, EntryAddress(other));
    }
  }

  // ----- A guest load of one entry, through the extended page tables -----

  /** The entry number and the entry that a trapped read recovers. */
  lemma TrappedReadRecoversEntry(g: Registers, number: nat, length: Qword, entry: Qword, hook: Qword)
    requires number < SSDT_SIZE
    ensures var exit := Exit(EXIT_REASON_EPT_MISCONFIG, length, EntryAddress(number));
      var g' := RegistersAfter(g, exit, entry, hook);
      && Handled(g, exit)
      && g' == EntryLoaded(g, true, number, entry, hook, length)
  {
    OffsetIsNumber(number);
  }

  lemma OffsetIsNumber(number: nat)
    requires number < SSDT_SIZE
    ensures EntryAddress(number) % 0x1000 / 8 == number
    ensures InSsdtWindow(EntryAddress(number))
  {
    Peel(8 * number, 0x1000, 0x1812);
  }

  /** The bound lets one number through whose entry lies behind the table. */
  lemma EntryInWindow(number: nat)
    requires number <= SSDT_SIZE
    ensures InSsdtWindow(EntryAddress(number)) <==> number < SSDT_SIZE
  {
  }

  /** The tables before and after the read hook is installed. */
  function SsdtFlags(hooked: bool): PageFlags {
    if hooked then HookedFlags(SSDT_PAGE) else DefaultFlags()
  }

  /** The registers after loading an entry: a hooked load also recovers its number and value. */
  function EntryLoaded(g: Registers, hooked: bool, number: nat, entry: Qword, hook: Qword, length: Qword): Registers
    requires number <= SSDT_SIZE
  {
    var next := g[RIP := Sum64(g[RIP], length)];
    if hooked && number < SSDT_SIZE then next[RAX := hook][RDI := number][RSI := entry] else next[RAX := entry]
  }

  /** `mov rax, [ssdt + 8 * number]`, an instruction of `length` bytes. */
  method LoadEntry(m: Machine, p: Platform, number: nat, length: Qword, clobbered: Registers, ghost hooked: bool)
    requires number <= SSDT_SIZE && p.Valid()
    requires GuestRunning(m)
    requires Installed(m.ram[..], EPTS, SsdtFlags(hooked))
    modifies m, m.ram
    ensures GuestRunning(m) && m.misused == old(m.misused)
    ensures SameOutside(old(m.ram[..]), m.ram[..], GUEST_STATE, GUEST_STATE + REGISTERS_BYTES)
    ensures m.gpr == EntryLoaded(old(m.gpr), hooked, number,
                                 QwordAt(old(m.ram[..]), EntryAddress(number)), p.hook, length)
  {
    hide QwordAt, Installed, EptWalk, EptPointer, Lookup, HookedFlags, DefaultFlags,
         RegistersAfter, RegistersAt, Handled;
    var gpa: Qword := EntryAddress(number);
    var r := EptWalk(m.ram[..], p.cap, EptPointer(EPTS), gpa);
    WalkRefinesMap(m.ram[..], p.cap, EPTS, SsdtFlags(hooked), gpa);
    LookupOfDefault(p.cap, gpa);
    LookupOfHooked(p.cap, SSDT_PAGE, gpa);
    WindowIsPage(gpa);
    EntryInWindow(number);
    if Permits(r, Read) {
      m.gpr := m.gpr[RAX := QwordAt(m.ram[..], gpa)][RIP := Sum64(m.gpr[RIP], length)];
    } else {
      TrappedReadRecoversEntry(m.gpr, number, length, QwordAt(m.ram[..], gpa), p.hook);
      VmExit(m, Refusal(r, gpa, length), p.hook, clobbered);
    }
  }

  // ----- Dispatch -----

  /** What a syscall comes to: the address called, with the first two argument registers. */
  datatype Dispatch =
    | OutOfBounds
    | NoHandler
    | Called(target: Qword, rdi: Qword, rsi: Qword)

  /** Behind the hook: `ssdt_hook` calls the handler it is given. */
  function HandlerRun(d: Dispatch, hook: Qword): Dispatch {
    if d.Called? && d.target == hook then Called(d.rsi, d.rdi, d.rsi) else d
  }

  method DispatchHandler(m: Machine, p: Platform, number: Dword, length: Qword, clobbered: Registers,
                         ghost hooked: bool)
    returns (d: Dispatch)
    requires p.Valid()
    requires GuestRunning(m)
    requires Installed(m.ram[..], EPTS, SsdtFlags(hooked))
    modifies m, m.ram
    ensures GuestRunning(m) && m.misused == old(m.misused)
    ensures SameOutside(old(m.ram[..]), m.ram[..], GUEST_STATE, GUEST_STATE + REGISTERS_BYTES)
    ensures number > SSDT_SIZE ==> d == OutOfBounds
    ensures number <= SSDT_SIZE ==>
      var entry := QwordAt(old(m.ram[..]), EntryAddress(number));
      var once := EntryLoaded(old(m.gpr), hooked, number, entry, p.hook, length);
      && d == DispatchOutcome(hooked, number, entry, p.hook, old(m.gpr))
      && m.gpr == if d.Called? then EntryLoaded(once, hooked, number, entry, p.hook, length) else once
  {
    hide QwordAt, Installed, HookedFlags, DefaultFlags;
    ghost var start := m.ram[..];
    if number > SSDT_SIZE {
      return OutOfBounds;
    }
    LoadEntry(m, p, number, length, clobbered, hooked);
    if m.gpr[RAX] == NULL {
      return NoHandler;
    }
    InstalledFrame(start, m.ram[..], EPTS, SsdtFlags(hooked));
    SameQword(start, m.ram[..], EntryAddress(number));
    LoadEntry(m, p, number, length, clobbered, hooked);
    d := Called(m.gpr[RAX], m.gpr[RDI], m.gpr[RSI]);
  }

  /** The outcome for a table whose page is hooked or not and whose entry is `entry`. */
  function DispatchOutcome(hooked: bool, number: nat, entry: Qword, hook: Qword, g: Registers): Dispatch
    requires number <= SSDT_SIZE
  {
    if hooked && number < SSDT_SIZE then (if hook == NULL then NoHandler else Called(hook, number, entry))
    else if entry == NULL then NoHandler
    else Called(entry, g[RDI], g[RSI])
  }

  /**
   The hook is transparent exactly for registered syscalls: it learns the number and runs the
   handler that unhooked dispatch would run. For a NULL entry it calls address zero where unhooked
   dispatch reports a missing handler.
   */
  lemma HookTransparentIffRegistered(number: nat, entry: Qword, hook: Qword, g: Registers)
    requires number < SSDT_SIZE && hook != NULL
    ensures var hooked := HandlerRun(DispatchOutcome(true, number, entry, hook, g), hook);
      var plain := DispatchOutcome(false, number, entry, hook, g);
      && hooked == Called(entry, number, entry)
      && (entry != NULL <==> plain.Called? && plain.target == hooked.target)
  {
  }
}
