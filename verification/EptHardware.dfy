/**
 What the processor makes of the extended page tables: sections 28.3.2 and 28.3.3 of volume 3
 of the Intel software developer's manual, without mode-based execute control.
 */
module EptHardware {
  import opened Bits
  import opened Memory

  /** The physical-address width and the execute-only capability (appendix A.10). */
  datatype Capabilities = Capabilities(physicalWidth: nat, executeOnly: bool) {
    predicate Valid() {
      36 <= physicalWidth <= 52
    }
  }

  datatype Rights = Rights(read: bool, write: bool, execute: bool)

  datatype EptResult =
    | Mapped(hpa: nat, rights: Rights, memoryType: nat)
    | NotPresent
    | Misconfigured

  const WALK_LIMIT: nat := 0x1_0000_0000_0000

  /** Entry `i` of the table at physical address `table`. */
  function Slot(table: nat, i: nat): nat {
    table + 8 * i
  }

  /** A paging-structure access; addresses beyond the installed memory read as zero. */
  function Load(ram: Ram, a: nat): Qword {
    if a + 8 <= |ram| then QwordAt(ram, a) else 0
  }

  function Index(address: nat, level: nat): (i: nat)
    requires 1 <= level <= 4
    ensures i < 512
  {
    match level
    case 4 => address / 0x80_0000_0000 % 512
    case 3 => address / 0x4000_0000 % 512
    case 2 => address / 0x20_0000 % 512
    case _ => address / 0x1000 % 512
  }

  function BytesMapped(level: nat): (size: nat)
    requires 1 <= level <= 3
    ensures size > 0
  {
    match level
    case 3 => 0x4000_0000
    case 2 => 0x20_0000
    case _ => 0x1000
  }

  /** Bits 51:12, in place. */
  function AddressBits(q: Qword): nat {
    q / 0x1000 % 0x100_0000_0000 * 0x1000
  }

  function RightsOf(q: Qword): Rights {
    Rights(q % 2 == 1, q / 2 % 2 == 1, q / 4 % 2 == 1)
  }

  function Both(a: Rights, b: Rights): Rights {
    Rights(a.read && b.read, a.write && b.write, a.execute && b.execute)
  }

  predicate Present(q: Qword) {
    RightsOf(q) != Rights(false, false, false)
  }

  predicate LargePage(q: Qword) {
    q / 0x80 % 2 == 1
  }

  predicate Leaf(q: Qword, level: nat) {
    level == 1 || (level <= 3 && LargePage(q))
  }

  /** The conditions of section 28.3.3.1 on a present entry. */
  predicate MisconfiguredEntry(q: Qword, level: nat, cap: Capabilities)
    requires 1 <= level <= 4
  {
    || (!RightsOf(q).read && RightsOf(q).write)
    || (!RightsOf(q).read && RightsOf(q).execute && !cap.executeOnly)
    || AddressBits(q) >= Pow2(cap.physicalWidth)
    || (if Leaf(q, level) then
          || q / 8 % 8 in {2, 3, 7}
          || AddressBits(q) % BytesMapped(level) != 0
        else
          || q / 8 % 16 != 0
          || (level == 4 && LargePage(q)))
  }

  function Walk(ram: Ram, cap: Capabilities, table: nat, level: nat, gpa: nat, rights: Rights): EptResult
    requires 1 <= level <= 4
    decreases level
  {
    var q := Load(ram, Slot(table, Index(gpa, level)));
    if !Present(q) then NotPresent
    else if MisconfiguredEntry(q, level, cap) then Misconfigured
    else if Leaf(q, level) then
      Mapped(AddressBits(q) + gpa % BytesMapped(level), Both(rights, RightsOf(q)), q / 8 % 8)
    else Walk(ram, cap, AddressBits(q), level - 1, gpa, Both(rights, RightsOf(q)))
  }

  /** The EPTP selects a four-level walk of write-back tables (section 24.6.11). */
  predicate ValidEptp(eptp: Qword, cap: Capabilities) {
    && eptp % 8 == 6
    && eptp / 8 % 8 == 3
    && eptp / 64 % 64 == 0
    && AddressBits(eptp) < Pow2(cap.physicalWidth)
  }

  function EptWalk(ram: Ram, cap: Capabilities, eptp: Qword, gpa: nat): EptResult {
    if gpa >= WALK_LIMIT then NotPresent
    else Walk(ram, cap, AddressBits(eptp), 4, gpa, Rights(true, true, true))
  }
}
