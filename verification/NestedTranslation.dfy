/**
 A guest linear address translated by the guest's own tables, every access to which is itself
 translated by the extended page tables (sections 4.5 and 28.3 of the manual).
 */
module NestedTranslation {
  import opened Bits
  import opened Memory
  import opened EptEntries
  import opened EptHardware
  import opened ExtendedPaging
  import BootPaging

  /** `rights` are those of an access in supervisor mode under CR0.WP; `user`: user mode has them too. */
  datatype LinearResult =
    | Translated(hpa: nat, rights: Rights, user: bool)
    | PageFault
    | EptFault(gpa: nat, cause: EptResult)

  /** Where physical addresses of a linear walk lead: to memory itself, or through an EPT. */
  datatype Second = Direct | Through(eptp: Qword)

  const ALL_RIGHTS := Rights(true, true, true)

  function Access(ram: Ram, cap: Capabilities, second: Second, gpa: nat): EptResult {
    match second
    case Direct => Mapped(gpa, ALL_RIGHTS, WRITEBACK)
    case Through(eptp) => EptWalk(ram, cap, eptp, gpa)
  }

  /** The part of a guest entry's address that locates a page of `size` bytes. */
  function PageBase(q: Qword, size: nat): nat
    requires size > 0
  {
    AddressBits(q) / size * size
  }

  /** Not present, or a reserved bit set; execute-disable is reserved because EFER.NXE is clear. */
  predicate GuestEntryFaults(q: Qword, level: nat, cap: Capabilities)
    requires 1 <= level <= 4
  {
    || q % 2 == 0
    || q / 0x8000_0000_0000_0000 == 1
    || AddressBits(q) >= Pow2(cap.physicalWidth)
    || (level == 4 && LargePage(q))
    || ((level == 2 || level == 3) && LargePage(q) && AddressBits(q) % BytesMapped(level) / 0x2000 != 0)
  }

  /** The last step: the physical address the linear walk has reached. */
  function Reach(ram: Ram, cap: Capabilities, second: Second, gpa: nat, writable: bool, user: bool): LinearResult {
    match Access(ram, cap, second, gpa)
    case Mapped(hpa, rights, _) => Translated(hpa, Both(rights, Rights(true, writable, true)), user)
    case cause => EptFault(gpa, cause)
  }

  /** The R/W and U/S bits of section 4.6 count only if every entry on the way has them set. */
  function LinearWalk(ram: Ram, cap: Capabilities, second: Second, table: nat, level: nat, la: nat,
                      writable: bool, user: bool): LinearResult
    requires 1 <= level <= 4
    decreases level
  {
    var gpa := Slot(table, Index(la, level));
    var structure := Access(ram, cap, second, gpa);
    if !structure.Mapped? || !structure.rights.read then EptFault(gpa, structure)
    else
      var q := Load(ram, structure.hpa);
      var writable', user' := writable && q / 2 % 2 == 1, user && q / 4 % 2 == 1;
      if GuestEntryFaults(q, level, cap) then PageFault
      else if Leaf(q, level) then
        Reach(ram, cap, second, PageBase(q, BytesMapped(level)) + la % BytesMapped(level), writable', user')
      else LinearWalk(ram, cap, second, AddressBits(q), level - 1, la, writable', user')
  }

  /** A guest access, under the EPT. */
  function NestedWalk(ram: Ram, cap: Capabilities, eptp: Qword, cr3: Qword, la: nat): LinearResult {
    LinearWalk(ram, cap, Through(eptp), AddressBits(cr3), 4, la, true, true)
  }

  /** An access of the hypervisor itself, in root operation: there is no EPT. */
  function HostWalk(ram: Ram, cap: Capabilities, cr3: Qword, la: nat): LinearResult {
    LinearWalk(ram, cap, Direct, AddressBits(cr3), 4, la, true, true)
  }

  // ----- The tables of host and guest, whatever accessed and dirty flags the processor has set -----

  predicate Marked(q: Qword, entry: nat) {
    q == entry || q == entry + 0x20 || q == entry + 0x40 || q == entry + 0x60
  }

  /** The root and the four entries that point to the directories. */
  ghost predicate PointersHold(ram: Ram) {
    && BootPaging.TABLES_END <= |ram|
    && Marked(QwordAt(ram, BootPaging.IA32E_PAGING_BASE), BootPaging.PDPT_BASE + 3)
    && (forall k :: 0 <= k < 4 ==>
          Marked(QwordAt(ram, Slot(BootPaging.PDPT_BASE, k)), BootPaging.PD_BASE + 0x1000 * k + 3))
  }

  ghost predicate GuestTables(ram: Ram) {
    && PointersHold(ram)
    && (forall k :: 0 <= k < 2048 ==>
          Marked(QwordAt(ram, Slot(BootPaging.PD_BASE, k)), 0x20_0000 * k + 0x83))
  }

  /** Any memory that still holds the tables the assembly loop has left. */
  lemma FreshTablesAreGuestTables(paged: Ram, ram: Ram)
    requires |paged| == |ram| && BootPaging.IdentityMap(paged)
    requires Same(paged, ram, BootPaging.IA32E_PAGING_BASE, BootPaging.TABLES_END)
    ensures GuestTables(ram)
  {
    hide QwordAt;
    assert GuestTables(paged);
    GuestTablesFrame(paged, ram);
  }

  lemma GuestTablesFrame(before: Ram, after: Ram)
    requires |before| == |after| && GuestTables(before)
    requires Same(before, after, BootPaging.IA32E_PAGING_BASE, BootPaging.TABLES_END)
    ensures GuestTables(after)
  {
    hide QwordAt, Marked;
    SameQword(before, after, BootPaging.IA32E_PAGING_BASE);
    forall k | 0 <= k < 4
      ensures QwordAt(after, Slot(BootPaging.PDPT_BASE, k)) == QwordAt(before, Slot(BootPaging.PDPT_BASE, k))
    {
      SameQword(before, after, Slot(BootPaging.PDPT_BASE, k));
    }
    forall k | 0 <= k < 2048
      ensures QwordAt(after, Slot(BootPaging.PD_BASE, k)) == QwordAt(before, Slot(BootPaging.PD_BASE, k))
    {
      SameQword(before, after, Slot(BootPaging.PD_BASE, k));
    }
  }

  // ----- The accessed and dirty flags: section 4.8 -----

  const ACCESSED_FLAG: nat := 0x20
  const DIRTY_FLAG: nat := 0x40

  predicate MarkFlag(flag: nat) {
    flag == ACCESSED_FLAG || flag == DIRTY_FLAG
  }

  /** An entry with one flag set. */
  function Flagged(q: Qword, flag: nat): (marked: nat)
    requires MarkFlag(flag)
    ensures marked < 0x1_0000_0000_0000_0000
  {
    if q / flag % 2 == 1 then q else q + flag
  }

  /** The aligned places of the entries in use. */
  predicate UsedEntry(slot: nat) {
    && slot % 8 == 0
    && (|| slot == BootPaging.IA32E_PAGING_BASE
        || BootPaging.PDPT_BASE <= slot < Slot(BootPaging.PDPT_BASE, 4)
        || BootPaging.PD_BASE <= slot < BootPaging.TABLES_END)
  }

  lemma FlaggedStaysMarked(q: Qword, entry: nat, flag: nat)
    requires Marked(q, entry) && MarkFlag(flag) && entry % 0x80 == 3
    ensures Marked(Flagged(q, flag), entry)
  {
    var high, low := entry / 0x80, q - entry + 3;
    assert q == low + 0x80 * high;
    FlagOf(low, high, flag);
  }

  /** Bits 5 and 6 of a number given by its low seven bits. */
  lemma FlagOf(low: nat, high: nat, flag: nat)
    requires low < 0x80 && MarkFlag(flag)
    ensures (low + 0x80 * high) / flag % 2 == low / flag % 2
  {
    if flag == ACCESSED_FLAG {
      Peel(low % 0x20, 0x20, low / 0x20 + 4 * high);
      Peel(low / 0x20 % 2, 2, low / 0x20 / 2 + 2 * high);
    } else {
      Peel(low % 0x40, 0x40, low / 0x40 + 2 * high);
      Peel(low / 0x40 % 2, 2, low / 0x40 / 2 + high);
    }
  }

  ghost function MarkedRam(ram: Ram, slot: nat, flag: nat): Ram
    requires slot + 8 <= |ram| && MarkFlag(flag)
  {
    StoredQword(ram, slot, Flagged(QwordAt(ram, slot), flag))
  }

  lemma MarkedEntry(ram: Ram, slot: nat, flag: nat, other: nat, entry: nat)
    requires slot + 8 <= |ram| && other + 8 <= |ram| && MarkFlag(flag)
    requires slot == other || slot + 8 <= other || other + 8 <= slot
    requires Marked(QwordAt(ram, other), entry) && entry % 0x80 == 3
    ensures Marked(QwordAt(MarkedRam(ram, slot, flag), other), entry)
  {
    hide QwordAt, Flagged, Marked;
    if slot == other {
      FlaggedStaysMarked(QwordAt(ram, slot), entry, flag);
    } else {
      SameQword(ram, MarkedRam(ram, slot, flag), other);
    }
  }

  lemma SlotsApart(slot: nat, table: nat, k: nat)
    requires slot % 8 == 0 && table % 8 == 0
    ensures slot == Slot(table, k) || slot + 8 <= Slot(table, k) || Slot(table, k) + 8 <= slot
  {
  }

  /** Entries have bits 0 and 1 set, and none of bits 2 to 6. */
  lemma EntryLow(k: nat)
    ensures (BootPaging.PD_BASE + 0x1000 * k + 3) % 0x80 == 3
    ensures (0x20_0000 * k + 0x83) % 0x80 == 3
  {
    Peel(3, 0x80, BootPaging.PD_BASE / 0x80 + 0x20 * k);
    Peel(3, 0x80, 1 + 0x4000 * k);
  }

  lemma MarkedPointer(ram: Ram, slot: nat, flag: nat, k: nat)
    requires GuestTables(ram) && slot % 8 == 0 && slot + 8 <= |ram| && MarkFlag(flag) && k < 4
    ensures Marked(QwordAt(MarkedRam(ram, slot, flag), Slot(BootPaging.PDPT_BASE, k)),
                   BootPaging.PD_BASE + 0x1000 * k + 3)
  {
    hide QwordAt, Marked, MarkFlag, MarkedRam;
    SlotsApart(slot, BootPaging.PDPT_BASE, k);
    EntryLow(k);
    MarkedEntry(ram, slot, flag, Slot(BootPaging.PDPT_BASE, k), BootPaging.PD_BASE + 0x1000 * k + 3);
  }

  lemma MarkedDirectory(ram: Ram, slot: nat, flag: nat, k: nat)
    requires GuestTables(ram) && slot % 8 == 0 && slot + 8 <= |ram| && MarkFlag(flag) && k < 2048
    ensures Marked(QwordAt(MarkedRam(ram, slot, flag), Slot(BootPaging.PD_BASE, k)), 0x20_0000 * k + 0x83)
  {
    hide QwordAt, Marked, MarkFlag, MarkedRam;
    SlotsApart(slot, BootPaging.PD_BASE, k);
    EntryLow(k);
    MarkedEntry(ram, slot, flag, Slot(BootPaging.PD_BASE, k), 0x20_0000 * k + 0x83);
  }

  /** Setting a flag in an entry leaves the tables what they are. */
  lemma MarkKeepsTables(ram: Ram, slot: nat, flag: nat)
    requires GuestTables(ram) && slot % 8 == 0 && slot + 8 <= |ram| && MarkFlag(flag)
    ensures GuestTables(MarkedRam(ram, slot, flag))
  {
    hide QwordAt, Marked, MarkFlag, MarkedRam;
    MarkedSize(ram, slot, flag);
    SlotsApart(slot, BootPaging.IA32E_PAGING_BASE, 0);
    MarkedEntry(ram, slot, flag, BootPaging.IA32E_PAGING_BASE, BootPaging.PDPT_BASE + 3);
    forall k | 0 <= k < 4
      ensures Marked(QwordAt(MarkedRam(ram, slot, flag), Slot(BootPaging.PDPT_BASE, k)),
                     BootPaging.PD_BASE + 0x1000 * k + 3)
    {
      MarkedPointer(ram, slot, flag, k);
    }
    forall k | 0 <= k < 2048
      ensures Marked(QwordAt(MarkedRam(ram, slot, flag), Slot(BootPaging.PD_BASE, k)), 0x20_0000 * k + 0x83)
    {
      MarkedDirectory(ram, slot, flag, k);
    }
  }

  lemma UsedIsAligned(slot: nat)
    requires UsedEntry(slot)
    ensures slot % 8 == 0
  {
  }

  lemma MarkedSize(ram: Ram, slot: nat, flag: nat)
    requires slot + 8 <= |ram| && MarkFlag(flag)
    ensures |MarkedRam(ram, slot, flag)| == |ram|
    ensures SameOutside(ram, MarkedRam(ram, slot, flag), slot, slot + 8)
  {
    hide QwordAt, Flagged;
  }

  // ----- What the processor reads in an entry -----

  /** The parts of an entry made of a page number and twelve low bits. */
  lemma GuestEntryParts(q: Qword, page: nat, low: nat)
    requires page < PAGES && low < 0x1000 && q == low + 0x1000 * page
    ensures AddressBits(q) == 0x1000 * page
    ensures q % 2 == low % 2
    ensures q / 2 % 2 == low / 2 % 2
    ensures q / 4 % 2 == low / 4 % 2
    ensures q / 0x80 % 2 == low / 0x80 % 2
    ensures q / 0x8000_0000_0000_0000 == 0
  {
    hide AddressBits;
    AddressPart(q, page, low);
    LowPart(q, page, low, 1);
    LowPart(q, page, low, 2);
    LowPart(q, page, low, 4);
    LowPart(q, page, low, 0x80);
  }

  lemma AddressPart(q: Qword, page: nat, low: nat)
    requires page < PAGES && low < 0x1000 && q == low + 0x1000 * page
    ensures AddressBits(q) == 0x1000 * page
  {
    Peel(low, 0x1000, page);
  }

  /** One of the low bits. */
  lemma LowPart(q: nat, page: nat, low: nat, place: nat)
    requires q == low + 0x1000 * page
    requires place == 1 || place == 2 || place == 4 || place == 0x80
    ensures q / place % 2 == low / place % 2
  {
    if place == 1 {
      Peel(low % 2, 2, low / 2 + 0x800 * page);
    } else if place == 2 {
      Peel(low % 2, 2, low / 2 + 0x800 * page);
      Peel(low / 2 % 2, 2, low / 2 / 2 + 0x400 * page);
    } else if place == 4 {
      Peel(low % 4, 4, low / 4 + 0x400 * page);
      Peel(low / 4 % 2, 2, low / 4 / 2 + 0x200 * page);
    } else {
      Peel(low % 0x80, 0x80, low / 0x80 + 0x20 * page);
      Peel(low / 0x80 % 2, 2, low / 0x80 / 2 + 0x10 * page);
    }
  }

  lemma TableEntryParts(q: Qword, next: nat, level: nat, cap: Capabilities)
    requires 2 <= level <= 4 && cap.Valid()
    requires next % 0x1000 == 0 && next < MAPPED_BYTES
    requires Marked(q, next + 3)
    ensures !GuestEntryFaults(q, level, cap) && !Leaf(q, level) && AddressBits(q) == next
    ensures q / 2 % 2 == 1 && q / 4 % 2 == 0
  {
    WidthCoversPages(cap.physicalWidth);
    hide Pow2, AddressBits;
    GuestEntryParts(q, next / 0x1000, q - next);
  }

  lemma LargePageAddress(k: nat)
    ensures 0x20_0000 * k / 0x20_0000 == k
    ensures 0x20_0000 * k % 0x20_0000 == 0
  {
    Peel(0, 0x20_0000, k);
  }

  lemma DirectoryEntryParts(q: Qword, k: nat, cap: Capabilities)
    requires cap.Valid() && k < 2048
    requires Marked(q, 0x20_0000 * k + 0x83)
    ensures !GuestEntryFaults(q, 2, cap) && Leaf(q, 2)
    ensures PageBase(q, 0x20_0000) == 0x20_0000 * k
    ensures q / 2 % 2 == 1 && q / 4 % 2 == 0
  {
    hide Pow2, AddressBits;
    WidthCoversPages(cap.physicalWidth);
    GuestEntryParts(q, 0x200 * k, q - 0x20_0000 * k);
    LargePageAddress(k);
  }

  // ----- The walk, structure by structure -----

  /** The processor reads the paging structure at `gpa` where it was put. */
  predicate ReadInPlace(ram: Ram, cap: Capabilities, second: Second, gpa: nat) {
    var r := Access(ram, cap, second, gpa);
    gpa + 8 <= |ram| && r.Mapped? && r.rights.read && r.hpa == gpa
  }

  lemma PointerStep(ram: Ram, cap: Capabilities, second: Second, table: nat, level: nat, la: nat, user: bool, next: nat)
    requires cap.Valid() && 2 <= level <= 4
    requires ReadInPlace(ram, cap, second, Slot(table, Index(la, level)))
    requires next % 0x1000 == 0 && next < MAPPED_BYTES
    requires Marked(QwordAt(ram, Slot(table, Index(la, level))), next + 3)
    ensures LinearWalk(ram, cap, second, table, level, la, true, user)
         == LinearWalk(ram, cap, second, next, level - 1, la, true, false)
  {
    hide Access, QwordAt, GuestEntryFaults, AddressBits, LargePage, Index, Marked;
    TableEntryParts(QwordAt(ram, Slot(table, Index(la, level))), next, level, cap);
  }

  /** A directory entry that maps a 2 MiB page, wherever it maps it. */
  lemma DirectoryStep(ram: Ram, cap: Capabilities, second: Second, table: nat, la: nat, q: Qword)
    requires ReadInPlace(ram, cap, second, Slot(table, Index(la, 2)))
    requires QwordAt(ram, Slot(table, Index(la, 2))) == q
    requires !GuestEntryFaults(q, 2, cap) && Leaf(q, 2)
    ensures LinearWalk(ram, cap, second, table, 2, la, true, false)
         == Reach(ram, cap, second, PageBase(q, 0x20_0000) + la % 0x20_0000, q / 2 % 2 == 1, false)
  {
    hide Access, QwordAt, GuestEntryFaults, AddressBits, LargePage, PageBase, Index, Reach;
  }

  /** All the paging structures can be read in place. */
  ghost predicate StructuresInPlace(ram: Ram, cap: Capabilities, second: Second) {
    forall gpa :: BootPaging.IA32E_PAGING_BASE <= gpa <= BootPaging.TABLES_END - 8 ==>
      ReadInPlace(ram, cap, second, gpa)
  }

  /** Root and pointer table lead to one entry of the flat array of directories. */
  lemma WalkToDirectory(ram: Ram, cap: Capabilities, second: Second, la: nat, third: nat, directory: nat)
    requires cap.Valid() && PointersHold(ram) && StructuresInPlace(ram, cap, second)
    requires Index(la, 4) == 0
    requires Index(la, 3) == third < MEMORY_SIZE
    requires TABLE_SIZE * third + Index(la, 2) == directory < TABLE_SIZE * MEMORY_SIZE
    ensures var pd := BootPaging.PD_BASE + 0x1000 * third;
      && Slot(pd, Index(la, 2)) == Slot(BootPaging.PD_BASE, directory)
      && LinearWalk(ram, cap, second, BootPaging.IA32E_PAGING_BASE, 4, la, true, true)
         == LinearWalk(ram, cap, second, pd, 2, la, true, false)
  {
    hide LinearWalk, QwordAt, Index, Marked, ReadInPlace;
    var root, pdpt := BootPaging.IA32E_PAGING_BASE, BootPaging.PDPT_BASE;
    assert Slot(root, 0) == root;
    PointerStep(ram, cap, second, root, 4, la, true, pdpt);
    PointerStep(ram, cap, second, pdpt, 3, la, false, BootPaging.PD_BASE + 0x1000 * third);
  }

  /** Where a linear address below 4 GiB leads is up to its directory entry alone. */
  lemma WalkFollowsDirectory(ram: Ram, cap: Capabilities, second: Second, la: nat, directory: nat, q: Qword)
    requires cap.Valid() && PointersHold(ram) && StructuresInPlace(ram, cap, second)
    requires la < MAPPED_BYTES && directory == la / 0x20_0000
    requires QwordAt(ram, Slot(BootPaging.PD_BASE, directory)) == q
    requires !GuestEntryFaults(q, 2, cap) && Leaf(q, 2)
    ensures LinearWalk(ram, cap, second, BootPaging.IA32E_PAGING_BASE, 4, la, true, true)
         == Reach(ram, cap, second, PageBase(q, 0x20_0000) + la % 0x20_0000, q / 2 % 2 == 1, false)
  {
    hide LinearWalk, QwordAt, Index, ReadInPlace, Reach, PageBase, GuestEntryFaults, Leaf, PointersHold;
    FlatIndices(la);
    var third := la / 0x4000_0000;
    WalkToDirectory(ram, cap, second, la, third, directory);
    DirectoryStep(ram, cap, second, BootPaging.PD_BASE + 0x1000 * third, la, q);
  }

  lemma WalkReachesItself(ram: Ram, cap: Capabilities, second: Second, la: nat)
    requires cap.Valid() && GuestTables(ram) && StructuresInPlace(ram, cap, second)
    requires la < MAPPED_BYTES
    ensures LinearWalk(ram, cap, second, BootPaging.IA32E_PAGING_BASE, 4, la, true, true)
         == Reach(ram, cap, second, la, true, false)
  {
    hide LinearWalk, QwordAt, Reach, GuestEntryFaults, Leaf, Marked, StructuresInPlace, PageBase, PointersHold;
    var directory := la / 0x20_0000;
    assert BootPaging.TABLES_END <= |ram| by { TablesInRam(ram); }
    var q := QwordAt(ram, Slot(BootPaging.PD_BASE, directory));
    DirectoryEntryParts(q, directory, cap);
    WalkFollowsDirectory(ram, cap, second, la, directory, q);
  }

  lemma TablesInRam(ram: Ram)
    requires PointersHold(ram)
    ensures BootPaging.TABLES_END <= |ram|
  {
    hide QwordAt, Marked;
  }

  // ----- The hypervisor's own accesses -----

  lemma RootOfPointer()
    ensures AddressBits(BootPaging.IA32E_PAGING_BASE) == BootPaging.IA32E_PAGING_BASE
  {
  }

  lemma DirectInPlace(ram: Ram, cap: Capabilities)
    requires BootPaging.TABLES_END <= |ram|
    ensures StructuresInPlace(ram, cap, Direct)
  {
  }

  /** The hypervisor finds its structures where they physically are. */
  lemma HostIdentity(ram: Ram, cap: Capabilities, la: nat)
    requires cap.Valid() && GuestTables(ram) && la < MAPPED_BYTES
    ensures HostWalk(ram, cap, BootPaging.IA32E_PAGING_BASE, la) == Translated(la, ALL_RIGHTS, false)
  {
    hide LinearWalk, PointersHold, QwordAt, Marked, AddressBits, StructuresInPlace;
    TablesInRam(ram);
    RootOfPointer();
    DirectInPlace(ram, cap);
    WalkReachesItself(ram, cap, Direct, la);
  }

  /**
   The directory entry `q` leads a supervisor access to `la` to `la` itself with all rights: as a
   2 MiB page or, if it points to a page table, through the entry that this table has for `la`.
   */
  predicate LeadsHome(ram: Ram, cap: Capabilities, q: Qword, la: nat) {
    && !GuestEntryFaults(q, 2, cap)
    && q / 2 % 2 == 1
    && if Leaf(q, 2) then PageBase(q, 0x20_0000) == la / 0x20_0000 * 0x20_0000
       else
         var e := Load(ram, Slot(AddressBits(q), Index(la, 1)));
         && !GuestEntryFaults(e, 1, cap)
         && e / 2 % 2 == 1
         && PageBase(e, 0x1000) == la / 0x1000 * 0x1000
  }

  lemma OffsetKept(base: nat, size: nat, page: nat, la: nat)
    requires size > 0
    requires page == la / size * size
    ensures base + la % size == la <==> base == page
  {
  }

  lemma DirectoryLevel(ram: Ram, cap: Capabilities, table: nat, la: nat, q: Qword)
    requires Slot(table, Index(la, 2)) + 8 <= |ram|
    requires QwordAt(ram, Slot(table, Index(la, 2))) == q
    ensures LinearWalk(ram, cap, Direct, table, 2, la, true, false) ==
            if GuestEntryFaults(q, 2, cap) then PageFault
            else if Leaf(q, 2) then
              Translated(PageBase(q, 0x20_0000) + la % 0x20_0000, Rights(true, q / 2 % 2 == 1, true), false)
            else LinearWalk(ram, cap, Direct, AddressBits(q), 1, la, q / 2 % 2 == 1, false)
  {
    hide QwordAt, GuestEntryFaults, AddressBits, LargePage, PageBase, Index;
  }

  lemma TableLevel(ram: Ram, cap: Capabilities, table: nat, la: nat, writable: bool)
    ensures var e := Load(ram, Slot(table, Index(la, 1)));
      LinearWalk(ram, cap, Direct, table, 1, la, writable, false) ==
      if GuestEntryFaults(e, 1, cap) then PageFault
      else Translated(PageBase(e, 0x1000) + la % 0x1000, Rights(true, writable && e / 2 % 2 == 1, true), false)
  {
    hide Load, GuestEntryFaults, AddressBits, LargePage, PageBase, Index;
  }

  /** The directory's entry alone decides where the hypervisor's walk goes from there. */
  lemma HostDirectory(ram: Ram, cap: Capabilities, la: nat, q: Qword)
    requires cap.Valid() && PointersHold(ram) && la < MAPPED_BYTES
    requires BootPaging.TABLES_END <= |ram|
    requires QwordAt(ram, Slot(BootPaging.PD_BASE, la / 0x20_0000)) == q
    ensures HostWalk(ram, cap, BootPaging.IA32E_PAGING_BASE, la) ==
            if GuestEntryFaults(q, 2, cap) then PageFault
            else if Leaf(q, 2) then
              Translated(PageBase(q, 0x20_0000) + la % 0x20_0000, Rights(true, q / 2 % 2 == 1, true), false)
            else LinearWalk(ram, cap, Direct, AddressBits(q), 1, la, q / 2 % 2 == 1, false)
  {
    hide LinearWalk, QwordAt, Index, GuestEntryFaults, Leaf, PageBase, PointersHold, StructuresInPlace, AddressBits;
    RootOfPointer();
    DirectInPlace(ram, cap);
    FlatIndices(la);
    var third := la / 0x4000_0000;
    WalkToDirectory(ram, cap, Direct, la, third, la / 0x20_0000);
    DirectoryLevel(ram, cap, BootPaging.PD_BASE + 0x1000 * third, la, q);
  }

  /**
   With one directory entry replaced by any qword, the hypervisor's accesses under it fault, or go
   where the entry leads; they still reach their own addresses with all rights exactly if the entry
   leads home.
   */
  lemma HostFollowsDirectory(ram: Ram, after: Ram, cap: Capabilities, la: nat, q: Qword)
    requires cap.Valid() && GuestTables(ram) && la < MAPPED_BYTES
    requires BootPaging.TABLES_END <= |ram|
    requires after == StoredQword(ram, Slot(BootPaging.PD_BASE, la / 0x20_0000), q)
    ensures var r := HostWalk(after, cap, BootPaging.IA32E_PAGING_BASE, la);
      && (GuestEntryFaults(q, 2, cap) ==> r == PageFault)
      && (!GuestEntryFaults(q, 2, cap) && Leaf(q, 2) ==>
            r == Translated(PageBase(q, 0x20_0000) + la % 0x20_0000, Rights(true, q / 2 % 2 == 1, true), false))
      && (r == Translated(la, ALL_RIGHTS, false) <==> LeadsHome(after, cap, q, la))
  {
    hide LinearWalk, HostWalk, QwordAt, Marked, AddressBits, GuestEntryFaults, Leaf, PageBase, Index, Load;
    PointersFrame(ram, after);
    HostDirectory(after, cap, la, q);
    TableLevel(after, cap, AddressBits(q), la, q / 2 % 2 == 1);
    OffsetKept(PageBase(q, 0x20_0000), 0x20_0000, la / 0x20_0000 * 0x20_0000, la);
    if !Leaf(q, 2) {
      var e := Load(after, Slot(AddressBits(q), Index(la, 1)));
      OffsetKept(PageBase(e, 0x1000), 0x1000, la / 0x1000 * 0x1000, la);
    }
  }

  lemma PointersFrame(before: Ram, after: Ram)
    requires |before| == |after| && PointersHold(before)
    requires Same(before, after, BootPaging.IA32E_PAGING_BASE, BootPaging.PD_BASE)
    ensures PointersHold(after)
  {
    hide QwordAt, Marked;
    SameQword(before, after, BootPaging.IA32E_PAGING_BASE);
    forall k | 0 <= k < 4
      ensures QwordAt(after, Slot(BootPaging.PDPT_BASE, k)) == QwordAt(before, Slot(BootPaging.PDPT_BASE, k))
    {
      SameQword(before, after, Slot(BootPaging.PDPT_BASE, k));
    }
  }

  // ----- The guest's accesses -----

  /** Reading a guest paging structure at `gpa` is allowed. */
  predicate StructureReadable(pages: PageFlags, cap: Capabilities, gpa: nat) {
    var r := Lookup(pages, cap, gpa);
    r.Mapped? && r.rights.read
  }

  lemma LookupIsIdentity(pages: PageFlags, cap: Capabilities, gpa: nat)
    ensures Lookup(pages, cap, gpa).Mapped? ==> Lookup(pages, cap, gpa).hpa == gpa
  {
  }

  lemma StructureReadInPlace(ram: Ram, cap: Capabilities, base: nat, pages: PageFlags, gpa: nat)
    requires cap.Valid()
    requires Installed(ram, base, pages) && base + TABLES_BYTES <= Pow2(cap.physicalWidth)
    requires gpa + 8 <= |ram| && StructureReadable(pages, cap, gpa)
    ensures ReadInPlace(ram, cap, Through(EptPointer(base)), gpa)
  {
    hide Installed, EptPointer, EptWalk, LookupFlags;
    InstalledPlace(ram, base, pages);
    WalkRefinesMap(ram, cap, base, pages, gpa);
    LookupIsIdentity(pages, cap, gpa);
  }

  /** What a nested access to `la` meets, by the flags of its page alone. */
  function NestedLookup(pages: PageFlags, cap: Capabilities, la: nat): LinearResult {
    match Lookup(pages, cap, la)
    case Mapped(_, rights, _) => Translated(la, rights, false)
    case cause => EptFault(la, cause)
  }

  lemma ReachRefinesMap(ram: Ram, cap: Capabilities, base: nat, pages: PageFlags, gpa: nat)
    requires cap.Valid()
    requires Installed(ram, base, pages) && base + TABLES_BYTES <= Pow2(cap.physicalWidth)
    ensures Reach(ram, cap, Through(EptPointer(base)), gpa, true, false) == NestedLookup(pages, cap, gpa)
  {
    hide Installed, EptPointer, EptWalk, LookupFlags;
    InstalledPlace(ram, base, pages);
    WalkRefinesMap(ram, cap, base, pages, gpa);
    LookupIsIdentity(pages, cap, gpa);
  }

  /** The six pages of the guest's own tables can be read through the extended page tables. */
  ghost predicate StructuresReadable(pages: PageFlags, cap: Capabilities) {
    forall gpa :: BootPaging.IA32E_PAGING_BASE <= gpa < BootPaging.TABLES_END ==>
      StructureReadable(pages, cap, gpa)
  }

  lemma StructuresReadInPlace(ram: Ram, cap: Capabilities, base: nat, pages: PageFlags)
    requires cap.Valid()
    requires Installed(ram, base, pages) && base + TABLES_BYTES <= Pow2(cap.physicalWidth)
    requires BootPaging.TABLES_END <= |ram| && StructuresReadable(pages, cap)
    ensures StructuresInPlace(ram, cap, Through(EptPointer(base)))
  {
    hide Installed, EptPointer, ReadInPlace, StructureReadable;
    InstalledPlace(ram, base, pages);
    forall gpa | BootPaging.IA32E_PAGING_BASE <= gpa <= BootPaging.TABLES_END - 8
      ensures ReadInPlace(ram, cap, Through(EptPointer(base)), gpa)
    {
      StructureReadInPlace(ram, cap, base, pages, gpa);
    }
  }

  /**
   Every linear address below 4 GiB translates through both sets of tables as the flags of its
   own page say, to itself; the guest's entries refuse it to user mode and nothing else.
   */
  lemma NestedWalkRefinesMap(ram: Ram, cap: Capabilities, base: nat, pages: PageFlags, la: nat)
    requires cap.Valid()
    requires Installed(ram, base, pages) && base + TABLES_BYTES <= Pow2(cap.physicalWidth)
    requires GuestTables(ram) && StructuresReadable(pages, cap)
    requires la < MAPPED_BYTES
    ensures NestedWalk(ram, cap, EptPointer(base), BootPaging.IA32E_PAGING_BASE, la)
         == NestedLookup(pages, cap, la)
  {
    hide Installed, EptPointer, LinearWalk, PointersHold, StructuresReadable, StructuresInPlace, NestedLookup, Reach,
         QwordAt, Marked, AddressBits;
    InstalledPlace(ram, base, pages);
    TablesInRam(ram);
    RootOfPointer();
    StructuresReadInPlace(ram, cap, base, pages);
    WalkReachesItself(ram, cap, Through(EptPointer(base)), la);
    ReachRefinesMap(ram, cap, base, pages, la);
  }

  // ----- Before and after one page is hooked -----

  /** The page is executable-free, write-only: a misconfiguration for every kind of access. */
  function HookedFlags(page: nat): PageFlags
    requires page < PAGES
  {
    DefaultFlags()[page := HOOK_FLAGS]
  }

  lemma LookupOfDefault(cap: Capabilities, gpa: nat)
    ensures Lookup(DefaultFlags(), cap, gpa) ==
            if gpa < MAPPED_BYTES then Mapped(gpa, Rights(true, true, true), WRITEBACK) else NotPresent
  {
  }

  /** Among all guest-physical addresses exactly those of the hooked page are misconfigured. */
  lemma LookupOfHooked(cap: Capabilities, page: nat, gpa: nat)
    requires page < PAGES
    ensures Lookup(HookedFlags(page), cap, gpa) ==
            if gpa / PAGE_SIZE == page then Misconfigured
            else if gpa < MAPPED_BYTES then Mapped(gpa, Rights(true, true, true), WRITEBACK)
            else NotPresent
  {
  }

  lemma NestedIdentity(ram: Ram, cap: Capabilities, base: nat, la: nat)
    requires cap.Valid()
    requires Installed(ram, base, DefaultFlags()) && base + TABLES_BYTES <= Pow2(cap.physicalWidth)
    requires GuestTables(ram)
    requires la < MAPPED_BYTES
    ensures NestedWalk(ram, cap, EptPointer(base), BootPaging.IA32E_PAGING_BASE, la)
         == Translated(la, ALL_RIGHTS, false)
  {
    hide Installed, GuestTables, EptPointer, NestedWalk, DefaultFlags, Lookup;
    forall gpa | BootPaging.IA32E_PAGING_BASE <= gpa < BootPaging.TABLES_END
      ensures StructureReadable(DefaultFlags(), cap, gpa)
    {
      LookupOfDefault(cap, gpa);
    }
    NestedWalkRefinesMap(ram, cap, base, DefaultFlags(), la);
    LookupOfDefault(cap, la);
  }

  /** With one page hooked, translation fails for its addresses and is the identity elsewhere. */
  lemma NestedIdentityButHooked(ram: Ram, cap: Capabilities, base: nat, page: nat, la: nat)
    requires cap.Valid()
    requires page < PAGES
    requires page * PAGE_SIZE < BootPaging.IA32E_PAGING_BASE || BootPaging.TABLES_END <= page * PAGE_SIZE
    requires Installed(ram, base, HookedFlags(page)) && base + TABLES_BYTES <= Pow2(cap.physicalWidth)
    requires GuestTables(ram)
    requires la < MAPPED_BYTES
    ensures NestedWalk(ram, cap, EptPointer(base), BootPaging.IA32E_PAGING_BASE, la) ==
            if la / PAGE_SIZE == page then EptFault(la, Misconfigured)
            else Translated(la, ALL_RIGHTS, false)
  {
    hide Installed, GuestTables, EptPointer, NestedWalk, HookedFlags, Lookup;
    forall gpa | BootPaging.IA32E_PAGING_BASE <= gpa < BootPaging.TABLES_END
      ensures StructureReadable(HookedFlags(page), cap, gpa)
    {
      LookupOfHooked(cap, page, gpa);
    }
    NestedWalkRefinesMap(ram, cap, base, HookedFlags(page), la);
    LookupOfHooked(cap, page, la);
  }
}
