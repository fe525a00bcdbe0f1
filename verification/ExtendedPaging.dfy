/** src/vmm/ept.c: construction of the extended page tables and per-page access rights. */
module ExtendedPaging {
  import opened Bits
  import opened Memory
  import opened EptEntries
  import opened EptHardware

  const TABLE_SIZE: nat := 512
  const MEMORY_SIZE: nat := 4
  const NESTED_TABLES_COUNT: nat := 4
  const PAGE_SIZE: nat := 0x1000
  const PAGES: nat := 0x10_0000
  const MAPPED_BYTES: nat := 0x1_0000_0000

  // Offsets of the members of the tables structure, and its size: one table, one table,
  // MEMORY_SIZE tables and TABLE_SIZE * MEMORY_SIZE tables of TABLE_SIZE qwords each.
  const PDPT: nat := 0x1000
  const PDS: nat := 0x2000
  const PTS: nat := 0x6000
  const TABLES_BYTES: nat := 0x80_6000

  const ZERO_ENTRY := EptEntry(0, 0, 0, 0, 0, 0, 0, 0, 0, 0, 0, 0, 0, 0, 0, 0, 0, 0, 0, 0)

  function EntryAt(ram: Ram, a: nat): EptEntry
    requires a + 8 <= |ram|
  {
    Unpack(QwordAt(ram, a))
  }

  function WithAddress(e: EptEntry, address: Qword): EptEntry {
    e.(physicalAddress := address / PAGE_SIZE % 0x10_0000_0000)
  }

  function WithFlags(e: EptEntry, flags: EptFlags): EptEntry {
    e.(read := flags.read,
       write := flags.write,
       supervisorExecute := flags.supervisorExecute,
       memoryType := flags.memoryType,
       ignorePat := flags.ignorePat,
       dirty := flags.dirty,
       userExecute := flags.userExecute,
       verifyGuestPaging := flags.verifyGuestPaging,
       pagingWrite := flags.pagingWrite,
       supervisorShadowStack := flags.supervisorShadowStack,
       subPageWrite := flags.subPageWrite,
       suppressVe := flags.suppressVe)
  }

  lemma UnpackOfZero()
    ensures Unpack(0) == ZERO_ENTRY
  {
    hide Unpack;
    PackOfUnpack(0);
    ZeroFields(Unpack(0));
  }

  lemma ZeroFields(e: EptEntry)
    requires Pack(e) == 0
    ensures e == ZERO_ENTRY
  {
    hide Pack, From4, From8, From12, From16;
    LowFieldsZero(e);
    MiddleFieldsZero(e);
    HighFieldsZero(e);
  }

  lemma LowFieldsZero(e: EptEntry)
    requires Pack(e) == 0
    ensures e.read == e.write == e.supervisorExecute == e.memoryType == 0 && From4(e) == 0
  {
    hide From4;
  }

  lemma MiddleFieldsZero(e: EptEntry)
    requires From4(e) == 0
    ensures e.ignorePat == e.pad7 == e.accessed == e.dirty == 0
    ensures e.userExecute == e.pad11 == e.physicalAddress == e.pad48 == 0 && From12(e) == 0
  {
    hide From12;
  }

  lemma HighFieldsZero(e: EptEntry)
    requires From12(e) == 0
    ensures e.pad52 == e.verifyGuestPaging == e.pagingWrite == e.pad59 == 0
    ensures e.supervisorShadowStack == e.subPageWrite == e.pad62 == e.suppressVe == 0
  {
  }

  /** A zeroed entry once its address and flags are set. */
  function EntryOf(address: Qword, flags: EptFlags): EptEntry {
    WithFlags(WithAddress(ZERO_ENTRY, address), flags)
  }

  method SetEntryAddress(ram: array<Byte>, entry: nat, address: Qword)
    requires entry + 8 <= ram.Length
    modifies ram
    ensures SameOutside(old(ram[..]), ram[..], entry, entry + 8)
    ensures EntryAt(ram[..], entry) == WithAddress(old(EntryAt(ram[..], entry)), address)
  {
    var e := EntryAt(ram[..], entry);
    e := e.(physicalAddress := address / PAGE_SIZE % 0x10_0000_0000);
    WriteQword(ram, entry, Pack(e));
    UnpackOfPack(e);
  }

  method SetEntryFlags(ram: array<Byte>, entry: nat, flags: EptFlags)
    requires entry + 8 <= ram.Length
    modifies ram
    ensures SameOutside(old(ram[..]), ram[..], entry, entry + 8)
    ensures EntryAt(ram[..], entry) == WithFlags(old(EntryAt(ram[..], entry)), flags)
  {
    var e := EntryAt(ram[..], entry);
    e := e.(read := flags.read);
    e := e.(write := flags.write);
    e := e.(supervisorExecute := flags.supervisorExecute);
    e := e.(memoryType := flags.memoryType);
    e := e.(ignorePat := flags.ignorePat);
    e := e.(dirty := flags.dirty);
    e := e.(userExecute := flags.userExecute);
    e := e.(verifyGuestPaging := flags.verifyGuestPaging);
    e := e.(pagingWrite := flags.pagingWrite);
    e := e.(supervisorShadowStack := flags.supervisorShadowStack);
    e := e.(subPageWrite := flags.subPageWrite);
    e := e.(suppressVe := flags.suppressVe);
    WriteQword(ram, entry, Pack(e));
    UnpackOfPack(e);
  }

  /** `count` entries from `table` on name consecutive pages from `first` on. */
  ghost predicate Filled(ram: Ram, table: nat, count: nat, first: nat, flags: EptFlags) {
    && Slot(table, count) <= |ram|
    && first + PAGE_SIZE * count <= WALK_LIMIT
    && forall k :: 0 <= k < count ==>
         EntryAt(ram, Slot(table, k)) == EntryOf(first + PAGE_SIZE * k, flags)
  }

  ghost predicate Zeroed(ram: Ram, from: nat, to: nat) {
    to <= |ram| && forall x :: from <= x < to ==> ram[x] == 0
  }

  /** The pair of calls that fills one entry. */
  method SetEntry(ram: array<Byte>, entry: nat, address: Qword, flags: EptFlags)
    requires entry + 8 <= ram.Length
    requires QwordAt(ram[..], entry) == 0
    modifies ram
    ensures EntryAt(ram[..], entry) == EntryOf(address, flags)
    ensures SameOutside(old(ram[..]), ram[..], entry, entry + 8)
  {
    hide Unpack;
    UnpackOfZero();
    SetEntryAddress(ram, entry, address);
    SetEntryFlags(ram, entry, flags);
  }

  /** The loops over `pdpt`, `pds` and `pts` differ only in table, count, address and flags. */
  method FillTable(ram: array<Byte>, table: nat, count: nat, first: nat, flags: EptFlags)
    requires Slot(table, count) <= ram.Length
    requires first + PAGE_SIZE * count <= WALK_LIMIT
    requires Zeroed(ram[..], table, Slot(table, count))
    modifies ram
    ensures Filled(ram[..], table, count, first, flags)
    ensures SameOutside(old(ram[..]), ram[..], table, Slot(table, count))
  {
    hide Unpack, EntryOf, QwordAt;
    var i := 0;
    var address: Qword := first;
    while i < count
      invariant 0 <= i <= count
      invariant address == first + PAGE_SIZE * i
      invariant Filled(ram[..], table, i, first, flags)
      invariant SameOutside(old(ram[..]), ram[..], table, Slot(table, i))
    {
      ghost var before := ram[..];
      ZeroQword(before, Slot(table, i));
      SetEntry(ram, Slot(table, i), address, flags);
      forall k | 0 <= k < i ensures QwordAt(ram[..], Slot(table, k)) == QwordAt(before, Slot(table, k)) {
        SameQword(before, ram[..], Slot(table, k));
      }
      i, address := i + 1, address + PAGE_SIZE;
    }
  }

  /**
   The abstract content of the tables: the flags of each of the 2^20 guest-physical pages.
   */
  type PageFlags = f: seq<EptFlags> | |f| == PAGES witness seq(PAGES, _ => PAGE_FLAGS)

  function DefaultFlags(): PageFlags {
    seq(PAGES, page requires 0 <= page < PAGES => PAGE_FLAGS)
  }

  /** The tables at `base` identity-map the first 4 GiB with the given flags and nothing else. */
  ghost predicate Installed(ram: Ram, base: nat, pages: PageFlags) {
    && base + TABLES_BYTES <= |ram|
    && base + TABLES_BYTES <= WALK_LIMIT
    && base % PAGE_SIZE == 0
    && UpperTables(ram, base)
    && LeavesHold(ram, base + PTS, pages)
  }

  ghost predicate UpperTables(ram: Ram, base: nat)
    requires base + TABLES_BYTES <= |ram|
  {
    && Filled(ram, base, 1, base + PDPT, TABLE_FLAGS)
    && ZeroEntries(ram, base, 1)
    && Filled(ram, base + PDPT, MEMORY_SIZE, base + PDS, TABLE_FLAGS)
    && ZeroEntries(ram, base + PDPT, MEMORY_SIZE)
    && Filled(ram, base + PDS, TABLE_SIZE * MEMORY_SIZE, base + PTS, TABLE_FLAGS)
  }

  /** The entries of a 512-entry table from `used` on are zero. */
  ghost predicate ZeroEntries(ram: Ram, table: nat, used: nat)
    requires Slot(table, TABLE_SIZE) <= |ram|
  {
    forall k :: used <= k < TABLE_SIZE ==> QwordAt(ram, Slot(table, k)) == 0
  }

  ghost predicate LeavesHold(ram: Ram, table: nat, pages: PageFlags)
    requires Slot(table, PAGES) <= |ram|
  {
    forall k :: 0 <= k < PAGES ==>
      EntryAt(ram, Slot(table, k)) == EntryOf(PAGE_SIZE * k, pages[k])
  }

  lemma FilledFrame(before: Ram, after: Ram, table: nat, count: nat, first: nat, flags: EptFlags)
    requires |before| == |after|
    requires Filled(before, table, count, first, flags)
    requires Same(before, after, table, Slot(table, count))
    ensures Filled(after, table, count, first, flags)
  {
    hide QwordAt, Unpack, EntryOf;
    forall k | 0 <= k < count
      ensures QwordAt(after, Slot(table, k)) == QwordAt(before, Slot(table, k))
    {
      SameQword(before, after, Slot(table, k));
    }
  }

  lemma FilledAt(ram: Ram, table: nat, count: nat, first: nat, flags: EptFlags, k: nat)
    requires Filled(ram, table, count, first, flags)
    requires k < count
    ensures Slot(table, k) + 8 <= |ram|
    ensures first + PAGE_SIZE * k < WALK_LIMIT
    ensures EntryAt(ram, Slot(table, k)) == EntryOf(first + PAGE_SIZE * k, flags)
  {
    hide EntryAt, EntryOf;
  }

  lemma ZeroEntriesFrame(before: Ram, after: Ram, table: nat, used: nat)
    requires |before| == |after| && Slot(table, TABLE_SIZE) <= |before|
    requires ZeroEntries(before, table, used)
    requires Same(before, after, Slot(table, used), Slot(table, TABLE_SIZE))
    ensures ZeroEntries(after, table, used)
  {
    hide QwordAt;
    forall k | used <= k < TABLE_SIZE
      ensures QwordAt(after, Slot(table, k)) == QwordAt(before, Slot(table, k))
    {
      SameQword(before, after, Slot(table, k));
    }
  }

  lemma UpperTablesFrame(before: Ram, after: Ram, base: nat)
    requires |before| == |after| && base + TABLES_BYTES <= |before|
    requires UpperTables(before, base)
    requires Same(before, after, base, base + PTS)
    ensures UpperTables(after, base)
  {
    hide Filled, ZeroEntries;
    FilledFrame(before, after, base, 1, base + PDPT, TABLE_FLAGS);
    ZeroEntriesFrame(before, after, base, 1);
    FilledFrame(before, after, base + PDPT, MEMORY_SIZE, base + PDS, TABLE_FLAGS);
    ZeroEntriesFrame(before, after, base + PDPT, MEMORY_SIZE);
    FilledFrame(before, after, base + PDS, TABLE_SIZE * MEMORY_SIZE, base + PTS, TABLE_FLAGS);
  }

  lemma LeafFrame(before: Ram, after: Ram, table: nat, pages: PageFlags, page: nat, flags: EptFlags)
    requires page < PAGES && |before| == |after| && Slot(table, PAGES) <= |before|
    requires LeavesHold(before, table, pages)
    requires forall x :: table <= x < Slot(table, PAGES) && !(Slot(table, page) <= x < Slot(table, page + 1)) ==>
               after[x] == before[x]
    requires EntryAt(after, Slot(table, page)) == EntryOf(PAGE_SIZE * page, flags)
    ensures LeavesHold(after, table, pages[page := flags])
  {
    hide QwordAt, Unpack, EntryOf;
    forall k | 0 <= k < PAGES && k != page
      ensures QwordAt(after, Slot(table, k)) == QwordAt(before, Slot(table, k))
    {
      SameQword(before, after, Slot(table, k));
    }
  }

  /** Stores outside the tables leave the translation as it was. */
  lemma InstalledFrame(before: Ram, after: Ram, base: nat, pages: PageFlags)
    requires |before| == |after|
    requires Installed(before, base, pages)
    requires Same(before, after, base, base + TABLES_BYTES)
    ensures Installed(after, base, pages)
  {
    hide QwordAt, Unpack, EntryOf, UpperTables;
    UpperTablesFrame(before, after, base);
    SameQword(before, after, Slot(base + PTS, 0));
    LeafFrame(before, after, base + PTS, pages, 0, pages[0]);
    assert pages[0 := pages[0]] == pages;
  }

  lemma ZeroedEntries(ram: Ram, table: nat, used: nat)
    requires used <= TABLE_SIZE
    requires Zeroed(ram, Slot(table, used), Slot(table, TABLE_SIZE))
    ensures ZeroEntries(ram, table, used)
  {
    hide QwordAt;
    forall k | used <= k < TABLE_SIZE ensures QwordAt(ram, Slot(table, k)) == 0 {
      ZeroQword(ram, Slot(table, k));
    }
  }

  function EptPointer(base: nat): Qword
    requires base < WALK_LIMIT
  {
    WRITEBACK + 8 * (NESTED_TABLES_COUNT - 1) + 0x1000 * (base / PAGE_SIZE % 0x10_0000_0000)
  }

  method InitializeExtendedPageTables(ram: array<Byte>, base: nat) returns (eptp: Qword)
    requires base % PAGE_SIZE == 0
    requires base + TABLES_BYTES <= ram.Length && base + TABLES_BYTES <= WALK_LIMIT
    requires Zeroed(ram[..], base, base + TABLES_BYTES)
    modifies ram
    ensures Installed(ram[..], base, DefaultFlags())
    ensures eptp == EptPointer(base)
    ensures SameOutside(old(ram[..]), ram[..], base, base + TABLES_BYTES)
  {
    hide QwordAt, Unpack, EntryOf, UpperTables, LeavesHold, DefaultFlags;
    eptp := EptPointer(base);

    ghost var start := ram[..];
    ZeroQword(ram[..], base);
    SetEntry(ram, base, base + PDPT, TABLE_FLAGS);
    ghost var s1 := ram[..];
    FillTable(ram, base + PDPT, MEMORY_SIZE, base + PDS, TABLE_FLAGS);
    ghost var s2 := ram[..];
    FillTable(ram, base + PDS, MEMORY_SIZE * TABLE_SIZE, base + PTS, TABLE_FLAGS);
    ghost var s3 := ram[..];
    FillTable(ram, base + PTS, MEMORY_SIZE * TABLE_SIZE * TABLE_SIZE, 0, PAGE_FLAGS);
    TablesBuilt(start, s1, s2, s3, ram[..], base);
    LeavesBuilt(ram[..], base + PTS);
  }

  /** The upper tables, each filled in turn over zeroed memory. */
  lemma TablesBuilt(start: Ram, s1: Ram, s2: Ram, s3: Ram, end: Ram, base: nat)
    requires |start| == |s1| == |s2| == |s3| == |end| && base + TABLES_BYTES <= |start|
    requires Zeroed(start, base, base + TABLES_BYTES)
    requires SameOutside(start, s1, base, base + 8)
    requires Filled(s1, base, 1, base + PDPT, TABLE_FLAGS)
    requires SameOutside(s1, s2, base + PDPT, Slot(base + PDPT, MEMORY_SIZE))
    requires Filled(s2, base + PDPT, MEMORY_SIZE, base + PDS, TABLE_FLAGS)
    requires SameOutside(s2, s3, base + PDS, base + PTS)
    requires Filled(s3, base + PDS, TABLE_SIZE * MEMORY_SIZE, base + PTS, TABLE_FLAGS)
    requires SameOutside(s3, end, base + PTS, base + TABLES_BYTES)
    ensures UpperTables(end, base)
  {
    hide Filled, ZeroEntries;
    FilledFrame(s1, end, base, 1, base + PDPT, TABLE_FLAGS);
    FilledFrame(s2, end, base + PDPT, MEMORY_SIZE, base + PDS, TABLE_FLAGS);
    FilledFrame(s3, end, base + PDS, TABLE_SIZE * MEMORY_SIZE, base + PTS, TABLE_FLAGS);
    ZeroedEntries(end, base, 1);
    ZeroedEntries(end, base + PDPT, MEMORY_SIZE);
  }

  lemma LeavesBuilt(ram: Ram, table: nat)
    requires Filled(ram, table, PAGES, 0, PAGE_FLAGS)
    ensures LeavesHold(ram, table, DefaultFlags())
  {
    hide EntryAt, EntryOf;
  }

  /** The leaf of the page of `gpa`: the code indexes `pts` without a bound. */
  function LeafSlot(base: nat, gpa: nat): nat {
    Slot(base + PTS, gpa / PAGE_SIZE)
  }

  /** The effect of one call of `UpdateGpaAccessRights`. */
  ghost predicate Updated(before: Ram, after: Ram, base: nat, gpa: nat, flags: EptFlags)
    requires |before| == |after| && LeafSlot(base, gpa) + 8 <= |before|
  {
    var entry := LeafSlot(base, gpa);
    && EntryAt(after, entry) == WithFlags(EntryAt(before, entry), flags)
    && SameOutside(before, after, entry, entry + 8)
  }

  /** Returns whether the alignment assertion stopped the machine. */
  method UpdateGpaAccessRights(ram: array<Byte>, base: nat, gpa: Qword, flags: EptFlags)
    returns (panicked: bool)
    requires gpa % PAGE_SIZE == 0 ==> LeafSlot(base, gpa) + 8 <= ram.Length
    modifies ram
    ensures panicked <==> gpa % PAGE_SIZE != 0
    ensures if panicked then ram[..] == old(ram[..]) else Updated(old(ram[..]), ram[..], base, gpa, flags)
  {
    if gpa % PAGE_SIZE != 0 {
      return true;
    }
    hide EntryAt, WithFlags;
    var gpaPage := gpa / PAGE_SIZE;
    SetEntryFlags(ram, Slot(base + PTS, gpaPage), flags);
    panicked := false;
  }

  lemma LeafInTables(base: nat, gpa: nat)
    ensures LeafSlot(base, gpa) + 8 <= base + TABLES_BYTES <==> gpa < MAPPED_BYTES
  {
  }

  /**
   Below 4 GiB an update stays inside the tables. From 4 GiB up it leaves all of them as they are
   and rewrites a qword behind them, as many entries on as the page is beyond the last.
   */
  lemma UpdateStaysInTablesIff(before: Ram, after: Ram, base: nat, gpa: nat, flags: EptFlags)
    requires |before| == |after| && base + TABLES_BYTES <= |before| && LeafSlot(base, gpa) + 8 <= |before|
    requires Updated(before, after, base, gpa, flags)
    ensures gpa < MAPPED_BYTES ==> SameOutside(before, after, base, base + TABLES_BYTES)
    ensures gpa >= MAPPED_BYTES ==>
      var behind := base + TABLES_BYTES + 8 * ((gpa - MAPPED_BYTES) / PAGE_SIZE);
      && behind + 8 <= |before|
      && Same(before, after, base, base + TABLES_BYTES)
      && EntryAt(after, behind) == WithFlags(EntryAt(before, behind), flags)
  {
    hide EntryAt, WithFlags;
    LeafInTables(base, gpa);
    if gpa >= MAPPED_BYTES {
      assert gpa / PAGE_SIZE == PAGES + (gpa - MAPPED_BYTES) / PAGE_SIZE;
    }
  }

  lemma InstalledAfterUpdate(before: Ram, after: Ram, base: nat, pages: PageFlags, gpa: nat, flags: EptFlags)
    requires gpa < MAPPED_BYTES && |before| == |after|
    requires Installed(before, base, pages) && LeafSlot(base, gpa) + 8 <= |before|
    requires Updated(before, after, base, gpa, flags)
    ensures Installed(after, base, pages[gpa / PAGE_SIZE := flags])
  {
    hide EntryAt, UpperTables;
    UpperTablesFrame(before, after, base);
    LeafFrame(before, after, base + PTS, pages, gpa / PAGE_SIZE, flags);
  }

  // ----- What the processor reads in an entry -----

  /** The bit positions of the manual find the fields of the structure. */
  lemma PositionsOfFields(q: Qword)
    ensures q % 2 == Unpack(q).read
    ensures q / 2 % 2 == Unpack(q).write
    ensures q / 4 % 2 == Unpack(q).supervisorExecute
    ensures q / 8 % 8 == Unpack(q).memoryType
    ensures q / 0x40 % 2 == Unpack(q).ignorePat
    ensures q / 0x80 % 2 == Unpack(q).pad7
    ensures q / 0x1000 % 0x10_0000_0000 == Unpack(q).physicalAddress
    ensures q / 0x1000 / 0x10_0000_0000 % 16 == Unpack(q).pad48
  {
    assert q / 2 / 2 == q / 4;
    assert q / 4 / 2 == q / 8;
    assert q / 8 / 8 == q / 0x40;
    assert q / 0x40 / 2 == q / 0x80;
    assert q / 0x80 / 2 == q / 0x100;
    assert q / 0x100 / 2 == q / 0x200;
    assert q / 0x200 / 2 == q / 0x400;
    assert q / 0x400 / 2 == q / 0x800;
    assert q / 0x800 / 2 == q / 0x1000;
  }

  /** The fields cut off below the address are twelve bits. */
  lemma CutTwelve(q: nat)
    ensures q / 2 / 2 / 2 / 8 / 2 / 2 == q / 0x100
    ensures q / 0x100 / 2 / 2 / 2 / 2 == q / 0x1000
  {
    assert q / 2 / 2 / 2 / 8 == q / 0x40;
    assert q / 0x40 / 2 / 2 == q / 0x100;
    assert q / 0x100 / 2 / 2 / 2 / 2 == q / 0x1000;
  }

  const BIT_57: nat := 0x200_0000_0000_0000

  lemma CutFiftySeven(q: nat)
    ensures q / 0x1000 / 0x10_0000_0000 / 16 / 32 == q / BIT_57
  {
    assert q / 0x1000 / 0x10_0000_0000 == q / 0x1_0000_0000_0000;
    assert q / 0x1_0000_0000_0000 / 16 == q / 0x10_0000_0000_0000;
    assert q / 0x10_0000_0000_0000 / 32 == q / BIT_57;
  }

  /** Bits 8 to 10, and the five from 57 on that have a name. */
  predicate NamedBits(q: nat, accessed: U1, dirty: U1, userExecute: U1, verifyGuestPaging: U1,
                      pagingWrite: U1, supervisorShadowStack: U1, subPageWrite: U1, suppressVe: U1)
  {
    var low, high := q / 0x100, q / BIT_57;
    && low % 2 == accessed
    && low / 2 % 2 == dirty
    && low / 2 / 2 % 2 == userExecute
    && high % 2 == verifyGuestPaging
    && high / 2 % 2 == pagingWrite
    && high / 2 / 2 / 2 % 2 == supervisorShadowStack
    && high / 2 / 2 / 2 / 2 % 2 == subPageWrite
    && high / 2 / 2 / 2 / 2 / 2 / 2 == suppressVe
  }

  lemma PositionsOfNamedBits(q: Qword)
    ensures var e := Unpack(q);
      NamedBits(q, e.accessed, e.dirty, e.userExecute, e.verifyGuestPaging, e.pagingWrite, e.supervisorShadowStack,
                e.subPageWrite, e.suppressVe)
  {
    CutTwelve(q);
    CutFiftySeven(q);
  }

  lemma FortyBits(x: nat)
    ensures x % 0x100_0000_0000 == x % 0x10_0000_0000 + 0x10_0000_0000 * (x / 0x10_0000_0000 % 16)
  {
    var above := x / 0x10_0000_0000;
    Peel(x % 0x10_0000_0000 + 0x10_0000_0000 * (above % 16), 0x100_0000_0000, above / 16);
  }

  lemma FourBits(q: nat)
    ensures q / 8 % 16 == q / 8 % 8 + 8 * (q / 0x40 % 2)
  {
    assert q / 8 / 8 == q / 0x40;
  }

  /** The 40 address bits of the manual are the 36 of the structure and the 4 that must be zero. */
  lemma PositionsOfAddress(q: Qword)
    ensures AddressBits(q) == 0x1000 * (Unpack(q).physicalAddress + 0x10_0000_0000 * Unpack(q).pad48)
    ensures q / 8 % 16 == Unpack(q).memoryType + 8 * Unpack(q).ignorePat
  {
    hide Unpack;
    PositionsOfFields(q);
    FortyBits(q / 0x1000);
    FourBits(q);
  }

  lemma ProcessorReads(q: Qword, address: Qword, flags: EptFlags)
    requires address % PAGE_SIZE == 0 && address < WALK_LIMIT
    requires Unpack(q) == EntryOf(address, flags)
    ensures AddressBits(q) == address
    ensures RightsOf(q) == Rights(flags.read == 1, flags.write == 1, flags.supervisorExecute == 1)
    ensures q / 8 % 8 == flags.memoryType
    ensures q / 8 % 16 == flags.memoryType + 8 * flags.ignorePat
    ensures !LargePage(q)
  {
    hide Unpack, AddressBits;
    PositionsOfFields(q);
    PositionsOfAddress(q);
  }

  /** The flags the translation does not look at stand where section 28.3.2 puts them. */
  lemma ProcessorReadsRest(q: Qword, address: Qword, flags: EptFlags)
    requires Unpack(q) == EntryOf(address, flags)
    ensures NamedBits(q, 0, flags.dirty, flags.userExecute, flags.verifyGuestPaging,
                      flags.pagingWrite, flags.supervisorShadowStack, flags.subPageWrite, flags.suppressVe)
  {
    hide Unpack, NamedBits;
    PositionsOfNamedBits(q);
  }

  // ----- The walk refines a map from page numbers to flags -----

  function LookupFlags(f: EptFlags, cap: Capabilities, gpa: nat): EptResult {
    if f.read == 0 && f.write == 0 && f.supervisorExecute == 0 then NotPresent
    else if f.read == 0 && (f.write == 1 || !cap.executeOnly) then Misconfigured
    else if f.memoryType in {2, 3, 7} then Misconfigured
    else Mapped(gpa, Rights(f.read == 1, f.write == 1, f.supervisorExecute == 1), f.memoryType)
  }

  /** What an access to `gpa` meets, by the flags of its page alone. */
  function Lookup(pages: PageFlags, cap: Capabilities, gpa: nat): EptResult {
    if gpa >= MAPPED_BYTES then NotPresent
    else LookupFlags(pages[gpa / PAGE_SIZE], cap, gpa)
  }

  lemma {:induction false} WidthCoversPages(width: nat)
    requires width >= 36
    ensures Pow2(width) >= 0x10_0000_0000
  {
    if width == 36 {
      assert Pow2(12) == 0x1000;
      assert Pow2(24) == 0x100_0000;
      assert Pow2(36) == 0x10_0000_0000;
    } else {
      WidthCoversPages(width - 1);
    }
  }

  lemma ZeroIsNotPresent()
    ensures !Present(0)
  {
  }

  lemma WalkStops(ram: Ram, cap: Capabilities, table: nat, level: nat, gpa: nat, rights: Rights)
    requires 1 <= level <= 4
    requires Slot(table, TABLE_SIZE) <= |ram|
    requires QwordAt(ram, Slot(table, Index(gpa, level))) == 0
    ensures Walk(ram, cap, table, level, gpa, rights) == NotPresent
  {
    hide QwordAt, Present, MisconfiguredEntry, Leaf, AddressBits, RightsOf;
    ZeroIsNotPresent();
  }

  lemma WalkDescends(ram: Ram, cap: Capabilities, table: nat, level: nat, gpa: nat, rights: Rights, next: Qword)
    requires 2 <= level <= 4
    requires Slot(table, TABLE_SIZE) <= |ram|
    requires next % PAGE_SIZE == 0 && next < WALK_LIMIT && next < Pow2(cap.physicalWidth)
    requires EntryAt(ram, Slot(table, Index(gpa, level))) == EntryOf(next, TABLE_FLAGS)
    ensures Walk(ram, cap, table, level, gpa, rights) == Walk(ram, cap, next, level - 1, gpa, rights)
  {
    hide QwordAt, Unpack;
    ProcessorReads(QwordAt(ram, Slot(table, Index(gpa, level))), next, TABLE_FLAGS);
  }

  /** The address and type a leaf must have for the processor to accept it. */
  lemma LeafAccepted(q: Qword, page: nat, flags: EptFlags, cap: Capabilities)
    requires page < PAGES && cap.Valid()
    requires Unpack(q) == EntryOf(PAGE_SIZE * page, flags)
    ensures Present(q) <==> flags.read != 0 || flags.write != 0 || flags.supervisorExecute != 0
    ensures MisconfiguredEntry(q, 1, cap) <==>
              || (flags.read == 0 && (flags.write == 1 || (flags.supervisorExecute == 1 && !cap.executeOnly)))
              || flags.memoryType in {2, 3, 7}
  {
    hide Unpack, Pow2, AddressBits, EntryOf;
    WidthCoversPages(cap.physicalWidth);
    ProcessorReads(q, PAGE_SIZE * page, flags);
  }

  lemma WalkEnds(ram: Ram, cap: Capabilities, table: nat, gpa: nat, page: nat, flags: EptFlags)
    requires page < PAGES && page == gpa / PAGE_SIZE && cap.Valid()
    requires Slot(table, TABLE_SIZE) <= |ram|
    requires EntryAt(ram, Slot(table, Index(gpa, 1))) == EntryOf(PAGE_SIZE * page, flags)
    ensures Walk(ram, cap, table, 1, gpa, Rights(true, true, true)) == LookupFlags(flags, cap, gpa)
  {
    hide QwordAt, Unpack, AddressBits, EntryOf, Pow2, MisconfiguredEntry, Index, Present;
    var q := QwordAt(ram, Slot(table, Index(gpa, 1)));
    LeafAccepted(q, page, flags, cap);
    ProcessorReads(q, PAGE_SIZE * page, flags);
  }

  lemma PointerSelectsRoot(base: nat, cap: Capabilities)
    requires base % PAGE_SIZE == 0 && base < WALK_LIMIT && base < Pow2(cap.physicalWidth)
    ensures AddressBits(EptPointer(base)) == base
    ensures ValidEptp(EptPointer(base), cap)
  {
    hide Pow2;
    var page := base / PAGE_SIZE;
    var eptp := EptPointer(base);
    assert base == 0x1000 * page;
    assert page % 0x10_0000_0000 == page;
    assert eptp == 30 + 0x1000 * page;
    PointerFields(eptp, page);
  }

  /** A write-back, four-level EPTP. */
  lemma PointerFields(eptp: nat, page: nat)
    requires page < 0x10_0000_0000 && eptp == 30 + 0x1000 * page
    ensures eptp / 0x1000 % 0x100_0000_0000 == page
    ensures eptp % 8 == 6 && eptp / 8 % 8 == 3 && eptp / 64 % 64 == 0
  {
    Peel(30, 0x1000, page);
    Peel(6, 8, 3 + 0x200 * page);
    Peel(3, 8, 0x40 * page);
    Peel(0, 64, page);
    assert eptp / 64 == eptp / 8 / 8;
  }

  /** The sub-tables of the flat arrays `pds` and `pts` meet the indices of the walk. */
  lemma FlatIndices(gpa: nat)
    requires gpa < MAPPED_BYTES
    ensures Index(gpa, 4) == 0
    ensures Index(gpa, 3) == gpa / 0x4000_0000 < MEMORY_SIZE
    ensures TABLE_SIZE * (gpa / 0x4000_0000) + Index(gpa, 2) == gpa / 0x20_0000 < TABLE_SIZE * MEMORY_SIZE
    ensures TABLE_SIZE * (gpa / 0x20_0000) + Index(gpa, 1) == gpa / PAGE_SIZE < PAGES
  {
  }

  /** One step of the walk through entry `k` of a flat array of tables. */
  lemma DescendFilled(ram: Ram, cap: Capabilities, table: nat, level: nat, gpa: nat,
                      flat: nat, count: nat, first: nat, k: nat)
    requires 2 <= level <= 4 && k < count
    requires Slot(table, TABLE_SIZE) <= |ram|
    requires Filled(ram, flat, count, first, TABLE_FLAGS)
    requires Slot(table, Index(gpa, level)) == Slot(flat, k)
    requires first % PAGE_SIZE == 0 && first + PAGE_SIZE * count <= Pow2(cap.physicalWidth)
    ensures Walk(ram, cap, table, level, gpa, Rights(true, true, true))
         == Walk(ram, cap, first + PAGE_SIZE * k, level - 1, gpa, Rights(true, true, true))
  {
    hide EntryAt, EntryOf, Walk, Index, Filled, Pow2;
    FilledAt(ram, flat, count, first, TABLE_FLAGS, k);
    WalkDescends(ram, cap, table, level, gpa, Rights(true, true, true), first + PAGE_SIZE * k);
  }

  lemma LeafHolds(ram: Ram, table: nat, pages: PageFlags, page: nat)
    requires Slot(table, PAGES) <= |ram| && page < PAGES
    requires LeavesHold(ram, table, pages)
    ensures Slot(table, page) + 8 <= |ram|
    ensures EntryAt(ram, Slot(table, page)) == EntryOf(PAGE_SIZE * page, pages[page])
  {
    hide EntryAt, EntryOf;
  }

  /** The walk below 4 GiB, for the table indices that `gpa` selects. */
  lemma WalkByIndices(ram: Ram, cap: Capabilities, base: nat, pages: PageFlags, gpa: nat,
                      third: nat, directory: nat, page: nat)
    requires cap.Valid()
    requires Installed(ram, base, pages)
    requires base + TABLES_BYTES <= Pow2(cap.physicalWidth)
    requires gpa < MAPPED_BYTES && page == gpa / PAGE_SIZE
    requires Index(gpa, 4) == 0
    requires Index(gpa, 3) == third < MEMORY_SIZE
    requires TABLE_SIZE * third + Index(gpa, 2) == directory < TABLE_SIZE * MEMORY_SIZE
    requires TABLE_SIZE * directory + Index(gpa, 1) == page < PAGES
    ensures Walk(ram, cap, base, 4, gpa, Rights(true, true, true)) == LookupFlags(pages[page], cap, gpa)
  {
    hide EntryAt, EntryOf, Walk, Index, LookupFlags, Filled, LeavesHold, ZeroEntries, Pow2;
    var pd, pt := base + PDS + PAGE_SIZE * third, base + PTS + PAGE_SIZE * directory;
    DescendFilled(ram, cap, base, 4, gpa, base, 1, base + PDPT, 0);
    DescendFilled(ram, cap, base + PDPT, 3, gpa, base + PDPT, MEMORY_SIZE, base + PDS, third);
    DescendFilled(ram, cap, pd, 2, gpa, base + PDS, TABLE_SIZE * MEMORY_SIZE, base + PTS, directory);
    LeafHolds(ram, base + PTS, pages, page);
    assert Slot(pt, Index(gpa, 1)) == Slot(base + PTS, page);
    WalkEnds(ram, cap, pt, gpa, page, pages[page]);
  }

  lemma WalkOfMapped(ram: Ram, cap: Capabilities, base: nat, pages: PageFlags, gpa: nat)
    requires cap.Valid()
    requires Installed(ram, base, pages)
    requires base + TABLES_BYTES <= Pow2(cap.physicalWidth)
    requires gpa < MAPPED_BYTES
    ensures Walk(ram, cap, base, 4, gpa, Rights(true, true, true)) == Lookup(pages, cap, gpa)
  {
    hide Walk, Index, LookupFlags, Installed;
    FlatIndices(gpa);
    WalkByIndices(ram, cap, base, pages, gpa, gpa / 0x4000_0000, gpa / 0x20_0000, gpa / PAGE_SIZE);
  }

  lemma WalkOfUnmapped(ram: Ram, cap: Capabilities, base: nat, pages: PageFlags, gpa: nat)
    requires Installed(ram, base, pages)
    requires base + TABLES_BYTES <= Pow2(cap.physicalWidth)
    requires MAPPED_BYTES <= gpa < WALK_LIMIT
    ensures Walk(ram, cap, base, 4, gpa, Rights(true, true, true)) == NotPresent
  {
    hide EntryAt, EntryOf, Walk, QwordAt, Filled;
    var all := Rights(true, true, true);
    if gpa < 0x80_0000_0000 {
      FilledAt(ram, base, 1, base + PDPT, TABLE_FLAGS, 0);
      WalkDescends(ram, cap, base, 4, gpa, all, base + PDPT);
      WalkStops(ram, cap, base + PDPT, 3, gpa, all);
    } else {
      WalkStops(ram, cap, base, 4, gpa, all);
    }
  }

  /** The four-level walk of the tables is the lookup in the map they stand for. */
  lemma WalkRefinesMap(ram: Ram, cap: Capabilities, base: nat, pages: PageFlags, gpa: nat)
    requires cap.Valid()
    requires Installed(ram, base, pages)
    requires base + TABLES_BYTES <= Pow2(cap.physicalWidth)
    ensures EptWalk(ram, cap, EptPointer(base), gpa) == Lookup(pages, cap, gpa)
  {
    hide Installed, Walk, EptPointer;
    assert base % PAGE_SIZE == 0 && base + TABLES_BYTES <= WALK_LIMIT by { InstalledPlace(ram, base, pages); }
    PointerSelectsRoot(base, cap);
    if gpa < MAPPED_BYTES {
      WalkOfMapped(ram, cap, base, pages, gpa);
    } else if gpa < WALK_LIMIT {
      WalkOfUnmapped(ram, cap, base, pages, gpa);
    }
  }

  lemma InstalledPlace(ram: Ram, base: nat, pages: PageFlags)
    requires Installed(ram, base, pages)
    ensures base % PAGE_SIZE == 0 && base + TABLES_BYTES <= WALK_LIMIT
    ensures base + TABLES_BYTES <= |ram|
  {
    hide UpperTables, LeavesHold;
  }

  // ----- Any sequence of updates -----

  datatype Update = Update(gpa: nat, flags: EptFlags)

  /** The flags last given to a page, or those it was built with. */
  function LastFlags(updates: seq<Update>, page: nat): EptFlags {
    if updates == [] then PAGE_FLAGS
    else
      var u := updates[|updates| - 1];
      if u.gpa / PAGE_SIZE == page then u.flags else LastFlags(updates[..|updates| - 1], page)
  }

  function FlagsAfter(updates: seq<Update>): PageFlags {
    seq(PAGES, page requires 0 <= page < PAGES => LastFlags(updates, page))
  }

  lemma FlagsAfterNone()
    ensures FlagsAfter([]) == DefaultFlags()
  {
  }

  lemma FlagsAfterLast(updates: seq<Update>)
    requires updates != [] && updates[|updates| - 1].gpa < MAPPED_BYTES
    ensures var u, earlier := updates[|updates| - 1], updates[..|updates| - 1];
      FlagsAfter(updates) == FlagsAfter(earlier)[u.gpa / PAGE_SIZE := u.flags]
  {
  }

  ghost predicate UpdateStep(before: Ram, after: Ram, base: nat, u: Update) {
    && u.gpa < MAPPED_BYTES
    && |before| == |after|
    && LeafSlot(base, u.gpa) + 8 <= |before|
    && Updated(before, after, base, u.gpa, u.flags)
  }

  /** `rams` are the memories between successive updates of freshly built tables. */
  ghost predicate UpdateRun(rams: seq<Ram>, base: nat, updates: seq<Update>) {
    && |rams| == |updates| + 1
    && Installed(rams[0], base, DefaultFlags())
    && forall i :: 0 <= i < |updates| ==> UpdateStep(rams[i], rams[i + 1], base, updates[i])
  }

  lemma StepKeepsPlace(before: Ram, after: Ram, base: nat, u: Update)
    requires UpdateStep(before, after, base, u)
    ensures u.gpa < MAPPED_BYTES && |before| == |after| && LeafSlot(base, u.gpa) + 8 <= |before|
    ensures Updated(before, after, base, u.gpa, u.flags)
  {
    hide Updated;
  }

  /** A run without its last update, and that update. */
  lemma RunPrefix(rams: seq<Ram>, base: nat, updates: seq<Update>)
    requires updates != [] && UpdateRun(rams, base, updates)
    ensures UpdateRun(rams[..|updates|], base, updates[..|updates| - 1])
    ensures UpdateStep(rams[|updates| - 1], rams[|updates|], base, updates[|updates| - 1])
  {
    hide Installed, UpdateStep, DefaultFlags;
  }

  lemma {:induction false} InstalledAfterRun(rams: seq<Ram>, base: nat, updates: seq<Update>)
    requires UpdateRun(rams, base, updates)
    ensures Installed(rams[|updates|], base, FlagsAfter(updates))
  {
    hide Installed, UpdateStep, FlagsAfter, DefaultFlags;
    var n := |updates|;
    var pages := FlagsAfter(updates);
    if n == 0 {
      FlagsAfterNone();
    } else {
      var u, earlier := updates[n - 1], updates[..n - 1];
      var stale := FlagsAfter(earlier);
      RunPrefix(rams, base, updates);
      InstalledAfterRun(rams[..n], base, earlier);
      StepKeepsPlace(rams[n - 1], rams[n], base, u);
      InstalledAfterUpdate(rams[n - 1], rams[n], base, stale, u.gpa, u.flags);
      FlagsAfterLast(updates);
    }
  }

  /**
   After initialization and any sequence of updates, an access to any address below 4 GiB meets
   that address with the flags last given to its page, and no address above is present.
   */
  lemma WalkAfterUpdates(rams: seq<Ram>, cap: Capabilities, base: nat, updates: seq<Update>, gpa: nat)
    requires cap.Valid()
    requires UpdateRun(rams, base, updates)
    requires base + TABLES_BYTES <= Pow2(cap.physicalWidth)
    ensures base < WALK_LIMIT
    ensures EptWalk(rams[|updates|], cap, EptPointer(base), gpa) ==
            if gpa < MAPPED_BYTES then LookupFlags(LastFlags(updates, gpa / PAGE_SIZE), cap, gpa)
            else NotPresent
  {
    hide Installed, EptWalk, EptPointer, LookupFlags;
    InstalledAfterRun(rams, base, updates);
    var pages := FlagsAfter(updates);
    InstalledPlace(rams[|updates|], base, pages);
    WalkRefinesMap(rams[|updates|], cap, base, pages, gpa);
  }
}
