/** The EPT paging-structure entry and the flags record of include/vmm/ept.h. */
module EptEntries {
  import opened Bits

  type U1 = x: int | 0 <= x < 2
  type U3 = x: int | 0 <= x < 8
  type U4 = x: int | 0 <= x < 16
  type U5 = x: int | 0 <= x < 32
  type U36 = x: int | 0 <= x < 0x10_0000_0000

  const WRITEBACK: U3 := 6

  /** The bit-fields of an entry in declaration order; `pad` fields have no name in the source. */
  datatype EptEntry = EptEntry(
    read: U1,
    write: U1,
    supervisorExecute: U1,
    memoryType: U3,
    ignorePat: U1,
    pad7: U1,
    accessed: U1,
    dirty: U1,
    userExecute: U1,
    pad11: U1,
    physicalAddress: U36,
    pad48: U4,
    pad52: U5,
    verifyGuestPaging: U1,
    pagingWrite: U1,
    pad59: U1,
    supervisorShadowStack: U1,
    subPageWrite: U1,
    pad62: U1,
    suppressVe: U1)

  datatype EptFlags = EptFlags(
    read: U1,
    write: U1,
    supervisorExecute: U1,
    memoryType: U3,
    ignorePat: U1,
    accessed: U1,
    dirty: U1,
    userExecute: U1,
    verifyGuestPaging: U1,
    pagingWrite: U1,
    supervisorShadowStack: U1,
    subPageWrite: U1,
    suppressVe: U1)

  const NO_FLAGS := EptFlags(0, 0, 0, 0, 0, 0, 0, 0, 0, 0, 0, 0, 0)

  const TABLE_FLAGS := NO_FLAGS.(read := 1, write := 1, supervisorExecute := 1)

  const PAGE_FLAGS := TABLE_FLAGS.(memoryType := WRITEBACK)

  const HOOK_FLAGS := NO_FLAGS.(write := 1, memoryType := WRITEBACK)

  // The qword that holds the bit-fields, the first declared being the least significant, in
  // groups of four.

  function From16(e: EptEntry): (rest: nat)
    ensures rest < 0x10
  {
    e.supervisorShadowStack + 2 * (e.subPageWrite + 2 * (e.pad62 + 2 * (e.suppressVe)))
  }

  function From12(e: EptEntry): (rest: nat)
    ensures rest < 0x1000
  {
    e.pad52 + 32 * (e.verifyGuestPaging + 2 * (e.pagingWrite + 2 * (e.pad59 + 2 * From16(e))))
  }

  function From8(e: EptEntry): (rest: nat)
    ensures rest < 0x40_0000_0000_0000
  {
    e.userExecute + 2 * (e.pad11 + 2 * (e.physicalAddress + 0x10_0000_0000 * (e.pad48 + 16 * From12(e))))
  }

  function From4(e: EptEntry): (rest: nat)
    ensures rest < 0x400_0000_0000_0000
  {
    e.ignorePat + 2 * (e.pad7 + 2 * (e.accessed + 2 * (e.dirty + 2 * From8(e))))
  }

  function Pack(e: EptEntry): Qword {
    e.read + 2 * (e.write + 2 * (e.supervisorExecute + 2 * (e.memoryType + 8 * From4(e))))
  }

  function Unpack(q: Qword): EptEntry {
    var q1 := q / 2; var q2 := q1 / 2; var q3 := q2 / 2; var q4 := q3 / 8; var q5 := q4 / 2;
    var q6 := q5 / 2; var q7 := q6 / 2; var q8 := q7 / 2; var q9 := q8 / 2; var q10 := q9 / 2;
    var q11 := q10 / 0x10_0000_0000; var q12 := q11 / 16; var q13 := q12 / 32; var q14 := q13 / 2; var q15 := q14 / 2;
    var q16 := q15 / 2; var q17 := q16 / 2; var q18 := q17 / 2; var q19 := q18 / 2;
    EptEntry(
      q % 2, q1 % 2, q2 % 2, q3 % 8, q4 % 2,
      q5 % 2, q6 % 2, q7 % 2, q8 % 2, q9 % 2,
      q10 % 0x10_0000_0000, q11 % 16, q12 % 32, q13 % 2, q14 % 2,
      q15 % 2, q16 % 2, q17 % 2, q18 % 2, q19)
  }

  lemma PackOfUnpack(q: Qword)
    ensures Pack(Unpack(q)) == q
  {
  }

  /** A field of the given size, and what is packed above it. */
  function Below(field: nat, size: nat, rest: nat): nat {
    field + size * rest
  }

  lemma BelowIsInjective(field: nat, rest: nat, field': nat, rest': nat, size: nat)
    requires field < size && field' < size
    requires Below(field, size, rest) == Below(field', size, rest')
    ensures field == field' && rest == rest'
  {
    SamePeel(field, rest, field', rest', size);
  }

  /** Four fields of sizes w, x, y and z, from the least significant one on. */
  function Four(a: nat, w: nat, b: nat, x: nat, c: nat, y: nat, d: nat, z: nat, rest: nat): nat {
    Below(a, w, Below(b, x, Below(c, y, Below(d, z, rest))))
  }

  lemma FourIsInjective(a: nat, w: nat, b: nat, x: nat, c: nat, y: nat, d: nat, z: nat, rest: nat,
                        a': nat, b': nat, c': nat, d': nat, rest': nat)
    requires a < w && b < x && c < y && d < z && a' < w && b' < x && c' < y && d' < z
    requires Four(a, w, b, x, c, y, d, z, rest) == Four(a', w, b', x, c', y, d', z, rest')
    ensures a == a' && b == b' && c == c' && d == d' && rest == rest'
  {
    hide Below;
    BelowIsInjective(a, Below(b, x, Below(c, y, Below(d, z, rest))),
                     a', Below(b', x, Below(c', y, Below(d', z, rest'))), w);
    BelowIsInjective(b, Below(c, y, Below(d, z, rest)), b', Below(c', y, Below(d', z, rest')), x);
    BelowIsInjective(c, Below(d, z, rest), c', Below(d', z, rest'), y);
    BelowIsInjective(d, rest, d', rest', z);
  }

  lemma From16IsInjective(e: EptEntry, f: EptEntry)
    requires From16(e) == From16(f)
    ensures e.supervisorShadowStack == f.supervisorShadowStack && e.subPageWrite == f.subPageWrite
    ensures e.pad62 == f.pad62 && e.suppressVe == f.suppressVe
  {
  }

  lemma From12IsInjective(e: EptEntry, f: EptEntry)
    requires From12(e) == From12(f)
    ensures e.pad52 == f.pad52 && e.verifyGuestPaging == f.verifyGuestPaging
    ensures e.pagingWrite == f.pagingWrite && e.pad59 == f.pad59
    ensures From16(e) == From16(f)
  {
    hide From16;
    FourIsInjective(e.pad52, 32, e.verifyGuestPaging, 2, e.pagingWrite, 2, e.pad59, 2, From16(e),
                    f.pad52, f.verifyGuestPaging, f.pagingWrite, f.pad59, From16(f));
  }

  lemma From8IsInjective(e: EptEntry, f: EptEntry)
    requires From8(e) == From8(f)
    ensures e.userExecute == f.userExecute && e.pad11 == f.pad11
    ensures e.physicalAddress == f.physicalAddress && e.pad48 == f.pad48
    ensures From12(e) == From12(f)
  {
    hide From12;
    FourIsInjective(e.userExecute, 2, e.pad11, 2, e.physicalAddress, 0x10_0000_0000, e.pad48, 16, From12(e),
                    f.userExecute, f.pad11, f.physicalAddress, f.pad48, From12(f));
  }

  lemma From4IsInjective(e: EptEntry, f: EptEntry)
    requires From4(e) == From4(f)
    ensures e.ignorePat == f.ignorePat && e.pad7 == f.pad7
    ensures e.accessed == f.accessed && e.dirty == f.dirty
    ensures From8(e) == From8(f)
  {
    hide From8;
    FourIsInjective(e.ignorePat, 2, e.pad7, 2, e.accessed, 2, e.dirty, 2, From8(e),
                    f.ignorePat, f.pad7, f.accessed, f.dirty, From8(f));
  }

  lemma PackIsInjective(e: EptEntry, f: EptEntry)
    requires Pack(e) == Pack(f)
    ensures e.read == f.read && e.write == f.write
    ensures e.supervisorExecute == f.supervisorExecute && e.memoryType == f.memoryType
    ensures From4(e) == From4(f)
  {
    hide From4;
    FourIsInjective(e.read, 2, e.write, 2, e.supervisorExecute, 2, e.memoryType, 8, From4(e),
                    f.read, f.write, f.supervisorExecute, f.memoryType, From4(f));
  }

  lemma UnpackOfPack(e: EptEntry)
    ensures Unpack(Pack(e)) == e
  {
    var f := Unpack(Pack(e));
    PackOfUnpack(Pack(e));
    PackIsInjective(f, e);
    From4IsInjective(f, e);
    From8IsInjective(f, e);
    From12IsInjective(f, e);
    From16IsInjective(f, e);
  }
}
