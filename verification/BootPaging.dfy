/** src/boot/paging.asm: the 32-bit loop that fills the guest's 2 MiB identity map. */
module BootPaging {
  import opened Bits
  import opened Memory
  import opened EptHardware

  const WRAP: nat := 0x1_0000_0000

  // Constants of src/boot/macros.asm.
  const IA32E_PAGING_BASE: Dword := 0x11_0000
  const PAGE_LENGTH: Dword := 0x1000
  const LARGE_PAGE_SIZE: Dword := 0x20_0000
  const MEMORY_SIZE: Dword := 4
  const PAGE_PRESENT: Dword := 1
  const PAGE_WRITE: Dword := 2
  const PAGE_SIZE: Dword := 0x80

  const PDPT_BASE: Dword := IA32E_PAGING_BASE + PAGE_LENGTH
  const PD_BASE: Dword := IA32E_PAGING_BASE + 2 * PAGE_LENGTH
  const TABLES_END: Dword := IA32E_PAGING_BASE + 6 * PAGE_LENGTH
  const TABLE_BITS: Dword := 3 // PAGE_WRITE | PAGE_PRESENT
  const PAGE_BITS: Dword := 0x83 // PAGE_SIZE | PAGE_WRITE | PAGE_PRESENT

  /** The dwords on top of a stack that grows towards lower addresses. */
  ghost predicate StackHolds(ram: Ram, esp: nat, values: seq<Dword>) {
    && esp + 4 * |values| <= |ram|
    && forall i :: 0 <= i < |values| ==> DwordAt(ram, StackSlot(esp, i)) == values[i]
  }

  function StackSlot(esp: nat, i: nat): nat {
    esp + 4 * i
  }

  lemma StackFrame(before: Ram, after: Ram, esp: nat, values: seq<Dword>)
    requires |before| == |after|
    requires StackHolds(before, esp, values)
    requires Same(before, after, esp, StackSlot(esp, |values|))
    ensures StackHolds(after, esp, values)
  {
    forall i | 0 <= i < |values|
      ensures DwordAt(after, StackSlot(esp, i)) == DwordAt(before, StackSlot(esp, i))
    {
      var a := StackSlot(esp, i);
      assert after[a..a + 4] == before[a..a + 4];
    }
  }

  lemma StackInRam(ram: Ram, esp: nat, values: seq<Dword>)
    requires StackHolds(ram, esp, values)
    ensures esp + 4 * |values| <= |ram|
  {
  }

  lemma StackPush(before: Ram, after: Ram, esp: nat, v: Dword, values: seq<Dword>)
    requires |before| == |after| && 4 <= esp
    requires StackHolds(before, esp, values)
    requires Same(before, after, esp, StackSlot(esp, |values|))
    requires DwordAt(after, esp - 4) == v
    ensures StackHolds(after, esp - 4, [v] + values)
  {
    StackFrame(before, after, esp, values);
    forall i | 0 <= i < |values| + 1
      ensures DwordAt(after, StackSlot(esp - 4, i)) == ([v] + values)[i]
    {
      if i > 0 {
        assert StackSlot(esp - 4, i) == StackSlot(esp, i - 1);
      }
    }
  }

  /** The two memories differ at most in [a, b) and [c, d). */
  ghost predicate KeptOutside(before: Ram, after: Ram, a: nat, b: nat, c: nat, d: nat)
    requires |before| == |after|
  {
    forall x :: 0 <= x < |before| && !(a <= x < b) && !(c <= x < d) ==> after[x] == before[x]
  }

  lemma ReturnOnTop(ram: Ram, esp: nat, image: seq<Dword>, returnTo: Dword)
    requires |image| == 9 && image[8] == returnTo
    requires 32 <= esp && StackHolds(ram, esp - 32, image)
    ensures StackHolds(ram, esp, [returnTo])
  {
    assert StackSlot(esp - 32, 8) == StackSlot(esp, 0);
  }

  lemma WordMask()
    ensures Pow2(32) == WRAP
  {
    assert Pow2(8) == 0x100;
    assert Pow2(16) == 0x1_0000;
    assert Pow2(24) == 0x100_0000;
  }

  /** `edi` after `k` turns of the loop: a 32-bit sum. */
  function Address(first: Dword, stride: Dword, k: nat): Dword {
    (first + k * stride) % WRAP
  }

  lemma NextAddress(first: Dword, k: nat, stride: Dword)
    ensures Address(first, stride, 0) == first
    ensures (Address(first, stride, k) + stride) % WRAP == Address(first, stride, k + 1)
  {
    var sum := first + k * stride;
    assert first + (k + 1) * stride == sum + stride;
    SumWraps(sum, stride);
  }

  lemma SumWraps(sum: nat, stride: nat)
    ensures (sum % WRAP + stride) % WRAP == (sum + stride) % WRAP
  {
    var part := sum % WRAP + stride;
    Peel(part % WRAP, WRAP, sum / WRAP + part / WRAP);
  }

  /** What the table loop stores in entry `k`. */
  function EntryStored(first: Dword, stride: Dword, flags: Dword, k: nat): nat {
    Or(Address(first, stride, k), flags)
  }

  /** The first `count` entries of a table the loop has filled. */
  ghost predicate TableHolds(ram: Ram, table: nat, count: nat, first: Dword, stride: Dword, flags: Dword) {
    && Slot(table, count) <= |ram|
    && forall k :: 0 <= k < count ==>
         QwordAt(ram, Slot(table, k)) == EntryStored(first, stride, flags, k)
  }

  lemma TableFrame(before: Ram, after: Ram, table: nat, count: nat, first: Dword, stride: Dword, flags: Dword)
    requires |before| == |after|
    requires TableHolds(before, table, count, first, stride, flags)
    requires Same(before, after, table, Slot(table, count))
    ensures TableHolds(after, table, count, first, stride, flags)
  {
    hide EntryStored, QwordAt;
    forall k | 0 <= k < count
      ensures QwordAt(after, Slot(table, k)) == QwordAt(before, Slot(table, k))
    {
      SameQword(before, after, Slot(table, k));
    }
  }

  lemma EmptyTable(ram: Ram, table: nat, first: Dword, stride: Dword, flags: Dword)
    requires table <= |ram|
    ensures TableHolds(ram, table, 0, first, stride, flags)
  {
  }

  lemma TableGrows(before: Ram, after: Ram, table: nat, k: nat, first: Dword, stride: Dword, flags: Dword)
    requires |before| == |after| && Slot(table, k + 1) <= |before|
    requires TableHolds(before, table, k, first, stride, flags)
    requires Same(before, after, table, Slot(table, k))
    requires QwordAt(after, Slot(table, k)) == EntryStored(first, stride, flags, k)
    ensures TableHolds(after, table, k + 1, first, stride, flags)
  {
    hide EntryStored, QwordAt;
    TableFrame(before, after, table, k, first, stride, flags);
  }

  /** On aligned addresses below 4 GiB the stored entry is the address plus the flags. */
  lemma EntryIsSum(first: Dword, stride: Dword, flags: Dword, k: nat)
    requires first % 0x1000 == 0 && stride % 0x1000 == 0 && flags < 0x1000
    requires first + k * stride < WRAP
    ensures EntryStored(first, stride, flags, k) == first + k * stride + flags
    ensures EntryStored(first, stride, flags, k) < WRAP
  {
    hide Or, Pow2;
    var page := first / 0x1000 + k * (stride / 0x1000);
    PagesOf(k, stride);
    assert Pow2(12) == 0x1000 by { PageBits(); }
    OrIsSum(page, flags, 12);
  }

  lemma PageBits()
    ensures Pow2(12) == 0x1000
  {
  }

  lemma PagesOf(k: nat, stride: nat)
    requires stride % 0x1000 == 0
    ensures k * stride == 0x1000 * (k * (stride / 0x1000))
  {
    var s := stride / 0x1000;
    assert stride == 0x1000 * s;
  }

  class Cpu32 {
    const ram: array<Byte>
    var eax: Dword
    var ebx: Dword
    var ecx: Dword
    var edx: Dword
    var esi: Dword
    var edi: Dword
    var ebp: Dword
    var esp: Dword
    var eip: Dword

    constructor (memory: array<Byte>)
      ensures ram == memory
    {
      ram := memory;
      eax, ebx, ecx, edx, esi, edi, ebp, esp, eip := 0, 0, 0, 0, 0, 0, 0, 0, 0;
    }

    method Push(v: Dword, ghost below: seq<Dword>)
      requires 4 <= esp
      requires StackHolds(ram[..], esp, below)
      modifies this`esp, ram
      ensures esp == old(esp) - 4
      ensures StackHolds(ram[..], esp, [v] + below)
      ensures SameOutside(old(ram[..]), ram[..], esp, old(esp))
    {
      WriteDword(ram, esp - 4, v);
      StackPush(old(ram[..]), ram[..], esp, v, below);
      esp := esp - 4;
    }

    method Pusha(ghost below: seq<Dword>)
      requires 32 <= esp
      requires StackHolds(ram[..], esp, below)
      modifies this`esp, ram
      ensures esp == old(esp) - 32
      ensures StackHolds(ram[..], esp, [edi, esi, ebp, old(esp), ebx, edx, ecx, eax] + below)
      ensures SameOutside(old(ram[..]), ram[..], esp, old(esp))
    {
      hide StackHolds;
      var top := esp;
      Push(eax, below);
      Push(ecx, [eax] + below);
      Push(edx, [ecx] + ([eax] + below));
      Push(ebx, [edx] + ([ecx] + ([eax] + below)));
      ghost var half := [ebx] + ([edx] + ([ecx] + ([eax] + below)));
      Push(top, half);
      Push(ebp, [top] + half);
      Push(esi, [ebp] + ([top] + half));
      Push(edi, [esi] + ([ebp] + ([top] + half)));
      assert [edi] + ([esi] + ([ebp] + ([top] + half))) == [edi, esi, ebp, top, ebx, edx, ecx, eax] + below;
    }

    method Popa(ghost image: seq<Dword>)
      requires |image| >= 8 && StackHolds(ram[..], esp, image)
      requires esp + 32 < WRAP
      modifies this`eax, this`ebx, this`ecx, this`edx, this`esi, this`edi, this`ebp, this`esp
      ensures esp == old(esp) + 32
      ensures edi == image[0] && esi == image[1] && ebp == image[2]
      ensures ebx == image[4] && edx == image[5] && ecx == image[6] && eax == image[7]
    {
      hide DwordAt;
      edi := DwordAt(ram[..], StackSlot(esp, 0));
      esi := DwordAt(ram[..], StackSlot(esp, 1));
      ebp := DwordAt(ram[..], StackSlot(esp, 2));
      ebx := DwordAt(ram[..], StackSlot(esp, 4));
      edx := DwordAt(ram[..], StackSlot(esp, 5));
      ecx := DwordAt(ram[..], StackSlot(esp, 6));
      eax := DwordAt(ram[..], StackSlot(esp, 7));
      esp := esp + 32;
    }

    method Ret(ghost target: Dword)
      requires StackHolds(ram[..], esp, [target])
      requires esp + 4 < WRAP
      modifies this`eip, this`esp
      ensures eip == target && esp == old(esp) + 4
    {
      assert StackSlot(esp, 0) == esp;
      eip := DwordAt(ram[..], esp);
      esp := esp + 4;
    }

    /** The macro of that name, with `esi` as low and zero as high dword. */
    method StoreQwordLittle()
      requires 4 <= esp <= ram.Length && ebx + 8 <= ram.Length
      requires ebx + 8 <= esp - 4 || esp <= ebx
      modifies this`esp, this`ebx, ram
      ensures esp == old(esp) && ebx == old(ebx)
      ensures QwordAt(ram[..], ebx) == esi
      ensures KeptOutside(old(ram[..]), ram[..], ebx, ebx + 8, esp - 4, esp)
    {
      hide DwordAt;
      WriteDword(ram, esp - 4, ebx);
      esp := esp - 4;
      ghost var pushed := ram[..];
      WriteDword(ram, ebx, esi);
      ghost var half := ram[..];
      WriteDword(ram, ebx + 4, 0);
      SameDword(half, ram[..], ebx);
      QwordOfDwords(ram[..], ebx);
      SameDword(pushed, ram[..], esp);
      ebx := DwordAt(ram[..], esp);
      esp := esp + 4;
    }

    /** One turn of the loop body, before `loop` counts it. */
    method SetupEntry()
      requires 4 <= esp <= ram.Length && ebx + 8 <= ram.Length && ebx + 8 <= WRAP
      requires ebx + 8 <= esp - 4 || esp <= ebx
      modifies this`esp, this`ebx, this`esi, this`edi, ram
      ensures esp == old(esp)
      ensures edi == (old(edi) + eax) % WRAP
      ensures ebx == (old(ebx) + 8) % WRAP
      ensures QwordAt(ram[..], old(ebx)) == Or(old(edi), edx)
      ensures KeptOutside(old(ram[..]), ram[..], old(ebx), old(ebx) + 8, esp - 4, esp)
    {
      hide Or, QwordAt, Pow2;
      WordMask();
      OrBound(edi, edx, 32);
      esi := edi;
      esi := Or(esi, edx);
      StoreQwordLittle();
      edi := (edi + eax) % WRAP;
      ebx := (ebx + 8) % WRAP;
    }

    /** The loop at `setup_entry`: `ecx` entries from `ebx` on. */
    method SetupEntries()
      requires 4 <= esp <= ram.Length && ebx + 8 * ecx <= ram.Length
      requires ecx > 0 && ebx + 8 * ecx <= WRAP
      requires ebx + 8 * ecx <= esp - 4 || esp <= ebx
      modifies this`esp, this`ebx, this`ecx, this`esi, this`edi, ram
      ensures esp == old(esp)
      ensures TableHolds(ram[..], old(ebx), old(ecx), old(edi), eax, edx)
      ensures KeptOutside(old(ram[..]), ram[..], old(ebx), old(ebx) + 8 * old(ecx), esp - 4, esp)
    {
      hide Address, Or, QwordAt, TableHolds;
      ghost var first, table, count := edi, ebx, ecx;
      ghost var k := 0;
      NextAddress(first, 0, eax);
      EmptyTable(ram[..], table, first, eax, edx);
      while true
        invariant 0 <= k < count && ecx == count - k
        invariant esp == old(esp)
        invariant edi == Address(first, eax, k)
        invariant ebx == table + 8 * k
        invariant TableHolds(ram[..], table, k, first, eax, edx)
        invariant KeptOutside(old(ram[..]), ram[..], table, table + 8 * k, esp - 4, esp)
        decreases ecx
      {
        ghost var before := ram[..];
        SetupEntry();
        TableGrows(before, ram[..], table, k, first, eax, edx);
        NextAddress(first, k, eax);
        k := k + 1;
        ecx := ecx - 1;
        if ecx == 0 {
          break;
        }
      }
    }

    /**
     Fills `ecx` entries of the table at `ebx`. Everything but them and the 36 stack bytes below
     the return address is kept, and so is every register.
     */
    method CreateTables(ghost returnTo: Dword)
      requires ebx + 8 * ecx <= ram.Length
      requires StackHolds(ram[..], esp, [returnTo])
      requires 36 <= esp && esp + 4 < WRAP
      requires ecx > 0 && ebx + 8 * ecx <= WRAP
      requires ebx + 8 * ecx <= esp - 36 || esp + 4 <= ebx
      modifies this, ram
      ensures eip == returnTo && esp == old(esp) + 4
      ensures eax == old(eax) && ebx == old(ebx) && ecx == old(ecx) && edx == old(edx)
      ensures esi == old(esi) && edi == old(edi) && ebp == old(ebp)
      ensures TableHolds(ram[..], ebx, ecx, edi, eax, edx)
      ensures KeptOutside(old(ram[..]), ram[..], ebx, ebx + 8 * ecx, old(esp) - 36, old(esp))
    {
      hide StackHolds, TableHolds;
      ghost var image := [edi, esi, ebp, esp, ebx, edx, ecx, eax] + [returnTo];
      Pusha([returnTo]);
      ghost var saved := ram[..];
      StackInRam(saved, esp, image);
      SetupEntries();
      StackFrame(saved, ram[..], esp, image);
      Popa(image);
      ReturnOnTop(ram[..], esp, image, returnTo);
      Ret(returnTo);
    }

    /** `call`, with the return address the instruction pushes. */
    method CallCreateTables(returnAddress: Dword, ghost outer: Dword)
      requires ebx + 8 * ecx <= ram.Length
      requires StackHolds(ram[..], esp, [outer])
      requires 40 <= esp && esp + 4 < WRAP
      requires ecx > 0 && ebx + 8 * ecx <= WRAP
      requires ebx + 8 * ecx <= esp - 40 || esp + 4 <= ebx
      modifies this, ram
      ensures eip == returnAddress && esp == old(esp)
      ensures StackHolds(ram[..], esp, [outer])
      ensures TableHolds(ram[..], old(ebx), old(ecx), old(edi), old(eax), old(edx))
      ensures KeptOutside(old(ram[..]), ram[..], old(ebx), old(ebx) + 8 * old(ecx), esp - 40, esp)
    {
      hide StackHolds, TableHolds;
      ghost var start := ram[..];
      Push(returnAddress, [outer]);
      assert StackHolds(ram[..], esp, [returnAddress]) by {
        TopOfStack(ram[..], esp, returnAddress, outer);
      }
      CreateTables(returnAddress);
      StackFrame(start, ram[..], esp, [outer]);
    }

    /**
     Fills the root, the four-entry pointer table and the four page directories, and nothing else
     but 40 bytes of stack.
     */
    method SetupPml4Map(returnTo: Dword, afterRoot: Dword, afterPointers: Dword, afterDirectories: Dword)
      requires TABLES_END <= ram.Length
      requires StackHolds(ram[..], esp, [returnTo])
      requires 40 <= esp && esp + 4 < WRAP
      requires TABLES_END <= esp - 40 || esp + 4 <= IA32E_PAGING_BASE
      modifies this, ram
      ensures eip == returnTo && esp == old(esp) + 4
      ensures IdentityMap(ram[..])
      ensures KeptOutside(old(ram[..]), ram[..], IA32E_PAGING_BASE, TABLES_END, old(esp) - 40, old(esp))
    {
      hide StackHolds, TableHolds, Or, IdentityMap, QwordAt;
      TableFlags();
      edi := IA32E_PAGING_BASE + PAGE_LENGTH;
      ebx := IA32E_PAGING_BASE;
      edx := Or(PAGE_WRITE, PAGE_PRESENT);
      ecx := 1;
      eax := PAGE_LENGTH;
      CallCreateTables(afterRoot, returnTo);
      ghost var s1 := ram[..];

      edi := IA32E_PAGING_BASE + 2 * PAGE_LENGTH;
      ebx := IA32E_PAGING_BASE + PAGE_LENGTH;
      edx := Or(PAGE_WRITE, PAGE_PRESENT);
      ecx := MEMORY_SIZE;
      eax := PAGE_LENGTH;
      CallCreateTables(afterPointers, returnTo);
      ghost var s2 := ram[..];
      TableFrame(s1, s2, IA32E_PAGING_BASE, 1, PDPT_BASE, PAGE_LENGTH, TABLE_BITS);

      edi := 0;
      ebx := IA32E_PAGING_BASE + 2 * PAGE_LENGTH;
      edx := Or(PAGE_SIZE, Or(PAGE_WRITE, PAGE_PRESENT));
      ecx := MEMORY_SIZE * 512;
      eax := LARGE_PAGE_SIZE;
      CallCreateTables(afterDirectories, returnTo);
      TableFrame(s2, ram[..], IA32E_PAGING_BASE, 1, PDPT_BASE, PAGE_LENGTH, TABLE_BITS);
      TableFrame(s2, ram[..], PDPT_BASE, MEMORY_SIZE, PD_BASE, PAGE_LENGTH, TABLE_BITS);
      TablesAreIdentityMap(ram[..]);
      Ret(returnTo);
    }
  }

  lemma TableFlags()
    ensures Or(PAGE_WRITE, PAGE_PRESENT) == TABLE_BITS
    ensures Or(PAGE_SIZE, Or(PAGE_WRITE, PAGE_PRESENT)) == PAGE_BITS
  {
    assert Pow2(1) == 2 && Pow2(7) == 0x80;
    OrIsSum(1, 1, 1);
    OrIsSum(1, 3, 7);
  }

  lemma TopOfStack(ram: Ram, esp: nat, v: Dword, outer: Dword)
    requires StackHolds(ram, esp, [v] + [outer])
    ensures StackHolds(ram, esp, [v])
  {
    assert ([v] + [outer])[0] == v;
  }

  // ----- The map the tables describe -----

  /** The root, pointer and directory entries of an identity map of 4 GiB in 2 MiB pages. */
  ghost predicate IdentityMap(ram: Ram) {
    && TABLES_END <= |ram|
    && QwordAt(ram, IA32E_PAGING_BASE) == PDPT_BASE + TABLE_BITS
    && (forall k :: 0 <= k < 4 ==> QwordAt(ram, Slot(PDPT_BASE, k)) == PD_BASE + 0x1000 * k + TABLE_BITS)
    && (forall k :: 0 <= k < 2048 ==> QwordAt(ram, Slot(PD_BASE, k)) == 0x20_0000 * k + PAGE_BITS)
  }

  lemma TablesAreIdentityMap(ram: Ram)
    requires TableHolds(ram, IA32E_PAGING_BASE, 1, PDPT_BASE, PAGE_LENGTH, TABLE_BITS)
    requires TableHolds(ram, PDPT_BASE, 4, PD_BASE, PAGE_LENGTH, TABLE_BITS)
    requires TableHolds(ram, PD_BASE, 2048, 0, LARGE_PAGE_SIZE, PAGE_BITS)
    ensures IdentityMap(ram)
  {
    hide QwordAt, EntryStored;
    EntryIsSum(PDPT_BASE, PAGE_LENGTH, TABLE_BITS, 0);
    assert Slot(IA32E_PAGING_BASE, 0) == IA32E_PAGING_BASE;
    forall k | 0 <= k < 4
      ensures QwordAt(ram, Slot(PDPT_BASE, k)) == PD_BASE + 0x1000 * k + TABLE_BITS
    {
      EntryIsSum(PD_BASE, PAGE_LENGTH, TABLE_BITS, k);
    }
    forall k | 0 <= k < 2048
      ensures QwordAt(ram, Slot(PD_BASE, k)) == 0x20_0000 * k + PAGE_BITS
    {
      EntryIsSum(0, LARGE_PAGE_SIZE, PAGE_BITS, k);
    }
  }
}
