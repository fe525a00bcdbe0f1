/** Physical memory: one sequence of bytes, read and written little endian. */
module Memory {
  import opened Bits

  type Ram = seq<Byte>

  function Pow256(n: nat): (p: nat)
    ensures p > 0
  {
    if n == 0 then 1 else 256 * Pow256(n - 1)
  }

  /** The number a byte string denotes, least significant byte first. */
  function Le(bytes: seq<Byte>): (v: nat)
    ensures v < Pow256(|bytes|)
  {
    if bytes == [] then 0 else bytes[0] + 256 * Le(bytes[1..])
  }

  function ToLe(v: nat, n: nat): (bytes: seq<Byte>)
    ensures |bytes| == n
  {
    if n == 0 then [] else [v % 256] + ToLe(v / 256, n - 1)
  }

  lemma {:induction false} LeOfToLe(v: nat, n: nat)
    requires v < Pow256(n)
    ensures Le(ToLe(v, n)) == v
  {
    if n > 0 {
      LeOfToLe(v / 256, n - 1);
      assert ToLe(v, n)[1..] == ToLe(v / 256, n - 1);
    }
  }

  lemma WordSizes()
    ensures Pow256(1) == 0x100
    ensures Pow256(4) == 0x1_0000_0000
    ensures Pow256(8) == 0x1_0000_0000_0000_0000
  {
    assert Pow256(2) == 0x1_0000;
    assert Pow256(4) == 0x1_0000_0000;
    assert Pow256(6) == 0x1_0000_0000_0000;
  }

  function DwordAt(ram: Ram, a: nat): Dword
    requires a + 4 <= |ram|
  {
    WordSizes();
    Le(ram[a..a + 4])
  }

  function QwordAt(ram: Ram, a: nat): Qword
    requires a + 8 <= |ram|
  {
    WordSizes();
    Le(ram[a..a + 8])
  }

  /** A memory or buffer with `part` written at `a`. */
  function Stored<T>(whole: seq<T>, a: nat, part: seq<T>): (after: seq<T>)
    requires a + |part| <= |whole|
    ensures |after| == |whole|
  {
    whole[..a] + part + whole[a + |part|..]
  }

  function StoredQword(ram: Ram, a: nat, v: Qword): (after: Ram)
    requires a + 8 <= |ram|
    ensures |after| == |ram|
    ensures QwordAt(after, a) == v
  {
    var after := Stored(ram, a, ToLe(v, 8));
    WordSizes();
    LeOfToLe(v, 8);
    assert after[a..a + 8] == ToLe(v, 8);
    after
  }

  /** The two memories hold the same bytes in [from, to). */
  ghost predicate Same(before: Ram, after: Ram, from: nat, to: nat)
    requires |before| == |after|
  {
    forall x :: from <= x < to && x < |before| ==> after[x] == before[x]
  }

  /** The two memories differ at most in [from, to). */
  ghost predicate SameOutside(before: Ram, after: Ram, from: nat, to: nat)
    requires |before| == |after|
  {
    forall x :: 0 <= x < |before| && !(from <= x < to) ==> after[x] == before[x]
  }

  lemma SameQword(before: Ram, after: Ram, a: nat)
    requires |before| == |after| && a + 8 <= |before|
    requires Same(before, after, a, a + 8)
    ensures QwordAt(after, a) == QwordAt(before, a)
  {
    assert after[a..a + 8] == before[a..a + 8];
  }

  lemma ZeroQword(ram: Ram, a: nat)
    requires a + 8 <= |ram|
    requires forall x :: a <= x < a + 8 ==> ram[x] == 0
    ensures QwordAt(ram, a) == 0
  {
    LeOfZeros(ram[a..a + 8]);
  }

  lemma {:induction false} LeOfZeros(bytes: seq<Byte>)
    requires forall i :: 0 <= i < |bytes| ==> bytes[i] == 0
    ensures Le(bytes) == 0
  {
    if bytes != [] { LeOfZeros(bytes[1..]); }
  }

  /** A qword is its low dword and its high dword. */
  lemma {:induction false} LeSplit(low: seq<Byte>, high: seq<Byte>)
    ensures Le(low + high) == Le(low) + Pow256(|low|) * Le(high)
  {
    hide Pow256;
    ScaledPower(|low|, Le(high));
    if low == [] {
      assert low + high == high;
    } else {
      var rest := low[1..] + high;
      assert (low + high)[1..] == rest;
      LeSplit(low[1..], high);
      assert Le(low + high) == low[0] + 256 * Le(rest);
    }
  }

  lemma ScaledPower(n: nat, v: nat)
    ensures n == 0 ==> Pow256(n) * v == v
    ensures n > 0 ==> Pow256(n) * v == 256 * (Pow256(n - 1) * v)
  {
  }

  lemma QwordOfDwords(ram: Ram, a: nat)
    requires a + 8 <= |ram|
    ensures QwordAt(ram, a) == DwordAt(ram, a) + 0x1_0000_0000 * DwordAt(ram, a + 4)
  {
    WordSizes();
    assert ram[a..a + 8] == ram[a..a + 4] + ram[a + 4..a + 8];
    LeSplit(ram[a..a + 4], ram[a + 4..a + 8]);
  }

  method WriteBytes(ram: array<Byte>, a: nat, bytes: seq<Byte>)
    requires a + |bytes| <= ram.Length
    modifies ram
    ensures ram[..] == Stored(old(ram[..]), a, bytes)
  {
    for i := 0 to |bytes|
      invariant forall k :: 0 <= k < i ==> ram[a + k] == bytes[k]
      invariant forall x :: 0 <= x < ram.Length && !(a <= x < a + i) ==> ram[x] == old(ram[x])
    {
      ram[a + i] := bytes[i];
    }
  }

  method WriteQword(ram: array<Byte>, a: nat, v: Qword)
    requires a + 8 <= ram.Length
    modifies ram
    ensures ram[..] == StoredQword(old(ram[..]), a, v)
    ensures SameOutside(old(ram[..]), ram[..], a, a + 8)
  {
    WriteBytes(ram, a, ToLe(v, 8));
  }

  method WriteDword(ram: array<Byte>, a: nat, v: Dword)
    requires a + 4 <= ram.Length
    modifies ram
    ensures DwordAt(ram[..], a) == v
    ensures SameOutside(old(ram[..]), ram[..], a, a + 4)
  {
    WordSizes();
    LeOfToLe(v, 4);
    WriteBytes(ram, a, ToLe(v, 4));
    assert ram[..][a..a + 4] == ToLe(v, 4);
  }

  lemma SameDword(before: Ram, after: Ram, a: nat)
    requires |before| == |after| && a + 4 <= |before|
    requires Same(before, after, a, a + 4)
    ensures DwordAt(after, a) == DwordAt(before, a)
  {
    assert after[a..a + 4] == before[a..a + 4];
  }
}
