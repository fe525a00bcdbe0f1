/** src/lib/utils.c: the NUL-terminated string loops the formatter is made of. */
module Strings {
  import Memory

  const NUL: char := '\0'

  /** A text with no terminator inside it. */
  predicate Text(s: string) {
    NUL !in s
  }

  /** What a reader of the C string at `at` sees: everything before the first terminator. */
  function CString(buffer: string, at: nat): (s: string)
    requires at <= |buffer|
    decreases |buffer| - at
  {
    if at == |buffer| || buffer[at] == NUL then "" else [buffer[at]] + CString(buffer, at + 1)
  }

  predicate Terminated(buffer: string, at: nat) {
    at <= |buffer| && NUL in buffer[at..]
  }

  /** The string's characters, and the terminator behind them. */
  lemma {:induction false} CStringCharacters(buffer: string, at: nat)
    requires Terminated(buffer, at)
    ensures at + |CString(buffer, at)| < |buffer|
    ensures buffer[at + |CString(buffer, at)|] == NUL
    ensures forall k :: 0 <= k < |CString(buffer, at)| ==> buffer[at + k] == CString(buffer, at)[k] != NUL
    decreases |buffer| - at
  {
    NextCharacter(buffer, at);
    if buffer[at] != NUL {
      CStringCharacters(buffer, at + 1);
      var s, rest := CString(buffer, at), CString(buffer, at + 1);
      forall k | 0 <= k < |s| ensures buffer[at + k] == s[k] != NUL {
        if k > 0 {
          assert buffer[at + 1 + (k - 1)] == rest[k - 1];
        }
      }
    }
  }

  lemma NextCharacter(buffer: string, at: nat)
    requires Terminated(buffer, at)
    ensures at < |buffer|
    ensures buffer[at] != NUL ==> Terminated(buffer, at + 1)
  {
    assert buffer[at..] == [buffer[at]] + buffer[at + 1..];
  }

  lemma CStringIsPrefix(buffer: string, at: nat)
    requires Terminated(buffer, at)
    ensures at + |CString(buffer, at)| < |buffer|
    ensures buffer[at..at + |CString(buffer, at)|] == CString(buffer, at)
    ensures Text(CString(buffer, at))
  {
    hide CString;
    CStringCharacters(buffer, at);
  }

  /** The string up to a given terminator, when no earlier one exists. */
  lemma {:induction false} CStringUpTo(buffer: string, at: nat, n: nat)
    requires at + n < |buffer| && buffer[at + n] == NUL && Text(buffer[at..at + n])
    ensures CString(buffer, at) == buffer[at..at + n]
    ensures Terminated(buffer, at)
    decreases n
  {
    assert buffer[at..][n] == NUL;
    if n > 0 {
      assert buffer[at..at + n] == [buffer[at]] + buffer[at + 1..at + n];
      assert buffer[at] in buffer[at..at + n];
      CStringUpTo(buffer, at + 1, n - 1);
    }
  }

  /** `src` is read from `from` up to its terminator; it is not the buffer written to. */
  method StrCpy(dst: array<char>, at: nat, src: string, from: nat)
    requires Terminated(src, from)
    requires at + |CString(src, from)| < dst.Length
    modifies dst
    ensures dst[..] == Memory.Stored(old(dst[..]), at, CString(src, from) + [NUL])
  {
    ghost var text := CString(src, from);
    CStringCharacters(src, from);
    var i := 0;
    while src[from + i] != NUL
      invariant 0 <= i <= |text|
      invariant i < |text| ==> src[from + i] == text[i] != NUL
      invariant forall k :: 0 <= k < i ==> dst[at + k] == text[k]
      invariant forall x :: 0 <= x < dst.Length && !(at <= x < at + i) ==> dst[x] == old(dst[x])
      decreases |text| - i
    {
      dst[at + i] := src[from + i];
      i := i + 1;
    }
    dst[at + i] := NUL;
  }

  method StrLen(str: array<char>, at: nat) returns (length: nat)
    requires Terminated(str[..], at)
    ensures length == |CString(str[..], at)|
  {
    ghost var text := CString(str[..], at);
    CStringCharacters(str[..], at);
    length := 0;
    while str[at + length] != NUL
      invariant 0 <= length <= |text|
      invariant length < |text| ==> str[at + length] == text[length] != NUL
      invariant str[at + |text|] == NUL
      decreases |text| - length
    {
      length := length + 1;
    }
  }

  /** The first character from `at` on that is not the digit zero. */
  method GetNumberStart(str: array<char>, at: nat) returns (start: nat)
    requires Terminated(str[..], at)
    ensures at <= start < str.Length && str[start] != '0'
    ensures forall k :: at <= k < start ==> str[k] == '0'
  {
    ghost var n :| 0 <= n < |str[..][at..]| && str[..][at..][n] == NUL;
    start := at;
    while str[start] == '0'
      invariant at <= start <= at + n
      invariant forall k :: at <= k < start ==> str[k] == '0'
      decreases at + n - start
    {
      assert str[at + n] == NUL;
      start := start + 1;
    }
  }

  // ----- Writing at the end of what is written -----

  /** `text` now stands at `at`; the character after it may have changed, later ones have not. */
  ghost predicate Extended(before: string, after: string, at: nat, text: string) {
    && |before| == |after|
    && at + |text| < |after|
    && (forall x :: 0 <= x < at ==> after[x] == before[x])
    && (forall i :: 0 <= i < |text| ==> after[at + i] == text[i])
    && forall x :: at + |text| < x < |after| ==> after[x] == before[x]
  }

  /** The same, and the text is terminated. */
  ghost predicate Appended(before: string, after: string, at: nat, text: string) {
    Extended(before, after, at, text) && after[at + |text|] == NUL
  }

  lemma NothingWritten(buffer: string, at: nat)
    requires at < |buffer|
    ensures Extended(buffer, buffer, at, "")
  {
  }

  lemma ExtendedTwice(before: string, middle: string, after: string, at: nat, first: string, second: string)
    requires Extended(before, middle, at, first)
    requires Extended(middle, after, at + |first|, second)
    ensures Extended(before, after, at, first + second)
  {
    forall i | 0 <= i < |first + second|
      ensures after[at + i] == (first + second)[i]
    {
      if i >= |first| {
        assert after[at + |first| + (i - |first|)] == second[i - |first|];
      }
    }
  }

  /** `strcpy` at the end of what is written. */
  method Copy(str: array<char>, at: nat, src: string, from: nat, ghost text: string)
    requires Terminated(src, from) && CString(src, from) == text
    requires at + |text| < str.Length
    modifies str
    ensures Appended(old(str[..]), str[..], at, text)
  {
    StrCpy(str, at, src, from);
  }

  /** `strcpy(str, src); str += strlen(str);` */
  method Append(str: array<char>, at: nat, src: string, from: nat, ghost text: string) returns (next: nat)
    requires Terminated(src, from) && CString(src, from) == text
    requires at + |text| < str.Length
    modifies str
    ensures next == at + |text|
    ensures Appended(old(str[..]), str[..], at, text)
  {
    Copy(str, at, src, from, text);
    CStringIsPrefix(src, from);
    next := EndOf(str, at, text);
  }

  /** `str + strlen(str)`, for a text just written. */
  method EndOf(str: array<char>, at: nat, ghost text: string) returns (next: nat)
    requires Text(text) && at + |text| < str.Length
    requires forall i :: 0 <= i < |text| ==> str[at + i] == text[i]
    requires str[at + |text|] == NUL
    ensures next == at + |text|
  {
    assert str[..][at..at + |text|] == text;
    CStringUpTo(str[..], at, |text|);
    var length := StrLen(str, at);
    next := at + length;
  }

  /** A text followed by a terminator, as a string constant is. */
  lemma LiteralIsCString(s: string)
    requires Text(s)
    ensures Terminated(s + [NUL], 0) && CString(s + [NUL], 0) == s
  {
    assert (s + [NUL])[0..|s|] == s;
    CStringUpTo(s + [NUL], 0, |s|);
  }
}
