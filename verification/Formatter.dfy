/** src/lib/print.c:53-135 and src/lib/log.c: formatted output and the logger that calls it back. */
module Formatter {
  import opened Strings
  import opened Numbers

  /** An argument of the variable part of a call. */
  datatype Arg = IntArg(value: Int32) | StrArg(text: string) | CharArg(c: char)

  // ----- What a directive means -----

  predicate IsInteger(d: char) {
    d in {'d', 'b', 'x', 'p', 'u', 'U'}
  }

  /** `%c` and every unknown directive call the logger. */
  predicate Logs(d: char) {
    !IsInteger(d) && d != 's'
  }

  function BaseOf(d: char): (base: nat)
    ensures Base(base)
  {
    if d == 'd' then 10 else if d == 'b' || d == 'U' then 2 else 16
  }

  /** `%u` and `%U` set the flag, and nothing clears it. */
  function FlagAfter(d: char, isUnsigned: bool): bool {
    isUnsigned || d == 'u' || d == 'U'
  }

  function Takes(d: char): nat {
    if IsInteger(d) || d == 's' || d == 'c' then 1 else 0
  }

  /** The next argument is of the kind the directive takes. */
  predicate Fits(d: char, args: seq<Arg>, isUnsigned: bool) {
    && Takes(d) <= |args|
    && (IsInteger(d) ==> args[0].IntArg? && (FlagAfter(d, isUnsigned) || args[0].value != INT_MIN))
    && (d == 's' ==> args[0].StrArg? && Text(args[0].text))
    && (d == 'c' ==> args[0].CharArg?)
  }

  function Piece(d: char, args: seq<Arg>, isUnsigned: bool): string
    requires Fits(d, args, isUnsigned)
  {
    if IsInteger(d) then Render(args[0].value, BaseOf(d), FlagAfter(d, isUnsigned))
    else if d == 's' then args[0].text
    else if d == 'c' then [args[0].c]
    else ""
  }

  // ----- What a format means -----

  /** The arguments fit the directives in order, and the format does not end in a lone `%`. */
  predicate Matches(fmt: string, args: seq<Arg>, isUnsigned: bool) {
    if fmt == "" then true
    else if fmt[0] != '%' then Matches(fmt[1..], args, isUnsigned)
    else
      && |fmt| >= 2
      && Fits(fmt[1], args, isUnsigned)
      && Matches(fmt[2..], args[Takes(fmt[1])..], FlagAfter(fmt[1], isUnsigned))
  }

  /** The literal characters and rendered arguments in order. */
  function Format(fmt: string, args: seq<Arg>, isUnsigned: bool): string
    requires Matches(fmt, args, isUnsigned)
  {
    if fmt == "" then ""
    else if fmt[0] != '%' then [fmt[0]] + Format(fmt[1..], args, isUnsigned)
    else Piece(fmt[1], args, isUnsigned)
         + Format(fmt[2..], args[Takes(fmt[1])..], FlagAfter(fmt[1], isUnsigned))
  }

  /** How many arguments a format takes, and the flag it leaves. */
  function Used(fmt: string): nat {
    if |fmt| < 2 then 0
    else if fmt[0] != '%' then Used(fmt[1..])
    else Takes(fmt[1]) + Used(fmt[2..])
  }

  function FlagAtEnd(fmt: string, isUnsigned: bool): bool {
    if |fmt| < 2 then isUnsigned
    else if fmt[0] != '%' then FlagAtEnd(fmt[1..], isUnsigned)
    else FlagAtEnd(fmt[2..], FlagAfter(fmt[1], isUnsigned))
  }

  /** Some directive of the format is `%u` or `%U`. */
  predicate AsksUnsigned(fmt: string) {
    if |fmt| < 2 then false
    else if fmt[0] != '%' then AsksUnsigned(fmt[1..])
    else fmt[1] == 'u' || fmt[1] == 'U' || AsksUnsigned(fmt[2..])
  }

  lemma {:induction false} FlagIsSticky(fmt: string, isUnsigned: bool)
    ensures FlagAtEnd(fmt, isUnsigned) <==> isUnsigned || AsksUnsigned(fmt)
  {
    if |fmt| >= 2 {
      if fmt[0] != '%' {
        FlagIsSticky(fmt[1..], isUnsigned);
      } else {
        FlagIsSticky(fmt[2..], FlagAfter(fmt[1], isUnsigned));
      }
    }
  }

  lemma {:induction false} UsedFits(fmt: string, args: seq<Arg>, isUnsigned: bool)
    requires Matches(fmt, args, isUnsigned)
    ensures Used(fmt) <= |args|
  {
    if |fmt| >= 2 {
      if fmt[0] != '%' {
        UsedFits(fmt[1..], args, isUnsigned);
      } else {
        UsedFits(fmt[2..], args[Takes(fmt[1])..], FlagAfter(fmt[1], isUnsigned));
      }
    }
  }

  /**
   A format means what its parts mean, one after the other; the second part is rendered unsigned
   throughout if the first asked for it anywhere.
   */
  lemma {:induction false} FormatOfConcatenation(first: string, second: string, args: seq<Arg>, isUnsigned: bool)
    requires Matches(first, args, isUnsigned)
    requires Used(first) <= |args|
    requires Matches(second, args[Used(first)..], isUnsigned || AsksUnsigned(first))
    ensures Matches(first + second, args, isUnsigned)
    ensures Format(first + second, args, isUnsigned)
         == Format(first, args, isUnsigned) + Format(second, args[Used(first)..], isUnsigned || AsksUnsigned(first))
  {
    hide Piece, Fits, Matches, Format, Used, AsksUnsigned;
    var whole := first + second;
    if first == "" {
      NothingFirst(second, args, isUnsigned);
    } else if first[0] != '%' {
      assert whole[1..] == first[1..] + second && whole[0] == first[0];
      LiteralFirst(first, args, isUnsigned);
      FormatOfConcatenation(first[1..], second, args, isUnsigned);
      LiteralFirst(whole, args, isUnsigned);
    } else {
      DirectiveFirst(first, args, isUnsigned);
      var d := first[1];
      var rest := args[Takes(d)..];
      assert whole[2..] == first[2..] + second && whole[..2] == first[..2];
      assert whole[0] == first[0] && whole[1] == d;
      assert args[Used(first)..] == rest[Used(first[2..])..];
      FormatOfConcatenation(first[2..], second, rest, FlagAfter(d, isUnsigned));
      DirectiveFirst(whole, args, isUnsigned);
    }
  }

  lemma NothingFirst(second: string, args: seq<Arg>, isUnsigned: bool)
    ensures Matches("", args, isUnsigned) && Format("", args, isUnsigned) == ""
    ensures Used("") == 0 && !AsksUnsigned("") && args[0..] == args
    ensures "" + second == second
  {
  }

  lemma LiteralFirst(fmt: string, args: seq<Arg>, isUnsigned: bool)
    requires fmt != "" && fmt[0] != '%'
    ensures Matches(fmt, args, isUnsigned) <==> Matches(fmt[1..], args, isUnsigned)
    ensures Matches(fmt, args, isUnsigned) ==>
              Format(fmt, args, isUnsigned) == [fmt[0]] + Format(fmt[1..], args, isUnsigned)
    ensures Used(fmt) == Used(fmt[1..]) && AsksUnsigned(fmt) == AsksUnsigned(fmt[1..])
  {
  }

  lemma DirectiveFirst(fmt: string, args: seq<Arg>, isUnsigned: bool)
    requires fmt != "" && fmt[0] == '%'
    ensures Matches(fmt, args, isUnsigned) <==>
              |fmt| >= 2 && Fits(fmt[1], args, isUnsigned)
              && Matches(fmt[2..], args[Takes(fmt[1])..], FlagAfter(fmt[1], isUnsigned))
    ensures Matches(fmt, args, isUnsigned) ==>
              Format(fmt, args, isUnsigned) == Piece(fmt[1], args, isUnsigned)
                + Format(fmt[2..], args[Takes(fmt[1])..], FlagAfter(fmt[1], isUnsigned))
    ensures |fmt| >= 2 ==>
              && Used(fmt) == Takes(fmt[1]) + Used(fmt[2..])
              && (AsksUnsigned(fmt) <==> fmt[1] == 'u' || fmt[1] == 'U' || AsksUnsigned(fmt[2..]))
  {
  }

  predicate HasTrigger(fmt: string) {
    if |fmt| < 2 then false
    else if fmt[0] != '%' then HasTrigger(fmt[1..])
    else Logs(fmt[1]) || HasTrigger(fmt[2..])
  }

  // ----- What the logger sends to the serial port -----

  const DEBUG_LEVEL: nat := 0
  const ERROR_LEVEL: nat := 3
  const LEVEL_STRINGS: seq<string> := ["DEBUG", "INFO", "WARN", "ERROR", "FATAL"]
  const LOG_FORMAT: string := "[%s] %s:%d: %s\n"
  const PRINT_FILE: string := "src/lib/print.c"
  const CHARACTER_MESSAGE: string := "printing a character"
  const UNKNOWN_MESSAGE: string := "unknown format character"

  /** The part of a log line behind the file name. */
  function LogTail(line: Int32, text: string): string {
    [':'] + (Render(line, 10, false) + ([':'] + ([' '] + (text + (['\n'] + "")))))
  }

  /** `[level] file:line: text`, a line. */
  function LogLine(level: nat, file: string, line: Int32, text: string): string
    requires level < 5
  {
    ['['] + (LEVEL_STRINGS[level] + ([']'] + ([' '] + (file + LogTail(line, text)))))
  }

  function Logged(level: nat, line: Int32, text: string, minLevel: nat): seq<string>
    requires level < 5
  {
    if level < minLevel then [] else [LogLine(level, PRINT_FILE, line, text)]
  }

  /** The lines one directive logs. */
  function LoggedBy(d: char, minLevel: nat): seq<string> {
    if d == 'c' then Logged(DEBUG_LEVEL, 81, CHARACTER_MESSAGE, minLevel)
    else if Logs(d) then Logged(ERROR_LEVEL, 129, UNKNOWN_MESSAGE, minLevel)
    else []
  }

  function LoggedWhile(fmt: string, minLevel: nat): seq<string> {
    if |fmt| < 2 then []
    else if fmt[0] != '%' then LoggedWhile(fmt[1..], minLevel)
    else LoggedBy(fmt[1], minLevel) + LoggedWhile(fmt[2..], minLevel)
  }

  /** The part of a text that a reader of the C string sees. */
  function Seen(text: string): string {
    CString(text + [NUL], 0)
  }

  /** A format of literals and `%s` or `%d` alone, piece by piece. */
  lemma LiteralStep(c: char, rest: string, args: seq<Arg>)
    requires c != '%' && Matches(rest, args, false)
    ensures Matches([c] + rest, args, false)
    ensures Format([c] + rest, args, false) == [c] + Format(rest, args, false)
    ensures HasTrigger([c] + rest) <==> HasTrigger(rest)
  {
    assert ([c] + rest)[1..] == rest;
    if rest == "" {
      assert !HasTrigger(rest);
    }
  }

  lemma DirectiveStep(d: char, rest: string, args: seq<Arg>)
    requires Fits(d, args, false) && !FlagAfter(d, false)
    requires Matches(rest, args[Takes(d)..], false)
    ensures Matches(['%', d] + rest, args, false)
    ensures Format(['%', d] + rest, args, false) == Piece(d, args, false) + Format(rest, args[Takes(d)..], false)
    ensures HasTrigger(['%', d] + rest) <==> Logs(d) || HasTrigger(rest)
  {
    assert (['%', d] + rest)[2..] == rest;
  }

  const LOG_TAIL: string := ":%d: %s\n"

  lemma LogTailMeaning(line: Int32, text: string)
    requires line != INT_MIN && Text(text)
    ensures Matches(LOG_TAIL, [IntArg(line), StrArg(text)], false)
    ensures Format(LOG_TAIL, [IntArg(line), StrArg(text)], false) == LogTail(line, text)
    ensures !HasTrigger(LOG_TAIL)
  {
    hide Render, Text, Matches, Format, HasTrigger, Fits;
    var a1: seq<Arg> := [StrArg(text)] + [];
    var a0 := [IntArg(line)] + a1;
    EmptyFormat([]);
    LiteralStep('\n', "", []);
    var f1 := ['\n'] + "";
    StringStep(text, f1, []);
    var f2 := ['%', 's'] + f1;
    LiteralStep(' ', f2, a1);
    LiteralStep(':', [' '] + f2, a1);
    var f3 := [':'] + ([' '] + f2);
    NumberStep(line, f3, a1);
    LiteralStep(':', ['%', 'd'] + f3, a0);
    assert [':'] + (['%', 'd'] + f3) == LOG_TAIL;
    assert a0 == [IntArg(line), StrArg(text)];
  }

  lemma LogFormatSplits()
    ensures ['['] + (['%', 's'] + ([']'] + ([' '] + (['%', 's'] + LOG_TAIL)))) == LOG_FORMAT
  {
  }

  /** The part in front of the tail, for any tail. */
  lemma LogHead(name: string, file: string, tail: string, args: seq<Arg>)
    requires Text(name) && Text(file) && Matches(tail, args, false)
    ensures var fmt := ['['] + (['%', 's'] + ([']'] + ([' '] + (['%', 's'] + tail))));
      var all := [StrArg(name)] + ([StrArg(file)] + args);
      && Matches(fmt, all, false)
      && Format(fmt, all, false) == ['['] + (name + ([']'] + ([' '] + (file + Format(tail, args, false)))))
      && (HasTrigger(fmt) <==> HasTrigger(tail))
  {
    hide Text, Matches, Format, HasTrigger, Fits;
    StringStep(file, tail, args);
    var f1 := ['%', 's'] + tail;
    LiteralStep(' ', f1, [StrArg(file)] + args);
    LiteralStep(']', [' '] + f1, [StrArg(file)] + args);
    var f2 := [']'] + ([' '] + f1);
    StringStep(name, f2, [StrArg(file)] + args);
    LiteralStep('[', ['%', 's'] + f2, [StrArg(name)] + ([StrArg(file)] + args));
  }

  lemma LogFormatMeaning(level: nat, file: string, line: Int32, text: string)
    requires level < 5 && line != INT_MIN && Text(file) && Text(text)
    ensures var args := [StrArg(LEVEL_STRINGS[level]), StrArg(file), IntArg(line), StrArg(text)];
      Matches(LOG_FORMAT, args, false) && Format(LOG_FORMAT, args, false) == LogLine(level, file, line, text)
    ensures !HasTrigger(LOG_FORMAT)
  {
    hide Render, Text, Matches, Format, HasTrigger, Fits, LogTail;
    var name := LEVEL_STRINGS[level];
    assert Text(name) by { LevelsAreText(level); }
    var args := [IntArg(line), StrArg(text)];
    LogTailMeaning(line, text);
    LogFormatSplits();
    LogHead(name, file, LOG_TAIL, args);
    assert [StrArg(name)] + ([StrArg(file)] + args) == [StrArg(name), StrArg(file), IntArg(line), StrArg(text)];
  }

  lemma EmptyFormat(args: seq<Arg>)
    ensures Matches("", args, false) && Format("", args, false) == "" && !HasTrigger("")
  {
  }

  lemma StringStep(text: string, rest: string, args: seq<Arg>)
    requires Text(text) && Matches(rest, args, false)
    ensures Matches(['%', 's'] + rest, [StrArg(text)] + args, false)
    ensures Format(['%', 's'] + rest, [StrArg(text)] + args, false) == text + Format(rest, args, false)
    ensures HasTrigger(['%', 's'] + rest) <==> HasTrigger(rest)
  {
    assert ([StrArg(text)] + args)[1..] == args;
    DirectiveStep('s', rest, [StrArg(text)] + args);
  }

  lemma NumberStep(line: Int32, rest: string, args: seq<Arg>)
    requires line != INT_MIN && Matches(rest, args, false)
    ensures Matches(['%', 'd'] + rest, [IntArg(line)] + args, false)
    ensures Format(['%', 'd'] + rest, [IntArg(line)] + args, false)
         == Render(line, 10, false) + Format(rest, args, false)
    ensures HasTrigger(['%', 'd'] + rest) <==> HasTrigger(rest)
  {
    hide Render;
    assert ([IntArg(line)] + args)[1..] == args;
    DirectiveStep('d', rest, [IntArg(line)] + args);
  }

  lemma LevelsAreText(level: nat)
    requires level < 5
    ensures Text(LEVEL_STRINGS[level])
  {
  }

  // ----- What the directives mean, one by one -----

  /** A format of one directive. */
  lemma SingleDirective(d: char, args: seq<Arg>, isUnsigned: bool)
    requires Fits(d, args, isUnsigned)
    ensures Matches(['%', d], args, isUnsigned)
    ensures Format(['%', d], args, isUnsigned) == Piece(d, args, isUnsigned)
  {
    hide Piece, Fits;
    assert ['%', d][2..] == "";
  }

  /**
   What a reader of a rendered number gets back: in base ten for `%d`, sixteen for `%x`, `%p` and
   `%u`, and two for `%b` and `%U`, the last of each reading the number as unsigned at any time.
   */
  lemma IntegerMeaning(d: char, number: Int32, isUnsigned: bool)
    requires d in {'d', 'b', 'x', 'p', 'u', 'U'}
    requires isUnsigned || d in {'u', 'U'} || number != INT_MIN
    ensures Matches(['%', d], [IntArg(number)], isUnsigned)
    ensures var s := Format(['%', d], [IntArg(number)], isUnsigned);
      var value: int := if isUnsigned || d in {'u', 'U'} then Unsigned(number) else number;
      && (d == 'd' ==> Parse(s, 10) == Number(value))
      && (d in {'x', 'p', 'u'} ==> Parse(s, 16) == Number(value))
      && (d in {'b', 'U'} ==> Parse(s, 2) == Number(value))
  {
    hide Render, Parse, Format, Matches;
    SingleDirective(d, [IntArg(number)], isUnsigned);
    ParseOfRender(number, BaseOf(d), FlagAfter(d, isUnsigned));
  }

  /** `%c` and `%s` stand for their argument, and every other directive for nothing. */
  lemma TextMeaning(d: char, c: char, text: string, isUnsigned: bool)
    requires Text(text) && d !in {'c', 's', 'd', 'b', 'x', 'p', 'u', 'U'}
    ensures Matches("%c", [CharArg(c)], isUnsigned) && Format("%c", [CharArg(c)], isUnsigned) == [c]
    ensures Matches("%s", [StrArg(text)], isUnsigned) && Format("%s", [StrArg(text)], isUnsigned) == text
    ensures Matches(['%', d], [], isUnsigned) && Format(['%', d], [], isUnsigned) == ""
  {
    hide Format, Matches;
    assert "%c" == ['%', 'c'] && "%s" == ['%', 's'];
    SingleDirective('c', [CharArg(c)], isUnsigned);
    SingleDirective('s', [StrArg(text)], isUnsigned);
    SingleDirective(d, [], isUnsigned);
  }

  /** A line of the log, as its reader sees it. */
  function ReadLine(level: string, file: string, line: string, text: string): string {
    "[" + (level + ("] " + (file + (":" + (line + (": " + (text + "\n")))))))
  }

  lemma TwoFirst(c: char, d: char, pair: string, rest: string)
    requires pair == [c, d]
    ensures [c] + ([d] + rest) == pair + rest
  {
  }

  lemma LineReads(level: nat, file: string, line: Int32, text: string)
    requires level < 5
    ensures LogLine(level, file, line, text)
         == ReadLine(LEVEL_STRINGS[level], file, Render(line, 10, false), text)
  {
    hide Render;
    var tail := LogTail(line, text);
    assert text + (['\n'] + "") == text + "\n";
    TwoFirst(':', ' ', ": ", text + "\n");
    TwoFirst(']', ' ', "] ", file + tail);
  }

  /** The lines that the formatter sends of its own accord, for each directive. */
  lemma OwnLines(d: char, minLevel: nat)
    ensures LoggedWhile(['%', d], minLevel) ==
            if d in {'s', 'd', 'b', 'x', 'p', 'u', 'U'} then []
            else if d == 'c' then
              (if minLevel <= 0 then [ReadLine("DEBUG", "src/lib/print.c", "81", "printing a character")] else [])
            else
              (if minLevel <= 3 then [ReadLine("ERROR", "src/lib/print.c", "129", "unknown format character")] else [])
  {
    hide LogLine, ReadLine, Render;
    assert ['%', d][2..] == "";
    assert LoggedWhile(['%', d], minLevel) == LoggedBy(d, minLevel);
    LineReads(DEBUG_LEVEL, PRINT_FILE, 81, CHARACTER_MESSAGE);
    LineReads(ERROR_LEVEL, PRINT_FILE, 129, UNKNOWN_MESSAGE);
    LineNumbers();
  }

  lemma LineNumbers()
    ensures Render(81, 10, false) == "81" && Render(129, 10, false) == "129"
  {
    assert Digits(8, 10) == "8";
    assert Digits(1, 10) == "1";
    assert Digits(12, 10) == "12";
  }

  // ----- The code -----

  /** Calls can nest at most three deep: a format with triggers, its log, that log's two formats. */
  function Nesting(fmt: string): nat {
    if HasTrigger(fmt) then 2 else 0
  }

  /** The logger's buffers are large enough for what is logged. */
  predicate FitsLog(level: nat, file: string, line: Int32, text: string) {
    && level < 5
    && line != INT_MIN
    && Text(file)
    && |text| < 0x100
    && |LogLine(level, file, line, Seen(text))| < 0x400
  }

  lemma SeenOfText(text: string)
    requires Text(text)
    ensures Seen(text) == text
  {
    LiteralIsCString(text);
  }

  /** What the formatter itself logs always fits. */
  lemma OwnMessagesFit()
    ensures FitsLog(DEBUG_LEVEL, PRINT_FILE, 81, CHARACTER_MESSAGE) && Seen(CHARACTER_MESSAGE) == CHARACTER_MESSAGE
    ensures FitsLog(ERROR_LEVEL, PRINT_FILE, 129, UNKNOWN_MESSAGE) && Seen(UNKNOWN_MESSAGE) == UNKNOWN_MESSAGE
    ensures Terminated(CHARACTER_MESSAGE + [NUL], 0) && CString(CHARACTER_MESSAGE + [NUL], 0) == CHARACTER_MESSAGE
    ensures Terminated(UNKNOWN_MESSAGE + [NUL], 0) && CString(UNKNOWN_MESSAGE + [NUL], 0) == UNKNOWN_MESSAGE
  {
    hide Seen, Render, CString;
    LiteralIsCString(CHARACTER_MESSAGE);
    LiteralIsCString(UNKNOWN_MESSAGE);
    assert Text(CHARACTER_MESSAGE) && Text(UNKNOWN_MESSAGE) && Text(PRINT_FILE);
    SeenOfText(CHARACTER_MESSAGE);
    SeenOfText(UNKNOWN_MESSAGE);
    ShortNumber(81);
    ShortNumber(129);
  }

  lemma ShortNumber(line: Int32)
    requires 0 <= line < 1000
    ensures |Render(line, 10, false)| <= 3
  {
    var n: nat := line;
    assert |Digits(n / 10 / 10, 10)| == 1;
    assert |Digits(n / 10, 10)| <= 2;
    assert |Digits(n, 10)| <= 3;
  }

  /** A literal message is its own meaning. */
  lemma {:induction false} LiteralFormat(fmt: string)
    requires '%' !in fmt
    ensures Matches(fmt, [], false) && Format(fmt, [], false) == fmt && !HasTrigger(fmt)
  {
    if fmt != "" {
      LiteralFormat(fmt[1..]);
    }
  }

  /** A format without triggers logs nothing. */
  lemma {:induction false} QuietFormat(fmt: string, minLevel: nat)
    requires !HasTrigger(fmt)
    ensures LoggedWhile(fmt, minLevel) == []
  {
    if |fmt| >= 2 {
      if fmt[0] != '%' {
        QuietFormat(fmt[1..], minLevel);
      } else {
        QuietFormat(fmt[2..], minLevel);
      }
    }
  }

  /** Where a scan of the format stands: what is written and logged, and what is still to come. */
  ghost predicate Progress(fmt: string, args: seq<Arg>, minLevel: nat,
                           i: nat, used: nat, isUnsigned: bool, done: string, lines: seq<string>)
    requires Matches(fmt, args, false)
  {
    && i <= |fmt| && used <= |args|
    && Matches(fmt[i..], args[used..], isUnsigned)
    && Format(fmt, args, false) == done + Format(fmt[i..], args[used..], isUnsigned)
    && LoggedWhile(fmt, minLevel) == lines + LoggedWhile(fmt[i..], minLevel)
    && (HasTrigger(fmt[i..]) ==> HasTrigger(fmt))
    && FlagAtEnd(fmt, false) == FlagAtEnd(fmt[i..], isUnsigned)
  }

  lemma ProgressStart(fmt: string, args: seq<Arg>, minLevel: nat)
    requires Matches(fmt, args, false)
    ensures Progress(fmt, args, minLevel, 0, 0, false, "", [])
  {
    hide Matches, Format, LoggedWhile, HasTrigger;
    assert fmt[0..] == fmt && args[0..] == args;
  }

  lemma ProgressBounds(fmt: string, args: seq<Arg>, minLevel: nat,
                       i: nat, used: nat, isUnsigned: bool, done: string, lines: seq<string>)
    requires Matches(fmt, args, false)
    requires Progress(fmt, args, minLevel, i, used, isUnsigned, done, lines)
    ensures used <= |args|
  {
    hide Matches, Format, LoggedWhile, HasTrigger;
  }

  lemma ProgressEnd(fmt: string, args: seq<Arg>, minLevel: nat,
                    i: nat, used: nat, isUnsigned: bool, done: string, lines: seq<string>)
    requires Matches(fmt, args, false)
    requires Progress(fmt, args, minLevel, i, used, isUnsigned, done, lines)
    requires i >= |fmt|
    ensures done == Format(fmt, args, false) && lines == LoggedWhile(fmt, minLevel)
    ensures isUnsigned == FlagAtEnd(fmt, false)
  {
    assert fmt[i..] == "";
  }

  lemma ProgressLiteral(fmt: string, args: seq<Arg>, minLevel: nat,
                        i: nat, used: nat, isUnsigned: bool, done: string, lines: seq<string>)
    requires Matches(fmt, args, false) && i < |fmt| && fmt[i] != '%'
    requires Progress(fmt, args, minLevel, i, used, isUnsigned, done, lines)
    ensures |done| < |Format(fmt, args, false)|
    ensures Progress(fmt, args, minLevel, i + 1, used, isUnsigned, done + [fmt[i]], lines)
  {
    var rest := fmt[i..];
    assert rest[1..] == fmt[i + 1..];
    assert rest[0] == fmt[i];
    if |rest| == 1 {
      assert rest[1..] == "";
    }
  }

  lemma ProgressDirective(fmt: string, args: seq<Arg>, minLevel: nat,
                          i: nat, used: nat, isUnsigned: bool, done: string, lines: seq<string>)
    requires Matches(fmt, args, false) && i < |fmt| && fmt[i] == '%'
    requires Progress(fmt, args, minLevel, i, used, isUnsigned, done, lines)
    ensures i + 2 <= |fmt| && Fits(fmt[i + 1], args[used..], isUnsigned)
    ensures var d := fmt[i + 1];
      && |done + Piece(d, args[used..], isUnsigned)| <= |Format(fmt, args, false)|
      && Progress(fmt, args, minLevel, i + 2, used + Takes(d), FlagAfter(d, isUnsigned),
                  done + Piece(d, args[used..], isUnsigned), lines + LoggedBy(d, minLevel))
    ensures Logs(fmt[i + 1]) ==> HasTrigger(fmt)
  {
    hide LoggedBy, Piece, Matches, Format;
    var rest := fmt[i..];
    DirectiveFirst(rest, args[used..], isUnsigned);
    var d := rest[1];
    assert d == fmt[i + 1];
    assert rest[2..] == fmt[i + 2..];
    assert args[used..][Takes(d)..] == args[used + Takes(d)..];
  }

  class Console {
    var minLevel: nat
    var serial: seq<string>

    constructor ()
      ensures minLevel == DEBUG_LEVEL && serial == []
    {
      minLevel, serial := DEBUG_LEVEL, [];
    }

    method SetLogLevel(level: nat)
      modifies this`minLevel
      ensures minLevel == level
    {
      minLevel := level;
    }

    /** The case of `%c`. */
    method PrintCharacter(str: array<char>, at: nat, c: char) returns (next: nat)
      requires at + 1 < str.Length
      modifies str, this`serial
      ensures next == at + 1
      ensures Extended(old(str[..]), str[..], at, [c])
      ensures serial == old(serial) + Logged(DEBUG_LEVEL, 81, CHARACTER_MESSAGE, minLevel)
      decreases 2, 0
    {
      hide Seen, CString, Terminated, LogLine, FitsLog, Matches, Format, HasTrigger, LoggedWhile;
      OwnMessagesFit();
      LiteralFormat(CHARACTER_MESSAGE);
      QuietFormat(CHARACTER_MESSAGE, minLevel);
      LogLog(DEBUG_LEVEL, PRINT_FILE, 81, CHARACTER_MESSAGE + [NUL], []);
      str[at] := c;
      next := at + 1;
    }

    /** The default case. */
    method PrintUnknown()
      modifies this`serial
      ensures serial == old(serial) + Logged(ERROR_LEVEL, 129, UNKNOWN_MESSAGE, minLevel)
      decreases 2, 0
    {
      hide Seen, CString, Terminated, LogLine, FitsLog, Matches, Format, HasTrigger, LoggedWhile;
      OwnMessagesFit();
      LiteralFormat(UNKNOWN_MESSAGE);
      QuietFormat(UNKNOWN_MESSAGE, minLevel);
      LogLog(ERROR_LEVEL, PRINT_FILE, 129, UNKNOWN_MESSAGE + [NUL], []);
    }

    /** The case of `%s`. */
    method PrintString(str: array<char>, at: nat, text: string) returns (next: nat)
      requires Text(text) && at + |text| < str.Length
      modifies str
      ensures next == at + |text|
      ensures Extended(old(str[..]), str[..], at, text)
    {
      hide CString;
      LiteralIsCString(text);
      next := Append(str, at, text + [NUL], 0, text);
    }

    /** One directive of a format: the `switch` of line 77. */
    method PrintDirective(str: array<char>, at: nat, d: char, args: seq<Arg>, isUnsigned: bool)
      returns (next: nat, flag: bool)
      requires Fits(d, args, isUnsigned)
      requires at + |Piece(d, args, isUnsigned)| < str.Length
      modifies str, this`serial
      ensures next == at + |Piece(d, args, isUnsigned)| && flag == FlagAfter(d, isUnsigned)
      ensures Extended(old(str[..]), str[..], at, Piece(d, args, isUnsigned))
      ensures serial == old(serial) + LoggedBy(d, minLevel)
      decreases if Logs(d) then 2 else 0, 1
    {
      hide Render, Extended, Text, Logged;
      flag := isUnsigned;
      match d
      case 'c' => next := PrintCharacter(str, at, args[0].c);
      case 's' => next := PrintString(str, at, args[0].text);
      case 'd' => next := PrintInteger(str, at, args[0].value, 10, flag);
      case 'b' => next := PrintInteger(str, at, args[0].value, 2, flag);
      case 'x' => next := PrintInteger(str, at, args[0].value, 16, flag);
      case 'p' => next := PrintInteger(str, at, args[0].value, 16, flag);
      case 'u' =>
        flag := true;
        next := PrintInteger(str, at, args[0].value, 16, flag);
      case 'U' =>
        flag := true;
        next := PrintInteger(str, at, args[0].value, 2, flag);
      case _ =>
        PrintUnknown();
        next := at;
        NothingWritten(str[..], at);
    }

    /** `sprint_integer(str, number, base, is_unsigned); str += strlen(str);` */
    method PrintInteger(str: array<char>, at: nat, number: Int32, base: nat, isUnsigned: bool) returns (next: nat)
      requires Base(base) && (isUnsigned || number != INT_MIN)
      requires at + |Render(number, base, isUnsigned)| < str.Length
      modifies str
      ensures next == at + |Render(number, base, isUnsigned)|
      ensures Extended(old(str[..]), str[..], at, Render(number, base, isUnsigned))
    {
      hide Render, CString;
      SprintInteger(str, at, number, base, isUnsigned);
      RenderIsText(number, base, isUnsigned);
      next := EndOf(str, at, Render(number, base, isUnsigned));
    }

    /** `format` is read up to its terminator. `flag` is the unsigned flag the scan ends with. */
    method Vsprintf(str: array<char>, format: string, args: seq<Arg>) returns (ghost flag: bool)
      requires Terminated(format, 0) && Matches(CString(format, 0), args, false)
      requires |Format(CString(format, 0), args, false)| < str.Length
      modifies str, this`serial
      ensures Appended(old(str[..]), str[..], 0, Format(CString(format, 0), args, false))
      ensures serial == old(serial) + LoggedWhile(CString(format, 0), minLevel)
      ensures flag <==> AsksUnsigned(CString(format, 0))
      decreases Nesting(CString(format, 0)), 2
    {
      hide Format, Matches, Fits, Piece, Progress, LoggedWhile, LoggedBy, HasTrigger, CString, FlagAtEnd, AsksUnsigned;
      var isUnsigned := false;
      var i, at, used := 0, 0, 0;
      ghost var fmt := CString(format, 0);
      CStringCharacters(format, 0);
      ghost var start, done, lines := str[..], "", [];
      ProgressStart(fmt, args, minLevel);
      while format[i] != NUL
        invariant 0 <= i <= |fmt| && 0 <= used && at == |done| <= |Format(fmt, args, false)|
        invariant Progress(fmt, args, minLevel, i, used, isUnsigned, done, lines)
        invariant Extended(start, str[..], 0, done)
        invariant serial == old(serial) + lines
        invariant i < |fmt| ==> format[i] == fmt[i] != NUL
        decreases |fmt| - i
      {
        ghost var before := str[..];
        if format[i] != '%' {
          ProgressLiteral(fmt, args, minLevel, i, used, isUnsigned, done, lines);
          str[at] := format[i];
          ExtendedTwice(start, before, str[..], 0, done, [fmt[i]]);
          done := done + [fmt[i]];
          i, at := i + 1, at + 1;
        } else {
          ProgressDirective(fmt, args, minLevel, i, used, isUnsigned, done, lines);
          var d := format[i + 1];
          assert format[0 + (i + 1)] == fmt[i + 1];
          assert used <= |args| by { ProgressBounds(fmt, args, minLevel, i, used, isUnsigned, done, lines); }
          ghost var piece := Piece(d, args[used..], isUnsigned);
          at, isUnsigned := PrintDirective(str, at, d, args[used..], isUnsigned);
          ExtendedTwice(start, before, str[..], 0, done, piece);
          done, lines := done + piece, lines + LoggedBy(d, minLevel);
          i, used := i + 2, used + Takes(d);
        }
        assert i < |fmt| ==> format[0 + i] == fmt[i] != NUL;
      }
      ProgressEnd(fmt, args, minLevel, i, used, isUnsigned, done, lines);
      FlagIsSticky(fmt, false);
      flag := isUnsigned;
      str[at] := NUL;
    }

    method LogLog(level: nat, file: string, line: Int32, format: string, args: seq<Arg>)
      requires level >= minLevel ==>
                 && Terminated(format, 0) && Matches(CString(format, 0), args, false)
                 && FitsLog(level, file, line, Format(CString(format, 0), args, false))
      modifies this`serial
      ensures serial == if level < minLevel then old(serial) else
                          old(serial) + LoggedWhile(CString(format, 0), minLevel)
                          + [LogLine(level, file, line, Seen(Format(CString(format, 0), args, false)))]
      decreases Nesting(CString(format, 0)) + 1, 0
    {
      hide Render, CString, Matches, Format, LogLine, LoggedWhile, AsksUnsigned, Nesting;
      if level < minLevel {
        return;
      }
      var buffer := new char[0x100];
      var logMessage := new char[0x400];
      ghost var text := Format(CString(format, 0), args, false);
      ghost var flag := Vsprintf(buffer, format, args);
      SeenIsText(text);
      SeenInBuffer(buffer[..], text);
      var message := CString(buffer[..], 0);

      LogFormatMeaning(level, file, line, message);
      QuietFormat(LOG_FORMAT, minLevel);
      LogLineIsText(level, file, line, message);
      LogFormatIsText();
      assert Nesting(LOG_FORMAT) == 0 by { QuietNesting(LOG_FORMAT); }
      flag := Vsprintf(logMessage, LOG_FORMAT + [NUL],
                       [StrArg(LEVEL_STRINGS[level]), StrArg(file), IntArg(line), StrArg(message)]);
      ghost var logLine := LogLine(level, file, line, message);
      SeenOfText(logLine);
      SeenInBuffer(logMessage[..], logLine);
      serial := serial + [CString(logMessage[..], 0)];
    }
  }

  lemma LogFormatIsText()
    ensures Terminated(LOG_FORMAT + [NUL], 0) && CString(LOG_FORMAT + [NUL], 0) == LOG_FORMAT
  {
    hide CString;
    LiteralIsCString(LOG_FORMAT);
  }

  lemma QuietNesting(fmt: string)
    requires !HasTrigger(fmt)
    ensures Nesting(fmt) == 0
  {
    hide HasTrigger;
  }

  lemma SeenIsText(text: string)
    ensures Text(Seen(text))
  {
    hide CString;
    assert (text + [NUL])[0..][|text|] == NUL;
    CStringIsPrefix(text + [NUL], 0);
  }

  /** Reading a buffer into which a text was formatted. */
  lemma SeenInBuffer(buffer: string, text: string)
    requires Appended(buffer, buffer, 0, text)
    ensures CString(buffer, 0) == Seen(text)
  {
    forall i | 0 <= i <= |text| ensures buffer[i] == (text + [NUL])[i] {
      if i < |text| {
        assert buffer[0 + i] == text[i];
      }
    }
    SamePrefix(buffer, text + [NUL], 0, |text|);
  }

  lemma {:induction false} SamePrefix(a: string, b: string, at: nat, n: nat)
    requires at <= n < |a| && n < |b| && a[n] == NUL
    requires forall i :: at <= i <= n ==> a[i] == b[i]
    ensures CString(a, at) == CString(b, at)
    decreases n - at
  {
    if a[at] != NUL {
      SamePrefix(a, b, at + 1, n);
    }
  }

  lemma LogLineIsText(level: nat, file: string, line: Int32, text: string)
    requires level < 5 && Text(file) && Text(text)
    ensures Text(LogLine(level, file, line, text))
  {
    RenderIsText(line, 10, false);
    LevelsAreText(level);
  }
}
