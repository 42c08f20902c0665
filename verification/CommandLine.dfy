/**
 The Windows command-line encoder (crates/nrm-pty/src/windows.rs) against the
 documented decoding rules of the Microsoft C runtime ("Parsing C command-line
 arguments"): the first word is the program, where quotes toggle and
 backslashes are literal; in the arguments, 2n or 2n + 1 backslashes before a
 quote stand for n backslashes and a delimiter or a literal quote, and two
 quotes inside a quoted part stand for one.
 */
module CommandLine {

  /** A UTF-16 code unit. */
  type Unit = n: nat | n < 0x1_0000

  type Text = seq<Unit>

  const NUL: Unit := 0x00
  const TAB: Unit := 0x09
  const SPACE: Unit := 0x20
  const QUOTE: Unit := 0x22
  const BACKSLASH: Unit := 0x5C

  predicate Blank(u: Unit) {
    u == SPACE || u == TAB
  }

  predicate NeedsQuotes(s: Text) {
    s == [] || exists i :: 0 <= i < |s| && (Blank(s[i]) || s[i] == QUOTE)
  }

  function Slashes(n: nat): (r: Text)
    ensures |r| == n && forall i :: 0 <= i < n ==> r[i] == BACKSLASH
  {
    seq(n, _ => BACKSLASH)
  }

  // ---- encoding ----------------------------------------------------------------------------

  /** What stands between the quotes for `s`, with `n` backslashes read but not yet written. */
  function Escaped(s: Text, n: nat): Text
    decreases |s|
  {
    if s == [] then Slashes(2 * n)
    else if s[0] == BACKSLASH then Escaped(s[1..], n + 1)
    else if s[0] == QUOTE then Slashes(2 * n + 1) + [QUOTE] + Escaped(s[1..], 0)
    else Slashes(n) + [s[0]] + Escaped(s[1..], 0)
  }

  function Quoted(s: Text): Text {
    if NeedsQuotes(s) then [QUOTE] + Escaped(s, 0) + [QUOTE] else s
  }

  /** An argument is passed as it is exactly if it is not empty and has neither space, tab nor quote; else in quotes. */
  lemma QuotedOnlyIfNeeded(s: Text)
    ensures Quoted(s) == s <==> s != [] && 0x20 !in s && 0x09 !in s && 0x22 !in s
    ensures Quoted(s) != s ==> |Quoted(s)| > |s| && Quoted(s)[0] == 0x22 && Quoted(s)[|Quoted(s)| - 1] == 0x22
  {
    if NeedsQuotes(s) {
      EscapedIsLonger(s, 0);
    }
  }

  lemma {:induction false} EscapedIsLonger(s: Text, n: nat)
    ensures |Escaped(s, n)| >= |s| + n
    decreases |s|
  {
    if s != [] {
      EscapedIsLonger(s[1..], n + 1);
      EscapedIsLonger(s[1..], 0);
    }
  }

  /** The arguments, each after a space, and the terminating NUL. */
  function Tail(arguments: seq<Text>): Text {
    if arguments == [] then [NUL] else [SPACE] + Quoted(arguments[0]) + Tail(arguments[1..])
  }

  predicate NulFree(arguments: seq<Text>) {
    forall i :: 0 <= i < |arguments| ==> NUL !in arguments[i]
  }

  /** `append_quoted_argument`: the counter of pending backslashes is the source's. */
  method AppendQuotedArgument(output: Text, argument: Text) returns (ok: bool, line: Text)
    ensures ok <==> NUL !in argument
    ensures ok ==> line == output + Quoted(argument)
    ensures !ok ==> line == output
  {
    if NUL in argument {
      return false, output;
    }
    if !NeedsQuotes(argument) {
      return true, output + argument;
    }
    line := output + [QUOTE];
    var backslashes := 0;
    assert argument[0..] == argument;
    for i := 0 to |argument|
      invariant line + Escaped(argument[i..], backslashes) == output + [QUOTE] + Escaped(argument, 0)
    {
      var unit := argument[i];
      assert argument[i..][0] == unit && argument[i..][1..] == argument[i + 1..];
      if unit == BACKSLASH {
        backslashes := backslashes + 1;
      } else if unit == QUOTE {
        line := line + Slashes(backslashes * 2 + 1) + [unit];
        backslashes := 0;
      } else {
        line := line + Slashes(backslashes) + [unit];
        backslashes := 0;
      }
    }
    assert argument[|argument|..] == [];
    line := line + Slashes(backslashes * 2) + [QUOTE];
    ok := true;
  }

  lemma TailSplit(line: Text, arguments: seq<Text>, i: nat)
    requires i < |arguments|
    ensures line + Tail(arguments[i..]) == line + [SPACE] + Quoted(arguments[i]) + Tail(arguments[i + 1..])
  {
    var rest := Tail(arguments[i + 1..]);
    assert arguments[i..][1..] == arguments[i + 1..];
    assert line + ([SPACE] + Quoted(arguments[i]) + rest) == line + [SPACE] + Quoted(arguments[i]) + rest;
  }

  /** `native_command_line`: the program, the arguments and a NUL, or an error if some text holds a NUL. */
  method NativeCommandLine(program: Text, arguments: seq<Text>) returns (ok: bool, line: Text)
    ensures ok <==> NUL !in program && NulFree(arguments)
    ensures ok ==> line == Quoted(program) + Tail(arguments)
  {
    ok, line := AppendQuotedArgument([], program);
    if !ok {
      return;
    }
    assert arguments[0..] == arguments;
    for i := 0 to |arguments|
      invariant ok && forall j :: 0 <= j < i ==> NUL !in arguments[j]
      invariant line + Tail(arguments[i..]) == Quoted(program) + Tail(arguments)
    {
      TailSplit(line, arguments, i);
      line := line + [SPACE];
      ok, line := AppendQuotedArgument(line, arguments[i]);
      if !ok {
        return;
      }
    }
    line := line + [NUL];
  }

  // ---- decoding ------------------------------------------------------------------------------

  predicate Ends(s: Text) {
    s == [] || s[0] == NUL
  }

  /** The first word: its text, and what is left from the blank or NUL that ends it. */
  function ProgramWord(s: Text, inside: bool): (r: (Text, Text))
    ensures |r.1| <= |s|
  {
    if Ends(s) || (!inside && Blank(s[0])) then ([], s)
    else if s[0] == QUOTE then ProgramWord(s[1..], !inside)
    else
      var (word, rest) := ProgramWord(s[1..], inside);
      ([s[0]] + word, rest)
  }

  /** One argument, with `n` backslashes read and not yet interpreted. */
  function ArgumentWord(s: Text, inside: bool, n: nat): (r: (Text, Text))
    ensures |r.1| <= |s|
    decreases |s|
  {
    if Ends(s) || (!inside && Blank(s[0])) then (Slashes(n), s)
    else if s[0] == BACKSLASH then ArgumentWord(s[1..], inside, n + 1)
    else if s[0] != QUOTE then
      Prepend(Slashes(n) + [s[0]], ArgumentWord(s[1..], inside, 0))
    else if n % 2 == 1 then
      Prepend(Slashes(n / 2) + [QUOTE], ArgumentWord(s[1..], inside, 0))
    else if inside && |s| > 1 && s[1] == QUOTE then
      Prepend(Slashes(n / 2) + [QUOTE], ArgumentWord(s[2..], inside, 0))
    else
      Prepend(Slashes(n / 2), ArgumentWord(s[1..], !inside, 0))
  }

  function Prepend(text: Text, r: (Text, Text)): (Text, Text) {
    (text + r.0, r.1)
  }

  function ArgumentWords(s: Text): seq<Text>
    decreases |s|
  {
    if Ends(s) then []
    else if Blank(s[0]) then ArgumentWords(s[1..])
    else
      var (word, rest) := ArgumentWord(s, false, 0);
      if |rest| < |s| then [word] + ArgumentWords(rest) else [word]
  }

  /** The arguments a program finds after its own name. */
  function DecodedArguments(line: Text): seq<Text> {
    ArgumentWords(ProgramWord(line, false).1)
  }

  // ---- arguments round trip --------------------------------------------------------------------

  predicate Delimited(tail: Text) {
    Ends(tail) || Blank(tail[0])
  }

  lemma {:induction false} ReadSlashes(k: nat, s: Text, inside: bool, n: nat)
    ensures ArgumentWord(Slashes(k) + s, inside, n) == ArgumentWord(s, inside, n + k)
    decreases k
  {
    if k == 0 {
      assert Slashes(0) + s == s;
    } else {
      assert (Slashes(k) + s)[1..] == Slashes(k - 1) + s;
      ReadSlashes(k - 1, s, inside, n + 1);
    }
  }

  lemma Regroup(a: Text, b: Text, c: Text, d: Text, e: Text)
    ensures a + b + c + d + e == a + (b + (c + d + e))
  {
  }

  lemma EscapedUnit(s: Text, n: nat, tail: Text)
    requires s != [] && s[0] != BACKSLASH
    ensures Escaped(s, n) + [QUOTE] + tail
         == Slashes(if s[0] == QUOTE then 2 * n + 1 else n) + ([s[0]] + (Escaped(s[1..], 0) + [QUOTE] + tail))
  {
    var k := if s[0] == QUOTE then 2 * n + 1 else n;
    assert Escaped(s, n) == Slashes(k) + [s[0]] + Escaped(s[1..], 0);
    Regroup(Slashes(k), [s[0]], Escaped(s[1..], 0), [QUOTE], tail);
  }

  lemma EscapedEnd(n: nat, tail: Text)
    ensures Escaped([], n) + [QUOTE] + tail == Slashes(2 * n) + ([QUOTE] + tail)
  {
  }

  lemma QuotedSplit(s: Text, tail: Text)
    requires NeedsQuotes(s)
    ensures Quoted(s) + tail == [QUOTE] + (Escaped(s, 0) + [QUOTE] + tail)
    ensures (Quoted(s) + tail)[1..] == Escaped(s, 0) + [QUOTE] + tail
  {
  }

  lemma ReadStep(u: Unit, rest: Text, n: nat)
    requires u != BACKSLASH && u != NUL && (u == QUOTE ==> n % 2 == 1)
    ensures ArgumentWord([u] + rest, true, n)
         == Prepend(Slashes(if u == QUOTE then n / 2 else n) + [u], ArgumentWord(rest, true, 0))
  {
    assert ([u] + rest)[1..] == rest;
  }

  /** One unit behind its backslashes, inside quotes. */
  lemma ReadOne(c: Unit, n: nat, rest: Text)
    requires c != BACKSLASH && c != NUL
    ensures ArgumentWord(Slashes(if c == QUOTE then 2 * n + 1 else n) + ([c] + rest), true, 0)
         == Prepend(Slashes(n) + [c], ArgumentWord(rest, true, 0))
  {
    var k := if c == QUOTE then 2 * n + 1 else n;
    ReadSlashes(k, [c] + rest, true, 0);
    ReadStep(c, rest, k);
  }

  /** One unit of an encoded argument, inside quotes. */
  lemma ReadUnit(s: Text, n: nat, tail: Text)
    requires s != [] && s[0] != BACKSLASH && NUL !in s
    ensures ArgumentWord(Escaped(s, n) + [QUOTE] + tail, true, 0)
         == Prepend(Slashes(n) + [s[0]], ArgumentWord(Escaped(s[1..], 0) + [QUOTE] + tail, true, 0))
  {
    EscapedUnit(s, n, tail);
    ReadOne(s[0], n, Escaped(s[1..], 0) + [QUOTE] + tail);
  }

  lemma {:induction false} ReadEscaped(s: Text, n: nat, tail: Text)
    requires NUL !in s && Delimited(tail)
    ensures ArgumentWord(Escaped(s, n) + [QUOTE] + tail, true, 0) == (Slashes(n) + s, tail)
    decreases |s|
  {
    if s == [] {
      EscapedEnd(n, tail);
      ReadSlashes(2 * n, [QUOTE] + tail, true, 0);
      assert ([QUOTE] + tail)[1..] == tail;
    } else if s[0] == BACKSLASH {
      ReadEscaped(s[1..], n + 1, tail);
      assert Slashes(n + 1) + s[1..] == Slashes(n) + s;
    } else {
      ReadUnit(s, n, tail);
      ReadEscaped(s[1..], 0, tail);
      assert Slashes(n) + [s[0]] + (Slashes(0) + s[1..]) == Slashes(n) + s;
    }
  }

  lemma {:induction false} ReadPlain(s: Text, n: nat, tail: Text)
    requires NUL !in s && Delimited(tail) && (s == [] || !NeedsQuotes(s))
    ensures ArgumentWord(s + tail, false, n) == (Slashes(n) + s, tail)
    decreases |s|
  {
    if s == [] {
      assert s + tail == tail && Slashes(n) + s == Slashes(n);
    } else {
      assert !Blank(s[0]) && s[0] != QUOTE;
      assert (s + tail)[1..] == s[1..] + tail;
      if s[0] == BACKSLASH {
        ReadPlain(s[1..], n + 1, tail);
        assert Slashes(n + 1) + s[1..] == Slashes(n) + s;
      } else {
        ReadPlain(s[1..], 0, tail);
        assert Slashes(n) + [s[0]] + (Slashes(0) + s[1..]) == Slashes(n) + s;
      }
    }
  }

  lemma ReadQuoted(s: Text, tail: Text)
    requires NUL !in s && Delimited(tail)
    ensures ArgumentWord(Quoted(s) + tail, false, 0) == (s, tail)
  {
    if NeedsQuotes(s) {
      QuotedSplit(s, tail);
      ReadEscaped(s, 0, tail);
      assert Slashes(0) + (Slashes(0) + s) == s;
    } else {
      ReadPlain(s, 0, tail);
      assert Slashes(0) + s == s;
    }
  }

  lemma NextWord(s: Text, rest: Text)
    requires NUL !in s && Delimited(rest)
    requires ArgumentWord(Quoted(s) + rest, false, 0) == (s, rest)
    ensures ArgumentWords(Quoted(s) + rest) == [s] + ArgumentWords(rest)
  {
    var line := Quoted(s) + rest;
    assert Quoted(s) != [] && line[0] == Quoted(s)[0];
    assert !Ends(line) && !Blank(line[0]) && |rest| < |line|;
  }

  /** Every list of NUL-free arguments, however odd, is read back from its encoding. */
  lemma {:induction false} ArgumentsRoundTrip(arguments: seq<Text>)
    requires NulFree(arguments)
    ensures ArgumentWords(Tail(arguments)) == arguments
    decreases |arguments|
  {
    if arguments != [] {
      var s, rest := arguments[0], Tail(arguments[1..]);
      ReadQuoted(s, rest);
      NextWord(s, rest);
      assert Tail(arguments) == [SPACE] + (Quoted(s) + rest);
      assert ([SPACE] + (Quoted(s) + rest))[1..] == Quoted(s) + rest;
      ArgumentsRoundTrip(arguments[1..]);
    }
  }

  // ---- the program's own name ------------------------------------------------------------------

  /** The quoting a program's text ends in if read as a first word, or `CutShort` if a blank ends that word early. */
  function QuotingAfter(program: Text, inside: bool): Quoting {
    if program == [] then Reached(inside)
    else if program[0] == QUOTE then QuotingAfter(program[1..], !inside)
    else if Blank(program[0]) && !inside then CutShort
    else QuotingAfter(program[1..], inside)
  }

  datatype Quoting = CutShort | Reached(inside: bool)

  /** No blank after an odd number of quotes, and evenly many quotes in all. */
  predicate SelfContained(program: Text) {
    QuotingAfter(program, true) == Reached(true)
  }

  lemma {:induction false} ScanSlashes(k: nat, s: Text, inside: bool)
    ensures ProgramWord(Slashes(k) + s, inside) == Prepend(Slashes(k), ProgramWord(s, inside))
    decreases k
  {
    var r := ProgramWord(s, inside);
    if k == 0 {
      assert Slashes(0) + s == s && Slashes(0) + r.0 == r.0;
    } else {
      assert Slashes(k) + s == [BACKSLASH] + (Slashes(k - 1) + s);
      ScanStep(BACKSLASH, Slashes(k - 1) + s, inside);
      ScanSlashes(k - 1, s, inside);
      PrependTwice([BACKSLASH], Slashes(k - 1), r);
      assert [BACKSLASH] + Slashes(k - 1) == Slashes(k);
    }
  }

  lemma ScanStep(u: Unit, rest: Text, inside: bool)
    requires u != NUL
    ensures ProgramWord([u] + rest, inside) ==
            if !inside && Blank(u) then ([], [u] + rest)
            else if u == QUOTE then ProgramWord(rest, !inside)
            else Prepend([u], ProgramWord(rest, inside))
  {
    assert ([u] + rest)[1..] == rest;
  }

  lemma PrependTwice(a: Text, b: Text, r: (Text, Text))
    ensures Prepend(a, Prepend(b, r)) == Prepend(a + b, r)
  {
    assert a + (b + r.0) == a + b + r.0;
  }

  /** One unit of an encoded program, under the rules for the first word. */
  lemma ScanUnit(s: Text, n: nat, inside: bool, tail: Text)
    requires s != [] && s[0] != BACKSLASH && NUL !in s
    ensures var rest := Escaped(s[1..], 0) + [QUOTE] + tail;
            var scanned := ProgramWord(Escaped(s, n) + [QUOTE] + tail, inside);
            if s[0] == QUOTE then scanned == Prepend(Slashes(2 * n + 1), ProgramWord(rest, !inside))
            else if Blank(s[0]) && !inside then scanned.1 == [s[0]] + rest
            else scanned == Prepend(Slashes(n) + [s[0]], ProgramWord(rest, inside))
  {
    var rest := Escaped(s[1..], 0) + [QUOTE] + tail;
    EscapedUnit(s, n, tail);
    ScanSlashes(if s[0] == QUOTE then 2 * n + 1 else n, [s[0]] + rest, inside);
    ScanStep(s[0], rest, inside);
    PrependTwice(Slashes(n), [s[0]], ProgramWord(rest, inside));
  }

  lemma ScanEnd(n: nat, inside: bool, tail: Text)
    ensures ProgramWord(Escaped([], n) + [QUOTE] + tail, inside) == Prepend(Slashes(2 * n), ProgramWord(tail, !inside))
  {
    EscapedEnd(n, tail);
    ScanSlashes(2 * n, [QUOTE] + tail, inside);
    ScanStep(QUOTE, tail, inside);
  }

  /** Past the whole encoded program the scan goes on as the program's quoting says. */
  lemma {:induction false} ScanThrough(s: Text, n: nat, inside: bool, tail: Text)
    requires NUL !in s && QuotingAfter(s, inside).Reached?
    ensures ProgramWord(Escaped(s, n) + [QUOTE] + tail, inside).1
         == ProgramWord(tail, !QuotingAfter(s, inside).inside).1
    decreases |s|
  {
    if s == [] {
      ScanEnd(n, inside, tail);
    } else if s[0] == BACKSLASH {
      ScanThrough(s[1..], n + 1, inside, tail);
    } else {
      ScanUnit(s, n, inside, tail);
      ScanThrough(s[1..], 0, if s[0] == QUOTE then !inside else inside, tail);
    }
  }

  lemma {:induction false} EscapedNulFree(s: Text, n: nat)
    requires NUL !in s
    ensures NUL !in Escaped(s, n)
    decreases |s|
  {
    if s != [] {
      EscapedNulFree(s[1..], if s[0] == BACKSLASH then n + 1 else 0);
    }
  }

  /** Cut short, the scan leaves part of the program to be taken for arguments. */
  lemma {:induction false} ScanCutShort(s: Text, n: nat, inside: bool, tail: Text) returns (left: Text)
    requires NUL !in s && QuotingAfter(s, inside).CutShort?
    ensures NUL !in left && ProgramWord(Escaped(s, n) + [QUOTE] + tail, inside).1 == left + [QUOTE] + tail
    decreases |s|
  {
    if s[0] == BACKSLASH {
      left := ScanCutShort(s[1..], n + 1, inside, tail);
    } else {
      ScanUnit(s, n, inside, tail);
      if Blank(s[0]) && !inside {
        EscapedNulFree(s[1..], 0);
        left := [s[0]] + Escaped(s[1..], 0);
        assert left + [QUOTE] + tail == [s[0]] + (Escaped(s[1..], 0) + [QUOTE] + tail);
      } else {
        left := ScanCutShort(s[1..], 0, if s[0] == QUOTE then !inside else inside, tail);
      }
    }
  }

  lemma {:induction false} QuoteMakesWord(left: Text, tail: Text)
    requires NUL !in left
    ensures ArgumentWords(left + [QUOTE] + tail) != []
    decreases |left|
  {
    if left != [] && Blank(left[0]) {
      assert (left + [QUOTE] + tail)[1..] == left[1..] + [QUOTE] + tail;
      QuoteMakesWord(left[1..], tail);
    }
  }

  lemma {:induction false} ScanPlain(s: Text, tail: Text)
    requires NUL !in s && Delimited(tail) && (s == [] || !NeedsQuotes(s))
    ensures ProgramWord(s + tail, false) == (s, tail) && QuotingAfter(s, true) == Reached(true)
    decreases |s|
  {
    if s == [] {
      assert s + tail == tail;
    } else {
      assert !Blank(s[0]) && s[0] != QUOTE;
      assert (s + tail)[1..] == s[1..] + tail && (s + tail)[0] == s[0];
      ScanPlain(s[1..], tail);
      assert [s[0]] + s[1..] == s;
    }
  }

  /** What is left after the first word of a line. */
  lemma ScanProgram(program: Text, tail: Text)
    requires NUL !in program && Delimited(tail) && QuotingAfter(program, true).Reached?
    ensures ProgramWord(Quoted(program) + tail, false).1 ==
            if SelfContained(program) then tail else ProgramWord(tail, true).1
  {
    if NeedsQuotes(program) {
      QuotedSplit(program, tail);
      ScanStep(QUOTE, Escaped(program, 0) + [QUOTE] + tail, false);
      ScanThrough(program, 0, true, tail);
    } else {
      ScanPlain(program, tail);
    }
  }

  lemma SelfContainedRoundTrip(program: Text, arguments: seq<Text>)
    requires NUL !in program && NulFree(arguments) && SelfContained(program)
    ensures DecodedArguments(Quoted(program) + Tail(arguments)) == arguments
  {
    ScanProgram(program, Tail(arguments));
    ArgumentsRoundTrip(arguments);
  }

  /** A program whose quotes run on or let a blank out loses some argument list. */
  lemma OtherwiseArgumentsAreLost(program: Text) returns (arguments: seq<Text>)
    requires NUL !in program && !SelfContained(program)
    ensures NulFree(arguments) && DecodedArguments(Quoted(program) + Tail(arguments)) != arguments
  {
    if QuotingAfter(program, true).CutShort? {
      arguments := [];
      assert NeedsQuotes(program) by {
        if !NeedsQuotes(program) { ScanPlain(program, [NUL]); assert false; }
      }
      QuotedSplit(program, [NUL]);
      var left := ScanCutShort(program, 0, true, [NUL]);
      QuoteMakesWord(left, [NUL]);
    } else {
      var a: Unit := 0x61;
      arguments := [[a]];
      var tail := Tail(arguments);
      assert arguments[1..] == [] && Quoted([a]) == [a];
      assert Tail([]) == [NUL] && tail == [SPACE] + [a] + [NUL];
      ScanProgram(program, tail);
      assert tail[1..] == [a] + [NUL] && tail[1..][1..] == [NUL];
      assert ProgramWord([NUL], true) == ([], [NUL]);
      assert ProgramWord(tail[1..], true).1 == [NUL];
    }
  }

  /** Exactly which programs hand every argument list through unharmed. */
  lemma ArgumentsArriveExactly(program: Text)
    requires NUL !in program
    ensures SelfContained(program) <==>
              forall arguments :: NulFree(arguments) ==> DecodedArguments(Quoted(program) + Tail(arguments)) == arguments
  {
    if SelfContained(program) {
      forall arguments | NulFree(arguments)
        ensures DecodedArguments(Quoted(program) + Tail(arguments)) == arguments
      {
        SelfContainedRoundTrip(program, arguments);
      }
    } else {
      var arguments := OtherwiseArgumentsAreLost(program);
    }
  }

  /** In particular every program without a quote in its name. */
  lemma {:induction false} QuotelessIsSelfContained(program: Text)
    requires QUOTE !in program
    ensures SelfContained(program)
    decreases |program|
  {
    if program != [] {
      QuotelessIsSelfContained(program[1..]);
    }
  }

  // ---- the program's name as the program sees it -------------------------------------------------

  /** Backslashes at the end of `s` after `n` more. */
  function Trailing(s: Text, n: nat): nat {
    if s == [] then n else Trailing(s[1..], if s[0] == BACKSLASH then n + 1 else 0)
  }

  lemma {:induction false} TrailingMeansLast(s: Text, n: nat)
    ensures Trailing(s, n) > 0 <==> if s == [] then n > 0 else s[|s| - 1] == BACKSLASH
    decreases |s|
  {
    if s != [] {
      TrailingMeansLast(s[1..], if s[0] == BACKSLASH then n + 1 else 0);
    }
  }

  lemma JoinUnit(front: Text, s: Text, end: Text)
    requires s != []
    ensures front + [s[0]] + (Slashes(0) + s[1..] + end) == front + s + end
  {
    assert Slashes(0) == [] && [s[0]] + s[1..] == s;
  }

  lemma {:induction false} ScannedName(s: Text, n: nat, tail: Text)
    requires NUL !in s && QUOTE !in s && Delimited(tail)
    ensures ProgramWord(Escaped(s, n) + [QUOTE] + tail, true).0 == Slashes(n) + s + Slashes(Trailing(s, n))
    decreases |s|
  {
    if s == [] {
      ScanEnd(n, true, tail);
      assert Slashes(2 * n) + [] == Slashes(n) + s + Slashes(n);
    } else if s[0] == BACKSLASH {
      ScannedName(s[1..], n + 1, tail);
      assert Slashes(n + 1) + s[1..] == Slashes(n) + s;
    } else {
      ScanUnit(s, n, true, tail);
      ScannedName(s[1..], 0, tail);
      JoinUnit(Slashes(n), s, Slashes(Trailing(s, n)));
    }
  }

  lemma {:induction false} NamesHaveNoQuotes(s: Text, inside: bool)
    ensures QUOTE !in ProgramWord(s, inside).0
    decreases |s|
  {
    if !Ends(s) && (inside || !Blank(s[0])) {
      NamesHaveNoQuotes(s[1..], if s[0] == QUOTE then !inside else inside);
    }
  }

  /** The program reads its own name back exactly if it has no quote and, when quoted, no final backslash. */
  lemma NameArrivesExactly(program: Text, tail: Text)
    requires NUL !in program && Delimited(tail)
    ensures ProgramWord(Quoted(program) + tail, false).0 == program <==>
              && QUOTE !in program
              && (program != [] && NeedsQuotes(program) ==> program[|program| - 1] != BACKSLASH)
  {
    NamesHaveNoQuotes(Quoted(program) + tail, false);
    if QUOTE !in program {
      if NeedsQuotes(program) {
        QuotedSplit(program, tail);
        ScannedName(program, 0, tail);
        TrailingMeansLast(program, 0);
        assert |Slashes(0) + program + Slashes(Trailing(program, 0))| == |program| + Trailing(program, 0);
        assert Trailing(program, 0) == 0 ==> Slashes(0) + program + Slashes(0) == program;
      } else {
        ScanPlain(program, tail);
      }
    }
  }
}
