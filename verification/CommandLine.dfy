/**
  The Windows command line built for a child process, and the documented
  CommandLineToArgvW rules that take it apart again.
 */
module CommandLine {
  import opened Basics

  predicate IsSpecial(c: char) {
    || c == ' ' || c == '\t' || c == '"' || c == '&' || c == '|' || c == '<' || c == '>'
    || c == '^' || c == '%' || c == '!' || c == '(' || c == ')' || c == '{' || c == '}'
    || c == '[' || c == ']' || c == ';' || c == ',' || c == '='
  }

  predicate NeedsQuotes(arg: string) {
    |arg| == 0 || exists i :: 0 <= i < |arg| && IsSpecial(arg[i])
  }

  function Slashes(n: nat): (r: string)
    ensures |r| == n
  {
    if n == 0 then "" else "\\" + Slashes(n - 1)
  }

  /** The length of the run of backslashes `s` starts with. */
  function Run(s: string): (n: nat)
    ensures n <= |s| && (n < |s| ==> s[n] != '\\')
    ensures |s| > 0 && s[0] == '\\' ==> n > 0
  {
    if |s| > 0 && s[0] == '\\' then 1 + Run(s[1..]) else 0
  }

  /**
    The text between the quotes of a quoted argument. A run of backslashes is
    doubled at the end, doubled before a quote that takes one more, and left
    alone before anything else.
   */
  function Escape(s: string): string
    decreases |s|
  {
    var n := Run(s);
    if n == |s| then Slashes(2 * n)
    else if s[n] == '"' then Slashes(2 * n + 1) + ("\"" + Escape(s[n + 1..]))
    else Slashes(n) + ([s[n]] + Escape(s[n + 1..]))
  }

  function Quote(arg: string): string {
    if NeedsQuotes(arg) then "\"" + Escape(arg) + "\"" else arg
  }

  function Tail(args: seq<string>): string {
    if |args| == 0 then "" else " " + Quote(args[0]) + Tail(args[1..])
  }

  function Assemble(executable: string, args: seq<string>): string {
    Quote(executable) + Tail(args)
  }

  /** Which arguments are quoted: the empty one, and those with a character a shell or the parser might take. */
  lemma QuotedExactly(arg: string)
    ensures (|Quote(arg)| > 0 && Quote(arg)[0] == '"') <==>
            arg == "" || exists i :: 0 <= i < |arg| && arg[i] in " \t\"&|<>^%!(){}[];,="
    ensures !(|Quote(arg)| > 0 && Quote(arg)[0] == '"') ==> Quote(arg) == arg
  {
    hide Escape;
    forall c: char
      ensures IsSpecial(c) <==> c in " \t\"&|<>^%!(){}[];,="
    {
      SpecialCharacters(c);
    }
    if |arg| > 0 && !NeedsQuotes(arg) {
      assert !IsSpecial(arg[0]);
    }
  }

  /** The very characters of a line: single blanks, and quotes where they are needed. */
  lemma LineBytes()
    ensures Assemble("a", ["b", "c d", ""]) == "a b \"c d\" \"\""
  {
    hide Escape, Quote;
    var args := ["b", "c d", ""];
    QuoteBytes();
    assert args[1..] == ["c d", ""] && args[1..][1..] == [""] && [""][1..] == [];
    assert Tail([""]) == " \"\"";
    assert Tail(args[1..]) == " \"c d\" \"\"";
    assert Tail(args) == " b \"c d\" \"\"";
  }

  lemma QuoteBytes()
    ensures Quote("a") == "a" && Quote("b") == "b" && Quote("c d") == "\"c d\"" && Quote("") == "\"\""
  {
    hide Escape;
    assert IsSpecial("c d"[1]);
    PlainEscape();
  }

  lemma PlainEscape()
    ensures Escape("c d") == "c d" && Escape("") == ""
  {
    hide Escape;
    assert TrailingRun("c d") == 0 && TrailingRun("") == 0 && Slashes(0) == "";
    EscapeWithoutQuotes("c d");
    EscapeWithoutQuotes("");
    Unit("c d");
  }

  lemma SpecialCharacters(c: char)
    ensures IsSpecial(c) <==> c in " \t\"&|<>^%!(){}[];,="
  {
    var all := " \t\"&|<>^%!(){}[];,=";
    assert all[0] == ' ' && all[1] == '\t' && all[2] == '"' && all[3] == '&' && all[4] == '|' && all[5] == '<';
    assert all[6] == '>' && all[7] == '^' && all[8] == '%' && all[9] == '!' && all[10] == '(' && all[11] == ')';
    assert all[12] == '{' && all[13] == '}' && all[14] == '[' && all[15] == ']' && all[16] == ';' && all[17] == ',';
    assert all[18] == '=';
  }

  // ---------------------------------------------------------------- the code

  method QuoteArgument(arg: string) returns (result: string)
    ensures result == Quote(arg)
  {
    var needsQuotes := |arg| == 0;
    if !needsQuotes {
      for i := 0 to |arg|
        invariant !needsQuotes
        invariant forall j | 0 <= j < i :: !IsSpecial(arg[j])
      {
        if IsSpecial(arg[i]) {
          needsQuotes := true;
          break;
        }
      }
    }
    if !needsQuotes {
      return arg;
    }
    var escaped := EscapeBackslashesAndQuotes(arg);
    result := "\"" + escaped + "\"";
  }

  method CountBackslashes(arg: string, i: nat) returns (n: nat)
    requires i < |arg| && arg[i] == '\\'
    ensures n == Run(arg[i..]) > 0
  {
    n := 1;
    assert arg[i..][1..] == arg[i + n..];
    while i + n < |arg| && arg[i + n] == '\\'
      invariant i + n <= |arg| && Run(arg[i..]) == n + Run(arg[i + n..])
    {
      assert arg[i + n..][1..] == arg[i + (n + 1)..];
      n := n + 1;
    }
  }

  /** The second loop of quote_argument: a run of backslashes is handled in one go. */
  method EscapeBackslashesAndQuotes(arg: string) returns (result: string)
    ensures result == Escape(arg)
  {
    hide Escape, Slashes, Run;
    result := "";
    var i := 0;
    assert arg[0..] == arg;
    while i < |arg|
      invariant 0 <= i <= |arg|
      invariant result + Escape(arg[i..]) == Escape(arg)
    {
      ghost var rest := arg[i..];
      Uncons(arg, i);
      var piece, next;
      if arg[i] == '"' {
        piece, next := "\\\"", i + 1;
        EscapeFrom(rest, arg[i], arg[next..]);
      } else if arg[i] == '\\' {
        var n := CountBackslashes(arg, i);
        piece, next := Slashes(n), i + n;
        Shift(arg, i, n);
        if next == |arg| || arg[next] == '"' {
          piece := Slashes(2 * n);
        }
        EscapeRunStep(rest, piece, arg[next..]);
      } else {
        piece, next := [arg[i]], i + 1;
        EscapeFrom(rest, arg[i], arg[next..]);
      }
      Assoc(result, piece, Escape(arg[next..]));
      result, i := result + piece, next;
    }
    assert arg[i..] == "";
    EscapeNothing();
  }

  lemma EscapeNothing()
    ensures Escape("") == ""
  {
  }

  lemma Shift(s: string, i: nat, n: nat)
    requires i + n <= |s|
    ensures s[i..][n..] == s[i + n..]
  {
  }

  method BuildCommandLine(executable: string, args: seq<string>) returns (commandLine: string)
    ensures commandLine == Assemble(executable, args)
  {
    commandLine := QuoteArgument(executable);
    assert args[0..] == args;
    for i := 0 to |args|
      invariant commandLine + Tail(args[i..]) == Assemble(executable, args)
    {
      var quoted := QuoteArgument(args[i]);
      assert args[i..][1..] == args[i + 1..];
      Assoc(commandLine, " " + quoted, Tail(args[i + 1..]));
      commandLine := commandLine + (" " + quoted);
    }
  }

  // ------------------------------------------- the CommandLineToArgvW rules

  predicate IsBlank(c: char) {
    c == ' ' || c == '\t'
  }

  function Prepend(s: string, r: (string, string)): (string, string) {
    (s + r.0, r.1)
  }

  /** One argument and what follows it; `quoted` says whether a quote is open. */
  function ParseArg(s: string, quoted: bool): (r: (string, string))
    ensures |r.1| <= |s|
    ensures |s| > 0 && (quoted || !IsBlank(s[0])) ==> |r.1| < |s|
    decreases |s|
  {
    if |s| == 0 then ("", "")
    else if s[0] == '\\' then
      var n := Run(s);
      if n < |s| && s[n] == '"' then
        if n % 2 == 0 then Prepend(Slashes(n / 2), ParseArg(s[n + 1..], !quoted))
        else Prepend(Slashes(n / 2) + "\"", ParseArg(s[n + 1..], quoted))
      else Prepend(Slashes(n), ParseArg(s[n..], quoted))
    else if s[0] == '"' then ParseArg(s[1..], !quoted)
    else if !quoted && IsBlank(s[0]) then ("", s)
    else Prepend([s[0]], ParseArg(s[1..], quoted))
  }

  function SplitArgs(s: string): seq<string>
    decreases |s|
  {
    if |s| == 0 then []
    else if IsBlank(s[0]) then SplitArgs(s[1..])
    else var r := ParseArg(s, false); [r.0] + SplitArgs(r.1)
  }

  /** No blank and no control character. */
  predicate Visible(s: string) {
    forall i | 0 <= i < |s| :: s[i] > ' '
  }

  function UpToQuote(s: string): (name: string)
    ensures name <= s && Avoids(name, '"')
    ensures |name| < |s| ==> s[|name|] == '"'
  {
    if |s| == 0 || s[0] == '"' then "" else [s[0]] + UpToQuote(s[1..])
  }

  function UpToControl(s: string): (name: string)
    ensures name <= s && Visible(name)
    ensures |name| < |s| ==> s[|name|] <= ' '
  {
    if |s| == 0 || s[0] <= ' ' then "" else [s[0]] + UpToControl(s[1..])
  }

  /** The program name follows rules of its own: quotes delimit it, backslashes mean nothing. */
  function Split(s: string): (argv: seq<string>)
    ensures |argv| >= 1
  {
    if |s| > 0 && s[0] == '"' then
      var name := UpToQuote(s[1..]);
      [name] + SplitArgs(if 1 + |name| < |s| then s[|name| + 2..] else "")
    else
      var name := UpToControl(s);
      [name] + SplitArgs(s[|name|..])
  }

  // ------------------------------------------------------------- the proofs

  predicate StartsOther(s: string) {
    |s| == 0 || s[0] != '\\'
  }

  lemma {:induction false} RunOf(n: nat, rest: string)
    requires StartsOther(rest)
    ensures Run(Slashes(n) + rest) == n
  {
    if n == 0 {
      Unit(rest);
    } else {
      assert (Slashes(n) + rest)[1..] == Slashes(n - 1) + rest;
      RunOf(n - 1, rest);
    }
  }

  lemma {:induction false} RunSplit(s: string)
    ensures s == Slashes(Run(s)) + s[Run(s)..]
  {
    if |s| > 0 && s[0] == '\\' {
      RunSplit(s[1..]);
      assert s == "\\" + s[1..] && s[1..][Run(s[1..])..] == s[Run(s)..];
      Assoc("\\", Slashes(Run(s[1..])), s[Run(s)..]);
    }
  }

  lemma {:induction false} SlashesEnd(n: nat)
    ensures Slashes(n) + "\\" == Slashes(n + 1)
  {
    if n > 0 {
      SlashesEnd(n - 1);
      Assoc("\\", Slashes(n - 1), "\\");
    }
  }

  /** A run that ends the text is doubled. */
  lemma EscapeRunAtEnd(s: string)
    requires Run(s) == |s|
    ensures Escape(s) == Slashes(2 * |s|) + Escape("")
  {
    Unit(Slashes(2 * |s|));
  }

  /** Escaping unfolded at a run that ends in a quote, or in anything else. */
  lemma EscapeUnfolds(s: string, n: nat, after: string)
    requires n == Run(s) < |s| && after == Escape(s[n + 1..])
    ensures s[n] == '"' ==> Escape(s) == Slashes(2 * n + 1) + ("\"" + after)
    ensures s[n] != '"' ==> Escape(s) == Slashes(n) + ([s[n]] + after)
  {
  }

  /** A run before a quote is doubled, and the quote still takes its own backslash. */
  lemma EscapeRunAtQuote(s: string, n: nat, rest: string)
    requires n == Run(s) < |s| && s[n] == '"' && rest == s[n..]
    ensures Escape(s) == Slashes(2 * n) + Escape(rest)
  {
    hide Escape, Slashes, Run;
    var after := s[n + 1..];
    Uncons(s, n);
    EscapeUnfolds(s, n, Escape(after));
    EscapeFrom(rest, '"', after);
    SlashesEnd(2 * n);
    Assoc(Slashes(2 * n), "\\", "\"" + Escape(after));
  }

  /** A run before anything else stays as it is. */
  lemma EscapeRunAtOther(s: string, n: nat, rest: string)
    requires n == Run(s) < |s| && s[n] != '"' && rest == s[n..]
    ensures Escape(s) == Slashes(n) + Escape(rest)
  {
    hide Escape, Slashes, Run;
    Uncons(s, n);
    EscapeUnfolds(s, n, Escape(s[n + 1..]));
    EscapeFrom(rest, s[n], s[n + 1..]);
  }

  /** The code writes a run and what ends it in two steps: the first leaves the second to do. */
  lemma EscapeRunStep(s: string, piece: string, rest: string)
    requires rest == s[Run(s)..]
    requires piece == Slashes(if rest == "" || rest[0] == '"' then 2 * Run(s) else Run(s))
    ensures Escape(s) == piece + Escape(rest)
  {
    hide Escape, Slashes;
    var n := Run(s);
    if n == |s| {
      EscapeRunAtEnd(s);
    } else if s[n] == '"' {
      EscapeRunAtQuote(s, n, rest);
    } else {
      EscapeRunAtOther(s, n, rest);
    }
  }

  /** A step that does not start in a run. */
  lemma EscapeFrom(s: string, c: char, after: string)
    requires s == [c] + after && c != '\\'
    ensures c == '"' ==> Escape(s) == "\\" + ("\"" + Escape(after)) == "\\\"" + Escape(after)
    ensures c != '"' ==> Escape(s) == [c] + Escape(after)
  {
    assert s[1..] == after && Slashes(1) == "\\";
    Unit([c] + Escape(after));
    Assoc("\\", "\"", Escape(after));
  }

  ghost predicate Delimited(tail: string) {
    |tail| == 0 || IsBlank(tail[0])
  }

  lemma AfterQuote(slashes: string, rest: string)
    ensures var text := slashes + ("\"" + rest);
            text[|slashes|] == '"' && text[|slashes| + 1..] == rest
  {
  }

  /** A run before a quote: half of it stays, and an odd one makes the quote an ordinary character. */
  lemma RunBeforeQuote(n: nat, rest: string, quoted: bool)
    requires n > 0
    ensures ParseArg(Slashes(n) + ("\"" + rest), quoted) ==
            if n % 2 == 0 then Prepend(Slashes(n / 2), ParseArg(rest, !quoted))
            else Prepend(Slashes(n / 2) + "\"", ParseArg(rest, quoted))
  {
    RunOf(n, "\"" + rest);
    AfterQuote(Slashes(n), rest);
  }

  lemma EvenSlashes(m: nat, rest: string, quoted: bool)
    ensures var r := ParseArg(rest, !quoted);
            ParseArg(Slashes(2 * m) + ("\"" + rest), quoted) == (Slashes(m) + r.0, r.1)
  {
    if m == 0 {
      Unit("\"" + rest);
      assert ("\"" + rest)[1..] == rest;
      Unit(ParseArg(rest, !quoted).0);
    } else {
      hide ParseArg, Slashes;
      RunBeforeQuote(2 * m, rest, quoted);
    }
  }

  lemma OddSlashes(m: nat, rest: string, quoted: bool)
    ensures var r := ParseArg(rest, quoted);
            ParseArg(Slashes(2 * m + 1) + ("\"" + rest), quoted) == (Slashes(m) + ("\"" + r.0), r.1)
  {
    hide ParseArg, Slashes;
    RunBeforeQuote(2 * m + 1, rest, quoted);
    Assoc(Slashes(m), "\"", ParseArg(rest, quoted).0);
  }

  lemma SlashesThenOther(n: nat, rest: string, quoted: bool)
    requires StartsOther(rest) && (|rest| > 0 ==> rest[0] != '"')
    ensures var r := ParseArg(rest, quoted); ParseArg(Slashes(n) + rest, quoted) == (Slashes(n) + r.0, r.1)
  {
    RunOf(n, rest);
    Drop(Slashes(n), rest);
    if n == 0 {
      Unit(rest);
      Unit(ParseArg(rest, quoted).0);
    }
  }

  /** A text that is more than backslashes: a run, the character that ends it, and the rest. */
  lemma Decompose(s: string) returns (n: nat, c: char, after: string)
    requires Run(s) < |s|
    ensures s == Slashes(n) + ([c] + after) && c != '\\' && |after| < |s|
    ensures c == '"' ==> Escape(s) == Slashes(2 * n + 1) + ("\"" + Escape(after))
    ensures c != '"' ==> Escape(s) == Slashes(n) + ([c] + Escape(after))
    ensures c in s && forall x | x in after :: x in s
  {
    n := Run(s);
    c, after := s[n], s[n + 1..];
    assert s[n..] == [c] + after;
    RunSplit(s);
  }

  lemma OnlySlashes(s: string) returns (n: nat)
    requires Run(s) == |s|
    ensures s == Slashes(n) && Escape(s) == Slashes(2 * n)
  {
    n := |s|;
    RunSplit(s);
    assert s[n..] == "";
    Unit(Slashes(n));
  }

  /** Inside the quotes, parsing undoes escaping and stops at the closing quote. */
  lemma {:induction false} EscapeParses(s: string, tail: string)
    requires Delimited(tail)
    ensures ParseArg(Escape(s) + ("\"" + tail), true) == (s, tail)
    decreases |s|
  {
    if Run(s) == |s| {
      var n := OnlySlashes(s);
      EvenSlashes(n, tail, true);
      Unit(Slashes(n));
    } else {
      var n, c, after := Decompose(s);
      EscapeParses(after, tail);
      if c == '"' {
        Regroup(Slashes(2 * n + 1), "\"", Escape(after), tail);
        OddSlashes(n, Escape(after) + ("\"" + tail), true);
      } else {
        Regroup(Slashes(n), [c], Escape(after), tail);
        OtherParses(n, c, Escape(after) + ("\"" + tail), true);
      }
    }
  }

  lemma OtherParses(n: nat, c: char, rest: string, quoted: bool)
    requires c != '\\' && c != '"' && (quoted || !IsBlank(c))
    ensures var r := ParseArg(rest, quoted);
            ParseArg(Slashes(n) + ([c] + rest), quoted) == (Slashes(n) + ([c] + r.0), r.1)
  {
    assert ([c] + rest)[1..] == rest;
    SlashesThenOther(n, [c] + rest, quoted);
  }

  lemma Regroup(slashes: string, next: string, escaped: string, tail: string)
    ensures (slashes + (next + escaped)) + ("\"" + tail) == slashes + (next + (escaped + ("\"" + tail)))
  {
  }

  /** An argument that needs no quotes stands for itself. */
  lemma {:induction false} PlainParses(s: string, tail: string)
    requires Delimited(tail) && forall x | x in s :: !IsSpecial(x)
    ensures ParseArg(s + tail, false) == (s, tail)
    decreases |s|
  {
    if Run(s) == |s| {
      var n := OnlySlashes(s);
      SlashesThenOther(n, tail, false);
      Unit(Slashes(n));
    } else {
      var n, c, after := Decompose(s);
      PlainParses(after, tail);
      OtherParses(n, c, after + tail, false);
      Assoc([c], after, tail);
      Assoc(Slashes(n), [c] + after, tail);
    }
  }

  lemma {:induction false} QuoteParses(arg: string, tail: string)
    requires Delimited(tail)
    ensures |Quote(arg)| > 0 && !IsBlank(Quote(arg)[0])
    ensures ParseArg(Quote(arg) + tail, false) == (arg, tail)
  {
    if NeedsQuotes(arg) {
      OpenQuote(Escape(arg), tail);
      EscapeParses(arg, tail);
    } else {
      assert !IsSpecial(arg[0]) && forall x | x in arg :: !IsSpecial(x);
      PlainParses(arg, tail);
    }
  }

  lemma OpenQuote(inside: string, tail: string)
    ensures ParseArg("\"" + inside + "\"" + tail, false) == ParseArg(inside + ("\"" + tail), true)
  {
    var text := "\"" + inside + "\"" + tail;
    assert text[0] == '"' && text[1..] == inside + ("\"" + tail);
  }

  lemma BlankIsSkipped(text: string)
    ensures SplitArgs(" " + text) == SplitArgs(text)
  {
    assert (" " + text)[1..] == text;
  }

  lemma OneSplitsOff(text: string, arg: string, after: string)
    requires |text| > 0 && !IsBlank(text[0]) && ParseArg(text, false) == (arg, after)
    ensures SplitArgs(text) == [arg] + SplitArgs(after)
  {
  }

  lemma SplitFirst(arg: string, after: string)
    requires Delimited(after)
    ensures SplitArgs(" " + Quote(arg) + after) == [arg] + SplitArgs(after)
  {
    hide Escape, Quote, ParseArg, SplitArgs, Delimited;
    QuoteParses(arg, after);
    Assoc(" ", Quote(arg), after);
    BlankIsSkipped(Quote(arg) + after);
    OneSplitsOff(Quote(arg) + after, arg, after);
  }

  lemma TailFirst(args: seq<string>)
    ensures Delimited(Tail(args))
    ensures args == [] ==> SplitArgs(Tail(args)) == []
    ensures args != [] ==> Tail(args) == " " + Quote(args[0]) + Tail(args[1..])
  {
    hide Quote;
  }

  /** Any list of arguments comes back, whatever backslashes, quotes and blanks they hold. */
  lemma {:induction false} TailSplits(args: seq<string>)
    ensures SplitArgs(Tail(args)) == args
  {
    hide Quote, Tail, SplitArgs, Delimited;
    TailFirst(args);
    if args != [] {
      TailFirst(args[1..]);
      SplitFirst(args[0], Tail(args[1..]));
      TailSplits(args[1..]);
    }
  }

  /** How many backslashes a quoted name ends in: they are doubled, and stay doubled. */
  function TrailingRun(s: string): nat {
    if |s| > 0 && s[|s| - 1] == '\\' then 1 + TrailingRun(s[..|s| - 1]) else 0
  }

  lemma {:induction false} EscapeWithoutQuotes(s: string)
    requires '"' !in s
    ensures Escape(s) == s + Slashes(TrailingRun(s))
    decreases |s|
  {
    if Run(s) == |s| {
      var n := OnlySlashes(s);
      TrailingRunOfSlashes(n);
      SlashesAdd(n, n);
    } else {
      var n, c, after := Decompose(s);
      EscapeWithoutQuotes(after);
      TrailingRunAfter(Slashes(n), c, after);
      Assoc([c], after, Slashes(TrailingRun(after)));
      Assoc(Slashes(n), [c] + after, Slashes(TrailingRun(after)));
    }
  }

  lemma {:induction false} SlashesAdd(m: nat, n: nat)
    ensures Slashes(m) + Slashes(n) == Slashes(m + n)
  {
    if m > 0 {
      SlashesAdd(m - 1, n);
      Assoc("\\", Slashes(m - 1), Slashes(n));
    } else {
      assert "" + Slashes(n) == Slashes(n);
    }
  }

  lemma {:induction false} TrailingRunOfSlashes(n: nat)
    ensures TrailingRun(Slashes(n)) == n
  {
    if n > 0 {
      SlashesEnd(n - 1);
      assert Slashes(n)[..n - 1] == Slashes(n - 1);
      TrailingRunOfSlashes(n - 1);
    }
  }

  lemma {:induction false} TrailingRunAfter(before: string, c: char, after: string)
    requires c != '\\'
    ensures TrailingRun(before + ([c] + after)) == TrailingRun(after)
  {
    if |after| > 0 && after[|after| - 1] == '\\' {
      var shorter := after[..|after| - 1];
      TrailingRunAfter(before, c, shorter);
      assert (before + ([c] + after))[..|before| + |after|] == before + ([c] + shorter);
    }
  }

  lemma QuotedShape(executable: string, args: seq<string>, inside: string)
    requires NeedsQuotes(executable) && Escape(executable) == inside
    ensures Assemble(executable, args) == "\"" + (inside + ("\"" + Tail(args)))
  {
    hide Escape, Tail, NeedsQuotes;
    Assoc("\"", inside, "\"");
    Assoc("\"", inside + "\"", Tail(args));
    Assoc(inside, "\"", Tail(args));
  }

  /** A quoted name comes back with the backslashes it ends in doubled. */
  lemma {:induction false} QuotedName(executable: string, args: seq<string>)
    requires '"' !in executable && NeedsQuotes(executable)
    ensures Split(Assemble(executable, args)) == [executable + Slashes(TrailingRun(executable))] + args
  {
    hide Escape, Tail, NeedsQuotes, Slashes, TrailingRun, Split, SplitArgs, Assemble, Avoids;
    var name := executable + Slashes(TrailingRun(executable));
    EscapeWithoutQuotes(executable);
    AvoidsExtended(executable, TrailingRun(executable));
    SplitQuoted(name, Tail(args));
    QuotedShape(executable, args, name);
    TailSplits(args);
  }

  lemma {:induction false} AvoidsExtended(s: string, n: nat)
    requires '"' !in s
    ensures Avoids(s + Slashes(n), '"')
  {
    if n > 0 {
      AvoidsExtended(s, n - 1);
      SlashesEnd(n - 1);
      Assoc(s, Slashes(n - 1), "\\");
    }
  }

  lemma SplitQuoted(name: string, rest: string)
    requires Avoids(name, '"')
    ensures Split("\"" + (name + ("\"" + rest))) == [name] + SplitArgs(rest)
  {
    var line := "\"" + (name + ("\"" + rest));
    assert line[1..] == name + ("\"" + rest) && line[|name| + 2..] == rest;
    UpToQuoteStops(name, rest);
  }

  lemma {:induction false} PlainName(executable: string, args: seq<string>)
    requires Visible(executable) && !NeedsQuotes(executable)
    ensures Split(Assemble(executable, args)) == [executable] + args
  {
    var line := Assemble(executable, args);
    assert !IsSpecial(executable[0]) && line[0] == executable[0];
    UpToControlStops(executable, Tail(args));
    assert line[|executable|..] == Tail(args);
    TailSplits(args);
  }

  lemma {:induction false} UpToQuoteStops(name: string, rest: string)
    requires Avoids(name, '"')
    ensures UpToQuote(name + ("\"" + rest)) == name
  {
    var text := name + ("\"" + rest);
    if |name| > 0 {
      assert text[1..] == name[1..] + ("\"" + rest);
      UpToQuoteStops(name[1..], rest);
    } else {
      assert text == ("\"" + rest);
    }
  }

  lemma {:induction false} UpToControlStops(name: string, rest: string)
    requires Visible(name) && (|rest| > 0 ==> rest[0] == ' ')
    ensures UpToControl(name + rest) == name
  {
    var text := name + rest;
    if |name| > 0 {
      assert text[1..] == name[1..] + rest;
      UpToControlStops(name[1..], rest);
    } else {
      assert text == rest;
    }
  }

  /** The names that survive: a quoted one must hold no quote and not end in a backslash. */
  predicate NameSurvives(executable: string) {
    if NeedsQuotes(executable) then
      '"' !in executable && TrailingRun(executable) == 0
    else
      Visible(executable)
  }

  /**
    Round trip: the whole command line comes back exactly when the name survives.
    A quoted name that ends in a backslash comes back with that run doubled.
   */
  lemma {:induction false} RoundTrip(executable: string, args: seq<string>)
    ensures Split(Assemble(executable, args)) == [executable] + args <==> NameSurvives(executable)
  {
    var line := Assemble(executable, args);
    if NeedsQuotes(executable) && '"' !in executable {
      QuotedName(executable, args);
      var extra := Slashes(TrailingRun(executable));
      assert |executable + extra| == |executable| + TrailingRun(executable);
      assert extra == "" ==> executable + extra == executable;
      assert ([executable] + args)[0] == executable;
    } else if !NeedsQuotes(executable) && Visible(executable) {
      PlainName(executable, args);
    } else if '"' in executable {
      var i :| 0 <= i < |executable| && executable[i] == '"';
      assert IsSpecial(executable[i]) && line[0] == '"';
      assert Split(line)[0] != executable;
    } else {
      assert |executable| > 0 && line[0] == executable[0];
      assert Split(line)[0] != executable;
    }
  }

  /** A name with a blank in it that ends in a backslash comes back with two. */
  lemma BackslashDoubled()
    ensures Split(Assemble("a b\\", [])) == ["a b\\\\"]
  {
    var name := "a b\\";
    assert IsSpecial(name[1]);
    assert name[..3] == "a b";
    assert TrailingRun(name) == 1 && Slashes(1) == "\\";
    QuotedName(name, []);
    assert name + "\\" == "a b\\\\" && Slashes(TrailingRun(name)) == "\\";
    Unit(["a b\\\\"]);
  }
}
