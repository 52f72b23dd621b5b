/** The Windows command-line splitter (crates/agent/src/domain/command_line.rs), and
    what it undoes. */
module CommandLine {
  // Splitting is one pass over the characters with a little state. `Run` is that pass as a
  // function; the method `SplitCommandLine` is the loop itself. Two renderings are proved
  // against it: fully quoted arguments, which always come back, and plain words, which
  // come back under an exact condition.

  /** `char::is_whitespace`: the Unicode White_Space property. */
  predicate IsWhitespace(c: char) {
    var u := c as int;
    || 0x09 <= u <= 0x0D || u == 0x20 || u == 0x85 || u == 0xA0 || u == 0x1680
    || 0x2000 <= u <= 0x200A || u == 0x2028 || u == 0x2029 || u == 0x202F
    || u == 0x205F || u == 0x3000
  }

  function Slashes(n: nat): (r: string) {
    seq(n, _ => '\\')
  }

  datatype Splitter = Splitter(
    argv: seq<string>, current: string, inQuotes: bool, hasToken: bool, backslashes: nat)

  const START := Splitter([], "", false, false, 0)

  /** The pass over the rest of the line from a given state. */
  function Run(s: Splitter, line: string): seq<string>
    decreases |line|
  {
    if line == "" then
      var last := s.current + Slashes(s.backslashes);
      if s.hasToken || last != "" then s.argv + [last] else s.argv
    else if line[0] == '\\' then
      Run(s.(backslashes := s.backslashes + 1), line[1..])
    else if line[0] == '"' then
      var half := s.current + Slashes(s.backslashes / 2);
      var next := s.(backslashes := 0, hasToken := true);
      if s.backslashes % 2 == 0 then
        if s.inQuotes && |line| > 1 && line[1] == '"' then
          Run(next.(current := half + "\""), line[2..])
        else
          Run(next.(current := half, inQuotes := !s.inQuotes), line[1..])
      else
        Run(next.(current := half + "\""), line[1..])
    else if IsWhitespace(line[0]) && !s.inQuotes then
      // The pending backslash count is NOT reset here, as in the source.
      var word := s.current + Slashes(s.backslashes);
      if s.hasToken || word != "" then
        Run(s.(argv := s.argv + [word], current := "", hasToken := false), line[1..])
      else
        Run(s.(current := word), line[1..])
    else
      Run(s.(current := s.current + Slashes(s.backslashes) + [line[0]], backslashes := 0, hasToken := true),
          line[1..])
  }

  function Split(line: string): seq<string> {
    Run(START, line)
  }

  method PushBackslashes(current: string, n: nat) returns (r: string)
    ensures r == current + Slashes(n)
  {
    r := current;
    for i := 0 to n
      invariant r == current + Slashes(i)
    {
      r := r + ['\\'];
    }
  }

  method SplitCommandLine(line: string) returns (argv: seq<string>)
    ensures argv == Split(line)
  {
    argv := [];
    var current, inQuotes, hasToken, backslashes, i := "", false, false, 0, 0;
    while i < |line|
      invariant 0 <= i <= |line| && 0 <= backslashes
      invariant Run(Splitter(argv, current, inQuotes, hasToken, backslashes), line[i..]) == Split(line)
    {
      ghost var rest := line[i..];
      assert rest[1..] == line[i + 1..];
      var c := line[i];
      i := i + 1;
      if c == '\\' {
        backslashes := backslashes + 1;
      } else if c == '"' {
        current := PushBackslashes(current, backslashes / 2);
        if backslashes % 2 == 0 {
          if inQuotes && i < |line| && line[i] == '"' {
            assert rest[2..] == line[i + 1..];
            current := current + "\"";
            i := i + 1;
          } else {
            inQuotes := !inQuotes;
          }
        } else {
          current := current + "\"";
        }
        backslashes := 0;
        hasToken := true;
      } else if IsWhitespace(c) && !inQuotes {
        current := PushBackslashes(current, backslashes);
        if hasToken || current != "" {
          argv := argv + [current];
          current := "";
          hasToken := false;
        }
      } else {
        current := PushBackslashes(current, backslashes);
        backslashes := 0;
        current := current + [c];
        hasToken := true;
      }
    }
    assert line[i..] == "";
    current := PushBackslashes(current, backslashes);
    if hasToken || current != "" {
      argv := argv + [current];
    }
  }

  // ---- Rendering: every argument quoted, backslashes by the documented rules

  /** The rest of a quoted argument, `run` backslashes of it still to be written: doubled
      before a closing quote; before a literal quote doubled plus one, or doubled with the
      quote itself doubled, as `doubles` says for the characters left. */
  function Escaped(arg: string, run: nat, doubles: nat -> bool): string
    decreases |arg|
  {
    if arg == "" then Slashes(2 * run) + "\""
    else if arg[0] == '\\' then Escaped(arg[1..], run + 1, doubles)
    else if arg[0] == '"' then QuoteText(run, doubles(|arg|)) + Escaped(arg[1..], 0, doubles)
    else Slashes(run) + [arg[0]] + Escaped(arg[1..], 0, doubles)
  }

  /** A literal quote behind backslashes, doubled or behind one more backslash. */
  function QuoteText(run: nat, doubled: bool): string {
    if doubled then Slashes(2 * run) + "\"\"" else Slashes(2 * run + 1) + "\""
  }

  /** Blanks between arguments and around them. */
  predicate Blank(gap: string) {
    forall i :: 0 <= i < |gap| ==> gap[i] in {' ', '\t', '\n', '\r'}
  }

  /** One gap before each argument and one at the end; those between are not empty. */
  predicate Gaps(gaps: seq<string>, n: nat) {
    |gaps| == n + 1 && forall i :: 0 <= i <= n ==> Blank(gaps[i]) && (0 < i < n ==> gaps[i] != "")
  }

  /** The arguments quoted, each behind its gap. */
  function Rendered(args: seq<string>, gaps: seq<string>, doubles: nat -> bool): string
    requires Gaps(gaps, |args|)
    decreases |args|
  {
    if args == [] then gaps[0]
    else gaps[0] + Quoted(args[0], doubles, Rendered(args[1..], gaps[1..], doubles))
  }

  function Quoted(arg: string, doubles: nat -> bool, rest: string): string {
    "\"" + Escaped(arg, 0, doubles) + rest
  }

  lemma {:induction false} RunSlashes(s: Splitter, n: nat, rest: string)
    ensures Run(s, Slashes(n) + rest) == Run(s.(backslashes := s.backslashes + n), rest)
    decreases n
  {
    if n == 0 {
      assert Slashes(0) + rest == rest;
    } else {
      assert (Slashes(n) + rest)[1..] == Slashes(n - 1) + rest;
      RunSlashes(s.(backslashes := s.backslashes + 1), n - 1, rest);
    }
  }

  lemma SlashMoves(base: string, run: nat, w: string)
    requires w != "" && w[0] == '\\'
    ensures base + Slashes(run + 1) + w[1..] == base + Slashes(run) + w
  {
    assert Slashes(run + 1) + w[1..] == Slashes(run) + w;
    assert base + Slashes(run + 1) + w[1..] == base + (Slashes(run + 1) + w[1..]);
    assert base + Slashes(run) + w == base + (Slashes(run) + w);
  }

  lemma CharMoves(base: string, run: nat, w: string)
    requires w != ""
    ensures base + Slashes(run) + [w[0]] + Slashes(0) + w[1..] == base + Slashes(run) + w
  {
    assert Slashes(0) == "";
    assert w == [w[0]] + w[1..];
  }

  lemma RunSlashesThen(s: Splitter, n: nat, c: char, tail: string, line: string)
    requires line == Slashes(n) + [c] + tail && s.backslashes == 0
    ensures Run(s, line) == Run(s.(backslashes := n), [c] + tail) && ([c] + tail)[1..] == tail
  {
    assert line == Slashes(n) + ([c] + tail);
    RunSlashes(s, n, [c] + tail);
  }

  /** A doubled quote inside quotes stands for one and leaves the token quoted. */
  lemma RunDoubled(s: Splitter, tail: string)
    requires s.inQuotes && s.backslashes % 2 == 0
    ensures Run(s, "\"\"" + tail)
         == Run(s.(current := s.current + Slashes(s.backslashes / 2) + "\"", backslashes := 0, hasToken := true), tail)
  {
    var line := "\"\"" + tail;
    assert line[0] == '"' && line[1] == '"' && line[2..] == tail;
  }

  lemma Regroup(a: string, b: string, c: string)
    ensures a + b + c == a + (b + c)
  {
  }

  lemma RunOddQuote(s: Splitter, tail: string)
    requires s.backslashes % 2 == 1
    ensures Run(s, "\"" + tail)
         == Run(s.(current := s.current + Slashes(s.backslashes / 2) + "\"", backslashes := 0, hasToken := true), tail)
  {
    assert ("\"" + tail)[1..] == tail;
  }

  lemma RunSlashesTo(s: Splitter, n: nat, line: string, r: seq<string>)
    requires s.backslashes == 0 && Run(s.(backslashes := n), line) == r
    ensures Run(s, Slashes(n) + line) == r
  {
    RunSlashes(s, n, line);
  }

  /** A literal quote written twice. */
  lemma RunDoubledText(s: Splitter, run: nat, n: nat, tail: string)
    requires s.inQuotes && s.backslashes == 0 && n == 2 * run
    ensures Run(s, Slashes(n) + "\"\"" + tail)
         == Run(s.(current := s.current + Slashes(run) + "\"", hasToken := true), tail)
  {
    var r := Run(s.(current := s.current + Slashes(run) + "\"", hasToken := true), tail);
    RunDoubled(s.(backslashes := n), tail);
    RunSlashesTo(s, n, "\"\"" + tail, r);
    Regroup(Slashes(n), "\"\"", tail);
  }

  /** And behind one more backslash. */
  lemma RunOddText(s: Splitter, run: nat, n: nat, tail: string)
    requires s.inQuotes && s.backslashes == 0 && n == 2 * run + 1
    ensures Run(s, Slashes(n) + "\"" + tail)
         == Run(s.(current := s.current + Slashes(run) + "\"", hasToken := true), tail)
  {
    var r := Run(s.(current := s.current + Slashes(run) + "\"", hasToken := true), tail);
    RunOddQuote(s.(backslashes := n), tail);
    RunSlashesTo(s, n, "\"" + tail, r);
    Regroup(Slashes(n), "\"", tail);
  }

  lemma RunQuote(s: Splitter, arg: string, run: nat, doubles: nat -> bool, rest: string)
    requires s.inQuotes && s.backslashes == 0 && arg != "" && arg[0] == '"'
    ensures Run(s, Escaped(arg, run, doubles) + rest)
         == Run(s.(current := s.current + Slashes(run) + "\"", hasToken := true), Escaped(arg[1..], 0, doubles) + rest)
  {
    Regroup(QuoteText(run, doubles(|arg|)), Escaped(arg[1..], 0, doubles), rest);
    if doubles(|arg|) {
      RunDoubledText(s, run, 2 * run, Escaped(arg[1..], 0, doubles) + rest);
    } else {
      RunOddText(s, run, 2 * run + 1, Escaped(arg[1..], 0, doubles) + rest);
    }
  }

  lemma RunChar(s: Splitter, c: char, tail: string)
    requires s.inQuotes && c != '"' && c != '\\'
    ensures Run(s, [c] + tail)
         == Run(s.(current := s.current + Slashes(s.backslashes) + [c], backslashes := 0, hasToken := true), tail)
  {
    assert ([c] + tail)[1..] == tail;
  }

  lemma RunPlainChar(s: Splitter, arg: string, run: nat, doubles: nat -> bool, rest: string)
    requires s.inQuotes && s.backslashes == 0 && arg != "" && arg[0] != '"' && arg[0] != '\\'
    ensures Run(s, Escaped(arg, run, doubles) + rest)
         == Run(s.(current := s.current + Slashes(run) + [arg[0]], hasToken := true),
                Escaped(arg[1..], 0, doubles) + rest)
  {
    var tail := Escaped(arg[1..], 0, doubles);
    Regroup(Slashes(run), [arg[0]], tail);
    Regroup(Slashes(run), [arg[0]] + tail, rest);
    Regroup([arg[0]], tail, rest);
    RunSlashes(s, run, [arg[0]] + (tail + rest));
    RunChar(s.(backslashes := run), arg[0], tail + rest);
  }

  /** One quoted argument is consumed whole, whatever its characters. */
  lemma {:induction false} RunEscaped(s: Splitter, arg: string, run: nat, doubles: nat -> bool, rest: string)
    requires s.inQuotes && s.backslashes == 0
    requires rest != "" ==> rest[0] != '"'
    ensures Run(s, Escaped(arg, run, doubles) + rest)
         == Run(s.(current := s.current + Slashes(run) + arg, inQuotes := false, hasToken := true), rest)
    decreases |arg|
  {
    if arg == "" {
      RunSlashesThen(s, 2 * run, '"', rest, Escaped(arg, run, doubles) + rest);
      assert s.current + Slashes(run) + arg == s.current + Slashes(run);
    } else if arg[0] == '\\' {
      RunEscaped(s, arg[1..], run + 1, doubles, rest);
      SlashMoves(s.current, run, arg);
    } else {
      var s' := s.(current := s.current + Slashes(run) + [arg[0]], hasToken := true);
      if arg[0] == '"' {
        RunQuote(s, arg, run, doubles, rest);
      } else {
        RunPlainChar(s, arg, run, doubles, rest);
      }
      RunEscaped(s', arg[1..], 0, doubles, rest);
      CharMoves(s.current, run, arg);
    }
  }

  lemma RunOpening(argv: seq<string>, tail: string)
    ensures Run(START.(argv := argv), "\"" + tail)
          == Run(START.(argv := argv, inQuotes := true, hasToken := true), tail)
  {
    assert ("\"" + tail)[1..] == tail;
    assert START.current + Slashes(0) == START.current;
  }

  /** A space outside quotes ends the token; the backslash count goes on. */
  lemma RunSpace(s: Splitter, tail: string)
    requires !s.inQuotes && (s.hasToken || s.current + Slashes(s.backslashes) != "")
    ensures Run(s, " " + tail)
         == Run(s.(argv := s.argv + [s.current + Slashes(s.backslashes)], current := "", hasToken := false), tail)
  {
    assert (" " + tail)[1..] == tail;
  }

  lemma RunEnd(s: Splitter)
    requires s.hasToken || s.current + Slashes(s.backslashes) != ""
    ensures Run(s, "") == s.argv + [s.current + Slashes(s.backslashes)]
  {
  }

  lemma QuoteThenRest(argv: seq<string>, quoted: string, rest: string)
    ensures Run(START.(argv := argv), "\"" + quoted + rest)
         == Run(START.(argv := argv, inQuotes := true, hasToken := true), quoted + rest)
  {
    RunOpening(argv, quoted + rest);
    assert "\"" + (quoted + rest) == "\"" + quoted + rest;
  }

  lemma RunFirst(argv: seq<string>, arg: string, doubles: nat -> bool, rest: string)
    requires rest != "" ==> rest[0] != '"'
    ensures Run(START.(argv := argv), Quoted(arg, doubles, rest))
         == Run(START.(argv := argv, current := arg, hasToken := true), rest)
  {
    QuoteThenRest(argv, Escaped(arg, 0, doubles), rest);
    RunEscaped(START.(argv := argv, inQuotes := true, hasToken := true), arg, 0, doubles, rest);
    assert "" + Slashes(0) + arg == arg;
  }

  /** Blanks between tokens are passed over. */
  lemma {:induction false} RunBlanks(argv: seq<string>, gap: string, tail: string)
    requires Blank(gap)
    ensures Run(START.(argv := argv), gap + tail) == Run(START.(argv := argv), tail)
    decreases |gap|
  {
    if gap == "" {
      assert gap + tail == tail;
    } else {
      assert (gap + tail)[1..] == gap[1..] + tail && gap[0] in {' ', '\t', '\n', '\r'};
      assert "" + Slashes(0) == "";
      RunBlanks(argv, gap[1..], tail);
    }
  }

  /** The first blank behind a token ends it. */
  lemma RunTokenEnd(argv: seq<string>, arg: string, gap: string, tail: string)
    requires Blank(gap) && gap != ""
    ensures Run(START.(argv := argv, current := arg, hasToken := true), gap + tail)
         == Run(START.(argv := argv + [arg]), tail)
  {
    assert (gap + tail)[1..] == gap[1..] + tail && gap[0] in {' ', '\t', '\n', '\r'};
    assert arg + Slashes(0) == arg;
    RunBlanks(argv + [arg], gap[1..], tail);
  }

  lemma RunLast(argv: seq<string>, arg: string, gap: string)
    requires Blank(gap)
    ensures Run(START.(argv := argv, current := arg, hasToken := true), gap) == argv + [arg]
  {
    assert arg + Slashes(0) == arg && gap + "" == gap;
    if gap != "" {
      RunTokenEnd(argv, arg, gap, "");
      assert START.(argv := argv + [arg]).current + Slashes(0) == "";
    }
  }

  lemma {:induction false} RunRendered(argv: seq<string>, args: seq<string>, gaps: seq<string>, doubles: nat -> bool)
    requires Gaps(gaps, |args|)
    ensures Run(START.(argv := argv), Rendered(args, gaps, doubles)) == argv + args
    decreases |args|
  {
    if args == [] {
      RunBlanks(argv, gaps[0], "");
      assert gaps[0] + "" == gaps[0] && START.(argv := argv).current + Slashes(0) == "";
    } else {
      var rest := Rendered(args[1..], gaps[1..], doubles);
      RunBlanks(argv, gaps[0], Quoted(args[0], doubles, rest));
      RestStartsBlank(args, gaps, doubles);
      RunFirst(argv, args[0], doubles, rest);
      RunRest(argv, args, gaps, doubles);
    }
  }

  lemma RestStartsBlank(args: seq<string>, gaps: seq<string>, doubles: nat -> bool)
    requires args != [] && Gaps(gaps, |args|)
    ensures var rest := Rendered(args[1..], gaps[1..], doubles); rest != "" ==> rest[0] != '"'
  {
    assert gaps[1..][0] == gaps[1] && Blank(gaps[1]);
    assert |args| > 1 ==> gaps[1] != "";
    assert gaps[1] != "" ==> gaps[1][0] in {' ', '\t', '\n', '\r'};
  }

  /** From the end of the first argument on. */
  lemma {:induction false} RunRest(argv: seq<string>, args: seq<string>, gaps: seq<string>, doubles: nat -> bool)
    requires args != [] && Gaps(gaps, |args|)
    ensures Run(START.(argv := argv, current := args[0], hasToken := true), Rendered(args[1..], gaps[1..], doubles))
         == argv + args
    decreases |args|, 0
  {
    assert gaps[1..][0] == gaps[1];
    if |args| == 1 {
      RunLast(argv, args[0], gaps[1]);
      assert args == [args[0]];
    } else {
      var others, behind := args[1..], gaps[1..];
      var tail := Quoted(others[0], doubles, Rendered(others[1..], behind[1..], doubles));
      assert Rendered(others, behind, doubles) == gaps[1] + tail;
      RunTokenEnd(argv, args[0], gaps[1], tail);
      RestStartsBlank(others, behind, doubles);
      RunFirst(argv + [args[0]], others[0], doubles, Rendered(others[1..], behind[1..], doubles));
      RunRest(argv + [args[0]], others, behind, doubles);
      assert argv + [args[0]] + others == argv + args;
    }
  }

  /** Splitting undoes quoting: any arguments at all, empty ones, inner quotes in either
      writing and backslash runs included, come back from their rendered command line,
      whatever blanks stand between and around them. */
  lemma SplitUndoesQuoting(args: seq<string>, gaps: seq<string>, doubles: nat -> bool)
    requires Gaps(gaps, |args|)
    ensures Split(Rendered(args, gaps, doubles)) == args
  {
    RunRendered([], args, gaps, doubles);
    assert START.(argv := []) == START;
    assert [] + args == args;
  }

  /** The white space that separates arguments, character by character. */
  lemma Separators(c: char)
    ensures IsWhitespace(c) <==> c as int in {
      0x09, 0x0A, 0x0B, 0x0C, 0x0D, 0x20, 0x85, 0xA0, 0x1680, 0x2000, 0x2001, 0x2002, 0x2003, 0x2004, 0x2005, 0x2006,
      0x2007, 0x2008, 0x2009, 0x200A, 0x2028, 0x2029, 0x202F, 0x205F, 0x3000}
  {
  }

  // ---- Plain words joined by spaces

  predicate PlainWord(w: string) {
    w != "" && forall i | 0 <= i < |w| :: w[i] != '"' && !IsWhitespace(w[i])
  }

  predicate PlainWords(args: seq<string>) {
    forall i | 0 <= i < |args| :: PlainWord(args[i])
  }

  function Joined(args: seq<string>): string {
    if args == [] then ""
    else args[0] + (if |args| == 1 then "" else " " + Joined(args[1..]))
  }

  predicate EndsInBackslash(w: string) {
    w != "" && w[|w| - 1] == '\\'
  }

  /** How many backslashes a word ends with. */
  function Trailing(w: string): nat {
    if EndsInBackslash(w) then 1 + Trailing(w[..|w| - 1]) else 0
  }

  /** What the splitter makes of plain words: each word starts with the backslashes
      the word before it (so extended) ended with. */
  function Carried(args: seq<string>, pending: nat): seq<string>
    requires args != []
    decreases |args|
  {
    var w := Slashes(pending) + args[0];
    if |args| == 1 then [w] else [w] + Carried(args[1..], Trailing(w))
  }

  function AfterWord(s: Splitter, w: string): (r: Splitter)
    decreases |w|
  {
    if w == "" then s
    else if w[0] == '\\' then AfterWord(s.(backslashes := s.backslashes + 1), w[1..])
    else AfterWord(s.(current := s.current + Slashes(s.backslashes) + [w[0]], backslashes := 0, hasToken := true),
          w[1..])
  }

  lemma {:induction false} RunWord(s: Splitter, w: string, rest: string)
    requires !s.inQuotes
    requires forall i | 0 <= i < |w| :: w[i] != '"' && !IsWhitespace(w[i])
    ensures Run(s, w + rest) == Run(AfterWord(s, w), rest)
    decreases |w|
  {
    if w == "" {
      assert w + rest == rest;
    } else {
      assert (w + rest)[1..] == w[1..] + rest;
      if w[0] == '\\' {
        RunWord(s.(backslashes := s.backslashes + 1), w[1..], rest);
      } else {
        RunWord(s.(current := s.current + Slashes(s.backslashes) + [w[0]], backslashes := 0, hasToken := true),
              w[1..], rest);
      }
    }
  }

  lemma {:induction false} TrailingSlashes(w: string, n: nat)
    requires !EndsInBackslash(w)
    ensures Trailing(w + Slashes(n)) == n
    decreases n
  {
    if n == 0 {
      assert w + Slashes(0) == w;
    } else {
      assert (w + Slashes(n))[..|w| + n - 1] == w + Slashes(n - 1);
      TrailingSlashes(w, n - 1);
    }
  }

  /** After a word the pending backslashes are exactly those the text ends with. */
  lemma {:induction false} AfterWordText(s: Splitter, w: string)
    requires !EndsInBackslash(s.current)
    ensures var r := AfterWord(s, w);
            && r.argv == s.argv && r.inQuotes == s.inQuotes && !EndsInBackslash(r.current)
            && r.current + Slashes(r.backslashes) == s.current + Slashes(s.backslashes) + w
            && r.backslashes == Trailing(s.current + Slashes(s.backslashes) + w)
    decreases |w|
  {
    if w == "" {
      assert s.current + Slashes(s.backslashes) + w == s.current + Slashes(s.backslashes);
      TrailingSlashes(s.current, s.backslashes);
    } else if w[0] == '\\' {
      AfterWordText(s.(backslashes := s.backslashes + 1), w[1..]);
      SlashMoves(s.current, s.backslashes, w);
    } else {
      var s' := s.(current := s.current + Slashes(s.backslashes) + [w[0]], backslashes := 0, hasToken := true);
      AfterWordText(s', w[1..]);
      CharMoves(s.current, s.backslashes, w);
    }
  }

  lemma RunFirstWord(argv: seq<string>, pending: nat, word: string, rest: string) returns (r: Splitter)
    requires PlainWord(word)
    ensures Run(START.(argv := argv, backslashes := pending), word + rest) == Run(r, rest)
    ensures r.argv == argv && !r.inQuotes
    ensures r.current + Slashes(r.backslashes) == Slashes(pending) + word != ""
    ensures r.backslashes == Trailing(Slashes(pending) + word)
  {
    var s := START.(argv := argv, backslashes := pending);
    RunWord(s, word, rest);
    AfterWordText(s, word);
    assert s.current + Slashes(pending) + word == Slashes(pending) + word;
    assert |Slashes(pending) + word| > 0;
    r := AfterWord(s, word);
  }

  lemma {:induction false} RunJoined(argv: seq<string>, args: seq<string>, pending: nat)
    requires args != [] && PlainWords(args)
    ensures Run(START.(argv := argv, backslashes := pending), Joined(args)) == argv + Carried(args, pending)
    decreases |args|
  {
    var w := Slashes(pending) + args[0];
    var rest := if |args| == 1 then "" else " " + Joined(args[1..]);
    assert PlainWord(args[0]);
    var r := RunFirstWord(argv, pending, args[0], rest);
    assert args[0] + "" == args[0];
    assert r.current + Slashes(r.backslashes) == w;
    if |args| == 1 {
      RunEnd(r);
    } else {
      RunSpace(r, Joined(args[1..]));
      RunJoined(argv + [w], args[1..], Trailing(w));
      assert argv + [w] + Carried(args[1..], Trailing(w)) == argv + Carried(args, pending);
    }
  }

  lemma {:induction false} CarriedIsIdentity(args: seq<string>, pending: nat)
    requires args != [] && PlainWords(args)
    ensures Carried(args, pending) == args <==>
            pending == 0 && forall i | 0 <= i < |args| - 1 :: !EndsInBackslash(args[i])
    decreases |args|
  {
    var w := Slashes(pending) + args[0];
    assert |w| == pending + |args[0]|;
    if pending == 0 {
      assert w == args[0];
      if |args| > 1 {
        CarriedIsIdentity(args[1..], Trailing(w));
        assert args == [args[0]] + args[1..];
        assert Carried(args, 0)[1..] == Carried(args[1..], Trailing(w));
        assert forall i | 0 <= i < |args[1..]| - 1 :: args[1..][i] == args[i + 1];
        if forall i | 0 <= i < |args[1..]| - 1 :: !EndsInBackslash(args[1..][i]) {
          forall i | 1 <= i < |args| - 1 ensures !EndsInBackslash(args[i]) {
            assert args[1..][i - 1] == args[i];
          }
        }
      }
    } else {
      assert Carried(args, pending)[0] == w;
    }
  }

  /** The documented rule that backslashes away from quotes are literal, stated on
      plain words joined by spaces. The code meets it exactly when no word but the
      last ends in a backslash: an unquoted space does not clear the pending
      backslashes, so they are written again in front of the next word. */
  lemma PlainWordsComeBack(args: seq<string>)
    requires PlainWords(args)
    ensures Split(Joined(args)) == args <==> forall i | 0 <= i < |args| - 1 :: !EndsInBackslash(args[i])
  {
    if args != [] {
      RunJoined([], args, 0);
      assert START.(argv := [], backslashes := 0) == START;
      assert [] + Carried(args, 0) == Carried(args, 0);
      CarriedIsIdentity(args, 0);
    }
  }

  lemma {:induction false} CarriedAt(args: seq<string>, pending: nat)
    requires args != []
    ensures var r := Carried(args, pending);
            && |r| == |args| && r[0] == Slashes(pending) + args[0]
            && forall i: nat :: i + 1 < |args| ==> r[i + 1] == Slashes(Trailing(r[i])) + args[i + 1]
    decreases |args|
  {
    var r := Carried(args, pending);
    if |args| > 1 {
      CarriedAt(args[1..], Trailing(r[0]));
      var rest := Carried(args[1..], Trailing(r[0]));
      assert r == [r[0]] + rest;
      forall i: nat | i + 1 < |args|
        ensures r[i + 1] == Slashes(Trailing(r[i])) + args[i + 1]
      {
        assert i > 0 ==> rest[i - 1 + 1] == Slashes(Trailing(rest[i - 1])) + args[1..][i - 1 + 1];
      }
    }
  }

  /** What plain words come back as, all of them: the first as it is, and each later one
      behind as many backslashes as the argument before it came back ending in. */
  lemma BackslashCarriedOver(args: seq<string>)
    requires args != [] && PlainWords(args)
    ensures var r := Split(Joined(args));
            && |r| == |args| && r[0] == args[0]
            && forall i: nat :: i + 1 < |args| ==> r[i + 1] == Slashes(Trailing(r[i])) + args[i + 1]
  {
    RunJoined([], args, 0);
    assert START.(argv := [], backslashes := 0) == START;
    assert [] + Carried(args, 0) == Carried(args, 0);
    CarriedAt(args, 0);
    assert Slashes(0) + args[0] == args[0];
  }
}
