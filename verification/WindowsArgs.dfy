/**
 Windows command lines (command.rs): each argument is quoted, and a reader
 that follows the Microsoft C runtime's rules recovers the very arguments that
 were quoted.
 */
module WindowsArgs {

  /** `n` backslashes. */
  function Slashes(n: nat): (s: string)
    ensures |s| == n
  {
    seq(n, _ => '\\')
  }

  // ------------------------------------------------------------------ quoting

  /** What is still to be written once `arg` and `slashes` backslashes before it
      are left, up to the closing quote. */
  function Rest(arg: string, slashes: nat): string {
    if arg == [] then Slashes(2 * slashes) + "\""
    else if arg[0] == '\\' then Rest(arg[1..], slashes + 1)
    else if arg[0] == '"' then Slashes(2 * slashes + 1) + "\"" + Rest(arg[1..], 0)
    else Slashes(slashes) + [arg[0]] + Rest(arg[1..], 0)
  }

  function Quoted(arg: string): string { "\"" + Rest(arg, 0) }

  /** Quote one argument. */
  method QuoteWindowsArg(arg: string) returns (out: string)
    ensures out == Quoted(arg)
  {
    out := "\"";
    var backslashes: nat := 0;
    for i := 0 to |arg|
      invariant out + Rest(arg[i..], backslashes) == Quoted(arg)
    {
      var c := arg[i];
      assert arg[i..][0] == c && arg[i..][1..] == arg[i + 1..];
      if c == '\\' {
        backslashes := backslashes + 1;
      } else if c == '"' {
        Regroup(out, Slashes(backslashes * 2 + 1), "\"", Rest(arg[i + 1..], 0));
        out := out + Slashes(backslashes * 2 + 1);
        out := out + "\"";
        backslashes := 0;
      } else {
        Regroup(out, Slashes(backslashes), [c], Rest(arg[i + 1..], 0));
        out := out + Slashes(backslashes);
        out := out + [c];
        backslashes := 0;
      }
    }
    Regroup(out, Slashes(backslashes * 2), "\"", []);
    out := out + Slashes(backslashes * 2);
    out := out + "\"";
  }

  lemma {:induction false} Regroup(a: string, b: string, c: string, d: string)
    ensures a + (b + c + d) == a + b + c + d
    ensures a + (b + c) == a + b + c
  {
  }

  // ------------------------------------------------------------------ parsing

  predicate Space(c: char) { c == ' ' || c == '\t' }

  /**
   One argument off the front of `s`, and what follows it, by the C-runtime's
   rules: 2n backslashes and a quote are n backslashes and a quoting mark, 2n+1
   are n backslashes and a plain quote, other backslashes are plain, and white
   space outside quoting ends the argument. `slashes` backslashes came right
   before. Two quotes inside quoting are one plain quote, after which the newer
   runtimes (`newer`) stay in quoting and the older ones do not.
   */
  function Argument(s: string, quoting: bool, slashes: nat, newer: bool): (r: (string, string))
    ensures |r.1| <= |s|
    ensures s != [] && (quoting || !Space(s[0])) ==> |r.1| < |s|
  {
    if s == [] then (Slashes(slashes), [])
    else if s[0] == '\\' then Argument(s[1..], quoting, slashes + 1, newer)
    else if s[0] == '"' then
      if slashes % 2 == 1 then Before(Slashes(slashes / 2) + "\"", Argument(s[1..], quoting, 0, newer))
      else if quoting && |s| > 1 && s[1] == '"' then
        Before(Slashes(slashes / 2) + "\"", Argument(s[2..], newer, 0, newer))
      else Before(Slashes(slashes / 2), Argument(s[1..], !quoting, 0, newer))
    else if Space(s[0]) && !quoting then (Slashes(slashes), s)
    else Before(Slashes(slashes) + [s[0]], Argument(s[1..], quoting, 0, newer))
  }

  function Before(text: string, r: (string, string)): (string, string) { (text + r.0, r.1) }

  /** The arguments of a command line. */
  function Arguments(line: string, newer: bool): seq<string>
    decreases |line|
  {
    if line == [] then []
    else if Space(line[0]) then Arguments(line[1..], newer)
    else
      var (first, rest) := Argument(line, false, 0, newer);
      [first] + Arguments(rest, newer)
  }

  /** The quoted arguments, spaces between. */
  function CommandLine(args: seq<string>): string {
    if args == [] then []
    else if |args| == 1 then Quoted(args[0])
    else Quoted(args[0]) + " " + CommandLine(args[1..])
  }

  // --------------------------------------------------------------- round trip

  /** Backslashes wait for what follows them. */
  lemma {:induction false} ReadsSlashes(n: nat, s: string, quoting: bool, slashes: nat, newer: bool)
    ensures Argument(Slashes(n) + s, quoting, slashes, newer) == Argument(s, quoting, slashes + n, newer)
    decreases n
  {
    if n == 0 {
      assert Slashes(0) + s == s;
    } else {
      assert (Slashes(n) + s)[1..] == Slashes(n - 1) + s;
      ReadsSlashes(n - 1, s, quoting, slashes + 1, newer);
    }
  }

  /** Nothing more of the argument follows. */
  predicate Ends(rest: string) { rest == [] || Space(rest[0]) }

  lemma {:induction false} ReadsPlain(slashes: nat, c: char, after: string, newer: bool)
    requires c != '\\' && c != '"'
    ensures Argument(Slashes(slashes) + ([c] + after), true, 0, newer) ==
      Before(Slashes(slashes) + [c], Argument(after, true, 0, newer))
  {
    ReadsSlashes(slashes, [c] + after, true, 0, newer);
    assert ([c] + after)[1..] == after;
  }

  lemma {:induction false} ReadsQuote(slashes: nat, after: string, newer: bool)
    ensures Argument(Slashes(2 * slashes + 1) + ("\"" + after), true, 0, newer) ==
      Before(Slashes(slashes) + "\"", Argument(after, true, 0, newer))
  {
    ReadsSlashes(2 * slashes + 1, "\"" + after, true, 0, newer);
    assert ("\"" + after)[1..] == after;
  }

  lemma {:induction false} ReadsClose(slashes: nat, rest: string, newer: bool)
    requires Ends(rest)
    ensures Argument(Slashes(2 * slashes) + ("\"" + rest), true, 0, newer) == (Slashes(slashes), rest)
  {
    ReadsSlashes(2 * slashes, "\"" + rest, true, 0, newer);
    assert ("\"" + rest)[1..] == rest;
    assert Slashes(slashes) + Slashes(0) == Slashes(slashes);
  }

  /** What quoting wrote reads back, with the backslashes before it. */
  lemma {:induction false} RestReadsBack(arg: string, slashes: nat, rest: string, newer: bool)
    requires Ends(rest)
    ensures Argument(Rest(arg, slashes) + rest, true, 0, newer) == (Slashes(slashes) + arg, rest)
    decreases arg
  {
    if arg == [] {
      assert Rest(arg, slashes) + rest == Slashes(2 * slashes) + ("\"" + rest);
      ReadsClose(slashes, rest, newer);
      assert Slashes(slashes) + arg == Slashes(slashes);
    } else if arg[0] == '\\' {
      RestReadsBack(arg[1..], slashes + 1, rest, newer);
      assert Slashes(slashes + 1) + arg[1..] == Slashes(slashes) + arg;
    } else {
      var after := Rest(arg[1..], 0) + rest;
      RestReadsBack(arg[1..], 0, rest, newer);
      assert Slashes(slashes) + [arg[0]] + (Slashes(0) + arg[1..]) == Slashes(slashes) + arg;
      if arg[0] == '"' {
        assert Rest(arg, slashes) + rest == Slashes(2 * slashes + 1) + ("\"" + after);
        ReadsQuote(slashes, after, newer);
      } else {
        assert Rest(arg, slashes) + rest == Slashes(slashes) + ([arg[0]] + after);
        ReadsPlain(slashes, arg[0], after, newer);
      }
    }
  }

  lemma {:induction false} QuotedReadsBack(arg: string, rest: string, newer: bool)
    requires Ends(rest)
    ensures Argument(Quoted(arg) + rest, false, 0, newer) == (arg, rest)
  {
    var s := Quoted(arg) + rest;
    assert s[1..] == Rest(arg, 0) + rest;
    RestReadsBack(arg, 0, rest, newer);
    assert Slashes(0) + arg == arg && Slashes(0) + (Slashes(0) + arg) == arg;
  }

  /** Any arguments, empty ones and trailing backslashes too, come back exactly,
      under the newer rule and the older. */
  lemma {:induction false} CommandLineReadsBack(args: seq<string>, newer: bool)
    ensures Arguments(CommandLine(args), newer) == args
  {
    if args != [] {
      var rest := if |args| == 1 then [] else " " + CommandLine(args[1..]);
      var line := CommandLine(args);
      assert line == Quoted(args[0]) + rest;
      QuotedReadsBack(args[0], rest, newer);
      CommandLineReadsBack(args[1..], newer);
      if |args| > 1 {
        assert rest[1..] == CommandLine(args[1..]);
      }
      assert Arguments(rest, newer) == args[1..];
      assert args == [args[0]] + args[1..];
    }
  }
}
