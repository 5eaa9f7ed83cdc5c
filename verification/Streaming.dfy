/**
 A command's output read as it arrives: `drain_then_reap` (command.rs) cuts the
 stream into blocks of whole lines, `parse_rows_at` (infer.rs) parses a block,
 and `run_invocation` (on_file.rs) adds the blocks up. However the stream is
 split into reads, the rows and the first error are those of one parse of the
 whole output.
 */
module Streaming {
  import opened Wrappers
  import opened Packing
  import opened Values

  type Text = seq<char>

  /** What one line is: nothing to read, a row, or a reason to refuse it. */
  datatype Line = Blank | Good(row: Row) | Bad(reason: string)

  /** The first refused line of an output, by its number. */
  datatype BadLine = BadLine(number: nat, reason: string)

  // ------------------------------------------------------------------- lines

  /** The end of the line of `text` that holds position `i`. */
  function LineEnd(text: Text, i: nat): (n: nat)
    requires i <= |text|
    ensures i <= n <= |text| && (forall k | i <= k < n :: text[k] != '\n') && (n < |text| ==> text[n] == '\n')
    decreases |text| - i
  {
    if i == |text| || text[i] == '\n' then i else LineEnd(text, i + 1)
  }

  /** The lines of `text`, without their ends. */
  function Lines(text: Text): seq<Text> { LinesFrom(text, 0) }

  function LinesFrom(text: Text, i: nat): seq<Text>
    requires i <= |text|
    decreases |text| - i
  {
    if i == |text| then []
    else
      var n := LineEnd(text, i);
      [text[i..n]] + LinesFrom(text, Least(n + 1, |text|))
  }

  /** Empty, or ending a line. */
  predicate WholeLines(text: Text) { text == [] || text[|text| - 1] == '\n' }

  function Newlines(text: Text): nat {
    if text == [] then 0 else Newlines(text[..|text| - 1]) + if text[|text| - 1] == '\n' then 1 else 0
  }

  /** A line within whole lines ends where it did. */
  lemma {:induction false} LineEndWithin(a: Text, all: Text, i: nat)
    requires WholeLines(a) && a <= all && i < |a|
    ensures LineEnd(a, i) < |a| && LineEnd(all, i) == LineEnd(a, i)
  {
    assert a[|a| - 1] == '\n' && all[LineEnd(a, i)] == '\n';
  }

  /** And a line after them where it does alone. */
  lemma {:induction false} LineEndAfter(a: Text, b: Text, all: Text, i: nat, at: nat)
    requires all == a + b && i <= |b| && at == |a| + i
    ensures LineEnd(all, at) == |a| + LineEnd(b, i)
    decreases |b| - i
  {
    if i < |b| && b[i] != '\n' {
      LineEndAfter(a, b, all, i + 1, at + 1);
    }
  }

  lemma {:induction false} LineMoves(a: Text, b: Text, all: Text, i: nat, at: nat, n: nat, end: nat)
    requires all == a + b && i <= n <= |b| && at == |a| + i && end == |a| + n
    ensures all[at..end] == b[i..n]
  {
  }

  lemma {:induction false} LineFirst(text: Text, i: nat, n: nat, line: Text)
    requires i <= n < |text| && n == LineEnd(text, i) && line == text[i..n]
    ensures LinesFrom(text, i) == [line] + LinesFrom(text, n + 1)
  {
  }

  lemma {:induction false} LineLast(text: Text, i: nat, n: nat, line: Text)
    requires i < n == |text| && n == LineEnd(text, i) && line == text[i..n]
    ensures LinesFrom(text, i) == [line]
  {
  }

  lemma {:induction false} FirstAfter(b: Text, all: Text, i: nat, at: nat, n: nat, end: nat)
    requires i <= n < |b| && n == LineEnd(b, i) && at <= end < |all| && end == LineEnd(all, at) &&
      all[at..end] == b[i..n]
    requires LinesFrom(all, end + 1) == LinesFrom(b, n + 1)
    ensures LinesFrom(all, at) == LinesFrom(b, i)
  {
    LineFirst(b, i, n, b[i..n]);
    LineFirst(all, at, end, b[i..n]);
  }

  lemma {:induction false} LastAfter(b: Text, all: Text, i: nat, at: nat)
    requires i < |b| == LineEnd(b, i) && at < |all| == LineEnd(all, at) && all[at..|all|] == b[i..|b|]
    ensures LinesFrom(all, at) == LinesFrom(b, i)
  {
    LineLast(b, i, |b|, b[i..|b|]);
    LineLast(all, at, |all|, b[i..|b|]);
  }

  /** What follows reads as it does alone. */
  lemma {:induction false} LinesAfter(a: Text, b: Text, all: Text, i: nat, at: nat)
    requires all == a + b && i <= |b| && at == |a| + i
    ensures LinesFrom(all, at) == LinesFrom(b, i)
    decreases |b| - i
  {
    if i < |b| {
      var n, end := LineEnd(b, i), LineEnd(all, at);
      LineEndAfter(a, b, all, i, at);
      if n < |b| {
        LinesAfter(a, b, all, n + 1, end + 1);
        LineMoves(a, b, all, i, at, n, end);
        FirstAfter(b, all, i, at, n, end);
      } else {
        LineMoves(a, b, all, i, at, |b|, |all|);
        LastAfter(b, all, i, at);
      }
    }
  }

  /** Whole lines split off what follows. */
  lemma {:induction false} LinesSplit(a: Text, b: Text, all: Text, i: nat, rest: seq<Text>)
    requires WholeLines(a) && all == a + b && i <= |a| && rest == Lines(b)
    ensures LinesFrom(all, i) == LinesFrom(a, i) + rest
    decreases |a| - i
  {
    if i == |a| {
      LinesAfter(a, b, all, 0, |a|);
    } else {
      LineEndWithin(a, all, i);
      var n := LineEnd(a, i);
      LinesSplit(a, b, all, n + 1, rest);
      SameFirst(a, all, i, n);
      LineFirst(a, i, n, a[i..n]);
      LineFirst(all, i, n, a[i..n]);
      Assoc([a[i..n]], LinesFrom(a, n + 1), rest);
    }
  }

  lemma {:induction false} SameFirst(a: Text, all: Text, i: nat, n: nat)
    requires a <= all && i <= n <= |a|
    ensures all[i..n] == a[i..n]
  {
  }

  lemma {:induction false} Assoc<T>(a: seq<T>, b: seq<T>, c: seq<T>)
    ensures a + (b + c) == a + b + c
  {
  }

  lemma {:induction false} NewlinesConcat(a: Text, b: Text)
    ensures Newlines(a + b) == Newlines(a) + Newlines(b)
    decreases |b|
  {
    if b == [] {
      assert a + b == a;
    } else {
      assert (a + b)[..|a + b| - 1] == a + b[..|b| - 1];
      NewlinesConcat(a, b[..|b| - 1]);
    }
  }

  lemma {:induction false} NoNewlines(text: Text, i: nat, n: nat)
    requires i <= n <= |text| && forall k | i <= k < n :: text[k] != '\n'
    ensures Newlines(text[..n]) == Newlines(text[..i])
    decreases n
  {
    if i < n {
      NoNewlines(text, i, n - 1);
      assert text[..n][..n - 1] == text[..n - 1];
    }
  }

  lemma {:induction false} EndCounts(text: Text, n: nat)
    requires n < |text| && text[n] == '\n'
    ensures Newlines(text[..n + 1]) == Newlines(text[..n]) + 1
  {
    assert text[..n + 1][..n] == text[..n];
  }

  /** Whole lines are as many as their ends. */
  lemma {:induction false} LinesAreCounted(text: Text, i: nat)
    requires WholeLines(text) && i <= |text|
    ensures |LinesFrom(text, i)| + Newlines(text[..i]) == Newlines(text)
    decreases |text| - i
  {
    if i == |text| {
      assert text[..i] == text;
    } else {
      LineEndWithin(text, text, i);
      var n := LineEnd(text, i);
      NoNewlines(text, i, n);
      EndCounts(text, n);
      LinesAreCounted(text, n + 1);
      LineFirst(text, i, n, text[i..n]);
    }
  }

  // ------------------------------------------------------------------ parsing

  /** The first of `lines` that is refused; `skipped` lines came before. */
  function FirstBad(lines: seq<Text>, skipped: nat, judge: Text -> Line): Option<BadLine> {
    if lines == [] then None
    else if judge(lines[0]).Bad? then Some(BadLine(skipped + 1, judge(lines[0]).reason))
    else FirstBad(lines[1..], skipped + 1, judge)
  }

  /** The rows of the lines before the first that is refused. */
  function RowsUpTo(lines: seq<Text>, judge: Text -> Line): seq<Row> {
    if lines == [] || judge(lines[0]).Bad? then []
    else (if judge(lines[0]).Good? then [judge(lines[0]).row] else []) + RowsUpTo(lines[1..], judge)
  }

  /** The rows of `lines`, or the first that is refused. */
  function ParseLines(lines: seq<Text>, skipped: nat, judge: Text -> Line): Result<seq<Row>, BadLine> {
    match FirstBad(lines, skipped, judge)
    case Some(bad) => Failure(bad)
    case None => Success(RowsUpTo(lines, judge))
  }

  lemma {:induction false} ParseConcat(a: seq<Text>, b: seq<Text>, skipped: nat, judge: Text -> Line)
    ensures FirstBad(a + b, skipped, judge) ==
      if FirstBad(a, skipped, judge).Some? then FirstBad(a, skipped, judge) else FirstBad(b, skipped + |a|, judge)
    ensures RowsUpTo(a + b, judge) ==
      if FirstBad(a, skipped, judge).Some? then RowsUpTo(a, judge) else RowsUpTo(a, judge) + RowsUpTo(b, judge)
  {
    if a == [] {
      assert a + b == b;
    } else {
      assert (a + b)[1..] == a[1..] + b;
      ParseConcat(a[1..], b, skipped + 1, judge);
    }
  }

  lemma {:induction false} OneLine(line: Text, more: seq<Text>, skipped: nat, judge: Text -> Line)
    ensures judge(line).Bad? ==>
      FirstBad([line] + more, skipped, judge) == Some(BadLine(skipped + 1, judge(line).reason))
    ensures !judge(line).Bad? ==> FirstBad([line], skipped, judge) == None
    ensures RowsUpTo([line], judge) == if judge(line).Good? then [judge(line).row] else []
  {
    assert ([line] + more)[0] == line && [line][1..] == [];
  }

  /** One more line parsed: it is passed over, refused or a row. */
  lemma {:induction false} LineParses(lines: seq<Text>, i: nat, skipped: nat, judge: Text -> Line)
    requires i < |lines| && FirstBad(lines[..i], skipped, judge) == None
    ensures judge(lines[i]).Bad? ==>
      FirstBad(lines, skipped, judge) == Some(BadLine(skipped + i + 1, judge(lines[i]).reason))
    ensures !judge(lines[i]).Bad? ==> FirstBad(lines[..i + 1], skipped, judge) == None
    ensures RowsUpTo(lines[..i + 1], judge) ==
      RowsUpTo(lines[..i], judge) + if judge(lines[i]).Good? then [judge(lines[i]).row] else []
  {
    var line, more := lines[i], lines[i + 1..];
    assert lines == lines[..i] + ([line] + more) && lines[..i + 1] == lines[..i] + [line];
    OneLine(line, more, skipped + i, judge);
    ParseConcat(lines[..i], [line] + more, skipped, judge);
    ParseConcat(lines[..i], [line], skipped, judge);
  }

  /** Read a block's rows one line at a time, its lines numbered on from `skipped`. */
  method ParseRowsAt(output: Text, skipped: nat, judge: Text -> Line) returns (r: Result<seq<Row>, BadLine>)
    ensures r == ParseLines(Lines(output), skipped, judge)
  {
    var lines := Lines(output);
    var rows: seq<Row> := [];
    for index := 0 to |lines|
      invariant FirstBad(lines[..index], skipped, judge) == None && rows == RowsUpTo(lines[..index], judge)
    {
      var number := skipped + index + 1;
      LineParses(lines, index, skipped, judge);
      match judge(lines[index])
      case Blank =>
      case Bad(reason) =>
        return Failure(BadLine(number, reason));
      case Good(row) =>
        rows := rows + [row];
    }
    assert lines[..|lines|] == lines;
    return Success(rows);
  }

  // ----------------------------------------------------------------- draining

  /** What the stream holds up to its end: a read of nothing ends it. */
  function Output(arrivals: seq<Text>): Text {
    if arrivals == [] || arrivals[0] == [] then [] else arrivals[0] + Output(arrivals[1..])
  }

  /** The last newline of `text`. */
  function LastNewline(text: Text): (at: Option<nat>)
    ensures at.None? ==> '\n' !in text
    ensures at.Some? ==> at.value < |text| && text[at.value] == '\n' && '\n' !in text[at.value + 1..]
  {
    if text == [] then None
    else
      var n := |text| - 1;
      if text[n] == '\n' then Some(n)
      else
        var at := LastNewline(text[..n]);
        assert at.Some? ==> text[at.value + 1..] == text[..n][at.value + 1..] + [text[n]];
        assert text == text[..n] + [text[n]];
        at
  }

  /** Blocks of whole lines, none empty. */
  ghost predicate Blocks(blocks: seq<Text>) {
    forall k | 0 <= k < |blocks| :: blocks[k] != [] && WholeLines(blocks[k])
  }

  /**
   Read a stream to its end, handing on blocks of whole lines. Nothing is lost
   or moved: the blocks make up the output, and only the last may lack the end
   of its line.
   */
  method DrainThenReap(arrivals: seq<Text>) returns (blocks: seq<Text>)
    ensures Concat(blocks) == Output(arrivals)
    ensures forall k | 0 <= k < |blocks| :: blocks[k] != []
    ensures forall k | 0 <= k < |blocks| - 1 :: WholeLines(blocks[k])
  {
    var pending: Text := [];
    blocks := [];
    var i := 0;
    ghost var got: Text := [];
    while i < |arrivals| && arrivals[i] != []
      invariant i <= |arrivals| && Blocks(blocks)
      invariant Concat(blocks) + pending == got
      invariant got + Output(arrivals[i..]) == Output(arrivals)
    {
      OneMoreRead(got, arrivals, i);
      Assoc(Concat(blocks), pending, arrivals[i]);
      pending, got := pending + arrivals[i], got + arrivals[i];
      var end := LastNewline(pending);
      if end.Some? {
        BlockCut(blocks, pending, end.value, got);
        blocks, pending := blocks + [pending[..end.value + 1]], pending[end.value + 1..];
      }
      i := i + 1;
    }
    assert Output(arrivals[i..]) == [];
    if pending != [] {
      ConcatAppend(blocks, pending);
      blocks := blocks + [pending];
    }
  }

  lemma {:induction false} OneMoreRead(got: Text, arrivals: seq<Text>, i: nat)
    requires i < |arrivals| && arrivals[i] != []
    ensures got + Output(arrivals[i..]) == (got + arrivals[i]) + Output(arrivals[i + 1..])
  {
    assert arrivals[i..][0] == arrivals[i] && arrivals[i..][1..] == arrivals[i + 1..];
  }

  lemma {:induction false} BlockCut(blocks: seq<Text>, pending: Text, end: nat, got: Text)
    requires Blocks(blocks) && end < |pending| && pending[end] == '\n' && Concat(blocks) + pending == got
    ensures Blocks(blocks + [pending[..end + 1]])
    ensures Concat(blocks + [pending[..end + 1]]) + pending[end + 1..] == got
  {
    ConcatAppend(blocks, pending[..end + 1]);
    assert pending == pending[..end + 1] + pending[end + 1..];
    Assoc(Concat(blocks), pending[..end + 1], pending[end + 1..]);
  }

  // --------------------------------------------------------------- invocation

  /** What one more block makes of the output so far. */
  lemma {:induction false} BlockParses(seen: Text, block: Text, all: Text, judge: Text -> Line)
    requires WholeLines(seen) && all == seen + block
    ensures Newlines(all) == Newlines(seen) + Newlines(block)
    ensures FirstBad(Lines(all), 0, judge) ==
      if FirstBad(Lines(seen), 0, judge).Some? then FirstBad(Lines(seen), 0, judge)
      else FirstBad(Lines(block), Newlines(seen), judge)
    ensures RowsUpTo(Lines(all), judge) ==
      if FirstBad(Lines(seen), 0, judge).Some? then RowsUpTo(Lines(seen), judge)
      else RowsUpTo(Lines(seen), judge) + RowsUpTo(Lines(block), judge)
  {
    var was, more := Lines(seen), Lines(block);
    LinesSplit(seen, block, all, 0, more);
    assert Lines(all) == was + more;
    ParseConcat(was, more, 0, judge);
    LinesAreCounted(seen, 0);
    NewlinesConcat(seen, block);
  }

  /** What has been made of the output `seen` is what one parse of it makes. */
  ghost predicate Summed(judge: Text -> Line, seen: Text, bad: Option<BadLine>, linesSeen: nat, sent: seq<seq<Row>>) {
    && bad == FirstBad(Lines(seen), 0, judge)
    && (bad.None? ==> linesSeen == Newlines(seen) && Concat(sent) == RowsUpTo(Lines(seen), judge))
    && Concat(sent) <= RowsUpTo(Lines(seen), judge)
  }

  /** After a bad line nothing more counts. */
  lemma {:induction false} StaysBad(judge: Text -> Line, seen: Text, bad: Option<BadLine>, linesSeen: nat,
      sent: seq<seq<Row>>, block: Text)
    requires Summed(judge, seen, bad, linesSeen, sent) && WholeLines(seen) && bad.Some?
    ensures Summed(judge, seen + block, bad, linesSeen, sent)
  {
    BlockParses(seen, block, seen + block, judge);
  }

  lemma {:induction false} AddsRows(judge: Text -> Line, seen: Text, linesSeen: nat, sent: seq<seq<Row>>, block: Text,
      rows: seq<Row>)
    requires Summed(judge, seen, None, linesSeen, sent) && WholeLines(seen)
    requires ParseLines(Lines(block), linesSeen, judge) == Success(rows)
    ensures Summed(judge, seen + block, None, linesSeen + Newlines(block), if rows == [] then sent else sent + [rows])
  {
    BlockParses(seen, block, seen + block, judge);
    ConcatAppend(sent, rows);
    assert Concat(sent) + [] == Concat(sent);
  }

  lemma {:induction false} TurnsBad(judge: Text -> Line, seen: Text, linesSeen: nat, sent: seq<seq<Row>>, block: Text,
      error: BadLine)
    requires Summed(judge, seen, None, linesSeen, sent) && WholeLines(seen)
    requires ParseLines(Lines(block), linesSeen, judge) == Failure(error)
    ensures Summed(judge, seen + block, Some(error), linesSeen, sent)
  {
    BlockParses(seen, block, seen + block, judge);
  }

  /** One invocation's output added up block by block. */
  class BlockParser {
    const judge: Text -> Line
    var bad: Option<BadLine>
    var linesSeen: nat
    var sent: seq<seq<Row>>
    ghost var seen: Text

    constructor (judge: Text -> Line)
      ensures this.judge == judge && seen == [] && sent == [] && Valid()
    {
      this.judge := judge;
      bad, linesSeen, sent, seen := None, 0, [], [];
    }

    ghost predicate Valid()
      reads this
    {
      Summed(judge, seen, bad, linesSeen, sent)
    }

    /** Take one more block, which begins a line. */
    method OnBlock(block: Text)
      requires Valid() && WholeLines(seen)
      modifies this
      ensures Valid() && seen == old(seen) + block
      ensures old(bad).Some? ==> bad == old(bad) && sent == old(sent)
    {
      ghost var was := seen;
      seen := seen + block;
      if bad.Some? {
        StaysBad(judge, was, bad, linesSeen, sent, block);
        return;
      }
      var r := ParseRowsAt(block, linesSeen, judge);
      match r
      case Success(rows) =>
        AddsRows(judge, was, linesSeen, sent, block, rows);
        linesSeen := linesSeen + Newlines(block);
        if rows != [] {
          sent := sent + [rows];
        }
      case Failure(error) =>
        TurnsBad(judge, was, linesSeen, sent, block, error);
        bad := Some(error);
    }
  }

  lemma {:induction false} SeenAfter(blocks: seq<Text>, k: nat)
    requires k < |blocks| && blocks[k] != []
    ensures Concat(blocks[..k + 1]) == Concat(blocks[..k]) + blocks[k]
    ensures WholeLines(blocks[k]) ==> WholeLines(Concat(blocks[..k + 1]))
  {
    assert blocks[..k + 1] == blocks[..k] + [blocks[k]];
    ConcatAppend(blocks[..k], blocks[k]);
  }

  /** How an invocation ends badly. */
  datatype Fault = Exited(tail: string) | BadOutput(line: BadLine)

  /**
   Run one invocation: hand on each block's rows, and report a non-zero exit
   before bad output. For every way the output arrives, the rows handed on and
   the error are those of the whole output parsed at once.
   */
  method RunInvocation(arrivals: seq<Text>, exit: Option<string>, judge: Text -> Line)
    returns (r: Result<(), Fault>, sent: seq<seq<Row>>)
    ensures var whole := ParseLines(Lines(Output(arrivals)), 0, judge);
      && (r == if exit.Some? then Failure(Exited(exit.value))
          else if whole.Failure? then Failure(BadOutput(whole.error)) else Success(()))
      && (whole.Success? ==> Concat(sent) == whole.value)
    ensures Concat(sent) <= RowsUpTo(Lines(Output(arrivals)), judge)
  {
    var parser := new BlockParser(judge);
    var blocks := DrainThenReap(arrivals);
    for k := 0 to |blocks|
      invariant parser.Valid() && parser.judge == judge && fresh(parser)
      invariant parser.seen == Concat(blocks[..k])
      invariant k < |blocks| ==> WholeLines(parser.seen)
    {
      SeenAfter(blocks, k);
      parser.OnBlock(blocks[k]);
    }
    assert blocks[..|blocks|] == blocks;
    sent := parser.sent;
    r := if exit.Some? then Failure(Exited(exit.value))
         else if parser.bad.Some? then Failure(BadOutput(parser.bad.value))
         else Success(());
  }
}
