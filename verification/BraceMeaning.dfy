/**
 What brace expansion means (brace.rs): a pattern written from characters,
 escapes, alternatives and ranges expands to every way of choosing one word of
 each group, the leftmost group varying slowest.
 */
module BraceMeaning {
  import opened Wrappers
  import opened Brace

  datatype Pattern = Done | Then(piece: Piece, rest: Pattern)

  datatype Piece = Plain(c: char) | Escaped(c: char) | Choice(options: Options) | Counted(range: Text, words: seq<Text>)

  datatype Options = Only(pattern: Pattern) | Or(pattern: Pattern, more: Options)

  function Show(p: Pattern): Text {
    match p case Done => [] case Then(piece, rest) => ShowPiece(piece) + Show(rest)
  }

  function ShowPiece(piece: Piece): (s: Text)
    ensures s != []
  {
    match piece
    case Plain(c) => [c]
    case Escaped(c) => ['\\', c]
    case Choice(options) => "{" + ShowOptions(options) + "}"
    case Counted(range, _) => "{" + range + "}"
  }

  predicate IsGroup(piece: Piece) { piece.Choice? || piece.Counted? }

  function Inside(piece: Piece): Text
    requires IsGroup(piece)
  {
    match piece case Choice(options) => ShowOptions(options) case Counted(range, _) => range
  }

  function ShowOptions(o: Options): Text {
    match o case Only(p) => Show(p) case Or(p, more) => Show(p) + ("," + ShowOptions(more))
  }

  predicate Special(c: char) { c == '{' || c == '}' || c == ',' || c == '\\' }

  /** Read as written: a plain character has no part in braces, alternatives are
      at least two, a range has its dots, and neither starts with white space. */
  predicate Legible(p: Pattern) {
    match p case Done => true case Then(piece, rest) => LegiblePiece(piece) && Legible(rest)
  }

  predicate LegiblePiece(piece: Piece) {
    match piece
    case Plain(c) => !Special(c)
    case Escaped(_) => true
    case Choice(options) => options.Or? && LegibleOptions(options) && !AsciiSpace((ShowOptions(options) + "}")[0])
    case Counted(range, _) => Dotted(range)
  }

  predicate Dotted(range: Text) {
    && Find(range, 0).Some? && Find(range, 0).value + 2 < |range| && !AsciiSpace(range[0])
    && forall k | 0 <= k < |range| :: !Special(range[k])
  }

  /** Each range lists the words it stands for; text that is none stands for
      itself, braces and all. */
  predicate Counts(p: Pattern, ranges: Ranges) {
    match p case Done => true case Then(piece, rest) => CountsPiece(piece, ranges) && Counts(rest, ranges)
  }

  predicate CountsPiece(piece: Piece, ranges: Ranges) {
    match piece
    case Choice(options) => CountsOptions(options, ranges)
    case Counted(range, words) => words == if ranges(range).Some? then ranges(range).value else ["{" + range + "}"]
    case _ => true
  }

  predicate CountsOptions(o: Options, ranges: Ranges) {
    match o case Only(p) => Counts(p, ranges) case Or(p, more) => Counts(p, ranges) && CountsOptions(more, ranges)
  }

  predicate LegibleOptions(o: Options) {
    match o case Only(p) => Legible(p) case Or(p, more) => Legible(p) && LegibleOptions(more)
  }

  /** The words of a pattern. */
  function Meaning(p: Pattern): seq<Text>
  {
    match p case Done => [[]] case Then(piece, rest) => Joined([], PieceMeaning(piece), Meaning(rest))
  }

  function PieceMeaning(piece: Piece): seq<Text>
  {
    match piece
    case Choice(options) => OptionsMeaning(options)
    case Counted(_, words) => words
    case _ => [ShowPiece(piece)]
  }

  function OptionsMeaning(o: Options): seq<Text>
  {
    match o case Only(p) => Meaning(p) case Or(p, more) => Meaning(p) + OptionsMeaning(more)
  }

  // ----------------------------------------------------------------- scanning

  /** `s` stands at `i`. */
  ghost predicate At(text: Text, i: nat, s: Text) { i + |s| <= |text| && forall k :: Agrees(text, i, s, k) }

  predicate Agrees(text: Text, i: nat, s: Text, k: int) { 0 <= k < |s| && i + k < |text| ==> text[i + k] == s[k] }

  lemma {:induction false} AtSelf(text: Text)
    ensures At(text, 0, text)
  {
    assert forall k :: Agrees(text, 0, text, k);
  }

  lemma {:induction false} AtSplit(text: Text, i: nat, a: Text, b: Text)
    requires At(text, i, a + b)
    ensures At(text, i, a) && At(text, i + |a|, b)
  {
    forall k ensures Agrees(text, i, a, k) {
      assert Agrees(text, i, a + b, k);
    }
    var mid := i + |a|;
    forall k ensures Agrees(text, mid, b, k) {
      assert Agrees(text, i, a + b, |a| + k);
    }
  }

  lemma {:induction false} AtFirst(text: Text, i: nat, c: char, b: Text)
    requires At(text, i, [c] + b)
    ensures i < |text| && text[i] == c && At(text, i + 1, b)
  {
    AtSplit(text, i, [c], b);
    assert Agrees(text, i, [c], 0);
  }

  lemma {:induction false} AtThen(p: Pattern, text: Text, i: nat)
    requires p.Then? && At(text, i, Show(p))
    ensures At(text, i, ShowPiece(p.piece)) && At(text, i + |ShowPiece(p.piece)|, Show(p.rest))
    ensures |Show(p)| == |ShowPiece(p.piece)| + |Show(p.rest)|
  {
    AtSplit(text, i, ShowPiece(p.piece), Show(p.rest));
  }

  lemma {:induction false} AtOr(o: Options, text: Text, i: nat)
    requires o.Or? && At(text, i, ShowOptions(o))
    ensures At(text, i, Show(o.pattern)) && i + |Show(o.pattern)| < |text| && text[i + |Show(o.pattern)|] == ','
    ensures At(text, i + |Show(o.pattern)| + 1, ShowOptions(o.more))
    ensures |ShowOptions(o)| == |Show(o.pattern)| + 1 + |ShowOptions(o.more)|
  {
    AtSplit(text, i, Show(o.pattern), "," + ShowOptions(o.more));
    AtFirst(text, i + |Show(o.pattern)|, ',', ShowOptions(o.more));
  }

  lemma {:induction false} AtPlain(piece: Piece, text: Text, i: nat)
    requires piece.Plain? && At(text, i, ShowPiece(piece))
    ensures i < |text| && text[i] == piece.c && |ShowPiece(piece)| == 1
  {
    assert [piece.c] + [] == ShowPiece(piece);
    AtFirst(text, i, piece.c, []);
  }

  lemma {:induction false} AtEscaped(piece: Piece, text: Text, i: nat)
    requires piece.Escaped? && At(text, i, ShowPiece(piece))
    ensures i < |text| && text[i] == '\\' && |ShowPiece(piece)| == 2
  {
    assert ['\\'] + [piece.c] == ShowPiece(piece);
    AtFirst(text, i, '\\', [piece.c]);
  }

  lemma {:induction false} AtGroup(piece: Piece, text: Text, i: nat)
    requires IsGroup(piece) && At(text, i, ShowPiece(piece))
    ensures |ShowPiece(piece)| == |Inside(piece)| + 2 && i + 1 + |Inside(piece)| < |text|
    ensures text[i] == '{' && At(text, i + 1, Inside(piece)) && text[i + 1 + |Inside(piece)|] == '}'
  {
    var inside := Inside(piece);
    assert ShowPiece(piece) == ['{'] + (inside + "}");
    AtFirst(text, i, '{', inside + "}");
    AtSplit(text, i + 1, inside, "}");
    assert ['}'] + [] == "}";
    AtFirst(text, i + 1 + |inside|, '}', []);
  }

  /** Where a scan from `i` on stops. */
  function StopsAt(text: Text, i: nat, stop: Stop, scan: Scan): nat { GobbleFrom(text, i, stop, scan) }

  /** The first group found from `i` on. */
  function FoundGroup(text: Text, i: nat): Option<(nat, nat)> { Group(text, i) }

  /** The words a text, and the text of alternatives, expand to. */
  function Expansion(text: Text, ranges: Ranges): seq<Text> { ExpandWith(text, ranges) }

  function Alternatives(amble: Text, ranges: Ranges): seq<Text> { AlternativesWith(amble, ranges) }

  /** Scanning on to a later state at the same level. */
  predicate Onward(scan: Scan, scan': Scan) {
    scan'.level == scan.level && (scan.closable ==> scan'.closable) && (scan.level > 0 ==> scan' == scan)
  }

  function Deeper(scan: Scan): Scan { scan.(level := scan.level + 1) }

  lemma {:induction false} PassChar(text: Text, i: nat, stop: Stop, scan: Scan)
    requires i < |text| && !Special(text[i])
    ensures StopsAt(text, i, stop, scan) == StopsAt(text, i + 1, stop, Past(text, i, scan))
    ensures Onward(scan, Past(text, i, scan))
  {
  }

  lemma {:induction false} PassEscape(text: Text, i: nat, stop: Stop, scan: Scan)
    requires i < |text| && text[i] == '\\'
    ensures StopsAt(text, i, stop, scan) == StopsAt(text, i + 2, stop, scan)
  {
  }

  lemma {:induction false} PassOpen(text: Text, i: nat, stop: Stop, scan: Scan)
    requires i < |text| && text[i] == '{'
    ensures StopsAt(text, i, stop, scan) == StopsAt(text, i + 1, stop, Deeper(scan))
  {
  }

  lemma {:induction false} PassClose(text: Text, i: nat, stop: Stop, scan: Scan)
    requires i < |text| && text[i] == '}'
    ensures StopsAt(text, i, stop, Deeper(scan)) == StopsAt(text, i + 1, stop, scan)
  {
    assert Past(text, i, Deeper(scan)) == scan;
  }

  lemma {:induction false} PassComma(text: Text, i: nat, stop: Stop, scan: Scan)
    requires i < |text| && text[i] == ',' && scan.level > 0
    ensures StopsAt(text, i, stop, scan) == StopsAt(text, i + 1, stop, scan)
  {
  }

  /** A scan passes over a whole pattern, whatever groups it has. */
  lemma {:induction false} PassPattern(p: Pattern, text: Text, i: nat, end: nat, stop: Stop, scan: Scan)
      returns (scan': Scan)
    requires Legible(p) && At(text, i, Show(p)) && end == i + |Show(p)|
    ensures Onward(scan, scan') && StopsAt(text, i, stop, scan) == StopsAt(text, end, stop, scan')
    decreases p, 0
  {
    scan' := scan;
    if p.Then? {
      AtThen(p, text, i);
      var mid := i + |ShowPiece(p.piece)|;
      scan' := PassPiece(p.piece, text, i, mid, stop, scan);
      scan' := PassPattern(p.rest, text, mid, end, stop, scan');
    }
  }

  lemma {:induction false} PassPiece(piece: Piece, text: Text, i: nat, end: nat, stop: Stop, scan: Scan)
      returns (scan': Scan)
    requires LegiblePiece(piece) && At(text, i, ShowPiece(piece)) && end == i + |ShowPiece(piece)|
    ensures Onward(scan, scan') && StopsAt(text, i, stop, scan) == StopsAt(text, end, stop, scan')
    decreases piece, 0
  {
    scan' := scan;
    if piece.Plain? {
      AtPlain(piece, text, i);
      PassChar(text, i, stop, scan);
      scan' := Past(text, i, scan);
    } else if piece.Escaped? {
      AtEscaped(piece, text, i);
      PassEscape(text, i, stop, scan);
    } else {
      AtGroup(piece, text, i);
      if piece.Choice? {
        PassOptions(piece.options, text, i + 1, end - 1, stop, Deeper(scan));
      } else {
        PassPlain(piece.range, text, i + 1, end - 1, stop, Deeper(scan));
      }
      PassGroup(text, i, end, stop, scan);
    }
  }

  lemma {:induction false} PassGroup(text: Text, i: nat, end: nat, stop: Stop, scan: Scan)
    requires i + 1 < end <= |text| && text[i] == '{' && text[end - 1] == '}'
    requires StopsAt(text, i + 1, stop, Deeper(scan)) == StopsAt(text, end - 1, stop, Deeper(scan))
    ensures StopsAt(text, i, stop, scan) == StopsAt(text, end, stop, scan)
  {
    PassOpen(text, i, stop, scan);
    PassClose(text, end - 1, stop, scan);
  }

  lemma {:induction false} PassAlternative(text: Text, i: nat, comma: nat, end: nat, stop: Stop, scan: Scan)
    requires comma < |text| && text[comma] == ',' && scan.level > 0
    requires StopsAt(text, i, stop, scan) == StopsAt(text, comma, stop, scan)
    requires StopsAt(text, comma + 1, stop, scan) == StopsAt(text, end, stop, scan)
    ensures StopsAt(text, i, stop, scan) == StopsAt(text, end, stop, scan)
  {
    PassComma(text, comma, stop, scan);
  }

  /** Inside a group nothing stops a scan. */
  lemma {:induction false} PassOptions(o: Options, text: Text, i: nat, end: nat, stop: Stop, scan: Scan)
    requires LegibleOptions(o) && At(text, i, ShowOptions(o)) && end == i + |ShowOptions(o)| && scan.level > 0
    ensures StopsAt(text, i, stop, scan) == StopsAt(text, end, stop, scan)
    decreases o
  {
    if o.Only? {
      PassWithin(o.pattern, text, i, end, stop, scan);
    } else {
      var comma := i + |Show(o.pattern)|;
      AtOr(o, text, i);
      PassWithin(o.pattern, text, i, comma, stop, scan);
      PassOptions(o.more, text, comma + 1, end, stop, scan);
      PassAlternative(text, i, comma, end, stop, scan);
    }
  }

  lemma {:induction false} PassWithin(p: Pattern, text: Text, i: nat, end: nat, stop: Stop, scan: Scan)
    requires Legible(p) && At(text, i, Show(p)) && end == i + |Show(p)| && scan.level > 0
    ensures StopsAt(text, i, stop, scan) == StopsAt(text, end, stop, scan)
    decreases p, 1
  {
    var same := PassPattern(p, text, i, end, stop, scan);
    assert same == scan;
  }

  lemma {:induction false} PassPlain(s: Text, text: Text, i: nat, end: nat, stop: Stop, scan: Scan)
    requires At(text, i, s) && end == i + |s| && (forall k | 0 <= k < |s| :: !Special(s[k])) && scan.level > 0
    ensures StopsAt(text, i, stop, scan) == StopsAt(text, end, stop, scan)
    decreases s
  {
    if s != [] {
      assert s == [s[0]] + s[1..];
      AtFirst(text, i, s[0], s[1..]);
      PassChar(text, i, stop, scan);
      PassPlain(s[1..], text, i + 1, end, stop, scan);
    }
  }

  // ------------------------------------------------------------------- groups

  lemma {:induction false} ClosesHere(text: Text, i: nat, scan: Scan)
    requires i < |text| && text[i] == '}' && scan == Scan(0, true)
    ensures StopsAt(text, i, Close, scan) == i
  {
  }

  lemma {:induction false} CommaOpens(text: Text, i: nat, scan: Scan)
    requires i < |text| && text[i] == ',' && scan.level == 0
    ensures StopsAt(text, i, Close, scan) == StopsAt(text, i + 1, Close, Scan(0, true))
  {
  }

  /** Alternatives close at their own brace: a comma came before it. */
  lemma {:induction false} OptionsClose(o: Options, text: Text, i: nat, end: nat, scan: Scan)
    requires LegibleOptions(o) && At(text, i, ShowOptions(o)) && scan.level == 0 && (scan.closable || o.Or?)
    requires end == i + |ShowOptions(o)| < |text| && text[end] == '}'
    ensures StopsAt(text, i, Close, scan) == end
    decreases o
  {
    if o.Only? {
      var last := PassPattern(o.pattern, text, i, end, Close, scan);
      ClosesHere(text, end, last);
    } else {
      AtOr(o, text, i);
      var comma := i + |Show(o.pattern)|;
      var mid := PassPattern(o.pattern, text, i, comma, Close, scan);
      CommaOpens(text, comma, mid);
      OptionsClose(o.more, text, comma + 1, end, Scan(0, true));
    }
  }

  /** A range closes at its own brace: its dots came before it. */
  lemma {:induction false} RangeCloses(s: Text, text: Text, i: nat, end: nat, scan: Scan, dots: int)
    requires At(text, i, s) && (forall k | 0 <= k < |s| :: !Special(s[k])) && scan.level == 0
    requires end == i + |s| < |text| && text[end] == '}'
    requires scan.closable || (0 <= dots < |s| && OpensRange(text, i + dots))
    ensures StopsAt(text, i, Close, scan) == end
    decreases s
  {
    if s != [] {
      assert s == [s[0]] + s[1..];
      AtFirst(text, i, s[0], s[1..]);
      PassChar(text, i, Close, scan);
      RangeCloses(s[1..], text, i + 1, end, Past(text, i, scan), dots - 1);
    }
  }

  /** A group is found where it is written, and closes where it closes. */
  lemma {:induction false} GroupCloses(piece: Piece, text: Text, i: nat, close: nat)
    requires IsGroup(piece) && LegiblePiece(piece) && At(text, i, ShowPiece(piece)) &&
      close == i + |ShowPiece(piece)| - 1
    ensures i < close < |text| && text[i] == '{' && !ShellBrace(text, i)
    ensures StopsAt(text, i + 1, Close, Fresh(Close)) == close
  {
    AtGroup(piece, text, i);
    InsideStarts(piece);
    FirstAt(text, i + 1, Inside(piece));
    if piece.Choice? {
      OptionsClose(piece.options, text, i + 1, close, Fresh(Close));
    } else {
      DotsOpen(piece.range, text, i + 1);
      RangeCloses(piece.range, text, i + 1, close, Fresh(Close), Find(piece.range, 0).value);
    }
  }

  lemma {:induction false} FirstAt(text: Text, i: nat, s: Text)
    requires At(text, i, s) && s != []
    ensures text[i] == s[0]
  {
    assert Agrees(text, i, s, 0);
  }

  lemma {:induction false} CharAt(text: Text, i: nat, s: Text, k: nat)
    requires At(text, i, s) && k < |s|
    ensures text[i + k] == s[k]
  {
    assert Agrees(text, i, s, k);
  }

  lemma {:induction false} DotsOpen(range: Text, text: Text, i: nat)
    requires Dotted(range) && At(text, i, range)
    ensures Find(range, 0).Some? && Find(range, 0).value < |range| && OpensRange(text, i + Find(range, 0).value)
  {
    var at := Find(range, 0).value;
    CharAt(text, i, range, at);
    CharAt(text, i, range, at + 1);
    CharAt(text, i, range, at + 2);
  }

  /** No group starts like `{ ` or `{}`. */
  lemma {:induction false} InsideStarts(piece: Piece)
    requires IsGroup(piece) && LegiblePiece(piece)
    ensures Inside(piece) != [] && !AsciiSpace(Inside(piece)[0]) && Inside(piece)[0] != '}'
  {
    if piece.Choice? {
      OptionsStart(piece.options);
    }
  }

  lemma {:induction false} OptionsStart(o: Options)
    requires o.Or? && LegibleOptions(o)
    ensures ShowOptions(o) != [] && ShowOptions(o)[0] != '}'
    ensures (ShowOptions(o) + "}")[0] == ShowOptions(o)[0]
  {
    var p := o.pattern;
    if p.Then? {
      PieceStarts(p.piece);
      assert Show(p)[0] == ShowPiece(p.piece)[0];
    }
  }

  lemma {:induction false} PieceStarts(piece: Piece)
    requires LegiblePiece(piece)
    ensures ShowPiece(piece)[0] != '}'
  {
  }

  /** The text before the first group, and the pattern from it on. */
  function Head(p: Pattern): Text {
    if p.Then? && !IsGroup(p.piece) then ShowPiece(p.piece) + Head(p.rest) else []
  }

  function Tail(p: Pattern): (tail: Pattern)
    requires Legible(p)
    ensures Legible(tail) && (tail.Then? ==> IsGroup(tail.piece))
  {
    if p.Then? && !IsGroup(p.piece) then Tail(p.rest) else p
  }

  lemma {:induction false} TailCounts(p: Pattern, ranges: Ranges)
    requires Legible(p) && Counts(p, ranges)
    ensures Counts(Tail(p), ranges)
  {
    if p.Then? && !IsGroup(p.piece) {
      TailCounts(p.rest, ranges);
    }
  }

  lemma {:induction false} HeadAndTail(p: Pattern)
    requires Legible(p)
    ensures Show(p) == Head(p) + Show(Tail(p))
  {
    if p.Then? && !IsGroup(p.piece) {
      HeadAndTail(p.rest);
    }
  }

  /** Where the first group of a pattern written at `i` opens and closes. */
  function Written(p: Pattern, i: nat): Option<(nat, nat)>
    requires Legible(p)
  {
    if Tail(p).Done? then None else Some((i + |Head(p)|, i + |Head(p)| + |ShowPiece(Tail(p).piece)| - 1))
  }

  lemma {:induction false} WrittenPast(p: Pattern, i: nat)
    requires Legible(p) && p.Then? && !IsGroup(p.piece)
    ensures Written(p, i) == Written(p.rest, i + |ShowPiece(p.piece)|)
  {
  }

  /** The first group found is the first written. */
  lemma {:induction false} FirstGroup(p: Pattern, text: Text, i: nat)
    requires Legible(p) && At(text, i, Show(p)) && i + |Show(p)| == |text|
    ensures FoundGroup(text, i) == Written(p, i)
    decreases p
  {
    if p.Then? {
      AtThen(p, text, i);
      if p.piece.Plain? {
        AtPlain(p.piece, text, i);
        GroupSkips(text, i);
        FirstGroup(p.rest, text, i + 1);
        WrittenPast(p, i);
      } else if p.piece.Escaped? {
        AtEscaped(p.piece, text, i);
        GroupSkipsEscape(text, i);
        FirstGroup(p.rest, text, i + 2);
        WrittenPast(p, i);
      } else {
        var close := i + |ShowPiece(p.piece)| - 1;
        GroupCloses(p.piece, text, i, close);
        GroupHere(text, i, close);
      }
    }
  }

  lemma {:induction false} GroupHere(text: Text, i: nat, close: nat)
    requires i < close < |text| && text[i] == '{' && !ShellBrace(text, i)
    requires StopsAt(text, i + 1, Close, Fresh(Close)) == close
    ensures FoundGroup(text, i) == Some((i, close))
  {
  }

  lemma {:induction false} GroupSkips(text: Text, i: nat)
    requires i < |text| && !Special(text[i])
    ensures FoundGroup(text, i) == FoundGroup(text, i + 1)
  {
  }

  lemma {:induction false} GroupSkipsEscape(text: Text, i: nat)
    requires i < |text| && text[i] == '\\'
    ensures FoundGroup(text, i) == FoundGroup(text, i + 2)
  {
  }

  // ------------------------------------------------------------------- commas

  lemma {:induction false} CommaAfter(p: Pattern, text: Text, i: nat, end: nat)
    requires Legible(p) && At(text, i, Show(p)) && end == i + |Show(p)| && HasComma(text, end)
    ensures HasComma(text, i)
    decreases p
  {
    if p.Then? {
      AtThen(p, text, i);
      var mid := i + |ShowPiece(p.piece)|;
      CommaAfter(p.rest, text, mid, end);
      CommaAfterPiece(p.piece, text, i, mid);
    }
  }

  lemma {:induction false} CommaAfterPiece(piece: Piece, text: Text, i: nat, end: nat)
    requires LegiblePiece(piece) && At(text, i, ShowPiece(piece)) && end == i + |ShowPiece(piece)| &&
      HasComma(text, end)
    ensures HasComma(text, i)
    decreases piece
  {
    if piece.Plain? {
      AtPlain(piece, text, i);
      CommaAfterChar(text, i);
    } else if piece.Escaped? {
      AtEscaped(piece, text, i);
      CommaAfterEscape(text, i);
    } else {
      AtGroup(piece, text, i);
      if piece.Choice? {
        OptionsHaveComma(piece.options, text, i + 1);
      } else {
        CommaAfterChar(text, end - 1);
        CommaAfterPlain(piece.range, text, i + 1, end - 1);
      }
      CommaAfterChar(text, i);
    }
  }

  lemma {:induction false} CommaAfterChar(text: Text, i: nat)
    requires i < |text| && text[i] != '\\' && HasComma(text, i + 1)
    ensures HasComma(text, i)
  {
  }

  lemma {:induction false} CommaAfterEscape(text: Text, i: nat)
    requires i < |text| && text[i] == '\\' && HasComma(text, i + 2)
    ensures HasComma(text, i)
  {
  }

  lemma {:induction false} CommaAfterPlain(s: Text, text: Text, i: nat, end: nat)
    requires At(text, i, s) && end == i + |s| && (forall k | 0 <= k < |s| :: !Special(s[k])) && HasComma(text, end)
    ensures HasComma(text, i)
    decreases s
  {
    if s != [] {
      assert s == [s[0]] + s[1..];
      AtFirst(text, i, s[0], s[1..]);
      CommaAfterPlain(s[1..], text, i + 1, end);
      CommaAfterChar(text, i);
    }
  }

  lemma {:induction false} OptionsHaveComma(o: Options, text: Text, i: nat)
    requires LegibleOptions(o) && o.Or? && At(text, i, ShowOptions(o))
    ensures HasComma(text, i)
    decreases o
  {
    AtOr(o, text, i);
    CommaAfter(o.pattern, text, i, i + |Show(o.pattern)|);
  }

  lemma {:induction false} NoComma(text: Text, i: nat)
    requires forall k | 0 <= k < |text| :: !Special(text[k])
    ensures !HasComma(text, i)
    decreases |text| - i
  {
    if i < |text| {
      NoComma(text, i + 1);
    }
  }

  // ------------------------------------------------------------------ meaning

  function Prefixed(a: Text, words: seq<Text>): seq<Text> { seq(|words|, k requires 0 <= k < |words| => a + words[k]) }

  lemma {:induction false} JoinedOne(a: Text, rest: seq<Text>)
    ensures Joined([], [a], rest) == Prefixed(a, rest)
  {
    assert [a][..0] == [];
    assert [] + a == a;
  }

  lemma {:induction false} JoinedPrefixed(a: Text, before: Text, middle: seq<Text>, rest: seq<Text>)
    ensures Prefixed(a, Joined(before, middle, rest)) == Joined(a + before, middle, rest)
  {
    if middle != [] {
      var init, last := middle[..|middle| - 1], middle[|middle| - 1];
      JoinedPrefixed(a, before, init, rest);
      var run := seq(|rest|, k requires 0 <= k < |rest| => before + last + rest[k]);
      var run' := seq(|rest|, k requires 0 <= k < |rest| => a + before + last + rest[k]);
      forall k | 0 <= k < |rest| ensures a + run[k] == run'[k] {
        Regroup(a, before, last, rest[k]);
      }
      assert Prefixed(a, run) == run';
      PrefixedConcat(a, Joined(before, init, rest), run);
    }
  }

  lemma {:induction false} Regroup(a: Text, b: Text, c: Text, d: Text)
    ensures a + (b + c + d) == a + b + c + d
  {
  }

  lemma {:induction false} PrefixedConcat(a: Text, some: seq<Text>, more: seq<Text>)
    ensures Prefixed(a, some + more) == Prefixed(a, some) + Prefixed(a, more)
  {
  }

  /** Text before the first group starts every word. */
  lemma {:induction false} HeadStartsAll(p: Pattern)
    requires Legible(p)
    ensures Tail(p).Done? ==> Meaning(p) == [Head(p)]
    ensures Tail(p).Then? ==> Meaning(p) == Joined(Head(p), PieceMeaning(Tail(p).piece), Meaning(Tail(p).rest))
    decreases p
  {
    if p.Then? && !IsGroup(p.piece) {
      HeadStartsAll(p.rest);
      var lead, t := ShowPiece(p.piece), Tail(p.rest);
      if t.Done? {
        JoinedOne(lead, [Head(p.rest)]);
      } else {
        JoinedOne(lead, Meaning(p.rest));
        JoinedPrefixed(lead, Head(p.rest), PieceMeaning(t.piece), Meaning(t.rest));
      }
    }
  }

  /**
   A well-written pattern, however deep its groups and whatever ranges mean,
   expands to exactly the words it means, in order.
   */
  lemma {:induction false} ExpansionMeans(p: Pattern, ranges: Ranges)
    requires Legible(p) && Counts(p, ranges)
    ensures Expansion(Show(p), ranges) == Meaning(p)
    decreases |Show(p)|, 0
  {
    HeadStartsAll(p);
    TailCounts(p, ranges);
    if Tail(p).Then? {
      FirstGroupSplits(p);
      MiddleMeans(Tail(p).piece, ranges);
      ExpansionMeans(Tail(p).rest, ranges);
      GroupExpands(p, ranges);
    } else {
      NoGroupSplits(p);
      WordAlone(Head(p), ranges);
    }
  }

  /** The main theorem: so it does as bash reads ranges. */
  lemma {:induction false} WordMeans(p: Pattern)
    requires Legible(p) && Counts(p, Sequence)
    ensures ExpandWord(Show(p)) == Meaning(p)
  {
    ExpansionMeans(p, Sequence);
  }

  lemma {:induction false} GroupExpands(p: Pattern, ranges: Ranges)
    requires Legible(p) && Tail(p).Then? && GroupWith(Inside(Tail(p).piece), ranges) == PieceMeaning(Tail(p).piece)
    requires Expansion(Show(Tail(p).rest), ranges) == Meaning(Tail(p).rest)
    ensures Expansion(Show(p), ranges) == Joined(Head(p), PieceMeaning(Tail(p).piece), Meaning(Tail(p).rest))
  {
    var head, inside, rest := Head(p), Inside(Tail(p).piece), Show(Tail(p).rest);
    FirstGroupSplits(p);
    FirstGroupFound(p, |head|, |head| + |inside| + 1);
    WordExpands(head, inside, rest, PieceMeaning(Tail(p).piece), Meaning(Tail(p).rest), ranges);
  }

  function Grouped(head: Text, inside: Text, rest: Text): Text { head + ("{" + inside + "}" + rest) }

  lemma {:induction false} FirstGroupSplits(p: Pattern)
    requires Legible(p) && Tail(p).Then?
    ensures var inside, rest := Inside(Tail(p).piece), Show(Tail(p).rest);
      Show(p) == Grouped(Head(p), inside, rest) && |inside| < |Show(p)| && |rest| < |Show(p)|
  {
    HeadAndTail(p);
    TailShown(Tail(p));
  }

  lemma {:induction false} FirstGroupFound(p: Pattern, open: nat, close: nat)
    requires Legible(p) && Tail(p).Then? && open == |Head(p)| && close == open + |Inside(Tail(p).piece)| + 1
    ensures FoundGroup(Show(p), 0) == Some((open, close))
  {
    GroupLength(Tail(p).piece);
    WholeFirstGroup(p);
  }

  lemma {:induction false} GroupLength(piece: Piece)
    requires IsGroup(piece)
    ensures |ShowPiece(piece)| == |Inside(piece)| + 2
  {
  }

  lemma {:induction false} WholeFirstGroup(p: Pattern)
    requires Legible(p)
    ensures FoundGroup(Show(p), 0) == Written(p, 0)
  {
    AtSelf(Show(p));
    FirstGroup(p, Show(p), 0);
  }

  lemma {:induction false} TailShown(t: Pattern)
    requires t.Then? && IsGroup(t.piece)
    ensures Show(t) == "{" + Inside(t.piece) + "}" + Show(t.rest)
  {
  }

  lemma {:induction false} NoGroupSplits(p: Pattern)
    requires Legible(p) && Tail(p).Done?
    ensures Show(p) == Head(p) && FoundGroup(Head(p), 0) == None
  {
    HeadAndTail(p);
    WholeFirstGroup(p);
    assert Head(p) + [] == Head(p);
  }

  lemma {:induction false} WordExpands(head: Text, inside: Text, rest: Text, middle: seq<Text>, words: seq<Text>,
      ranges: Ranges)
    requires FoundGroup(Grouped(head, inside, rest), 0) == Some((|head|, |head| + |inside| + 1))
    requires middle == GroupWith(inside, ranges) && words == Expansion(rest, ranges)
    ensures Expansion(Grouped(head, inside, rest), ranges) == Joined(head, middle, words)
  {
    var text, close := Grouped(head, inside, rest), |head| + |inside| + 1;
    assert text[..|head|] == head;
    assert text[|head| + 1..close] == inside;
    assert text[close + 1..] == rest;
    WordUnfolds(text, |head|, close, head, inside, rest, ranges);
  }

  lemma {:induction false} WordUnfolds(text: Text, open: nat, close: nat, head: Text, inside: Text, rest: Text,
      ranges: Ranges)
    requires open < close < |text| && FoundGroup(text, 0) == Some((open, close))
    requires text[..open] == head && text[open + 1..close] == inside && text[close + 1..] == rest
    ensures Expansion(text, ranges) == Joined(head, GroupWith(inside, ranges), Expansion(rest, ranges))
  {
  }

  lemma {:induction false} WordAlone(text: Text, ranges: Ranges)
    requires FoundGroup(text, 0) == None
    ensures Expansion(text, ranges) == [text]
  {
  }

  lemma {:induction false} MiddleMeans(piece: Piece, ranges: Ranges)
    requires IsGroup(piece) && LegiblePiece(piece) && CountsPiece(piece, ranges)
    ensures GroupWith(Inside(piece), ranges) == PieceMeaning(piece)
    decreases |Inside(piece)|, 2
  {
    var amble := Inside(piece);
    if piece.Choice? {
      AtSelf(amble);
      OptionsHaveComma(piece.options, amble, 0);
      AlternativesMean(piece.options, ranges);
    } else {
      NoComma(amble, 0);
    }
  }

  /** Alternatives expand one after another. */
  lemma {:induction false} AlternativesMean(o: Options, ranges: Ranges)
    requires LegibleOptions(o) && CountsOptions(o, ranges)
    ensures Alternatives(ShowOptions(o), ranges) == OptionsMeaning(o)
    decreases |ShowOptions(o)|, 1
  {
    if o.Only? {
      LastAlternative(o.pattern, ranges);
      ExpansionMeans(o.pattern, ranges);
    } else {
      FirstAlternative(o);
      OptionLengths(o);
      ExpansionMeans(o.pattern, ranges);
      AlternativesMean(o.more, ranges);
      NextAlternative(Show(o.pattern), ShowOptions(o.more), Meaning(o.pattern), OptionsMeaning(o.more), ranges);
    }
  }

  lemma {:induction false} OptionLengths(o: Options)
    requires o.Or?
    ensures ShowOptions(o) == Listed(Show(o.pattern), ShowOptions(o.more))
    ensures |Show(o.pattern)| < |ShowOptions(o)| && |ShowOptions(o.more)| < |ShowOptions(o)|
  {
  }

  lemma {:induction false} LastAlternative(p: Pattern, ranges: Ranges)
    requires Legible(p)
    ensures Alternatives(Show(p), ranges) == Expansion(Show(p), ranges)
  {
    var amble := Show(p);
    AtSelf(amble);
    var _ := PassPattern(p, amble, 0, |amble|, Comma, Fresh(Comma));
    assert amble[..|amble|] == amble;
  }

  function Listed(first: Text, more: Text): Text { first + ("," + more) }

  lemma {:induction false} FirstAlternative(o: Options)
    requires o.Or? && LegibleOptions(o)
    ensures StopsAt(ShowOptions(o), 0, Comma, Fresh(Comma)) == |Show(o.pattern)|
  {
    var amble, comma := ShowOptions(o), |Show(o.pattern)|;
    AtSelf(amble);
    AtOr(o, amble, 0);
    var mid := PassPattern(o.pattern, amble, 0, comma, Comma, Fresh(Comma));
    CommaStops(amble, comma, mid);
  }

  lemma {:induction false} CommaStops(text: Text, i: nat, scan: Scan)
    requires i < |text| && text[i] == ',' && scan == Scan(0, true)
    ensures StopsAt(text, i, Comma, scan) == i
  {
  }

  lemma {:induction false} NextAlternative(first: Text, more: Text, words: seq<Text>, others: seq<Text>, ranges: Ranges)
    requires StopsAt(Listed(first, more), 0, Comma, Fresh(Comma)) == |first|
    requires words == Expansion(first, ranges) && others == Alternatives(more, ranges)
    ensures Alternatives(Listed(first, more), ranges) == words + others
  {
    var amble := Listed(first, more);
    assert amble[..|first|] == first;
    assert amble[|first| + 1..] == more;
  }
}
