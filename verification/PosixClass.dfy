/**
 POSIX bracket expressions for globset (posix_class.rs), which knows none of
 `[:name:]`, `[.name.]` and `[=c=]`: each bracket holding one is rewritten into
 a bracket of plain ranges. What a class holds and what a collating symbol
 stands for are tables, taken as they come.
 */
module PosixClass {
  import opened Wrappers

  type Text = seq<char>

  /** Characters from the first to the second. */
  type Range = (char, char)

  /** The members of each class, and the character of each collating symbol. */
  datatype Tables = Tables(members: Text -> seq<Range>, collate: Text -> Option<char>)

  predicate Holds(r: Range, c: char) { r.0 <= c <= r.1 }

  predicate Contains(ranges: seq<Range>, c: char) { exists k :: 0 <= k < |ranges| && Holds(ranges[k], c) }

  predicate Proper(ranges: seq<Range>) { forall k | 0 <= k < |ranges| :: ranges[k].0 <= ranges[k].1 }

  lemma {:induction false} ContainsConcat(a: seq<Range>, b: seq<Range>, c: char)
    ensures Contains(a + b, c) <==> Contains(a, c) || Contains(b, c)
  {
    if k :| 0 <= k < |a| && Holds(a[k], c) {
      assert Holds((a + b)[k], c);
    }
    if k :| 0 <= k < |b| && Holds(b[k], c) {
      assert Holds((a + b)[|a| + k], c);
    }
    if k :| 0 <= k < |a + b| && Holds((a + b)[k], c) {
      assert k < |a| ==> Holds(a[k], c);
      assert k >= |a| ==> Holds(b[k - |a|], c);
    }
  }

  lemma {:induction false} ContainsOne(r: Range, c: char)
    ensures Contains([r], c) <==> Holds(r, c)
  {
    assert [r][0] == r;
  }

  // ------------------------------------------------------- globset's brackets

  /** A bracket as globset has it. */
  datatype Bracket = Bracket(negated: bool, ranges: seq<Range>)

  predicate Matches(b: Bracket, c: char) { Contains(b.ranges, c) != b.negated }

  /**
   Globset's reading of a bracket after its `[` and negation: the members and
   what follows the close; `None` when it never closes or a range is reversed.
   A `]` or `-` first is a member, and so is a `-` last; any other `-` makes a
   range of the member before it and the next.
   */
  function Members(text: Text, ranges: seq<Range>, first: bool, inRange: bool): Option<(seq<Range>, Text)>
    decreases |text|
  {
    if text == [] then None
    else
      var c, rest := text[0], text[1..];
      if c == ']' && !first then Some((if inRange then ranges + [('-', '-')] else ranges, rest))
      else if c == '-' && !first && !inRange then Members(rest, ranges, false, true)
      else if inRange && ranges != [] then
        var last := ranges[|ranges| - 1];
        if c < last.0 then None else Members(rest, ranges[..|ranges| - 1] + [(last.0, c)], false, false)
      else Members(rest, ranges + [(c, c)], false, false)
  }

  predicate Negation(c: char) { c == '!' || c == '^' }

  /** A bracket off the front of `text`, and what follows it. */
  function ReadBracket(text: Text): Option<(Bracket, Text)>
    requires text != [] && text[0] == '['
  {
    var negated := |text| > 1 && Negation(text[1]);
    match Members(if negated then text[2..] else text[1..], [], true, false)
    case None => None
    case Some((ranges, rest)) => Some((Bracket(negated, ranges), rest))
  }

  // ------------------------------------------------------------------ writing

  function Before(c: char): (p: char)
    requires 0 as char < c < 128 as char
    ensures p as int == c as int - 1
  {
    (c as int - 1) as char
  }

  function After(c: char): (n: char)
    requires c < 128 as char
    ensures n as int == c as int + 1
  {
    (c as int + 1) as char
  }

  function Min(a: char, b: char): char { if a < b then a else b }

  function Max(a: char, b: char): char { if a < b then b else a }

  /** What is left of each range, below and above, once nothing holds `c`. */
  function Without(ranges: seq<Range>, c: char): (r: seq<Range>)
    requires 0 as char < c < 128 as char
    ensures Proper(r)
  {
    if ranges == [] then []
    else
      var (a, b) := ranges[|ranges| - 1];
      var below, above := (a, Min(b, Before(c))), (Max(a, After(c)), b);
      Without(ranges[..|ranges| - 1], c)
      + (if below.0 <= below.1 then [below] else [])
      + (if above.0 <= above.1 then [above] else [])
  }

  lemma {:induction false} SplitHolds(r: Range, c: char, x: char)
    requires 0 as char < c < 128 as char
    ensures Holds(r, x) && x != c <==> Holds((r.0, Min(r.1, Before(c))), x) || Holds((Max(r.0, After(c)), r.1), x)
  {
    assert x < c <==> x <= Before(c);
    assert c < x <==> After(c) <= x;
  }

  lemma {:induction false} KeptHolds(r: Range, x: char)
    ensures Contains(if r.0 <= r.1 then [r] else [], x) <==> Holds(r, x)
  {
    ContainsOne(r, x);
  }

  lemma {:induction false} WithoutHolds(ranges: seq<Range>, c: char, x: char)
    requires 0 as char < c < 128 as char
    ensures Contains(Without(ranges, c), x) <==> Contains(ranges, x) && x != c
  {
    if ranges != [] {
      var init, last := ranges[..|ranges| - 1], ranges[|ranges| - 1];
      var below, above := (last.0, Min(last.1, Before(c))), (Max(last.0, After(c)), last.1);
      WithoutHolds(init, c, x);
      SplitHolds(last, c, x);
      KeptHolds(below, x);
      KeptHolds(above, x);
      ContainsConcat(Without(init, c) + (if below.0 <= below.1 then [below] else []),
        if above.0 <= above.1 then [above] else [], x);
      ContainsConcat(Without(init, c), if below.0 <= below.1 then [below] else [], x);
      assert ranges == init + [last];
      ContainsConcat(init, [last], x);
      ContainsOne(last, x);
    }
  }

  /** Not always a plain member of a bracket. */
  predicate Positional(c: char) { c == ']' || c == '-' || c == '!' || c == '^' }

  function WithoutPositional(ranges: seq<Range>): (r: seq<Range>)
    ensures Proper(r)
  {
    Without(Without(Without(Without(ranges, ']'), '-'), '!'), '^')
  }

  lemma {:induction false} WithoutPositionalHolds(ranges: seq<Range>, x: char)
    ensures Contains(WithoutPositional(ranges), x) <==> Contains(ranges, x) && !Positional(x)
  {
    WithoutHolds(ranges, ']', x);
    WithoutHolds(Without(ranges, ']'), '-', x);
    WithoutHolds(Without(Without(ranges, ']'), '-'), '!', x);
    WithoutHolds(Without(Without(Without(ranges, ']'), '-'), '!'), '^', x);
  }

  predicate RangeLess(a: Range, b: Range) { a.0 < b.0 || (a.0 == b.0 && a.1 <= b.1) }

  function Place(r: Range, sorted: seq<Range>): (s: seq<Range>)
    ensures multiset(s) == multiset(sorted) + multiset{r}
  {
    if sorted == [] || RangeLess(sorted[|sorted| - 1], r) then sorted + [r]
    else
      var init, last := sorted[..|sorted| - 1], sorted[|sorted| - 1];
      assert sorted == init + [last];
      Place(r, init) + [last]
  }

  function Sorted(ranges: seq<Range>): (s: seq<Range>)
    ensures multiset(s) == multiset(ranges)
  {
    if ranges == [] then []
    else
      assert ranges == ranges[..|ranges| - 1] + [ranges[|ranges| - 1]];
      Place(ranges[|ranges| - 1], Sorted(ranges[..|ranges| - 1]))
  }

  /** Ranges by where they start, and then by where they end. */
  predicate Ordered(ranges: seq<Range>) {
    forall i, j | 0 <= i < j < |ranges| ::
      ranges[i].0 <= ranges[j].0 && (ranges[i].0 == ranges[j].0 ==> ranges[i].1 <= ranges[j].1)
  }

  lemma {:induction false} PlaceKeepsOrder(r: Range, sorted: seq<Range>)
    requires Ordered(sorted)
    ensures Ordered(Place(r, sorted))
  {
    if sorted != [] && !RangeLess(sorted[|sorted| - 1], r) {
      var init, last := sorted[..|sorted| - 1], sorted[|sorted| - 1];
      var placed := Place(r, init);
      PlaceKeepsOrder(r, init);
      forall k | 0 <= k < |placed| ensures placed[k] == r || placed[k] in init {
        assert placed[k] in multiset(placed) && multiset(placed) == multiset(init) + multiset{r};
      }
    }
  }

  lemma {:induction false} SortedIsOrdered(ranges: seq<Range>)
    ensures Ordered(Sorted(ranges))
  {
    if ranges != [] {
      SortedIsOrdered(ranges[..|ranges| - 1]);
      PlaceKeepsOrder(ranges[|ranges| - 1], Sorted(ranges[..|ranges| - 1]));
    }
  }

  /** A range as written. */
  function Show(r: Range): Text { if r.0 == r.1 then [r.0] else [r.0, '-', r.1] }

  function ShowAll(ranges: seq<Range>): Text {
    if ranges == [] then [] else Show(ranges[0]) + ShowAll(ranges[1..])
  }

  function If(present: bool, c: char): Text { if present then [c] else [] }

  /** The ranges to write plainly, and the positional characters to place. */
  function Plain(negated: bool, ranges: seq<Range>): seq<Range> {
    var all := Without(ranges, '/') + (if negated then [('/', '/')] else []);
    Sorted(WithoutPositional(all))
  }

  function Written(negated: bool, ranges: seq<Range>): seq<Range> {
    var plain := Plain(negated, ranges);
    if plain == [] && !Contains(ranges, ']') then [(0 as char, 0 as char)] else plain
  }

  /** What ends a bracket: the placed characters, the dash last. */
  function Tail(bang: bool, caret: bool, dash: bool): Text { If(bang, '!') + If(caret, '^') + If(dash, '-') + "]" }

  /** A bracket after its `[` and negation. */
  function Parts(close: bool, written: seq<Range>, bang: bool, caret: bool, dash: bool): Text {
    If(close, ']') + (ShowAll(written) + Tail(bang, caret, dash))
  }

  function Inside(negated: bool, ranges: seq<Range>): Text {
    Parts(Contains(ranges, ']'), Written(negated, ranges), Contains(ranges, '!'), Contains(ranges, '^'),
      Contains(ranges, '-'))
  }

  /** The text of a bracket for a set of characters, or for its complement. */
  function Render(negated: bool, ranges: seq<Range>): Text { "[" + If(negated, '!') + Inside(negated, ranges) }

  lemma {:induction false} Grouped(a: Text, b: Text, c: Text, d: Text)
    ensures a + b + c + d == a + (b + (c + d))
  {
  }

  /** Write the ranges one after another. */
  method ShowRanges(plain: seq<Range>) returns (out: Text)
    ensures out == ShowAll(plain)
  {
    out := [];
    for k := 0 to |plain|
      invariant out + ShowAll(plain[k..]) == ShowAll(plain)
    {
      var (lo, hi) := plain[k];
      ShowStep(plain, k, out, ShowAll(plain));
      out := out + if lo == hi then [lo] else [lo, '-', hi];
    }
  }

  lemma {:induction false} ShowStep(plain: seq<Range>, k: nat, out: Text, all: Text)
    requires k < |plain| && out + ShowAll(plain[k..]) == all
    ensures out + Show(plain[k]) + ShowAll(plain[k + 1..]) == all
  {
    assert plain[k..][0] == plain[k] && plain[k..][1..] == plain[k + 1..];
    assert out + (Show(plain[k]) + ShowAll(plain[k + 1..])) == out + Show(plain[k]) + ShowAll(plain[k + 1..]);
  }

  /** A range that can stand anywhere in a bracket. */
  predicate Writable(r: Range) { r.0 <= r.1 && !Positional(r.0) && !Positional(r.1) }

  predicate AllWritable(ranges: seq<Range>) { forall k | 0 <= k < |ranges| :: Writable(ranges[k]) }

  lemma {:induction false} ReadsShown(r: Range, rest: Text, ranges: seq<Range>, first: bool)
    requires Writable(r)
    ensures Members(Show(r) + rest, ranges, first, false) == Members(rest, ranges + [r], false, false)
  {
    var all := Show(r) + rest;
    if r.0 == r.1 {
      assert all[1..] == rest && (r.0, r.0) == r;
    } else {
      var dashed, ended := ['-', r.1] + rest, [r.1] + rest;
      assert all[1..] == dashed && dashed[1..] == ended && ended[1..] == rest;
      var held := ranges + [(r.0, r.0)];
      assert held[..|held| - 1] + [(r.0, r.1)] == ranges + [r];
      assert Members(all, ranges, first, false) == Members(dashed, held, false, false);
      assert Members(dashed, held, false, false) == Members(ended, held, false, true);
    }
  }

  lemma {:induction false} ReadsAllShown(shown: seq<Range>, rest: Text, ranges: seq<Range>, first: bool)
    requires AllWritable(shown)
    ensures Members(ShowAll(shown) + rest, ranges, first, false) ==
      Members(rest, ranges + shown, first && shown == [], false)
  {
    if shown == [] {
      assert ShowAll(shown) + rest == rest && ranges + shown == ranges;
    } else {
      var more := ShowAll(shown[1..]) + rest;
      assert ShowAll(shown) + rest == Show(shown[0]) + more;
      ReadsShown(shown[0], more, ranges, first);
      ReadsAllShown(shown[1..], rest, ranges + [shown[0]], false);
      assert ranges + [shown[0]] + shown[1..] == ranges + shown;
    }
  }

  function One(present: bool, c: char): seq<Range> { if present then [(c, c)] else [] }

  lemma {:induction false} ReadsOne(present: bool, c: char, rest: Text, ranges: seq<Range>)
    requires Negation(c)
    ensures Members(If(present, c) + rest, ranges, false, false) ==
      Members(rest, ranges + One(present, c), false, false)
  {
    if present {
      assert ([c] + rest)[1..] == rest;
    } else {
      assert If(present, c) + rest == rest && ranges + One(present, c) == ranges;
    }
  }

  lemma {:induction false} ReadsTail(bang: bool, caret: bool, dash: bool, rest: Text, ranges: seq<Range>)
    ensures Members(Tail(bang, caret, dash) + rest, ranges, false, false) ==
      Some((ranges + One(bang, '!') + One(caret, '^') + One(dash, '-'), rest))
  {
    var closing := If(dash, '-') + ("]" + rest);
    assert Tail(bang, caret, dash) + rest == If(bang, '!') + (If(caret, '^') + closing);
    ReadsOne(bang, '!', If(caret, '^') + closing, ranges);
    ReadsOne(caret, '^', closing, ranges + One(bang, '!'));
    ReadsEnd(dash, rest, ranges + One(bang, '!') + One(caret, '^'));
  }

  lemma {:induction false} ReadsEnd(dash: bool, rest: Text, ranges: seq<Range>)
    ensures Members(If(dash, '-') + ("]" + rest), ranges, false, false) == Some((ranges + One(dash, '-'), rest))
  {
    var all, close := If(dash, '-') + ("]" + rest), "]" + rest;
    assert close[1..] == rest;
    if dash {
      assert all[1..] == close;
      assert Members(all, ranges, false, false) == Members(close, ranges, false, true);
    } else {
      assert all == close && ranges + One(dash, '-') == ranges;
    }
  }

  lemma {:induction false} EndpointsHeld(r: Range)
    requires r.0 <= r.1
    ensures Holds(r, r.0) && Holds(r, r.1)
  {
  }

  lemma {:induction false} MembersSame(a: seq<Range>, b: seq<Range>, c: char)
    requires multiset(a) == multiset(b)
    ensures Contains(a, c) <==> Contains(b, c)
  {
    if k :| 0 <= k < |a| && Holds(a[k], c) {
      assert a[k] in multiset(b);
      var j :| 0 <= j < |b| && b[j] == a[k];
    }
    if k :| 0 <= k < |b| && Holds(b[k], c) {
      assert b[k] in multiset(a);
      var j :| 0 <= j < |a| && a[j] == b[k];
    }
  }

  /** What is written plainly holds what it should, and can be written. */
  lemma {:induction false} PlainHolds(negated: bool, ranges: seq<Range>, c: char)
    ensures Contains(Plain(negated, ranges), c) <==>
      !Positional(c) && ((Contains(ranges, c) && c != '/') || (negated && c == '/'))
  {
    var slash: seq<Range> := if negated then [('/', '/')] else [];
    var all := Without(ranges, '/') + slash;
    MembersSame(Plain(negated, ranges), WithoutPositional(all), c);
    WithoutPositionalHolds(all, c);
    ContainsConcat(Without(ranges, '/'), slash, c);
    WithoutHolds(ranges, '/', c);
    ContainsOne(('/', '/'), c);
  }

  lemma {:induction false} PlainWritable(negated: bool, ranges: seq<Range>)
    ensures AllWritable(Plain(negated, ranges))
  {
    var slash: seq<Range> := if negated then [('/', '/')] else [];
    var plain, cut := Plain(negated, ranges), WithoutPositional(Without(ranges, '/') + slash);
    forall k | 0 <= k < |plain| ensures Writable(plain[k]) {
      assert plain[k] in multiset(cut);
      var j :| 0 <= j < |cut| && cut[j] == plain[k];
      EndpointsHeld(plain[k]);
      PlainHolds(negated, ranges, plain[k].0);
      PlainHolds(negated, ranges, plain[k].1);
    }
  }

  /** The members globset reads back. */
  function ReadBack(negated: bool, ranges: seq<Range>): seq<Range> {
    One(Contains(ranges, ']'), ']') + Written(negated, ranges)
    + One(Contains(ranges, '!'), '!') + One(Contains(ranges, '^'), '^') + One(Contains(ranges, '-'), '-')
  }

  lemma {:induction false} ShownFirst(shown: seq<Range>, rest: Text)
    requires shown != []
    ensures ShowAll(shown) + rest != [] && (ShowAll(shown) + rest)[0] == shown[0].0
  {
    assert ShowAll(shown) == Show(shown[0]) + ShowAll(shown[1..]);
  }

  lemma {:induction false} Inner(a: Text, b: Text, c: Text, d: Text)
    ensures a + (b + c) + d == a + (b + (c + d))
  {
  }

  lemma {:induction false} PartsRead(close: bool, written: seq<Range>, bang: bool, caret: bool, dash: bool, rest: Text)
    requires AllWritable(written) && (close || written != [])
    ensures Members(Parts(close, written, bang, caret, dash) + rest, [], true, false) ==
      Some((One(close, ']') + written + One(bang, '!') + One(caret, '^') + One(dash, '-'), rest))
    ensures !Negation((Parts(close, written, bang, caret, dash) + rest)[0])
  {
    var tail := Tail(bang, caret, dash) + rest;
    var body, all := ShowAll(written) + tail, Parts(close, written, bang, caret, dash) + rest;
    Inner(If(close, ']'), ShowAll(written), Tail(bang, caret, dash), rest);
    ReadsAllShown(written, tail, One(close, ']'), !close);
    ReadsTail(bang, caret, dash, rest, One(close, ']') + written);
    if close {
      assert all[0] == ']' && all[1..] == body;
      assert [] + [(']', ']')] == One(close, ']');
      assert Members(all, [], true, false) == Members(body, One(close, ']'), false, false);
    } else {
      assert all == body;
      ShownFirst(written, tail);
    }
  }

  lemma {:induction false} RenderReads(negated: bool, ranges: seq<Range>, rest: Text)
    ensures ReadBracket(Render(negated, ranges) + rest) == Some((Bracket(negated, ReadBack(negated, ranges)), rest))
  {
    PlainWritable(negated, ranges);
    PartsRead(Contains(ranges, ']'), Written(negated, ranges), Contains(ranges, '!'), Contains(ranges, '^'),
      Contains(ranges, '-'), rest);
    OpenedReads(negated, Inside(negated, ranges), rest, ReadBack(negated, ranges));
  }

  lemma {:induction false} OpenedReads(negated: bool, inside: Text, rest: Text, ranges: seq<Range>)
    requires inside != [] && !Negation((inside + rest)[0])
    requires Members(inside + rest, [], true, false) == Some((ranges, rest))
    ensures ReadBracket("[" + If(negated, '!') + inside + rest) == Some((Bracket(negated, ranges), rest))
  {
    var all := "[" + If(negated, '!') + inside + rest;
    assert all == "[" + If(negated, '!') + (inside + rest);
    assert (if negated then all[2..] else all[1..]) == inside + rest;
  }

  lemma {:induction false} ReadBackHolds(negated: bool, ranges: seq<Range>, c: char)
    ensures c != '/' && c != 0 as char ==> (Contains(ReadBack(negated, ranges), c) <==> Contains(ranges, c))
    ensures c == '/' ==> (Contains(ReadBack(negated, ranges), c) <==> negated)
  {
    var a, b := One(Contains(ranges, ']'), ']'), Written(negated, ranges);
    var d, e, f := One(Contains(ranges, '!'), '!'), One(Contains(ranges, '^'), '^'), One(Contains(ranges, '-'), '-');
    PlainHolds(negated, ranges, c);
    ContainsOne((0 as char, 0 as char), c);
    ContainsConcat(a + b + d + e, f, c);
    ContainsConcat(a + b + d, e, c);
    ContainsConcat(a + b, d, c);
    ContainsConcat(a, b, c);
    ContainsOne((']', ']'), c);
    ContainsOne(('!', '!'), c);
    ContainsOne(('^', '^'), c);
    ContainsOne(('-', '-'), c);
  }

  /**
   A rendered bracket is read by globset whole, and matches exactly the ranges
   or their complement. It never matches the separator. (NUL, which no path
   holds, is not spoken for.)
   */
  lemma {:induction false} RenderMeans(negated: bool, ranges: seq<Range>, rest: Text, c: char)
    ensures ReadBracket(Render(negated, ranges) + rest).Some?
    ensures var (b, after) := ReadBracket(Render(negated, ranges) + rest).value;
      && after == rest
      && (c != '/' && c != 0 as char ==> (Matches(b, c) <==> Contains(ranges, c) != negated))
      && !Matches(b, '/')
  {
    RenderReads(negated, ranges, rest);
    ReadBackHolds(negated, ranges, c);
    ReadBackHolds(negated, ranges, '/');
  }

  // ------------------------------------------------------- writing, step by step

  /** `text` is a bracket that globset, whatever comes after it, takes for these
      ranges or for all they leave, and never for a separator. */
  ghost predicate Means(text: Text, negated: bool, ranges: seq<Range>) {
    forall rest: Text :: ReadsAs(text, negated, ranges, rest)
  }

  ghost predicate ReadsAs(text: Text, negated: bool, ranges: seq<Range>, rest: Text) {
    && text != [] && text[0] == '['
    && ReadBracket(text + rest).Some?
    && ReadBracket(text + rest).value.1 == rest
    && !Matches(ReadBracket(text + rest).value.0, '/')
    && forall c: char | c != '/' && c != 0 as char ::
         Matches(ReadBracket(text + rest).value.0, c) <==> Contains(ranges, c) != negated
  }

  lemma {:induction false} RenderIsRead(negated: bool, ranges: seq<Range>)
    ensures Means(Render(negated, ranges), negated, ranges)
  {
    forall rest: Text ensures ReadsAs(Render(negated, ranges), negated, ranges, rest) {
      RenderMeans(negated, ranges, rest, '/');
      forall c: char | c != '/' && c != 0 as char
        ensures Matches(ReadBracket(Render(negated, ranges) + rest).value.0, c) <==> Contains(ranges, c) != negated
      {
        RenderMeans(negated, ranges, rest, c);
      }
    }
  }

  /** Take `c` out of every range. */
  method DropChar(ranges: seq<Range>, c: char) returns (r: seq<Range>)
    requires 0 as char < c < 128 as char
    ensures r == Without(ranges, c)
  {
    r := [];
    for k := 0 to |ranges|
      invariant r == Without(ranges[..k], c)
    {
      var (a, b) := ranges[k];
      assert ranges[..k + 1][..k] == ranges[..k] && ranges[..k + 1][k] == ranges[k];
      if a <= Min(b, Before(c)) {
        r := r + [(a, Min(b, Before(c)))];
      }
      if Max(a, After(c)) <= b {
        r := r + [(Max(a, After(c)), b)];
      }
    }
    assert ranges[..|ranges|] == ranges;
  }

  const POSITIONAL: seq<char> := [']', '-', '!', '^']

  /** The positional characters the ranges hold. */
  method FindSpecials(ranges: seq<Range>) returns (specials: seq<char>)
    ensures forall c :: c in specials <==> Positional(c) && Contains(ranges, c)
  {
    specials := [];
    for k := 0 to |POSITIONAL|
      invariant forall c :: c in specials <==> c in POSITIONAL[..k] && Contains(ranges, c)
    {
      assert POSITIONAL[..k + 1] == POSITIONAL[..k] + [POSITIONAL[k]];
      if Contains(ranges, POSITIONAL[k]) {
        specials := specials + [POSITIONAL[k]];
      }
    }
    assert POSITIONAL[..|POSITIONAL|] == POSITIONAL;
  }

  /** The ranges with every positional character taken out, in order. */
  method PlainRanges(ranges: seq<Range>) returns (plain: seq<Range>)
    ensures plain == Sorted(WithoutPositional(ranges))
  {
    plain := DropChar(ranges, ']');
    plain := DropChar(plain, '-');
    plain := DropChar(plain, '!');
    plain := DropChar(plain, '^');
    plain := Sorted(plain);
  }

  lemma {:induction false} SameSpecials(negated: bool, ranges: seq<Range>, kept: seq<Range>, c: char)
    requires Positional(c) && kept == Without(ranges, '/') + (if negated then [('/', '/')] else [])
    ensures Contains(kept, c) <==> Contains(ranges, c)
  {
    WithoutHolds(ranges, '/', c);
    ContainsConcat(Without(ranges, '/'), if negated then [('/', '/')] else [], c);
    ContainsOne(('/', '/'), c);
  }

  lemma {:induction false} SpecialsKept(negated: bool, ranges: seq<Range>, kept: seq<Range>)
    requires kept == Without(ranges, '/') + (if negated then [('/', '/')] else [])
    ensures forall c | Positional(c) :: Contains(kept, c) <==> Contains(ranges, c)
    ensures Contains(kept, ']') <==> Contains(ranges, ']')
  {
    forall c | Positional(c) ensures Contains(kept, c) <==> Contains(ranges, c) {
      SameSpecials(negated, ranges, kept, c);
    }
    assert Positional(']');
  }

  /** What a bracket is to hold: its separator settled, the positional characters
      picked out, and the rest in order, with a NUL when nothing else may stand first. */
  method Pick(negated: bool, ranges: seq<Range>) returns (specials: seq<char>, plain: seq<Range>)
    ensures plain == Written(negated, ranges)
    ensures forall c | Positional(c) :: c in specials <==> Contains(ranges, c)
  {
    var kept := DropChar(ranges, '/');
    if negated {
      kept := kept + [('/', '/')];
    }
    assert kept == Without(ranges, '/') + (if negated then [('/', '/')] else []);
    specials := FindSpecials(kept);
    SpecialsKept(negated, ranges, kept);
    plain := PlainRanges(kept);
    if plain == [] && ']' !in specials {
      plain := [(0 as char, 0 as char)];
    }
  }

  /** Write a bracket for the ranges, or for all they leave. */
  method RenderText(negated: bool, ranges: seq<Range>) returns (out: Text)
    ensures out == Render(negated, ranges)
    ensures Means(out, negated, ranges)
  {
    var specials, plain := Pick(negated, ranges);
    assert Positional(']') && Positional('!') && Positional('^') && Positional('-');
    out := WriteText(negated, ']' in specials, plain, '!' in specials, '^' in specials, '-' in specials);
    RenderIsRead(negated, ranges);
  }

  /** Write the pieces, each positional character where it is itself. */
  method WriteText(negated: bool, close: bool, plain: seq<Range>, bang: bool, caret: bool, dash: bool)
      returns (out: Text)
    ensures out == "[" + If(negated, '!') + Parts(close, plain, bang, caret, dash)
  {
    var head, first := if negated then "[!" else "[", if close then "]" else "";
    var shown := ShowRanges(plain);
    var tail := Tail(bang, caret, dash);
    out := head + first + shown + tail;
    Grouped(head, first, shown, tail);
    assert head == "[" + If(negated, '!') && first == If(close, ']');
  }

  // ------------------------------------------------------------------ reading

  function AddRange(ranges: seq<Range>, r: Range): seq<Range> { if r in ranges then ranges else ranges + [r] }

  function AddAll(ranges: seq<Range>, more: seq<Range>): seq<Range>
    decreases |more|
  {
    if more == [] then ranges else AddAll(AddRange(ranges, more[0]), more[1..])
  }

  /** The name of a class whose `[:` is behind, and the length up to past its
      `:]`; a `]` before that means there is none. */
  function ClassName(text: Text, k: nat): (r: Option<(Text, nat)>)
    requires k <= |text|
    ensures r.Some? ==> k < r.value.1 <= |text|
    decreases |text| - k
  {
    if k == |text| then None
    else if text[k] == ':' && k + 1 < |text| && text[k + 1] == ']' then Some((text[..k], k + 2))
    else if text[k] == ']' then None
    else ClassName(text, k + 1)
  }

  /** The class `[:name:]` off the front of `text`, and its length. */
  function ClassAt(text: Text): (r: Option<(Text, nat)>)
    ensures r.Some? ==> 0 < r.value.1 <= |text|
  {
    if |text| < 2 || text[0] != '[' || text[1] != ':' then None
    else
      match ClassName(text[2..], 0)
      case None => None
      case Some((name, len)) => Some((name, len + 2))
  }

  /** The equivalence class `[=c=]` off the front of `text`. */
  function EquivalenceAt(text: Text): Option<char> {
    if |text| >= 5 && text[0] == '[' && text[1] == '=' && text[3] == '=' && text[4] == ']' then Some(text[2]) else None
  }

  function SymbolEnd(text: Text, k: nat): (r: Option<nat>)
    requires k <= |text|
    ensures r.Some? ==> k <= r.value < |text| - 1
    decreases |text| - k
  {
    if k + 1 >= |text| then None
    else if text[k] == '.' && text[k + 1] == ']' then Some(k)
    else SymbolEnd(text, k + 1)
  }

  /** The symbol `[.name.]` off the front of `text`, with its character if it
      stands for one, and its length: all of `text` when it never closes. */
  function SymbolAt(text: Text, t: Tables): (r: Option<(Option<char>, nat)>)
    ensures r.Some? ==> 0 < r.value.1 <= |text|
  {
    if |text| < 2 || text[0] != '[' || text[1] != '.' then None
    else
      match SymbolEnd(text[2..], 0)
      case Some(k) => Some((t.collate(text[2..][..k]), k + 4))
      case None => Some((None, |text|))
  }

  /** What a bracket has shown so far. */
  datatype Seen = Seen(ranges: seq<Range>, rewrite: bool, intoClass: bool)

  /** One end of a range, or a lone member: its character, its length, and
      whether it is a symbol. */
  function EndAt(text: Text, t: Tables): (r: (Option<char>, nat, bool))
    requires text != []
    ensures 0 < r.1 <= |text|
  {
    match SymbolAt(text, t)
    case Some((c, len)) => (c, len, true)
    case None => (Some(text[0]), 1, false)
  }

  function Spanned(ranges: seq<Range>, lo: Option<char>, hi: Option<char>): seq<Range> {
    if lo.Some? && hi.Some? && lo.value <= hi.value then AddRange(ranges, (lo.value, hi.value)) else ranges
  }

  /** One member off the front of `text`: what has been seen with it, and its
      length. */
  function MemberAt(text: Text, seen: Seen, t: Tables): (r: (Seen, nat))
    requires text != []
    ensures 0 < r.1 <= |text|
  {
    if ClassAt(text).Some? then
      var (name, len) := ClassAt(text).value;
      (seen.(ranges := AddAll(seen.ranges, t.members(name)), rewrite := true), len)
    else if EquivalenceAt(text).Some? then
      var c := EquivalenceAt(text).value;
      (seen.(ranges := AddRange(seen.ranges, (c, c)), rewrite := true), 5)
    else
      var (lo, len, symbol) := EndAt(text, t);
      var read := seen.(rewrite := seen.rewrite || symbol);
      if len + 1 < |text| && text[len] == '-' && text[len + 1] != ']' then
        var after := text[len + 1..];
        if ClassAt(after).Some? then (read.(rewrite := true, intoClass := true), len + 1 + ClassAt(after).value.1)
        else
          var (hi, more, also) := EndAt(after, t);
          (read.(ranges := Spanned(seen.ranges, lo, hi), rewrite := read.rewrite || also), len + 1 + more)
      else (read.(ranges := if lo.Some? then AddRange(seen.ranges, (lo.value, lo.value)) else seen.ranges), len)
  }

  /** All members up to the close, and what follows it; `None` when the bracket
      never closes. A `]` first is a member. */
  function Scan(text: Text, first: bool, seen: Seen, t: Tables): (r: Option<(Seen, Text)>)
    ensures r.Some? ==> |r.value.1| < |text|
    decreases |text|
  {
    if text == [] then None
    else if text[0] == ']' && !first then Some((seen, text[1..]))
    else Scan(text[MemberAt(text, seen, t).1..], false, MemberAt(text, seen, t).0, t)
  }

  const NOTHING := Seen([], false, false)

  /** What a bracket becomes: `None` when it needs no rewriting. */
  function Rewrite(negated: bool, seen: Seen): Option<Text> {
    if !seen.rewrite then None
    else if seen.intoClass then Some(['[', 0 as char, ']'])
    else Some(Render(negated, seen.ranges))
  }

  /** The bracket opening `text`: what follows it, and its rewrite. */
  function BracketAt(text: Text, t: Tables): (r: Option<(Text, Option<Text>)>)
    requires text != [] && text[0] == '['
    ensures r.Some? ==> |r.value.0| < |text|
  {
    var negated := |text| > 1 && Negation(text[1]);
    match Scan(if negated then text[2..] else text[1..], true, NOTHING, t)
    case None => None
    case Some((seen, rest)) => Some((rest, Rewrite(negated, seen)))
  }

  lemma {:induction false} ScanStep(chars: Text, first: bool, seen: Seen, t: Tables)
    requires chars != [] && !(chars[0] == ']' && !first)
    ensures var (more, len) := MemberAt(chars, seen, t);
      Scan(chars, first, seen, t) == Scan(chars[len..], false, more, t)
  {
  }

  lemma {:induction false} ScanAdvances(chars: Text, j: nat, first: bool, seen: Seen, t: Tables, more: Seen, next: nat)
    requires j < next <= |chars| && !(chars[j] == ']' && !first) && MemberAt(chars[j..], seen, t) == (more, next - j)
    ensures Scan(chars[j..], first, seen, t) == Scan(chars[next..], false, more, t)
  {
    ScanStep(chars[j..], first, seen, t);
    assert chars[j..][next - j..] == chars[next..];
  }

  lemma {:induction false} ScanEnds(chars: Text, j: nat, seen: Seen, t: Tables)
    requires j <= |chars| && (j < |chars| ==> chars[j] == ']')
    ensures j < |chars| ==> Scan(chars[j..], false, seen, t) == Some((seen, chars[j + 1..]))
    ensures j == |chars| ==> forall first :: Scan(chars[j..], first, seen, t) == None
  {
    if j < |chars| {
      assert chars[j..][1..] == chars[j + 1..];
    }
  }

  lemma {:induction false} BracketIsScan(chars: Text, start: nat, bodyStart: nat, negated: bool, t: Tables)
    requires start < |chars| && chars[start] == '['
    requires negated <==> start + 1 < |chars| && Negation(chars[start + 1])
    requires bodyStart == if negated then start + 2 else start + 1
    ensures BracketAt(chars[start..], t) ==
      match Scan(chars[bodyStart..], true, NOTHING, t)
      case None => None
      case Some((seen, rest)) => Some((rest, Rewrite(negated, seen)))
  {
    assert chars[start..][1..] == chars[start + 1..] && (negated ==> chars[start..][2..] == chars[start + 2..]);
  }

  /** Read the member at `j`. */
  method ReadMember(chars: Text, j: nat, first: bool, seen: Seen, t: Tables) returns (more: Seen, next: nat)
    requires j < |chars| && !(chars[j] == ']' && !first)
    ensures j < next <= |chars| && Scan(chars[j..], first, seen, t) == Scan(chars[next..], false, more, t)
  {
    var read := MemberAt(chars[j..], seen, t);
    more, next := read.0, j + read.1;
    ScanAdvances(chars, j, first, seen, t, more, next);
  }

  /** Parse the bracket opening at `start`: the index past it, and its rewrite. */
  method ParseBracket(chars: Text, start: nat, t: Tables) returns (r: Option<(nat, Option<Text>)>)
    requires start < |chars| && chars[start] == '['
    ensures r.None? ==> BracketAt(chars[start..], t).None?
    ensures r.Some? ==>
      start < r.value.0 <= |chars| && BracketAt(chars[start..], t) == Some((chars[r.value.0..], r.value.1))
  {
    var j := start + 1;
    var negated := j < |chars| && Negation(chars[j]);
    if negated {
      j := j + 1;
    }
    BracketIsScan(chars, start, j, negated, t);
    var found := ReadMembers(chars, j, t);
    if found.None? {
      return None;
    }
    var rewritten := RewriteText(negated, found.value.0);
    return Some((found.value.1, rewritten));
  }

  method RewriteText(negated: bool, seen: Seen) returns (r: Option<Text>)
    ensures r == Rewrite(negated, seen)
  {
    if !seen.rewrite {
      return None;
    }
    if seen.intoClass {
      return Some(['[', 0 as char, ']']);
    }
    var text := RenderText(negated, seen.ranges);
    return Some(text);
  }

  /** Read members from `bodyStart` up to the close. */
  method ReadMembers(chars: Text, bodyStart: nat, t: Tables) returns (r: Option<(Seen, nat)>)
    requires bodyStart <= |chars|
    ensures r.Some? ==> bodyStart < r.value.1 <= |chars|
    ensures Scan(chars[bodyStart..], true, NOTHING, t) ==
      if r.None? then None else Some((r.value.0, chars[r.value.1..]))
  {
    var j, seen := bodyStart, NOTHING;
    while true
      invariant bodyStart <= j <= |chars|
      invariant Scan(chars[j..], j == bodyStart, seen, t) == Scan(chars[bodyStart..], true, NOTHING, t)
      decreases |chars| - j
    {
      if j == |chars| || (chars[j] == ']' && j > bodyStart) {
        ScanEnds(chars, j, seen, t);
        return if j == |chars| then None else Some((seen, j + 1));
      }
      seen, j := ReadMember(chars, j, j == bodyStart, seen, t);
    }
  }

  /** The whole pattern with its brackets rewritten. */
  function Expanded(text: Text, t: Tables): Text
    decreases |text|
  {
    if text == [] then []
    else if text[0] == '\\' then
      if |text| == 1 then text else text[..2] + Expanded(text[2..], t)
    else if text[0] == '[' && BracketAt(text, t).Some? then
      var (rest, rewritten) := BracketAt(text, t).value;
      (if rewritten.Some? then rewritten.value else text[..|text| - |rest|]) + Expanded(rest, t)
    else [text[0]] + Expanded(text[1..], t)
  }

  method ExpandPosixClasses(pattern: Text, t: Tables) returns (out: Text)
    ensures out == Expanded(pattern, t)
  {
    out := [];
    var i: nat := 0;
    while i < |pattern|
      invariant i <= |pattern|
      invariant out + Expanded(pattern[i..], t) == Expanded(pattern, t)
    {
      var piece, end := PieceAt(pattern, i, t);
      assert out + (piece + Expanded(pattern[end..], t)) == out + piece + Expanded(pattern[end..], t);
      out := out + piece;
      i := end;
    }
  }

  /** An escaped character, a bracket, or one character, as it is to be written. */
  method PieceAt(pattern: Text, i: nat, t: Tables) returns (piece: Text, end: nat)
    requires i < |pattern|
    ensures i < end <= |pattern| && Expanded(pattern[i..], t) == piece + Expanded(pattern[end..], t)
  {
    piece, end := [pattern[i]], i + 1;
    if pattern[i] == '\\' {
      end := if i + 2 < |pattern| then i + 2 else |pattern|;
      piece := pattern[i..end];
    } else if pattern[i] == '[' {
      var bracket := ParseBracket(pattern, i, t);
      if bracket.Some? {
        end := bracket.value.0;
        piece := if bracket.value.1.Some? then bracket.value.1.value else pattern[i..end];
      }
    }
    StepsOn(pattern, i, end, piece, t);
  }

  lemma {:induction false} StepsOn(pattern: Text, i: nat, end: nat, piece: Text, t: Tables)
    requires i < end <= |pattern|
    requires pattern[i] == '\\' ==> end == (if i + 2 < |pattern| then i + 2 else |pattern|) && piece == pattern[i..end]
    requires pattern[i] == '[' && BracketAt(pattern[i..], t).Some? ==>
      BracketAt(pattern[i..], t).value.0 == pattern[end..] &&
      piece == match BracketAt(pattern[i..], t).value.1 case Some(rewritten) => rewritten case None => pattern[i..end]
    requires pattern[i] != '\\' && (pattern[i] != '[' || BracketAt(pattern[i..], t).None?) ==>
      end == i + 1 && piece == [pattern[i]]
    ensures Expanded(pattern[i..], t) == piece + Expanded(pattern[end..], t)
  {
    assert pattern[i..][0] == pattern[i];
    Cut(pattern, i, end);
    if pattern[i] == '\\' {
      EscapeStays(pattern[i..], end - i, t);
    } else if pattern[i] == '[' && BracketAt(pattern[i..], t).Some? {
      BracketGoes(pattern[i..], end - i, t);
    } else {
      CharStays(pattern[i..], t);
    }
  }

  lemma {:induction false} Cut(pattern: Text, i: nat, end: nat)
    requires i <= end <= |pattern|
    ensures pattern[i..][end - i..] == pattern[end..] && pattern[i..][..end - i] == pattern[i..end]
  {
  }

  lemma {:induction false} EscapeStays(text: Text, n: nat, t: Tables)
    requires text != [] && text[0] == '\\' && n == if 2 < |text| then 2 else |text|
    ensures Expanded(text, t) == text[..n] + Expanded(text[n..], t)
  {
  }

  lemma {:induction false} BracketGoes(text: Text, n: nat, t: Tables)
    requires text != [] && text[0] == '[' && n <= |text|
    requires BracketAt(text, t).Some? && BracketAt(text, t).value.0 == text[n..]
    ensures var rewritten := BracketAt(text, t).value.1;
      Expanded(text, t) == (if rewritten.Some? then rewritten.value else text[..n]) + Expanded(text[n..], t)
  {
  }

  lemma {:induction false} CharStays(text: Text, t: Tables)
    requires text != [] && text[0] != '\\' && (text[0] != '[' || BracketAt(text, t).None?)
    ensures Expanded(text, t) == [text[0]] + Expanded(text[1..], t)
  {
  }

  // ------------------------------------------------------------------ grammar

  /** A character as itself, or a collating symbol's. */
  datatype Element = Char(c: char) | Symbol(name: Text)

  /** What a bracket expression is made of. A range may end in a class, though
      such a bracket matches nothing. */
  datatype Item = Single(e: Element) | Span(lo: Element, hi: Element) | Class(name: Text) | Equivalent(c: char)
                | IntoClass(lo: Element, name: Text)

  function ShowElement(e: Element): (s: Text)
    ensures s != []
  {
    match e
    case Char(c) => [c]
    case Symbol(name) => "[." + name + ".]"
  }

  function ShowClass(name: Text): Text { "[:" + name + ":]" }

  function ShowItem(item: Item): (s: Text)
    ensures s != []
  {
    match item
    case Single(e) => ShowElement(e)
    case Span(lo, hi) => ShowElement(lo) + ("-" + ShowElement(hi))
    case Class(name) => ShowClass(name)
    case Equivalent(c) => "[=" + [c] + "=]"
    case IntoClass(lo, name) => ShowElement(lo) + ("-" + ShowClass(name))
  }

  function ShowItems(items: seq<Item>): Text {
    if items == [] then [] else ShowItem(items[0]) + ShowItems(items[1..])
  }

  predicate Opener(c: char) { c == ':' || c == '=' || c == '.' }

  /** The element reads as itself before `rest`: a `[` opens nothing, and a
      symbol's name does not close early. */
  predicate LegibleElement(e: Element, rest: Text) {
    match e
    case Char(c) => c == '[' ==> rest != [] && !Opener(rest[0])
    case Symbol(name) => forall k | 0 <= k < |name| - 1 :: !(name[k] == '.' && name[k + 1] == ']')
  }

  /** The item reads as itself before `rest`: a close is a member only first, and
      a dash after a lone member is last. */
  predicate LegibleItem(item: Item, rest: Text, first: bool) {
    match item
    case Single(e) =>
      LegibleElement(e, rest) && (e == Char(']') ==> first) && !(|rest| > 1 && rest[0] == '-' && rest[1] != ']')
    case Span(lo, hi) =>
      && LegibleElement(lo, "-") && (lo == Char(']') ==> first)
      && LegibleElement(hi, rest) && hi != Char(']')
    case Class(name) => ']' !in name
    case Equivalent(_) => true
    case IntoClass(lo, name) => LegibleElement(lo, "-") && (lo == Char(']') ==> first) && ']' !in name
  }

  predicate Legible(items: seq<Item>, after: Text, first: bool) {
    if items == [] then !first
    else LegibleItem(items[0], ShowItems(items[1..]) + ("]" + after), first) && Legible(items[1..], after, false)
  }

  /** The character an element stands for, if any. */
  function Stands(e: Element, t: Tables): Option<char> {
    match e case Char(c) => Some(c) case Symbol(name) => t.collate(name)
  }

  /** Whether an item holds `c`. */
  predicate ItemHolds(item: Item, c: char, t: Tables) {
    match item
    case Single(e) => Stands(e, t) == Some(c)
    case Span(lo, hi) => Stands(lo, t).Some? && Stands(hi, t).Some? && Stands(lo, t).value <= c <= Stands(hi, t).value
    case Class(name) => Contains(t.members(name), c)
    case Equivalent(d) => c == d
    case IntoClass(_, _) => false
  }

  predicate ItemsHold(items: seq<Item>, c: char, t: Tables) {
    exists k :: 0 <= k < |items| && ItemHolds(items[k], c, t)
  }

  /** Whether globset lacks the item. */
  predicate Lacking(item: Item) {
    match item
    case Single(e) => e.Symbol?
    case Span(lo, hi) => lo.Symbol? || hi.Symbol?
    case Class(_) => true
    case Equivalent(_) => true
    case IntoClass(_, _) => true
  }

  /** What is seen once `item` is read. */
  function SeenWith(seen: Seen, item: Item, t: Tables): Seen {
    match item
    case Single(e) =>
      Seen(if Stands(e, t).Some? then AddRange(seen.ranges, (Stands(e, t).value, Stands(e, t).value)) else seen.ranges,
        seen.rewrite || Lacking(item), seen.intoClass)
    case Span(lo, hi) =>
      Seen(Spanned(seen.ranges, Stands(lo, t), Stands(hi, t)), seen.rewrite || Lacking(item), seen.intoClass)
    case Class(name) => Seen(AddAll(seen.ranges, t.members(name)), true, seen.intoClass)
    case Equivalent(c) => Seen(AddRange(seen.ranges, (c, c)), true, seen.intoClass)
    case IntoClass(_, _) => Seen(seen.ranges, true, true)
  }

  function SeenAll(seen: Seen, items: seq<Item>, t: Tables): Seen
    decreases |items|
  {
    if items == [] then seen else SeenAll(SeenWith(seen, items[0], t), items[1..], t)
  }

  // ------------------------------------------------- the grammar reads as shown

  lemma {:induction false} SymbolEnds(name: Text, rest: Text, k: nat)
    requires k <= |name| && forall i | 0 <= i < |name| - 1 :: !(name[i] == '.' && name[i + 1] == ']')
    ensures SymbolEnd(name + ".]" + rest, k) == Some(|name|)
    decreases |name| - k
  {
    var all := name + ".]" + rest;
    assert all[|name|] == '.' && all[|name| + 1] == ']';
    if k < |name| {
      assert all[k] == name[k] && (k + 1 < |name| ==> all[k + 1] == name[k + 1]);
      SymbolEnds(name, rest, k + 1);
    }
  }

  lemma {:induction false} SymbolReads(name: Text, rest: Text, t: Tables)
    requires forall i | 0 <= i < |name| - 1 :: !(name[i] == '.' && name[i + 1] == ']')
    ensures SymbolAt(ShowElement(Symbol(name)) + rest, t) == Some((t.collate(name), |name| + 4))
  {
    var all, inner := ShowElement(Symbol(name)) + rest, name + ".]" + rest;
    assert all[0] == '[' && all[1] == '.' && all[2..] == inner;
    SymbolEnds(name, rest, 0);
    assert inner[..|name|] == name;
  }

  /** An element at the front of a text is read as what it stands for. */
  lemma {:induction false} ElementReads(e: Element, rest: Text, t: Tables)
    requires LegibleElement(e, rest)
    ensures EndAt(ShowElement(e) + rest, t) == (Stands(e, t), |ShowElement(e)|, e.Symbol?)
    ensures ClassAt(ShowElement(e) + rest).None? && EquivalenceAt(ShowElement(e) + rest).None?
  {
    var all := ShowElement(e) + rest;
    match e
    case Char(c) =>
      assert all[0] == c && (rest != [] ==> all[1] == rest[0]);
    case Symbol(name) =>
      SymbolReads(name, rest, t);
      assert all[0] == '[' && all[1] == '.';
  }

  lemma {:induction false} ClassNames(name: Text, rest: Text, k: nat)
    requires k <= |name| && ']' !in name
    ensures ClassName(name + ":]" + rest, k) == Some((name, |name| + 2))
    decreases |name| - k
  {
    var all := name + ":]" + rest;
    assert all[|name|] == ':' && all[|name| + 1] == ']' && all[..|name|] == name;
    if k < |name| {
      assert all[k] == name[k] && name[k] in name;
      assert k + 1 < |name| ==> all[k + 1] == name[k + 1] && name[k + 1] in name;
      ClassNames(name, rest, k + 1);
    }
  }

  lemma {:induction false} ClassReads(name: Text, rest: Text)
    requires ']' !in name
    ensures ClassAt(ShowClass(name) + rest) == Some((name, |name| + 4))
  {
    var all := ShowClass(name) + rest;
    assert all[0] == '[' && all[1] == ':' && all[2..] == name + ":]" + rest;
    ClassNames(name, rest, 0);
  }

  lemma {:induction false} Dashed(all: Text, shown: Text, after: Text)
    requires all == shown + ("-" + after) && after != []
    ensures var n := |shown|; n + 1 < |all| && all[n] == '-' && all[n + 1] == after[0] && all[n + 1..] == after
  {
  }

  /** The member `shown` and a dash before `after` opens a range to what `after`
      begins with. */
  lemma {:induction false} DashedReads(all: Text, lo: Element, after: Text, seen: Seen, t: Tables)
    requires all == ShowElement(lo) + ("-" + after) && after != [] && after[0] != ']' && LegibleElement(lo, "-")
    ensures var n, read := |ShowElement(lo)|, seen.(rewrite := seen.rewrite || lo.Symbol?);
      MemberAt(all, seen, t) ==
        if ClassAt(after).Some? then (read.(rewrite := true, intoClass := true), n + 1 + ClassAt(after).value.1)
        else
          var (hi, more, also) := EndAt(after, t);
          (read.(ranges := Spanned(seen.ranges, Stands(lo, t), hi), rewrite := read.rewrite || also), n + 1 + more)
  {
    assert LegibleElement(lo, "-" + after);
    ElementReads(lo, "-" + after, t);
    Dashed(all, ShowElement(lo), after);
  }

  lemma {:induction false} Regrouped(a: Text, b: Text, c: Text)
    ensures a + ("-" + b) + c == a + ("-" + (b + c))
  {
  }

  lemma {:induction false} FirstOf(a: Text, b: Text)
    requires a != []
    ensures a + b != [] && (a + b)[0] == a[0]
  {
  }

  lemma {:induction false} SpanReads(lo: Element, hi: Element, rest: Text, first: bool, seen: Seen, t: Tables)
    requires LegibleItem(Span(lo, hi), rest, first)
    ensures MemberAt(ShowItem(Span(lo, hi)) + rest, seen, t) ==
      (SeenWith(seen, Span(lo, hi), t), |ShowItem(Span(lo, hi))|)
  {
    Regrouped(ShowElement(lo), ShowElement(hi), rest);
    FirstOf(ShowElement(hi), rest);
    ElementReads(hi, rest, t);
    DashedReads(ShowItem(Span(lo, hi)) + rest, lo, ShowElement(hi) + rest, seen, t);
  }

  lemma {:induction false} IntoClassReads(lo: Element, name: Text, rest: Text, first: bool, seen: Seen, t: Tables)
    requires LegibleItem(IntoClass(lo, name), rest, first)
    ensures MemberAt(ShowItem(IntoClass(lo, name)) + rest, seen, t) ==
      (SeenWith(seen, IntoClass(lo, name), t), |ShowItem(IntoClass(lo, name))|)
  {
    Regrouped(ShowElement(lo), ShowClass(name), rest);
    FirstOf(ShowClass(name), rest);
    ClassReads(name, rest);
    DashedReads(ShowItem(IntoClass(lo, name)) + rest, lo, ShowClass(name) + rest, seen, t);
  }

  lemma {:induction false} SingleReads(e: Element, rest: Text, first: bool, seen: Seen, t: Tables)
    requires LegibleItem(Single(e), rest, first)
    ensures MemberAt(ShowItem(Single(e)) + rest, seen, t) == (SeenWith(seen, Single(e), t), |ShowItem(Single(e))|)
  {
    var all, n := ShowElement(e) + rest, |ShowElement(e)|;
    ElementReads(e, rest, t);
    assert n + 1 < |all| ==> all[n] == rest[0] && all[n + 1] == rest[1];
  }

  /** Each item is read as itself. */
  lemma {:induction false} ItemReads(item: Item, rest: Text, first: bool, seen: Seen, t: Tables)
    requires LegibleItem(item, rest, first)
    ensures MemberAt(ShowItem(item) + rest, seen, t) == (SeenWith(seen, item, t), |ShowItem(item)|)
    ensures !((ShowItem(item) + rest)[0] == ']' && !first)
  {
    match item
    case Single(e) => SingleReads(e, rest, first, seen, t);
    case Span(lo, hi) => SpanReads(lo, hi, rest, first, seen, t);
    case Class(name) => ClassReads(name, rest);
    case Equivalent(c) =>
      var all := ShowItem(item) + rest;
      assert all[0] == '[' && all[1] == '=' && all[2] == c && all[3] == '=' && all[4] == ']';
    case IntoClass(lo, name) => IntoClassReads(lo, name, rest, first, seen, t);
  }

  /** And so are all of them, up to the close. */
  lemma {:induction false} ItemsRead(items: seq<Item>, after: Text, first: bool, seen: Seen, t: Tables)
    requires Legible(items, after, first)
    ensures Scan(ShowItems(items) + ("]" + after), first, seen, t) == Some((SeenAll(seen, items, t), after))
    decreases |items|
  {
    if items == [] {
      assert ShowItems(items) + ("]" + after) == "]" + after;
      assert ("]" + after)[1..] == after;
    } else {
      var rest := ShowItems(items[1..]) + ("]" + after);
      assert ShowItems(items) + ("]" + after) == ShowItem(items[0]) + rest;
      ItemReads(items[0], rest, first, seen, t);
      assert (ShowItem(items[0]) + rest)[|ShowItem(items[0])|..] == rest;
      ItemsRead(items[1..], after, false, SeenWith(seen, items[0], t), t);
    }
  }

  // ------------------------------------------------------------------ meaning

  lemma {:induction false} AddHolds(ranges: seq<Range>, r: Range, c: char)
    ensures Contains(AddRange(ranges, r), c) <==> Contains(ranges, c) || Holds(r, c)
  {
    if r in ranges {
      var k :| 0 <= k < |ranges| && ranges[k] == r;
    } else {
      ContainsConcat(ranges, [r], c);
      ContainsOne(r, c);
    }
  }

  lemma {:induction false} AddAllHolds(ranges: seq<Range>, more: seq<Range>, c: char)
    ensures Contains(AddAll(ranges, more), c) <==> Contains(ranges, c) || Contains(more, c)
    decreases |more|
  {
    if more != [] {
      AddAllHolds(AddRange(ranges, more[0]), more[1..], c);
      AddHolds(ranges, more[0], c);
      assert more == [more[0]] + more[1..];
      ContainsConcat([more[0]], more[1..], c);
      ContainsOne(more[0], c);
    }
  }

  lemma {:induction false} SeenHolds(seen: Seen, item: Item, t: Tables, c: char)
    ensures Contains(SeenWith(seen, item, t).ranges, c) <==> Contains(seen.ranges, c) || ItemHolds(item, c, t)
  {
    match item
    case Single(e) =>
      if Stands(e, t).Some? {
        AddHolds(seen.ranges, (Stands(e, t).value, Stands(e, t).value), c);
      }
    case Span(lo, hi) =>
      if Stands(lo, t).Some? && Stands(hi, t).Some? {
        AddHolds(seen.ranges, (Stands(lo, t).value, Stands(hi, t).value), c);
      }
    case Class(name) => AddAllHolds(seen.ranges, t.members(name), c);
    case Equivalent(d) => AddHolds(seen.ranges, (d, d), c);
    case IntoClass(_, _) =>
  }

  lemma {:induction false} SeenAllHolds(seen: Seen, items: seq<Item>, t: Tables, c: char)
    ensures Contains(SeenAll(seen, items, t).ranges, c) <==> Contains(seen.ranges, c) || ItemsHold(items, c, t)
    ensures SeenAll(seen, items, t).rewrite <==> seen.rewrite || exists k :: 0 <= k < |items| && Lacking(items[k])
    ensures SeenAll(seen, items, t).intoClass <==> seen.intoClass || exists k :: 0 <= k < |items| && items[k].IntoClass?
    decreases |items|
  {
    if items != [] {
      var rest := items[1..];
      SeenHolds(seen, items[0], t, c);
      SeenAllHolds(SeenWith(seen, items[0], t), rest, t, c);
      assert forall k | 0 <= k < |rest| :: rest[k] == items[k + 1];
      assert forall k | 0 < k < |items| :: items[k] == rest[k - 1];
    }
  }

  /** A bracket expression as written, with either mark of negation. */
  function ShowBracket(mark: Option<char>, items: seq<Item>): Text {
    "[" + Marked(mark) + ShowItems(items) + "]"
  }

  /** A bracket expression of the grammar before `after`. */
  ghost predicate WellWritten(mark: Option<char>, items: seq<Item>, after: Text) {
    && Legible(items, after, true)
    && if mark.Some? then Negation(mark.value) else !Negation((ShowItems(items) + "]")[0])
  }

  /** The whole bracket is read, and rewritten only when globset lacks an item. */
  lemma {:induction false} BracketReads(mark: Option<char>, items: seq<Item>, after: Text, t: Tables)
    requires WellWritten(mark, items, after)
    ensures BracketAt(ShowBracket(mark, items) + after, t) ==
      Some((after, Rewrite(mark.Some?, SeenAll(NOTHING, items, t))))
  {
    var shown, inside := ShowItems(items), ShowItems(items) + ("]" + after);
    ItemsRead(items, after, true, NOTHING, t);
    ClosedFirst(shown, after);
    Opened(mark, shown, after);
    OpenedScans(mark, inside, ShowBracket(mark, items) + after, t);
  }

  lemma {:induction false} ClosedFirst(shown: Text, after: Text)
    ensures (shown + ("]" + after))[0] == (shown + "]")[0]
  {
  }

  lemma {:induction false} Opened(mark: Option<char>, shown: Text, after: Text)
    ensures "[" + Marked(mark) + shown + "]" + after == "[" + Marked(mark) + (shown + ("]" + after))
  {
  }

  function Marked(mark: Option<char>): Text { if mark.Some? then [mark.value] else [] }

  lemma {:induction false} OpenedScans(mark: Option<char>, inside: Text, all: Text, t: Tables)
    requires all == "[" + Marked(mark) + inside && inside != []
    requires if mark.Some? then Negation(mark.value) else !Negation(inside[0])
    ensures BracketAt(all, t) ==
      match Scan(inside, true, NOTHING, t)
      case None => None
      case Some((seen, rest)) => Some((rest, Rewrite(mark.Some?, seen)))
  {
    assert (if mark.Some? then all[2..] else all[1..]) == inside;
    assert mark.None? ==> all[1] == inside[0];
  }

  /**
   A rewritten bracket means what was written: read by globset it matches a
   character exactly when the items hold it, or when they do not if negated; a
   range ending in a class makes it match nothing; the separator is never
   matched. (NUL, which no path holds, is not spoken for.)
   */
  lemma {:induction false} RewriteMeans(mark: Option<char>, items: seq<Item>, after: Text, t: Tables, c: char)
    requires WellWritten(mark, items, after) && exists k :: 0 <= k < |items| && Lacking(items[k])
    ensures var rewritten := Rewrite(mark.Some?, SeenAll(NOTHING, items, t));
      && BracketAt(ShowBracket(mark, items) + after, t) == Some((after, rewritten))
      && rewritten.Some? && rewritten.value != [] && rewritten.value[0] == '['
      && ReadBracket(rewritten.value + after).Some?
      && ReadBracket(rewritten.value + after).value.1 == after
      && var b := ReadBracket(rewritten.value + after).value.0;
        var nothing := exists k :: 0 <= k < |items| && items[k].IntoClass?;
        && !Matches(b, '/')
        && (c != '/' && c != 0 as char ==> (Matches(b, c) <==> !nothing && ItemsHold(items, c, t) != mark.Some?))
  {
    var seen := SeenAll(NOTHING, items, t);
    BracketReads(mark, items, after, t);
    SeenAllHolds(NOTHING, items, t, c);
    RewrittenReads(mark.Some?, seen, after, c);
  }

  lemma {:induction false} RewrittenReads(negated: bool, seen: Seen, after: Text, c: char)
    requires seen.rewrite
    ensures var rewritten := Rewrite(negated, seen);
      && rewritten.Some? && rewritten.value != [] && rewritten.value[0] == '['
      && ReadBracket(rewritten.value + after).Some?
      && ReadBracket(rewritten.value + after).value.1 == after
      && var b := ReadBracket(rewritten.value + after).value.0;
        && !Matches(b, '/')
        && (c != '/' && c != 0 as char ==> (Matches(b, c) <==> !seen.intoClass && Contains(seen.ranges, c) != negated))
  {
    if seen.intoClass {
      NulReads(after);
      ContainsOne((0 as char, 0 as char), c);
      ContainsOne((0 as char, 0 as char), '/');
    } else {
      RenderMeans(negated, seen.ranges, after, c);
    }
  }

  lemma {:induction false} NulReads(after: Text)
    ensures ReadBracket(['[', 0 as char, ']'] + after) == Some((Bracket(false, [(0 as char, 0 as char)]), after))
  {
    var nul := 0 as char;
    var all := ['[', nul, ']'] + after;
    assert all[1..] == [nul, ']'] + after && ([nul, ']'] + after)[1..] == [']'] + after &&
      ([']'] + after)[1..] == after;
    assert [] + [(nul, nul)] == [(nul, nul)];
    assert Members(all[1..], [], true, false) == Members([']'] + after, [(nul, nul)], false, false);
  }

  /** In a whole pattern only such brackets change. */
  lemma {:induction false} BracketExpands(mark: Option<char>, items: seq<Item>, after: Text, t: Tables)
    requires WellWritten(mark, items, after)
    ensures var shown, rewritten := ShowBracket(mark, items), Rewrite(mark.Some?, SeenAll(NOTHING, items, t));
      && Expanded(shown + after, t) == (if rewritten.Some? then rewritten.value else shown) + Expanded(after, t)
      && (rewritten.Some? <==> exists k :: 0 <= k < |items| && Lacking(items[k]))
  {
    var all := ShowBracket(mark, items) + after;
    BracketReads(mark, items, after, t);
    SeenAllHolds(NOTHING, items, t, '/');
    assert all[..|all| - |after|] == ShowBracket(mark, items);
  }

  lemma {:induction false} NoBracketNoChange(text: Text, t: Tables)
    requires '[' !in text
    ensures Expanded(text, t) == text
    decreases |text|
  {
    if text != [] {
      assert text[0] in text;
      if text[0] == '\\' && |text| > 1 {
        NoBracketNoChange(text[2..], t);
      } else {
        NoBracketNoChange(text[1..], t);
      }
    }
  }
}
