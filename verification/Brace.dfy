/**
 How a path pattern's braces expand, as bash has it (brace.rs): a pattern expands to words,
 and each word becomes a globset pattern in which no brace is left that globset
 would read as an alternation of its own.
 */
module Brace {
  import opened Wrappers

  type Text = seq<char>

  datatype Stop = Close | Comma

  function Target(stop: Stop): char { if stop.Close? then '}' else ',' }

  // ------------------------------------------------------------------- groups

  /** `..` at `i`, and no closing brace right after it. */
  predicate OpensRange(text: Text, i: nat) {
    i + 1 < |text| && text[i] == '.' && text[i + 1] == '.' && !(i + 2 < |text| && text[i + 2] == '}')
  }

  /** How deep a scan is in nested groups, and whether a close may count. */
  datatype Scan = Scan(level: nat, closable: bool)

  function Past(text: Text, i: nat, scan: Scan): Scan
    requires i < |text|
  {
    var c := text[i];
    if c == '{' then scan.(level := scan.level + 1)
    else if c == '}' && scan.level > 0 then scan.(level := scan.level - 1)
    else if scan.level == 0 && (c == ',' || OpensRange(text, i)) then scan.(closable := true)
    else scan
  }

  /** The first `stop` outside nested groups from `i` on that no backslash
      escapes; the length of `text` when there is none. */
  function GobbleFrom(text: Text, i: nat, stop: Stop, scan: Scan): (at: nat)
    ensures at <= |text| && (at < |text| ==> i <= at && text[at] == Target(stop))
    decreases |text| - i
  {
    if i >= |text| then |text|
    else if text[i] == '\\' then GobbleFrom(text, i + 2, stop, scan)
    else if text[i] == Target(stop) && scan.level == 0 && scan.closable then i
    else GobbleFrom(text, i + 1, stop, Past(text, i, scan))
  }

  /** A close counts only once a comma or a range has been seen. */
  function Fresh(stop: Stop): Scan { Scan(0, !stop.Close?) }

  method Gobble(text: Text, from: nat, stop: Stop) returns (at: nat)
    ensures at == GobbleFrom(text, from, stop, Fresh(stop))
  {
    var level: nat, closable := 0, stop != Close;
    var escaped := false;
    var i := from;
    while i < |text|
      invariant GobbleFrom(text, if escaped then i + 1 else i, stop, Scan(level, closable)) ==
        GobbleFrom(text, from, stop, Fresh(stop))
    {
      var c := text[i];
      var keep := !escaped && c != '\\';
      escaped := !escaped && c == '\\';
      if keep {
        if c == Target(stop) && level == 0 && closable {
          return i;
        }
        if c == '{' {
          level := level + 1;
        } else if c == '}' && level > 0 {
          level := level - 1;
        } else if level == 0 && (c == ',' || OpensRange(text, i)) {
          closable := true;
        }
      }
      i := i + 1;
    }
    return |text|;
  }

  predicate AsciiSpace(c: char) { c == ' ' || c == '\t' || c == '\n' || c == '\r' || c == 12 as char }

  /** A brace at the start of a token before white space or a close is text. */
  predicate ShellBrace(text: Text, i: nat)
    requires i < |text|
  {
    && (i == 0 || AsciiSpace(text[i - 1]))
    && i + 1 < |text| && (AsciiSpace(text[i + 1]) || text[i + 1] == '}')
  }

  /** The first group from `i` on: where it opens and closes. */
  function Group(text: Text, i: nat): (group: Option<(nat, nat)>)
    ensures group.Some? ==> i <= group.value.0 < group.value.1 < |text|
    ensures group.Some? ==> text[group.value.0] == '{' && text[group.value.1] == '}'
    ensures group.Some? && (group.value.0 == 0 || AsciiSpace(text[group.value.0 - 1])) ==>
      !AsciiSpace(text[group.value.0 + 1]) && group.value.0 + 1 < group.value.1
    decreases |text| - i
  {
    if i >= |text| then None
    else if text[i] == '\\' then Group(text, i + 2)
    else
      var close := GobbleFrom(text, i + 1, Close, Fresh(Close));
      if text[i] == '{' && !ShellBrace(text, i) && close < |text| then Some((i, close)) else Group(text, i + 1)
  }

  /** Whether some unescaped character from `i` on is a comma. */
  predicate HasComma(text: Text, i: nat)
    decreases |text| - i
  {
    i < |text| && if text[i] == '\\' then HasComma(text, i + 2) else text[i] == ',' || HasComma(text, i + 1)
  }

  // ---------------------------------------------------------------- sequences

  const I64_MAX: int := 0x7FFF_FFFF_FFFF_FFFF
  const I64_MIN: int := -0x8000_0000_0000_0000
  const I32_MAX: int := 0x7FFF_FFFF

  predicate IsI64(n: int) { I64_MIN <= n <= I64_MAX }

  function Abs(n: int): (r: nat) { if n < 0 then -n else n }

  function Signum(n: int): int { if n < 0 then -1 else if n == 0 then 0 else 1 }

  function Stride(step: int): (r: nat)
    ensures r > 0
  {
    if Abs(step) == 0 then 1 else Abs(step)
  }

  /** From `lo` to `hi` in steps of `|step|`; `None` past the count bash refuses. */
  function Steps(lo: int, hi: int, step: int): Option<seq<int>> {
    var stride, distance := Stride(step), hi - lo;
    if Abs(distance) / stride > I32_MAX - 3 then None
    else
      var signed := stride * Signum(distance);
      Some(seq(Abs(distance) / stride + 1, k requires 0 <= k < Abs(distance) / stride + 1 => lo + k * signed))
  }

  lemma {:induction false} StepWithin(distance: int, stride: nat, k: nat)
    requires stride > 0 && k <= Abs(distance) / stride
    ensures k * (stride * Signum(distance)) == Signum(distance) * (k * stride)
    ensures k * stride <= Abs(distance)
    ensures Abs(distance) - (Abs(distance) / stride) * stride < stride
  {
    var n := Abs(distance) / stride;
    assert Abs(distance) == n * stride + Abs(distance) % stride;
    assert k * stride <= n * stride;
  }

  /** Term `k` is `k` strides from `lo` towards `hi`, and not past it. */
  lemma {:induction false} StepAt(lo: int, hi: int, step: int, k: nat)
    requires Steps(lo, hi, step).Some? && k < |Steps(lo, hi, step).value|
    ensures Steps(lo, hi, step).value[k] == lo + Signum(hi - lo) * (k * Stride(step))
    ensures k * Stride(step) <= Abs(hi - lo)
  {
    StepWithin(hi - lo, Stride(step), k);
  }

  lemma {:induction false} Next(a: nat, stride: nat, sign: int)
    ensures sign * ((a + 1) * stride) == sign * (a * stride) + sign * stride
  {
    assert (a + 1) * stride == a * stride + stride;
  }

  lemma {:induction false} StepWithinEnds(lo: int, hi: int, step: int, k: nat)
    requires Steps(lo, hi, step).Some? && k < |Steps(lo, hi, step).value|
    ensures var term := Steps(lo, hi, step).value[k]; if lo <= hi then lo <= term <= hi else hi <= term <= lo
  {
    StepAt(lo, hi, step, k);
  }

  lemma {:induction false} StepsApart(lo: int, hi: int, step: int, j: nat, k: nat)
    requires Steps(lo, hi, step).Some? && k == j + 1 && k < |Steps(lo, hi, step).value|
    ensures var terms := Steps(lo, hi, step).value; terms[k] == terms[j] + Signum(hi - lo) * Stride(step)
  {
    StepAt(lo, hi, step, j);
    StepAt(lo, hi, step, k);
    Next(j, Stride(step), Signum(hi - lo));
  }

  lemma {:induction false} StepsEnds(lo: int, hi: int, step: int)
    requires Steps(lo, hi, step).Some?
    ensures var terms := Steps(lo, hi, step).value;
      1 <= |terms| <= I32_MAX - 2 && terms[0] == lo && Abs(hi - terms[|terms| - 1]) < Stride(step)
  {
    var terms := Steps(lo, hi, step).value;
    StepAt(lo, hi, step, 0);
    StepAt(lo, hi, step, |terms| - 1);
    StepWithin(hi - lo, Stride(step), |terms| - 1);
  }

  /**
   An accepted range: no more terms than bash allows, from `lo` strictly towards
   `hi`, never past either end, the last less than one stride short.
   */
  lemma {:induction false} StepsRun(lo: int, hi: int, step: int)
    requires Steps(lo, hi, step).Some?
    ensures var terms, stride := Steps(lo, hi, step).value, Stride(step);
      && 1 <= |terms| <= I32_MAX - 2 && terms[0] == lo
      && (forall k | 0 <= k < |terms| :: (if lo <= hi then lo <= terms[k] <= hi else hi <= terms[k] <= lo))
      && (forall j, k | 0 <= j && k == j + 1 && k < |terms| ::
        if lo <= hi then terms[k] == terms[j] + stride else terms[k] == terms[j] - stride)
      && Abs(hi - terms[|terms| - 1]) < stride
  {
    var terms := Steps(lo, hi, step).value;
    StepsEnds(lo, hi, step);
    forall k | 0 <= k < |terms| ensures if lo <= hi then lo <= terms[k] <= hi else hi <= terms[k] <= lo {
      StepWithinEnds(lo, hi, step, k);
    }
    forall j, k | 0 <= j && k == j + 1 && k < |terms| ensures terms[k] == terms[j] + Signum(hi - lo) * Stride(step) {
      StepsApart(lo, hi, step, j, k);
    }
  }

  /** Between 64-bit ends every term fits 64 bits, and between letters every
      term is a byte, so none is dropped. */
  lemma {:induction false} StepsFit(lo: int, hi: int, step: int, k: nat)
    requires Steps(lo, hi, step).Some? && k < |Steps(lo, hi, step).value|
    ensures IsI64(lo) && IsI64(hi) ==> IsI64(Steps(lo, hi, step).value[k])
    ensures 0 <= lo < 256 && 0 <= hi < 256 ==> 0 <= Steps(lo, hi, step).value[k] < 256
  {
    StepsRun(lo, hi, step);
  }

  datatype Term = Int(n: int) | Letter(c: char)

  predicate Digit(c: char) { '0' <= c <= '9' }

  predicate AsciiLetter(c: char) { 'a' <= c <= 'z' || 'A' <= c <= 'Z' }

  /** How many digits there are from `i` on. */
  function Digits(s: Text, i: nat): (n: nat)
    requires i <= |s|
    ensures i + n <= |s|
    decreases |s| - i
  {
    if i == |s| || !Digit(s[i]) then 0 else 1 + Digits(s, i + 1)
  }

  function DigitValue(c: char): (n: nat)
    ensures n < 10
  {
    if Digit(c) then c as int - 48 else 0
  }

  predicate AllDigits(s: Text) { forall k | 0 <= k < |s| :: Digit(s[k]) }

  /** The value of the decimal digits from `from` to `to`. */
  function Decimal(s: Text, from: nat, to: nat): nat
    requires to <= |s|
  {
    if to <= from then 0 else Decimal(s, from, to - 1) * 10 + DigitValue(s[to - 1])
  }

  function Value(s: Text): nat { Decimal(s, 0, |s|) }

  /** A 64-bit integer: a sign, digits, and nothing else. */
  function ParseI64(s: Text): (n: Option<int>)
    ensures n.Some? ==> IsI64(n.value)
  {
    var from := if s != [] && (s[0] == '+' || s[0] == '-') then 1 else 0;
    if from == |s| || from + Digits(s, from) < |s| then None
    else
      var n: int := if s[0] == '-' then -(Decimal(s, from, |s|) as int) else Decimal(s, from, |s|);
      if IsI64(n) then Some(n) else None
  }

  /** The length of a sign and the digits after it. */
  function NumberPrefix(s: Text): (n: nat)
    requires s != []
    ensures n <= |s|
  {
    if s[0] == '+' || s[0] == '-' then 1 + Digits(s, 1) else Digits(s, 0)
  }

  predicate ZeroPadded(s: Text) {
    (|s| > 1 && s[0] == '0') || (|s| > 2 && s[0] == '-' && s[1] == '0')
  }

  function Most(a: nat, b: nat): nat { if a < b then b else a }

  function PadWidth(lhs: Text, rhs: Text): nat {
    if ZeroPadded(lhs) || ZeroPadded(rhs) then Most(|lhs|, |rhs|) else 0
  }

  function ToDigits(n: nat): (s: Text)
    ensures s != []
  {
    (if n < 10 then [] else ToDigits(n / 10)) + [(48 + n % 10) as char]
  }

  function Zeros(n: nat): (s: Text)
    ensures |s| == n
  {
    seq(n, _ => '0')
  }

  function Sign(n: int): Text { if n < 0 then "-" else "" }

  function PaddedDigits(n: int, width: nat): (s: Text)
    ensures s != [] && |Sign(n)| + |s| >= width
  {
    var sign, digits := |Sign(n)|, ToDigits(Abs(n));
    Zeros(if sign + |digits| < width then width - sign - |digits| else 0) + digits
  }

  /** `n` in decimal, its digits padded with zeros to `width` in all. */
  function Format(n: int, width: nat): Text { Sign(n) + PaddedDigits(n, width) }

  function Find(s: Text, i: nat): (at: Option<nat>)
    ensures at.Some? ==> at.value + 1 < |s| && s[at.value] == '.' && s[at.value + 1] == '.'
    decreases |s| - i
  {
    if i + 1 >= |s| then None
    else if s[i] == '.' && s[i + 1] == '.' then Some(i)
    else Find(s, i + 1)
  }

  /** The far end of a range, and how much text it takes. */
  function EndTerm(rhs: Text): (end: Option<(Term, nat)>)
    requires rhs != []
    ensures end.Some? ==> end.value.1 <= |rhs|
  {
    var digits := NumberPrefix(rhs);
    if ParseI64(rhs[..digits]).Some? then Some((Int(ParseI64(rhs[..digits]).value), digits))
    else if AsciiLetter(rhs[0]) && (|rhs| == 1 || rhs[1] == '.') then Some((Letter(rhs[0]), 1))
    else None
  }

  function StepOf(tail: Text): Option<int> {
    if tail == [] then Some(1)
    else if |tail| > 2 && tail[0] == '.' && tail[1] == '.' then ParseI64(tail[2..])
    else None
  }

  function StartTerm(lhs: Text): Option<Term> {
    if ParseI64(lhs).Some? then Some(Int(ParseI64(lhs).value))
    else if |lhs| == 1 && AsciiLetter(lhs[0]) then Some(Letter(lhs[0]))
    else None
  }

  /** The range `{lo..hi}` or `{lo..hi..step}` expands to; `None` when the text
      is no range. */
  function Sequence(amble: Text): (words: Option<seq<Text>>)
    ensures words.Some? ==> words.value != []
  {
    var at := Find(amble, 0);
    if at.None? then None
    else
      var lhs, rhs := amble[..at.value], amble[at.value + 2..];
      if lhs == [] || rhs == [] then None
      else
        var end := EndTerm(rhs);
        if end.None? then None
        else
          var (hi, len) := end.value;
          var step, lo := StepOf(rhs[len..]), StartTerm(lhs);
          if step.None? || lo.None? then None
          else
            match (lo.value, hi)
            case (Int(from), Int(to)) => Integers(from, to, step.value, PadWidth(lhs, rhs[..len]))
            case (Letter(from), Letter(to)) => Letters(from, to, step.value)
            case _ => None
  }

  function Integers(from: int, to: int, step: int, width: nat): (words: Option<seq<Text>>)
    ensures words.Some? ==> words.value != []
  {
    var terms := Steps(from, to, step);
    if terms.None? then None
    else Some(seq(|terms.value|, k requires 0 <= k < |terms.value| => Format(terms.value[k], width)))
  }

  /** Every term is a letter's code or lies between two. */
  function Letters(from: char, to: char, step: int): (words: Option<seq<Text>>)
    requires AsciiLetter(from) && AsciiLetter(to)
    ensures words.Some? ==> words.value != []
  {
    var terms := Steps(from as int, to as int, step);
    if terms.None? then None
    else
      Some(seq(|terms.value|, k requires 0 <= k < |terms.value| =>
        StepsFit(from as int, to as int, step, k); [terms.value[k] as char]))
  }

  lemma {:induction false} ToDigitsAreDigits(n: nat)
    ensures AllDigits(ToDigits(n))
  {
    if n >= 10 {
      ToDigitsAreDigits(n / 10);
    }
  }

  lemma {:induction false} PaddedAreDigits(n: int, width: nat)
    ensures AllDigits(PaddedDigits(n, width))
  {
    ToDigitsAreDigits(Abs(n));
  }

  lemma {:induction false} SameDigits(a: Text, b: Text, i: nat, j: nat, n: nat)
    requires i + n <= |a| && j + n <= |b| && a[i..i + n] == b[j..j + n]
    ensures Decimal(a, i, i + n) == Decimal(b, j, j + n)
  {
    if n > 0 {
      assert a[i..i + n][..n - 1] == a[i..i + (n - 1)] && b[j..j + n][..n - 1] == b[j..j + (n - 1)];
      assert a[i..i + n][n - 1] == a[i + n - 1] && b[j..j + n][n - 1] == b[j + n - 1];
      SameDigits(a, b, i, j, n - 1);
    }
  }

  lemma {:induction false} ZerosAddNothing(s: Text, n: nat, to: nat)
    requires n <= to <= |s| && forall k | 0 <= k < n :: s[k] == '0'
    ensures Decimal(s, 0, to) == Decimal(s, n, to)
  {
    if to > 0 {
      ZerosAddNothing(s, if n == to then n - 1 else n, to - 1);
    }
  }

  /** Digits, padded or not, are worth their number. */
  lemma {:induction false} PaddedValue(n: int, width: nat)
    ensures Value(PaddedDigits(n, width)) == Abs(n)
  {
    var digits, all := ToDigits(Abs(n)), PaddedDigits(n, width);
    var zeros := |all| - |digits|;
    DigitsReadBack(Abs(n));
    ZerosAddNothing(all, zeros, |all|);
    assert all[zeros..zeros + |digits|] == digits[0..|digits|];
    SameDigits(all, digits, zeros, 0, |digits|);
  }

  lemma {:induction false} DigitsReadBack(n: nat)
    ensures Value(ToDigits(n)) == n
  {
    var s := ToDigits(n);
    assert DigitValue((48 + n % 10) as char) == n % 10;
    if n >= 10 {
      DigitsReadBack(n / 10);
      assert s[0..|s| - 1] == ToDigits(n / 10)[0..|s| - 1];
      SameDigits(s, ToDigits(n / 10), 0, 0, |s| - 1);
    } else {
      assert Decimal(s, 0, 1) == Decimal(s, 0, 0) * 10 + DigitValue(s[0]);
    }
  }

  lemma {:induction false} DigitsStop(s: Text, i: nat, end: nat)
    requires i <= end <= |s| && (forall k | i <= k < end :: Digit(s[k])) && (end < |s| ==> !Digit(s[end]))
    ensures Digits(s, i) == end - i
    decreases end - i
  {
    if i < end {
      DigitsStop(s, i + 1, end);
    }
  }

  lemma {:induction false} SignedReads(digits: Text, n: int, s: Text)
    requires digits != [] && AllDigits(digits) && IsI64(n)
    requires Value(digits) == Abs(n) && s == Sign(n) + digits
    ensures ParseI64(s) == Some(n)
  {
    var from := |Sign(n)|;
    assert s[from..from + |digits|] == digits[0..|digits|];
    assert forall k | from <= k < |s| :: s[k] == digits[k - from];
    SameDigits(s, digits, from, 0, |digits|);
    DigitsStop(s, from, |s|);
    assert n >= 0 ==> Digit(s[0]);
  }

  /** Every integer term, padded or not, reads as its value. */
  lemma {:induction false} FormatReadsBack(n: int, width: nat)
    requires IsI64(n)
    ensures ParseI64(Format(n, width)) == Some(n) && |Format(n, width)| >= width
  {
    PaddedAreDigits(n, width);
    PaddedValue(n, width);
    SignedReads(PaddedDigits(n, width), n, Format(n, width));
  }

  // ------------------------------------------------------- ranges read as written

  /** A written number ends where its digits do. */
  lemma {:induction false} FormatStops(n: int, width: nat, rest: Text)
    requires rest != [] ==> !Digit(rest[0])
    ensures NumberPrefix(Format(n, width) + rest) == |Format(n, width)|
  {
    var s, digits := Format(n, width) + rest, PaddedDigits(n, width);
    PaddedAreDigits(n, width);
    if n < 0 {
      assert s == "-" + digits + rest;
      DigitsStop(s, 1, |Format(n, width)|);
    } else {
      assert s == digits + rest && Digit(s[0]);
      DigitsStop(s, 0, |Format(n, width)|);
    }
  }

  lemma {:induction false} FindSkips(text: Text, rest: Text, i: nat)
    requires '.' !in text && i <= |text|
    ensures Find(text + (".." + rest), i) == Some(|text|)
    decreases |text| - i
  {
    var s := text + (".." + rest);
    if i < |text| {
      assert s[i] == text[i];
      FindSkips(text, rest, i + 1);
    } else {
      assert s[i] == '.' && s[i + 1] == '.';
    }
  }

  lemma {:induction false} FormatHasNoDot(n: int, width: nat)
    ensures '.' !in Format(n, width) && Format(n, width) != []
  {
    PaddedAreDigits(n, width);
  }

  /** An end of a range that can be written: a 64-bit integer or a letter. */
  predicate Writable(end: Term) {
    match end case Int(n) => IsI64(n) case Letter(c) => AsciiLetter(c)
  }

  /** An end as written, an integer padded to `width`. */
  function Written(end: Term, width: nat): Text {
    match end case Int(n) => Format(n, width) case Letter(c) => [c]
  }

  /** What is written after the ends: nothing, or a step. */
  function Tail(step: Option<(int, nat)>): Text {
    if step.None? then [] else ".." + Format(step.value.0, step.value.1)
  }

  function Range(from: Text, to: Text, tail: Text): Text { from + (".." + (to + tail)) }

  lemma {:induction false} RangeParts(from: Text, to: Text, tail: Text)
    ensures Range(from, to, tail)[..|from|] == from && Range(from, to, tail)[|from| + 2..] == to + tail
    ensures (to + tail)[..|to|] == to && (to + tail)[|to|..] == tail
  {
  }

  lemma {:induction false} WrittenHasNoDot(end: Term, width: nat)
    requires Writable(end)
    ensures '.' !in Written(end, width) && Written(end, width) != []
  {
    if end.Int? {
      FormatHasNoDot(end.n, width);
    }
  }

  lemma {:induction false} StartReads(lo: Term, width: nat)
    requires Writable(lo)
    ensures StartTerm(Written(lo, width)) == Some(lo)
  {
    if lo.Int? {
      FormatReadsBack(lo.n, width);
    }
  }

  lemma {:induction false} EndReads(hi: Term, width: nat, tail: Text)
    requires Writable(hi) && (tail != [] ==> tail[0] == '.')
    ensures Written(hi, width) + tail != []
    ensures EndTerm(Written(hi, width) + tail) == Some((hi, |Written(hi, width)|))
  {
    var to := Written(hi, width);
    WrittenHasNoDot(hi, width);
    assert (to + tail)[..|to|] == to;
    if hi.Int? {
      FormatReadsBack(hi.n, width);
      FormatStops(hi.n, width, tail);
    } else {
      assert tail != [] ==> (to + tail)[1] == tail[0];
      assert (to + tail)[..0] == [];
    }
  }

  lemma {:induction false} TailReads(step: Option<(int, nat)>)
    requires step.Some? ==> IsI64(step.value.0)
    ensures StepOf(Tail(step)) == Some(if step.None? then 1 else step.value.0)
    ensures Tail(step) != [] ==> Tail(step)[0] == '.'
  {
    if step.Some? {
      FormatReadsBack(step.value.0, step.value.1);
      FormatHasNoDot(step.value.0, step.value.1);
      assert Tail(step)[2..] == Format(step.value.0, step.value.1);
    }
  }

  /** The words of a range between two terms, `None` when they are of two kinds. */
  function Between(lo: Term, hi: Term, step: int, width: nat): Option<seq<Text>>
    requires Writable(lo) && Writable(hi)
  {
    match (lo, hi)
    case (Int(from), Int(to)) => Integers(from, to, step, width)
    case (Letter(from), Letter(to)) => Letters(from, to, step)
    case _ => None
  }

  lemma {:induction false} SequenceOf(amble: Text, lhs: Text, lo: Term, rhs: Text, hi: Term, len: nat, step: int)
    requires Writable(lo) && Writable(hi)
    requires Find(amble, 0) == Some(|lhs|) && amble[..|lhs|] == lhs && amble[|lhs| + 2..] == rhs
    requires lhs != [] && StartTerm(lhs) == Some(lo)
    requires rhs != [] && EndTerm(rhs) == Some((hi, len)) && StepOf(rhs[len..]) == Some(step)
    ensures Sequence(amble) == Between(lo, hi, step, PadWidth(lhs, rhs[..len]))
  {
  }

  /**
   A range between written 64-bit integers or letters, with or without a step
   and with any padding, is recognised, and padded as its ends are; one from a
   letter to a number is none.
   */
  lemma {:induction false} RangeIsRead(lo: Term, lows: nat, hi: Term, highs: nat, step: Option<(int, nat)>)
    requires Writable(lo) && Writable(hi) && (step.Some? ==> IsI64(step.value.0))
    ensures var from, to := Written(lo, lows), Written(hi, highs);
      Sequence(Range(from, to, Tail(step))) ==
        Between(lo, hi, if step.None? then 1 else step.value.0, PadWidth(from, to))
  {
    var from, to, tail := Written(lo, lows), Written(hi, highs), Tail(step);
    WrittenHasNoDot(lo, lows);
    StartReads(lo, lows);
    TailReads(step);
    EndReads(hi, highs, tail);
    FindSkips(from, to + tail, 0);
    RangeParts(from, to, tail);
    SequenceOf(Range(from, to, tail), from, lo, to + tail, hi, |to|, if step.None? then 1 else step.value.0);
  }

  /** An accepted range's words are its terms in order, each reading back as its
      term and as wide as asked. */
  lemma {:induction false} IntegersReadBack(from: int, to: int, step: int, width: nat, k: nat)
    requires IsI64(from) && IsI64(to) && Integers(from, to, step, width).Some?
    requires k < |Integers(from, to, step, width).value|
    ensures Steps(from, to, step).Some? && |Steps(from, to, step).value| == |Integers(from, to, step, width).value|
    ensures var word := Integers(from, to, step, width).value[k];
      ParseI64(word) == Some(Steps(from, to, step).value[k]) && |word| >= width
  {
    StepsFit(from, to, step, k);
    FormatReadsBack(Steps(from, to, step).value[k], width);
  }

  // -------------------------------------------------------------------- words

  /** Each of `middle` before each of `rest`. */
  function Joined(preamble: Text, middle: seq<Text>, rest: seq<Text>): (words: seq<Text>)
    ensures middle != [] && rest != [] ==> words != []
  {
    if middle == [] then []
    else
      var init := Joined(preamble, middle[..|middle| - 1], rest);
      init + seq(|rest|, k requires 0 <= k < |rest| => preamble + middle[|middle| - 1] + rest[k])
  }

  lemma {:induction false} JoinedSize(preamble: Text, middle: seq<Text>, rest: seq<Text>)
    ensures |Joined(preamble, middle, rest)| == |middle| * |rest|
  {
    if middle != [] {
      JoinedSize(preamble, middle[..|middle| - 1], rest);
      assert |middle| * |rest| == (|middle| - 1) * |rest| + |rest|;
    }
  }

  /** Every pair is joined, the left one varying slowest. */
  lemma {:induction false} JoinedAt(preamble: Text, middle: seq<Text>, rest: seq<Text>, i: nat, j: nat)
    requires i < |middle| && j < |rest|
    ensures |Joined(preamble, middle, rest)| == |middle| * |rest|
    ensures var at := i * |rest| + j;
      at < |Joined(preamble, middle, rest)| && Joined(preamble, middle, rest)[at] == preamble + middle[i] + rest[j]
  {
    var init := middle[..|middle| - 1];
    JoinedSize(preamble, middle, rest);
    JoinedSize(preamble, init, rest);
    assert |middle| * |rest| == |init| * |rest| + |rest|;
    if i < |init| {
      JoinedAt(preamble, init, rest, i, j);
    } else {
      assert i == |init|;
    }
  }

  /** How a range reads: its words, or `None` when it is none. */
  type Ranges = Text -> Option<seq<Text>>

  /** The words `text` expands to. */
  function ExpandWith(text: Text, ranges: Ranges): seq<Text>
    decreases |text|, 0
  {
    var group := Group(text, 0);
    if group.None? then [text]
    else
      var (open, close) := group.value;
      Joined(text[..open], GroupWith(text[open + 1..close], ranges), ExpandWith(text[close + 1..], ranges))
  }

  /** Alternatives when there is a comma, else a range or text. */
  function GroupWith(amble: Text, ranges: Ranges): seq<Text>
    decreases |amble|, 2
  {
    if HasComma(amble, 0) then AlternativesWith(amble, ranges)
    else if ranges(amble).Some? then ranges(amble).value
    else ["{" + amble + "}"]
  }

  function AlternativesWith(amble: Text, ranges: Ranges): seq<Text>
    decreases |amble|, 1
  {
    var end := GobbleFrom(amble, 0, Comma, Fresh(Comma));
    ExpandWith(amble[..end], ranges) + if end < |amble| then AlternativesWith(amble[end + 1..], ranges) else []
  }

  ghost predicate NeverEmpty(ranges: Ranges) { forall amble :: ranges(amble).Some? ==> ranges(amble).value != [] }

  lemma {:induction false} WordsRemain(text: Text, ranges: Ranges)
    requires NeverEmpty(ranges)
    ensures ExpandWith(text, ranges) != []
    decreases |text|, 0
  {
    if Group(text, 0).Some? {
      var (open, close) := Group(text, 0).value;
      GroupRemains(text[open + 1..close], ranges);
      WordsRemain(text[close + 1..], ranges);
    }
  }

  lemma {:induction false} GroupRemains(amble: Text, ranges: Ranges)
    requires NeverEmpty(ranges)
    ensures GroupWith(amble, ranges) != []
    decreases |amble|, 2
  {
    if HasComma(amble, 0) {
      WordsRemain(amble[..GobbleFrom(amble, 0, Comma, Fresh(Comma))], ranges);
    }
  }

  /** The words `text` expands to: at least one. */
  function ExpandWord(text: Text): (words: seq<Text>)
    ensures words != []
  {
    WordsRemain(text, Sequence);
    ExpandWith(text, Sequence)
  }

  lemma {:induction false} NoGroup(text: Text, i: nat)
    requires '{' !in text
    ensures Group(text, i) == None
    decreases |text| - i
  {
    if i < |text| {
      assert text[i] in text;
      NoGroup(text, if text[i] == '\\' then i + 2 else i + 1);
    }
  }

  /** Text without an opening brace is the one word it is. */
  lemma {:induction false} NoBraceNoChange(text: Text)
    requires '{' !in text
    ensures ExpandWord(text) == [text]
  {
    NoGroup(text, 0);
  }

  // ----------------------------------------------------------------- escaping

  /** Where the members of the class opened at `open` may be closed from: a `]`
      right after the `[`, or after its `!` or `^`, is a member. */
  function MembersFrom(text: Text, open: nat): (j: nat)
    ensures open < j <= open + 3
  {
    var i := if open + 1 < |text| && (text[open + 1] == '!' || text[open + 1] == '^') then open + 2 else open + 1;
    if i < |text| && text[i] == ']' then i + 1 else i
  }

  /** The `]` that closes the class opened at `open`. */
  function ClassEnd(text: Text, open: nat): (end: Option<nat>)
    ensures end.Some? ==> open < end.value < |text| && text[end.value] == ']'
  {
    FirstClose(text, MembersFrom(text, open))
  }

  function FirstClose(text: Text, i: nat): (end: Option<nat>)
    ensures end.Some? ==> i <= end.value < |text| && text[end.value] == ']'
    ensures end.Some? ==> forall k | i <= k < end.value :: text[k] != ']'
    decreases |text| - i
  {
    if i >= |text| then None else if text[i] == ']' then Some(i) else FirstClose(text, i + 1)
  }

  /** The class opened at `open` when it closes within its path component. */
  function WholeClass(text: Text, open: nat): (end: Option<nat>)
    ensures end.Some? ==> open < end.value < |text|
  {
    var end := ClassEnd(text, open);
    if end.Some? && '/' !in text[open..end.value] then end else None
  }

  /** One piece of a word as globset is to read it, and where the next begins. */
  function EscapeOne(text: Text, i: nat): (r: (Text, nat))
    requires i < |text|
    ensures i < r.1 <= |text|
  {
    var c := text[i];
    if c == '\\' && i + 1 < |text| then
      var next := text[i + 1];
      ((if next == '{' then "[{]" else if next == '}' then "[}]" else if next == ',' then "," else [c, next]), i + 2)
    else if c == '[' then
      match WholeClass(text, i)
      case Some(end) => (text[i..end + 1], end + 1)
      case None => ("[[]", i + 1)
    else ((if c == '{' then "[{]" else if c == '}' then "[}]" else [c]), i + 1)
  }

  function EscapeFrom(text: Text, i: nat): Text
    decreases |text| - i
  {
    if i >= |text| then [] else EscapeOne(text, i).0 + EscapeFrom(text, EscapeOne(text, i).1)
  }

  /** Write the braces left as text so that globset matches them. */
  method EscapeBraces(word: Text) returns (out: Text)
    ensures out == EscapeFrom(word, 0)
  {
    out := [];
    var resume: nat := 0;
    for i := 0 to |word|
      invariant resume <= |word|
      invariant out + EscapeFrom(word, Most(i, resume)) == EscapeFrom(word, 0)
    {
      if i >= resume {
        var (piece, next) := EscapeOne(word, i);
        assert out + (piece + EscapeFrom(word, next)) == out + piece + EscapeFrom(word, next);
        out := out + piece;
        resume := next;
      }
    }
  }

  // ------------------------------------------------------------------ reading

  /** What a pattern is made of: a character as itself, a wildcard, a class, a
      brace globset acts on, a backslash with nothing after it, or a class that
      never closes. */
  datatype Token = Plain(c: char) | Wild(c: char) | Class(text: Text) | Grouping(c: char) | Dangling | Unclosed

  /** A class of one character is that character. */
  function Normal(text: Text): Token
  {
    if |text| == 3 && text[1] != '!' && text[1] != '^' then Plain(text[1]) else Class(text)
  }

  /** How globset reads the first token, and how long it is. */
  function LexOne(pattern: Text): (r: (Token, nat))
    requires pattern != []
    ensures 0 < r.1 <= |pattern|
  {
    var c := pattern[0];
    if c == '\\' then (if |pattern| > 1 then (Plain(pattern[1]), 2) else (Dangling, 1))
    else if c == '[' then
      match ClassEnd(pattern, 0)
      case Some(end) => (Normal(pattern[..end + 1]), end + 1)
      case None => (Unclosed, |pattern|)
    else if c == '{' || c == '}' then (Grouping(c), 1)
    else if c == '*' || c == '?' then (Wild(c), 1)
    else (Plain(c), 1)
  }

  function Lex(pattern: Text): seq<Token> {
    if pattern == [] then [] else [LexOne(pattern).0] + Lex(pattern[LexOne(pattern).1..])
  }

  /** How bash reads one token of an expanded word: braces are text, and so is a
      `[` whose class is not whole. */
  function ReadOne(word: Text, i: nat): Token
    requires i < |word|
  {
    var c := word[i];
    if c == '\\' then (if i + 1 < |word| then Plain(word[i + 1]) else Dangling)
    else if c == '[' then
      match WholeClass(word, i)
      case Some(end) => Normal(word[i..end + 1])
      case None => Plain('[')
    else if c == '*' || c == '?' then Wild(c)
    else Plain(c)
  }

  function Read(word: Text, i: nat): seq<Token>
    decreases |word| - i
  {
    if i >= |word| then [] else [ReadOne(word, i)] + Read(word, EscapeOne(word, i).1)
  }

  lemma {:induction false} FirstCloseIs(text: Text, i: nat, end: nat)
    requires i <= end < |text| && text[end] == ']' && forall k | i <= k < end :: text[k] != ']'
    ensures FirstClose(text, i) == Some(end)
    decreases end - i
  {
    if i < end {
      FirstCloseIs(text, i + 1, end);
    }
  }

  /** A whole class copied out is read as the class it was. */
  lemma {:induction false} ClassCopies(word: Text, open: nat, end: nat, rest: Text)
    requires open < |word| && ClassEnd(word, open) == Some(end)
    ensures ClassEnd(word[open..end + 1] + rest, 0) == Some(end - open)
  {
    var all := word[open..end + 1] + rest;
    assert forall k | 0 <= k <= end - open :: all[k] == word[open + k];
    assert MembersFrom(all, 0) == MembersFrom(word, open) - open;
    FirstCloseIs(all, MembersFrom(all, 0), end - open);
  }

  /** A class of one character is whole. */
  lemma {:induction false} LoneClass(c: char, rest: Text)
    requires c != '!' && c != '^'
    ensures LexOne(['[', c, ']'] + rest) == (Plain(c), 3)
  {
    var all := ['[', c, ']'] + rest;
    assert all[0] == '[' && all[1] == c && all[2] == ']';
    FirstCloseIs(all, MembersFrom(all, 0), 2);
    assert all[..3] == ['[', c, ']'];
  }

  /** Each piece is read on its own, as bash reads what it stands for. */
  lemma {:induction false} PieceReads(word: Text, i: nat, rest: Text)
    requires i < |word| && (i + 1 == |word| ==> rest == [])
    ensures LexOne(EscapeOne(word, i).0 + rest) == (ReadOne(word, i), |EscapeOne(word, i).0|)
  {
    var c, piece := word[i], EscapeOne(word, i).0;
    var all := piece + rest;
    if c == '\\' && i + 1 < |word| {
      EscapedReads(word[i + 1], rest);
    } else if c == '[' {
      match WholeClass(word, i)
      case Some(end) =>
        ClassCopies(word, i, end, rest);
        assert all[..|piece|] == piece;
      case None =>
        LoneClass('[', rest);
    } else if c == '{' || c == '}' {
      LoneClass(c, rest);
    } else {
      assert all[0] == c;
    }
  }

  lemma {:induction false} EscapedReads(next: char, rest: Text)
    ensures var piece :=
        if next == '{' then "[{]" else if next == '}' then "[}]" else if next == ',' then "," else ['\\', next];
      LexOne(piece + rest) == (Plain(next), |piece|)
  {
    if next == '{' || next == '}' {
      LoneClass(next, rest);
      assert "[{]" == ['[', '{', ']'] && "[}]" == ['[', '}', ']'];
    }
  }

  /** Globset reads the escaped word as bash reads the word. */
  lemma {:induction false} EscapeKeepsReading(word: Text, i: nat)
    requires i <= |word|
    ensures Lex(EscapeFrom(word, i)) == Read(word, i)
    decreases |word| - i
  {
    if i < |word| {
      var (piece, next) := EscapeOne(word, i);
      var rest := EscapeFrom(word, next);
      PieceReads(word, i, rest);
      EscapeKeepsReading(word, next);
      assert (piece + rest)[|piece|..] == rest;
    }
  }

  lemma {:induction false} NoGroupingRead(word: Text, i: nat)
    ensures forall t | t in Read(word, i) :: !t.Grouping? && !t.Unclosed?
    decreases |word| - i
  {
    if i < |word| {
      NoGroupingRead(word, EscapeOne(word, i).1);
    }
  }

  /** Expand a pattern: a word's braces, then each word as a globset pattern. */
  method Expand(pattern: Text) returns (globs: seq<Text>)
    ensures var words := ExpandWord(pattern);
      |globs| == |words| && forall k | 0 <= k < |globs| :: Lex(globs[k]) == Read(words[k], 0)
    ensures globs != [] && forall k | 0 <= k < |globs| :: NeverGroups(globs[k])
  {
    var words := ExpandWord(pattern);
    globs := [];
    for k := 0 to |words|
      invariant |globs| == k
      invariant forall j | 0 <= j < k :: Lex(globs[j]) == Read(words[j], 0) && NeverGroups(globs[j])
    {
      var glob := EscapeWord(words[k]);
      globs := globs + [glob];
    }
  }

  method EscapeWord(word: Text) returns (glob: Text)
    ensures Lex(glob) == Read(word, 0) && NeverGroups(glob)
  {
    glob := EscapeBraces(word);
    EscapeKeepsReading(word, 0);
    NoGroupingRead(word, 0);
  }

  predicate NeverGroups(pattern: Text) { forall t | t in Lex(pattern) :: !t.Grouping? && !t.Unclosed? }
}
